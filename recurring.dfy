/**
 * The recurring-expense template store: a keyed table of templates
 * (category, amount, note, tag) owned by users. Month creation reads it;
 * nothing here reads or writes a month record.
 */
module Recurring {
  import opened Wrappers
  import opened Ledger
  import JsArray

  /**
   * A stored template. `createdAt` is the creation time; the store's clock
   * is its creation counter, so it equals the id and grows with every
   * template created.
   */
  datatype RecurringExpense = RecurringExpense(
    id: Id, userId: string, category: string, amount: int, note: string, tag: Tag, createdAt: nat)

  /** The fields an update may carry; `None` is a field left out of the request. */
  datatype RecurringUpdate = RecurringUpdate(
    category: Option<string>, amount: Option<int>, note: Option<string>, tag: Option<Tag>)

  datatype RecurringError = RecurringNotFound

  /** Templates in strictly increasing creation time, as the store holds them. */
  predicate OldestFirst(ts: seq<RecurringExpense>) {
    forall i, j :: 0 <= i < j < |ts| ==> ts[i].createdAt < ts[j].createdAt
  }

  /** Templates in strictly decreasing creation time: the order of `sort({ createdAt: -1 })`. */
  predicate NewestFirst(ts: seq<RecurringExpense>) {
    forall i, j :: 0 <= i < j < |ts| ==> ts[i].createdAt > ts[j].createdAt
  }

  /** The templates of one user, in store order. */
  function OwnedBy(ts: seq<RecurringExpense>, userId: string): (r: seq<RecurringExpense>)
    ensures forall i :: 0 <= i < |r| ==> r[i].userId == userId
  {
    JsArray.Filter(ts, (t: RecurringExpense) => t.userId == userId)
  }

  function Reverse<T>(s: seq<T>): (r: seq<T>)
    ensures |r| == |s|
    ensures forall i :: 0 <= i < |s| ==> r[i] == s[|s| - 1 - i]
  {
    seq(|s|, i requires 0 <= i < |s| => s[|s| - 1 - i])
  }

  /** The answer to `find({ userId }).sort({ createdAt: -1 })` over a store held oldest first. */
  function ListFor(ts: seq<RecurringExpense>, userId: string): seq<RecurringExpense> {
    Reverse(OwnedBy(ts, userId))
  }

  /** Keeping some templates of a store held oldest first keeps them oldest first. */
  lemma {:induction false} OwnedByOldestFirst(ts: seq<RecurringExpense>, userId: string)
    requires OldestFirst(ts)
    ensures OldestFirst(OwnedBy(ts, userId))
  {
    if |ts| > 0 {
      OwnedByOldestFirst(ts[1..], userId);
      var rest := OwnedBy(ts[1..], userId);
      if ts[0].userId == userId {
        forall j | 0 <= j < |rest| ensures ts[0].createdAt < rest[j].createdAt {
          JsArray.FilterMembership(ts[1..], (t: RecurringExpense) => t.userId == userId, rest[j]);
        }
        assert OwnedBy(ts, userId) == [ts[0]] + rest;
      }
    }
  }

  /**
   * The listing holds exactly the user's templates, newest first: a
   * template is listed iff it is stored and belongs to the user.
   */
  lemma ListForSpec(ts: seq<RecurringExpense>, userId: string)
    requires OldestFirst(ts)
    ensures NewestFirst(ListFor(ts, userId))
    ensures forall t :: t in ListFor(ts, userId) <==> t in ts && t.userId == userId
  {
    OwnedByOldestFirst(ts, userId);
    var owned := OwnedBy(ts, userId);
    forall t ensures t in ListFor(ts, userId) <==> t in owned {
      if t in owned {
        var i :| 0 <= i < |owned| && owned[i] == t;
        assert ListFor(ts, userId)[|owned| - 1 - i] == t;
      }
    }
    forall t ensures t in owned <==> t in ts && t.userId == userId {
      JsArray.FilterMembership(ts, (t: RecurringExpense) => t.userId == userId, t);
    }
  }

  /**
   * The template after a partial update: every field the update carries is
   * replaced, every other field keeps its value, and the id, owner and
   * creation time never change.
   */
  function ApplyUpdate(t: RecurringExpense, u: RecurringUpdate): (r: RecurringExpense)
    ensures r.id == t.id && r.userId == t.userId && r.createdAt == t.createdAt
    ensures r.category == (if u.category.Some? then u.category.value else t.category)
    ensures r.amount == (if u.amount.Some? then u.amount.value else t.amount)
    ensures r.note == (if u.note.Some? then u.note.value else t.note)
    ensures r.tag == (if u.tag.Some? then u.tag.value else t.tag)
  {
    var r := t;
    var r := if u.category.Some? then r.(category := u.category.value) else r;
    var r := if u.amount.Some? then r.(amount := u.amount.value) else r;
    var r := if u.note.Some? then r.(note := u.note.value) else r;
    if u.tag.Some? then r.(tag := u.tag.value) else r
  }

  /** The position of the template with this id, or -1 (`findById`). */
  function IndexOfId(ts: seq<RecurringExpense>, id: Id): (k: int)
    ensures -1 <= k < |ts|
    ensures k >= 0 ==> ts[k].id == id
    ensures k == -1 <==> forall j :: 0 <= j < |ts| ==> ts[j].id != id
  {
    JsArray.FindIndex(ts, (t: RecurringExpense) => t.id == id)
  }

  /** Every template's id is its creation time, and both were issued below `bound`. */
  predicate Issued(ts: seq<RecurringExpense>, bound: nat) {
    forall i :: 0 <= i < |ts| ==> ts[i].id == ts[i].createdAt && ts[i].createdAt < bound
  }

  /**
   * Removing one template from a store that is oldest first with issued
   * ids keeps both, and leaves no template with the removed id.
   */
  lemma RemoveTemplateOk(ts: seq<RecurringExpense>, k: nat, bound: nat)
    requires k < |ts| && OldestFirst(ts) && Issued(ts, bound)
    ensures var r := JsArray.RemoveAt(ts, k);
      OldestFirst(r) && Issued(r, bound) && forall t :: t in r ==> t.id != ts[k].id
  {
    JsArray.RemoveAtIndex(ts, k);
    RemoveKeepsOrder(ts, k);
    RemoveDropsId(ts, k, bound);
  }

  lemma RemoveKeepsOrder(ts: seq<RecurringExpense>, k: nat)
    requires k < |ts| && OldestFirst(ts)
    requires forall i :: 0 <= i < |ts| - 1 ==> JsArray.RemoveAt(ts, k)[i] == ts[if i < k then i else i + 1]
    ensures OldestFirst(JsArray.RemoveAt(ts, k))
  {
    var r := JsArray.RemoveAt(ts, k);
    forall i, j | 0 <= i < j < |r| ensures r[i].createdAt < r[j].createdAt {
      var i', j' := if i < k then i else i + 1, if j < k then j else j + 1;
      assert r[i] == ts[i'] && r[j] == ts[j'] && i' < j';
    }
  }

  lemma RemoveDropsId(ts: seq<RecurringExpense>, k: nat, bound: nat)
    requires k < |ts| && OldestFirst(ts) && Issued(ts, bound)
    requires forall i :: 0 <= i < |ts| - 1 ==> JsArray.RemoveAt(ts, k)[i] == ts[if i < k then i else i + 1]
    ensures Issued(JsArray.RemoveAt(ts, k), bound)
    ensures forall t :: t in JsArray.RemoveAt(ts, k) ==> t.id != ts[k].id
  {
    var r := JsArray.RemoveAt(ts, k);
    forall t | t in r ensures t.id != ts[k].id {
      var i :| 0 <= i < |r| && r[i] == t;
      var i' := if i < k then i else i + 1;
      assert t == ts[i'] && i' != k;
      assert ts[i'].createdAt != ts[k].createdAt;
    }
  }

  class RecurringExpenseService {
    /** The stored templates of every user, oldest first. */
    var rows: seq<RecurringExpense>
    /** The id generator and clock: the id and creation time of the next template. */
    var nextId: nat

    ghost predicate Valid()
      reads this
    {
      OldestFirst(rows) && Issued(rows, nextId)
    }

    constructor ()
      ensures Valid() && rows == [] && nextId == 0
    {
      rows := [];
      nextId := 0;
    }

    /** `getRecurringExpenses(userId)`: the user's templates, newest first. */
    method GetRecurringExpenses(userId: string) returns (r: seq<RecurringExpense>)
      requires Valid()
      ensures r == ListFor(rows, userId)
      ensures NewestFirst(r)
      ensures forall t :: t in r <==> t in rows && t.userId == userId
    {
      ListForSpec(rows, userId);
      r := ListFor(rows, userId);
    }

    /** `createRecurringExpense`: stores a new template; the note defaults to "" and the tag to neutral. */
    method CreateRecurringExpense(userId: string, category: string, amount: int, note: string, tag: Option<Tag>)
      returns (created: RecurringExpense)
      requires Valid()
      modifies this
      ensures Valid()
      ensures created == RecurringExpense(old(nextId), userId, category, amount, NoteOr(note, ""), TagOrNeutral(tag), old(nextId))
      ensures rows == old(rows) + [created] && nextId == old(nextId) + 1
    {
      created := RecurringExpense(nextId, userId, category, amount, NoteOr(note, ""), TagOrNeutral(tag), nextId);
      rows := rows + [created];
      nextId := nextId + 1;
    }

    /**
     * `updateRecurringExpense`: copies the provided fields into the update
     * and applies it to the template with that id; an unknown id fails with
     * RECURRING_NOT_FOUND and changes nothing.
     */
    method UpdateRecurringExpense(id: Id, updates: RecurringUpdate)
      returns (r: Result<RecurringExpense, RecurringError>)
      requires Valid()
      modifies this
      ensures Valid() && nextId == old(nextId)
      ensures var k := IndexOfId(old(rows), id);
        && (k == -1 ==> r == Err(RecurringNotFound) && rows == old(rows))
        && (k != -1 ==> r == Ok(ApplyUpdate(old(rows)[k], updates)) && rows == old(rows)[k := r.value])
    {
      var k := IndexOfId(rows, id);
      if k == -1 {
        return Err(RecurringNotFound);
      }
      var updated := rows[k];
      if updates.category.Some? { updated := updated.(category := updates.category.value); }
      if updates.amount.Some? { updated := updated.(amount := updates.amount.value); }
      if updates.note.Some? { updated := updated.(note := updates.note.value); }
      if updates.tag.Some? { updated := updated.(tag := updates.tag.value); }
      rows := rows[k := updated];
      r := Ok(updated);
    }

    /**
     * `deleteRecurringExpense`: removes exactly the template with that id and
     * answers success; an unknown id fails with RECURRING_NOT_FOUND and
     * changes nothing.
     */
    method DeleteRecurringExpense(id: Id) returns (r: Result<bool, RecurringError>)
      requires Valid()
      modifies this
      ensures Valid() && nextId == old(nextId)
      ensures forall t :: t in rows ==> t.id != id
      ensures var k := IndexOfId(old(rows), id);
        && (k == -1 ==> r == Err(RecurringNotFound) && rows == old(rows))
        && (k != -1 ==> r == Ok(true) && rows == JsArray.RemoveAt(old(rows), k))
    {
      var k := IndexOfId(rows, id);
      if k == -1 {
        return Err(RecurringNotFound);
      }
      RemoveTemplateOk(rows, k, nextId);
      rows := JsArray.RemoveAt(rows, k);
      r := Ok(true);
    }
  }
}
