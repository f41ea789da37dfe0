/**
 * The month record of the ledger and the list surgery the month service
 * performs on one side of it (income or expenses).
 *
 * A month has two sides; each side is a list of categories; each category
 * holds an ordered list of entries, a derived `amount` (the sum of its
 * entries) and a derived `comment` (the breakdown text
 * `amount(note)+amount(note)+...`). The month carries three derived totals.
 * Income entries carry no tag; expense entries carry one.
 */
module Ledger {
  import opened Wrappers
  import opened JsText
  import JsArray

  /** Identifiers handed out by the id generator, modelled as serial numbers. */
  type Id = nat

  datatype Tag = Need | Want | Neutral

  datatype Side = Income | Expense

  datatype Entry = Entry(id: Id, amount: int, note: string, tag: Option<Tag>)

  datatype Category = Category(id: Id, name: string, amount: int, comment: string, entries: seq<Entry>)

  datatype MonthData = MonthData(
    id: Id, userId: string, monthName: string, year: int, month: int,
    income: seq<Category>, expenses: seq<Category>,
    totalIncome: int, totalExpense: int, carryForward: int)
  {
    /** `month.income` or `month.expenses`. */
    function Categories(side: Side): seq<Category> {
      if side == Income then income else expenses
    }

    /** The month with one side replaced and everything else as it was. */
    function WithCategories(side: Side, cs: seq<Category>): (m: MonthData)
      ensures m.Categories(side) == cs
      ensures side == Income ==> m == this.(income := cs)
      ensures side == Expense ==> m == this.(expenses := cs)
    {
      if side == Income then this.(income := cs) else this.(expenses := cs)
    }
  }

  /** The error kinds the month service throws. */
  datatype LedgerError = MonthNotFound | MonthExists | EntryNotFound

  /** `tag || "neutral"`. */
  function TagOrNeutral(tag: Option<Tag>): Tag {
    tag.GetOr(Neutral)
  }

  /** `note || fallback`: an empty note gives way to the fallback. */
  function NoteOr(note: string, fallback: string): string {
    if note == "" then fallback else note
  }

  function EntryAmount(e: Entry): int { e.amount }

  function CategoryAmount(c: Category): int { c.amount }

  /** `entries.reduce((sum, entry) => sum + entry.amount, 0)`. */
  function SumEntries(es: seq<Entry>): int {
    JsArray.SumBy(es, EntryAmount)
  }

  /** The sum of the category amounts of one side. */
  function SumAmounts(cs: seq<Category>): int {
    JsArray.SumBy(cs, CategoryAmount)
  }

  /** One entry's part of the breakdown text: `amount(note)`, or `amount(No note)`. */
  function EntryText(e: Entry): string {
    IntToString(e.amount) + "(" + NoteOr(e.note, "No note") + ")"
  }

  function EntryTexts(es: seq<Entry>): (r: seq<string>)
    ensures |r| == |es|
    ensures forall i :: 0 <= i < |es| ==> r[i] == EntryText(es[i])
  {
    seq(|es|, i requires 0 <= i < |es| => EntryText(es[i]))
  }

  /** The breakdown text of a category: the entry texts joined by `+`. */
  function Breakdown(es: seq<Entry>): string {
    JsArray.Join(EntryTexts(es), "+")
  }

  /** Appending an entry appends `+` and its text to a non-empty breakdown. */
  lemma BreakdownAppend(es: seq<Entry>, e: Entry)
    requires |es| > 0
    ensures Breakdown(es + [e]) == Breakdown(es) + "+" + EntryText(e)
  {
    assert EntryTexts(es + [e]) == EntryTexts(es) + [EntryText(e)];
    JsArray.JoinAppend(EntryTexts(es), EntryText(e), "+");
  }

  /** A category whose entry list became `es`: its amount and breakdown are recomputed from them. */
  function WithEntries(c: Category, es: seq<Entry>): (r: Category)
    ensures r.id == c.id && r.name == c.name && r.entries == es
    ensures r.amount == SumEntries(es) && r.comment == Breakdown(es)
  {
    c.(entries := es, amount := SumEntries(es), comment := Breakdown(es))
  }

  // ---------------------------------------------------------------------
  // Invariants of a month record
  // ---------------------------------------------------------------------

  /** Income entries carry no tag; expense entries carry one. */
  predicate EntryFits(side: Side, e: Entry) {
    e.tag.Some? <==> side == Expense
  }

  /** A category is never empty, and its amount is the sum of its entries. */
  predicate CategoryOk(side: Side, c: Category) {
    && |c.entries| > 0
    && c.amount == SumEntries(c.entries)
    && forall k :: 0 <= k < |c.entries| ==> EntryFits(side, c.entries[k])
  }

  predicate UniqueIds(cs: seq<Category>) {
    forall i, j :: 0 <= i < j < |cs| ==> cs[i].id != cs[j].id
  }

  predicate SideOk(side: Side, cs: seq<Category>) {
    && (forall i :: 0 <= i < |cs| ==> CategoryOk(side, cs[i]))
    && UniqueIds(cs)
  }

  /** The three month totals agree with the category amounts. */
  predicate TotalsOk(m: MonthData) {
    && m.totalIncome == SumAmounts(m.income)
    && m.totalExpense == SumAmounts(m.expenses)
    && m.carryForward == m.totalIncome - m.totalExpense
  }

  predicate MonthOk(m: MonthData) {
    SideOk(Income, m.income) && SideOk(Expense, m.expenses) && TotalsOk(m)
  }

  /**
   * `recalculateMonthTotals(month)`. Its body is not part of this model; its
   * contract is the effect the end-to-end tests observe: the totals become
   * the sums of the category amounts and the carry-forward their difference,
   * and nothing else in the record changes.
   */
  function RecalculateTotals(m: MonthData): (r: MonthData)
    ensures TotalsOk(r)
    ensures r == m.(totalIncome := r.totalIncome, totalExpense := r.totalExpense, carryForward := r.carryForward)
  {
    var income := SumAmounts(m.income);
    var expense := SumAmounts(m.expenses);
    m.(totalIncome := income, totalExpense := expense, carryForward := income - expense)
  }

  /** Recomputing totals that already agree changes nothing; in particular recomputing twice is recomputing once. */
  lemma RecalculateIdempotent(m: MonthData)
    ensures TotalsOk(m) ==> RecalculateTotals(m) == m
    ensures RecalculateTotals(RecalculateTotals(m)) == RecalculateTotals(m)
  {
  }

  // ---------------------------------------------------------------------
  // Adding an entry
  // ---------------------------------------------------------------------

  /** `cs.findIndex((c) => c.category === name)`. */
  function FindByName(cs: seq<Category>, name: string): (k: int)
    ensures -1 <= k < |cs|
    ensures k >= 0 ==> cs[k].name == name && forall j :: 0 <= j < k ==> cs[j].name != name
    ensures k == -1 <==> forall j :: 0 <= j < |cs| ==> cs[j].name != name
  {
    JsArray.FindIndex(cs, (c: Category) => c.name == name)
  }

  /**
   * The side after adding entry `e` under category `name`: appended to the
   * first category with exactly that name, or else a new one-entry category
   * with id `newId` at the end.
   */
  function AddToSide(cs: seq<Category>, name: string, e: Entry, newId: Id): seq<Category> {
    var k := FindByName(cs, name);
    if k != -1 then cs[k := WithEntries(cs[k], cs[k].entries + [e])]
    else cs + [Category(newId, name, e.amount, IntToString(e.amount) + "(" + NoteOr(e.note, "No note") + ")", [e])]
  }

  /**
   * Adding touches exactly one category: the first of that name gains `e`
   * at the end of its entries, or a new category holding only `e` is
   * appended. Either way the touched category's breakdown is regenerated
   * from its entries and every other category is as it was.
   */
  lemma AddToSideShape(cs: seq<Category>, name: string, e: Entry, newId: Id)
    ensures var r := AddToSide(cs, name, e, newId);
      var k := FindByName(cs, name);
      && (k != -1 ==>
            && |r| == |cs| && r[k].id == cs[k].id && r[k].name == name
            && r[k].entries == cs[k].entries + [e]
            && r[k].comment == Breakdown(r[k].entries)
            && forall j :: 0 <= j < |cs| && j != k ==> r[j] == cs[j])
      && (k == -1 ==>
            && |r| == |cs| + 1 && r[..|cs|] == cs
            && r[|cs|].id == newId && r[|cs|].name == name && r[|cs|].entries == [e]
            && r[|cs|].amount == e.amount
            && r[|cs|].comment == Breakdown([e]))
  {
    var r := AddToSide(cs, name, e, newId);
    if FindByName(cs, name) == -1 {
      assert EntryTexts([e]) == [EntryText(e)];
      assert r[..|cs|] == cs;
    }
  }

  /** Adding an entry raises the side's total by exactly the entry's amount. */
  lemma AddToSideTotal(side: Side, cs: seq<Category>, name: string, e: Entry, newId: Id)
    requires SideOk(side, cs)
    ensures SumAmounts(AddToSide(cs, name, e, newId)) == SumAmounts(cs) + e.amount
  {
    var k := FindByName(cs, name);
    if k != -1 {
      var c' := WithEntries(cs[k], cs[k].entries + [e]);
      JsArray.SumByConcat(cs[k].entries, [e], EntryAmount);
      JsArray.SumByUpdate(cs, k, c', CategoryAmount);
    } else {
      var c := Category(newId, name, e.amount, IntToString(e.amount) + "(" + NoteOr(e.note, "No note") + ")", [e]);
      JsArray.SumByConcat(cs, [c], CategoryAmount);
    }
  }

  /** The category's own id and every entry id in it are below `bound`. */
  predicate CategoryIdsBelow(c: Category, bound: nat) {
    c.id < bound && forall j :: 0 <= j < |c.entries| ==> c.entries[j].id < bound
  }

  /** Every category id and every entry id on the side is below `bound`. */
  predicate IdsBelow(cs: seq<Category>, bound: nat) {
    forall i :: 0 <= i < |cs| ==> CategoryIdsBelow(cs[i], bound)
  }

  lemma IdsBelowGrow(cs: seq<Category>, bound: nat, bound': nat)
    requires IdsBelow(cs, bound) && bound <= bound'
    ensures IdsBelow(cs, bound')
  {
    forall i | 0 <= i < |cs| ensures CategoryIdsBelow(cs[i], bound') {
      assert CategoryIdsBelow(cs[i], bound);
    }
  }

  /** Adding to a category that exists keeps every category id. */
  lemma AddToExistingIds(cs: seq<Category>, name: string, e: Entry, newId: Id, bound: nat)
    requires FindByName(cs, name) != -1 && IdsBelow(cs, bound) && e.id < bound
    ensures IdsBelow(AddToSide(cs, name, e, newId), bound)
  {
    var k := FindByName(cs, name);
    var es := cs[k].entries + [e];
    assert CategoryIdsBelow(cs[k], bound);
    assert forall j :: 0 <= j < |es| ==> es[j].id < bound by {
      forall j | 0 <= j < |es| ensures es[j].id < bound {
        if j < |cs[k].entries| {
          assert es[j] == cs[k].entries[j];
        }
      }
    }
    assert AddToSide(cs, name, e, newId)[k] == WithEntries(cs[k], es);
  }

  /** Adding a fitting entry with a fresh category id keeps the side well formed. */
  lemma AddToSideOk(side: Side, cs: seq<Category>, name: string, e: Entry, newId: Id)
    requires SideOk(side, cs) && EntryFits(side, e) && IdsBelow(cs, newId) && e.id < newId
    ensures SideOk(side, AddToSide(cs, name, e, newId))
    ensures IdsBelow(AddToSide(cs, name, e, newId), newId + 1)
  {
    AddToSideFormed(side, cs, name, e, newId);
    AddToSideIds(cs, name, e, newId);
  }

  /** Adding issues only ids below the bound just past the new category's id. */
  lemma AddToSideIds(cs: seq<Category>, name: string, e: Entry, newId: Id)
    requires IdsBelow(cs, newId) && e.id < newId
    ensures IdsBelow(AddToSide(cs, name, e, newId), newId + 1)
  {
    IdsBelowGrow(cs, newId, newId + 1);
    if FindByName(cs, name) != -1 {
      AddToExistingIds(cs, name, e, newId, newId + 1);
    } else {
      var r := AddToSide(cs, name, e, newId);
      assert CategoryIdsBelow(r[|cs|], newId + 1);
      assert forall i :: 0 <= i < |cs| ==> r[i] == cs[i];
    }
  }

  lemma AddToSideFormed(side: Side, cs: seq<Category>, name: string, e: Entry, newId: Id)
    requires SideOk(side, cs) && EntryFits(side, e) && IdsBelow(cs, newId)
    ensures SideOk(side, AddToSide(cs, name, e, newId))
  {
    var r := AddToSide(cs, name, e, newId);
    var k := FindByName(cs, name);
    if k != -1 {
      JsArray.SumByConcat(cs[k].entries, [e], EntryAmount);
      assert CategoryOk(side, r[k]);
    } else {
      assert SumEntries([e]) == e.amount by {
        JsArray.SumByConcat([], [e], EntryAmount);
        assert [] + [e] == [e];
      }
      assert CategoryOk(side, r[|cs|]);
    }
  }

  // ---------------------------------------------------------------------
  // Locating, updating and deleting an entry
  // ---------------------------------------------------------------------

  /** `entries.findIndex((e) => e.id === id)`. */
  function EntryIndex(es: seq<Entry>, id: Id): (k: int)
    ensures -1 <= k < |es|
    ensures k >= 0 ==> es[k].id == id && forall j :: 0 <= j < k ==> es[j].id != id
    ensures k == -1 <==> forall j :: 0 <= j < |es| ==> es[j].id != id
  {
    JsArray.FindIndex(es, (e: Entry) => e.id == id)
  }

  /** The position of the first category on the side that holds an entry with this id, or -1. */
  function HolderIndex(cs: seq<Category>, id: Id): (k: int)
    ensures -1 <= k < |cs|
    ensures k >= 0 ==> EntryIndex(cs[k].entries, id) != -1
    ensures k >= 0 ==> forall j :: 0 <= j < k ==> EntryIndex(cs[j].entries, id) == -1
    ensures k == -1 <==> forall j :: 0 <= j < |cs| ==> EntryIndex(cs[j].entries, id) == -1
  {
    JsArray.FindIndex(cs, (c: Category) => EntryIndex(c.entries, id) != -1)
  }

  /**
   * `{...entry, amount, note}` on the income side, which keeps the entry's
   * (absent) tag; the expense side also sets `tag: tag || "neutral"`.
   */
  function UpdatedEntry(side: Side, e: Entry, amount: int, note: string, tag: Option<Tag>): (r: Entry)
    ensures r.id == e.id && r.amount == amount && r.note == note
    ensures side == Income ==> r.tag == e.tag
    ensures side == Expense ==> r.tag == Some(TagOrNeutral(tag))
  {
    if side == Income then e.(amount := amount, note := note)
    else e.(amount := amount, note := note, tag := Some(TagOrNeutral(tag)))
  }

  /** The side after entry `ei` of category `ci` is rewritten and that category recomputed. */
  function UpdateAt(side: Side, cs: seq<Category>, ci: nat, ei: nat, amount: int, note: string, tag: Option<Tag>): seq<Category>
    requires ci < |cs| && ei < |cs[ci].entries|
  {
    var es := cs[ci].entries;
    cs[ci := WithEntries(cs[ci], es[ei := UpdatedEntry(side, es[ei], amount, note, tag)])]
  }

  /**
   * An update keeps every category and every entry in its place and keeps
   * the entry's id; only entry `ei` of category `ci` gets the new amount and
   * note (and on the expense side the tag), and that category's amount and
   * breakdown are recomputed.
   */
  lemma UpdateAtShape(side: Side, cs: seq<Category>, ci: nat, ei: nat, amount: int, note: string, tag: Option<Tag>)
    requires ci < |cs| && ei < |cs[ci].entries|
    ensures var r := UpdateAt(side, cs, ci, ei, amount, note, tag);
      && |r| == |cs|
      && (forall j :: 0 <= j < |cs| && j != ci ==> r[j] == cs[j])
      && r[ci].id == cs[ci].id && r[ci].name == cs[ci].name
      && |r[ci].entries| == |cs[ci].entries|
      && (forall k :: 0 <= k < |cs[ci].entries| && k != ei ==> r[ci].entries[k] == cs[ci].entries[k])
      && r[ci].entries[ei].id == cs[ci].entries[ei].id
      && r[ci].entries[ei].amount == amount && r[ci].entries[ei].note == note
      && (side == Expense ==> r[ci].entries[ei].tag == Some(TagOrNeutral(tag)))
      && r[ci].comment == Breakdown(r[ci].entries)
  {
  }

  /** An update changes the side's total by the new amount minus the old. */
  lemma UpdateAtTotal(side: Side, cs: seq<Category>, ci: nat, ei: nat, amount: int, note: string, tag: Option<Tag>)
    requires SideOk(side, cs)
    requires ci < |cs| && ei < |cs[ci].entries|
    ensures SumAmounts(UpdateAt(side, cs, ci, ei, amount, note, tag))
         == SumAmounts(cs) - cs[ci].entries[ei].amount + amount
  {
    var es := cs[ci].entries;
    var e' := UpdatedEntry(side, es[ei], amount, note, tag);
    JsArray.SumByUpdate(es, ei, e', EntryAmount);
    JsArray.SumByUpdate(cs, ci, WithEntries(cs[ci], es[ei := e']), CategoryAmount);
  }

  lemma UpdateAtOk(side: Side, cs: seq<Category>, ci: nat, ei: nat, amount: int, note: string, tag: Option<Tag>, bound: nat)
    requires SideOk(side, cs) && IdsBelow(cs, bound)
    requires ci < |cs| && ei < |cs[ci].entries|
    ensures SideOk(side, UpdateAt(side, cs, ci, ei, amount, note, tag))
    ensures IdsBelow(UpdateAt(side, cs, ci, ei, amount, note, tag), bound)
  {
    var r := UpdateAt(side, cs, ci, ei, amount, note, tag);
    assert EntryFits(side, cs[ci].entries[ei]);
    assert CategoryOk(side, r[ci]);
    assert CategoryIdsBelow(cs[ci], bound);
    assert CategoryIdsBelow(r[ci], bound);
  }

  /** `cs.filter((c) => c.id !== id)`. */
  function RemoveCategory(cs: seq<Category>, id: Id): (r: seq<Category>)
    ensures forall i :: 0 <= i < |r| ==> r[i].id != id
  {
    JsArray.Filter(cs, (c: Category) => c.id != id)
  }

  /** Filtering by an id that no category has is a no-op. */
  lemma RemoveAbsentCategory(cs: seq<Category>, id: Id)
    requires forall i :: 0 <= i < |cs| ==> cs[i].id != id
    ensures RemoveCategory(cs, id) == cs
  {
    JsArray.FilterKeepsAll(cs, (c: Category) => c.id != id);
  }

  /** With unique ids, filtering by the id of category `k` removes exactly that category. */
  lemma RemovePresentCategory(cs: seq<Category>, k: nat)
    requires UniqueIds(cs) && k < |cs|
    ensures RemoveCategory(cs, cs[k].id) == cs[..k] + cs[k + 1..]
  {
    JsArray.FilterRemovesOne(cs, (c: Category) => c.id != cs[k].id, k);
  }

  /** Every category that remains after a removal was on the side before. */
  lemma RemoveCategoryMembers(cs: seq<Category>, id: Id)
    ensures forall c :: c in RemoveCategory(cs, id) <==> c in cs && c.id != id
  {
    forall c {
      JsArray.FilterMembership(cs, (c: Category) => c.id != id, c);
    }
  }

  /** Removing categories keeps the side well formed. */
  lemma {:induction false} RemoveCategoryOk(side: Side, cs: seq<Category>, id: Id, bound: nat)
    requires SideOk(side, cs) && IdsBelow(cs, bound)
    ensures SideOk(side, RemoveCategory(cs, id)) && IdsBelow(RemoveCategory(cs, id), bound)
  {
    if |cs| > 0 {
      RemoveCategoryOk(side, cs[1..], id, bound);
      RemoveCategoryMembers(cs[1..], id);
      var rest := RemoveCategory(cs[1..], id);
      if cs[0].id != id {
        assert RemoveCategory(cs, id) == [cs[0]] + rest;
        forall j | 0 <= j < |rest| ensures rest[j].id != cs[0].id {
          assert rest[j] in cs[1..];
        }
      } else {
        assert RemoveCategory(cs, id) == rest;
      }
    }
  }

  /** The side after entry `ei` of category `ci` is spliced out; a category left empty is filtered away by its id. */
  function DeleteAt(cs: seq<Category>, ci: nat, ei: nat): seq<Category>
    requires ci < |cs| && ei < |cs[ci].entries|
  {
    var c := cs[ci];
    var es := c.entries[..ei] + c.entries[ei + 1..];
    if |es| == 0 then RemoveCategory(cs, c.id) else cs[ci := WithEntries(c, es)]
  }

  /**
   * Deleting removes exactly that entry. A category it empties disappears
   * from the side (and nothing else does); otherwise the category keeps its
   * place with the entry gone and its amount and breakdown recomputed.
   */
  lemma DeleteAtShape(side: Side, cs: seq<Category>, ci: nat, ei: nat)
    requires SideOk(side, cs) && ci < |cs| && ei < |cs[ci].entries|
    ensures var r := DeleteAt(cs, ci, ei);
      && (|cs[ci].entries| == 1 ==> r == cs[..ci] + cs[ci + 1..])
      && (|cs[ci].entries| > 1 ==>
            && |r| == |cs|
            && (forall j :: 0 <= j < |cs| && j != ci ==> r[j] == cs[j])
            && r[ci].id == cs[ci].id && r[ci].name == cs[ci].name
            && r[ci].entries == cs[ci].entries[..ei] + cs[ci].entries[ei + 1..]
            && r[ci].comment == Breakdown(r[ci].entries))
  {
    if |cs[ci].entries| == 1 {
      RemovePresentCategory(cs, ci);
    }
  }

  /** Deleting an entry lowers the side's total by exactly the entry's amount. */
  lemma DeleteAtTotal(side: Side, cs: seq<Category>, ci: nat, ei: nat)
    requires SideOk(side, cs) && ci < |cs| && ei < |cs[ci].entries|
    ensures SumAmounts(DeleteAt(cs, ci, ei)) == SumAmounts(cs) - cs[ci].entries[ei].amount
  {
    var es := cs[ci].entries;
    JsArray.SumByRemove(es, ei, EntryAmount);
    if |es| == 1 {
      RemovePresentCategory(cs, ci);
      JsArray.SumByRemove(cs, ci, CategoryAmount);
    } else {
      JsArray.SumByUpdate(cs, ci, WithEntries(cs[ci], es[..ei] + es[ei + 1..]), CategoryAmount);
    }
  }

  lemma DeleteAtOk(side: Side, cs: seq<Category>, ci: nat, ei: nat, bound: nat)
    requires SideOk(side, cs) && IdsBelow(cs, bound) && ci < |cs| && ei < |cs[ci].entries|
    ensures SideOk(side, DeleteAt(cs, ci, ei)) && IdsBelow(DeleteAt(cs, ci, ei), bound)
  {
    var es := cs[ci].entries;
    if |es| == 1 {
      RemoveCategoryOk(side, cs, cs[ci].id, bound);
    } else {
      var rest := es[..ei] + es[ei + 1..];
      forall k | 0 <= k < |rest| ensures EntryFits(side, rest[k]) {
        assert rest[k] == es[if k < ei then k else k + 1];
      }
      var c' := WithEntries(cs[ci], rest);
      assert CategoryOk(side, c');
      assert CategoryIdsBelow(cs[ci], bound);
      forall k | 0 <= k < |rest| ensures rest[k].id < bound {
        assert rest[k] == es[if k < ei then k else k + 1];
      }
      assert CategoryIdsBelow(c', bound);
      var r := cs[ci := c'];
      assert DeleteAt(cs, ci, ei) == r;
      assert forall i :: 0 <= i < |r| ==> r[i].id == cs[i].id;
    }
  }

  /** Deleting a whole category lowers the side's total by that category's amount, or by nothing when no category has the id. */
  lemma RemoveCategoryTotal(side: Side, cs: seq<Category>, id: Id)
    requires SideOk(side, cs)
    ensures var k := JsArray.FindIndex(cs, (c: Category) => c.id == id);
      SumAmounts(RemoveCategory(cs, id)) == SumAmounts(cs) - (if k == -1 then 0 else cs[k].amount)
  {
    var k := JsArray.FindIndex(cs, (c: Category) => c.id == id);
    if k == -1 {
      RemoveAbsentCategory(cs, id);
    } else {
      RemovePresentCategory(cs, k);
      JsArray.SumByRemove(cs, k, CategoryAmount);
    }
  }
}
