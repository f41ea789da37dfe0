/**
 * What each month-service operation does to the stored months, as
 * functions of the store before it: the month created with its carried
 * balance and seeded recurring expenses, and the read-modify-write of one
 * month by the entry and category operations. The service class in
 * months.dfy is proved against these.
 *
 * The store is the list of month records in insertion order together with
 * the id generator's next value; `findOne` and `findById` pick the first
 * match.
 */
module MonthRules {
  import opened Wrappers
  import opened JsText
  import opened Ledger
  import JsArray
  import Recurring

  const MonthNames: seq<string> := [
    "January", "February", "March", "April", "May", "June",
    "July", "August", "September", "October", "November", "December"]

  /** `MONTH_NAMES[m]` as it prints in a template string: "undefined" for an index out of range. */
  function MonthName(m: int): string {
    if 0 <= m < |MonthNames| then MonthNames[m] else "undefined"
  }

  /** `${MONTH_NAMES[month]} ${year}`. */
  function DisplayName(year: int, month: int): string {
    MonthName(month) + " " + IntToString(year)
  }

  /**
   * The month before (year, month), months counted from 0. For a valid
   * month index this is the calendar predecessor; a negative index wraps to
   * December of the year before and an index past December is only
   * decremented, since the source does not validate the index.
   */
  function Predecessor(year: int, month: int): (p: (int, int))
    ensures 0 <= month < 12 ==> 0 <= p.1 < 12 && p.0 * 12 + p.1 == year * 12 + month - 1
    ensures month < 0 ==> p == (year - 1, 11)
    ensures month >= 12 ==> p == (year, month - 1)
  {
    if month - 1 < 0 then (year - 1, 11) else (year, month - 1)
  }

  // ---------------------------------------------------------------------
  // The store
  // ---------------------------------------------------------------------

  predicate InSlot(m: MonthData, userId: string, year: int, month: int) {
    m.userId == userId && m.year == year && m.month == month
  }

  predicate SameSlot(a: MonthData, b: MonthData) {
    InSlot(a, b.userId, b.year, b.month)
  }

  /** `MonthData.findOne({ userId, year, month })`: the first month in that slot, or -1. */
  function FindSlot(ms: seq<MonthData>, userId: string, year: int, month: int): (k: int)
    ensures -1 <= k < |ms|
    ensures k >= 0 ==> InSlot(ms[k], userId, year, month)
    ensures k >= 0 ==> forall j :: 0 <= j < k ==> !InSlot(ms[j], userId, year, month)
    ensures k == -1 <==> forall j :: 0 <= j < |ms| ==> !InSlot(ms[j], userId, year, month)
  {
    JsArray.FindIndex(ms, (m: MonthData) => InSlot(m, userId, year, month))
  }

  /** `MonthData.findById(monthId)`: the month with that id, or -1. */
  function FindMonth(ms: seq<MonthData>, monthId: Id): (k: int)
    ensures -1 <= k < |ms|
    ensures k >= 0 ==> ms[k].id == monthId
    ensures k >= 0 ==> forall j :: 0 <= j < k ==> ms[j].id != monthId
    ensures k == -1 <==> forall j :: 0 <= j < |ms| ==> ms[j].id != monthId
  {
    JsArray.FindIndex(ms, (m: MonthData) => m.id == monthId)
  }

  /** A stored month is well formed and everything in it has an id the generator already handed out. */
  predicate MonthIssued(m: MonthData, nextId: nat) {
    MonthOk(m) && m.id < nextId && IdsBelow(m.income, nextId) && IdsBelow(m.expenses, nextId)
  }

  /** The category's own id and every entry id in it are at least `low`. */
  predicate CategoryIdsFrom(c: Category, low: nat) {
    low <= c.id && forall j :: 0 <= j < |c.entries| ==> low <= c.entries[j].id
  }

  /** Every category id and every entry id on the side is at least `low`: all were issued from `low` on. */
  predicate IdsFrom(cs: seq<Category>, low: nat) {
    forall i :: 0 <= i < |cs| ==> CategoryIdsFrom(cs[i], low)
  }

  lemma IdsFromShrink(cs: seq<Category>, low: nat, low': nat)
    requires IdsFrom(cs, low) && low' <= low
    ensures IdsFrom(cs, low')
  {
    forall i | 0 <= i < |cs| ensures CategoryIdsFrom(cs[i], low') {
      assert CategoryIdsFrom(cs[i], low);
    }
  }

  /**
   * The ids the generator hands out next, `nextId` and `nextId + 1`, differ
   * from every category and entry id of a month whose ids were all issued.
   */
  lemma IssuedIdsFresh(m: MonthData, nextId: nat, side: Side)
    requires MonthIssued(m, nextId)
    ensures forall c :: c in m.Categories(side) ==>
      && c.id != nextId && c.id != nextId + 1
      && forall e :: e in c.entries ==> e.id != nextId && e.id != nextId + 1
  {
    var cs := m.Categories(side);
    forall c | c in cs ensures c.id < nextId && forall e :: e in c.entries ==> e.id < nextId {
      var i :| 0 <= i < |cs| && cs[i] == c;
      assert CategoryIdsBelow(cs[i], nextId);
    }
  }

  /**
   * The store invariant: every month is well formed with issued ids, month
   * ids grow in insertion order, and no two months share a (user, year,
   * month) slot.
   */
  predicate StoreOk(ms: seq<MonthData>, nextId: nat) {
    && (forall k {:trigger MonthIssued(ms[k], nextId)} :: 0 <= k < |ms| ==> MonthIssued(ms[k], nextId))
    && (forall j, k :: 0 <= j < k < |ms| ==> ms[j].id < ms[k].id)
    && (forall j, k :: 0 <= j < k < |ms| ==> !SameSlot(ms[j], ms[k]))
  }

  /**
   * Writing back one month that keeps its id and its slot, is well formed
   * and uses only issued ids, keeps the store invariant.
   */
  lemma StoreWriteBack(ms: seq<MonthData>, nextId: nat, k: nat, m: MonthData, nextId': nat)
    requires StoreOk(ms, nextId) && k < |ms| && nextId <= nextId'
    requires m.id == ms[k].id && SameSlot(m, ms[k])
    requires MonthIssued(m, nextId')
    ensures StoreOk(ms[k := m], nextId')
  {
    var ms' := ms[k := m];
    forall j | 0 <= j < |ms'| ensures MonthIssued(ms'[j], nextId') {
      if j != k {
        assert MonthIssued(ms[j], nextId);
        IdsBelowGrow(ms[j].income, nextId, nextId');
        IdsBelowGrow(ms[j].expenses, nextId, nextId');
      }
    }
    forall i, j | 0 <= i < j < |ms'| ensures ms'[i].id < ms'[j].id && !SameSlot(ms'[i], ms'[j]) {
      assert ms'[i].id == ms[i].id && SameSlot(ms'[i], ms[i]);
      assert ms'[j].id == ms[j].id && SameSlot(ms'[j], ms[j]);
    }
  }

  /** The result of one service call: what it returns or throws, and the store after it. */
  datatype Outcome = Outcome(result: Result<MonthData, LedgerError>, months: seq<MonthData>, nextId: nat)

  /** `getMonthById`: the month, or MONTH_NOT_FOUND. */
  function GetMonth(ms: seq<MonthData>, monthId: Id): (r: Result<MonthData, LedgerError>)
    ensures r.Ok? ==> r.value in ms && r.value.id == monthId
    ensures r.Err? <==> forall j :: 0 <= j < |ms| ==> ms[j].id != monthId
    ensures r.Err? ==> r.error == MonthNotFound
  {
    var k := FindMonth(ms, monthId);
    if k == -1 then Err(MonthNotFound) else Ok(ms[k])
  }

  // ---------------------------------------------------------------------
  // createMonth
  // ---------------------------------------------------------------------

  /**
   * The balance carried into a new month: the carry-forward of the month
   * before in the same user's records when it is positive, and 0 otherwise
   * (no such month, or a zero or negative balance).
   */
  function CarryIn(ms: seq<MonthData>, userId: string, year: int, month: int): (r: int)
    ensures r >= 0
    ensures r > 0 ==> exists k :: 0 <= k < |ms| && InSlot(ms[k], userId, Predecessor(year, month).0, Predecessor(year, month).1)
                                  && ms[k].carryForward == r
    ensures (forall k :: 0 <= k < |ms| ==> !InSlot(ms[k], userId, Predecessor(year, month).0, Predecessor(year, month).1)) ==> r == 0
  {
    var p := Predecessor(year, month);
    var k := FindSlot(ms, userId, p.0, p.1);
    if k != -1 && ms[k].carryForward > 0 then ms[k].carryForward else 0
  }

  /** The note of the carried entry: `From <month> <year>` of the predecessor. */
  function CarryNote(year: int, month: int): string {
    var p := Predecessor(year, month);
    "From " + MonthName(p.1) + " " + IntToString(p.0)
  }

  /** The income category "Carry Forward" holding the carried balance as its one entry. */
  function CarryCategory(amount: int, note: string, categoryId: Id, entryId: Id): Category {
    Category(categoryId, "Carry Forward", amount, IntToString(amount) + "(" + note + ")", [Entry(entryId, amount, note, None)])
  }

  /**
   * The expense category seeded from one recurring template: one entry with
   * the template's amount, note and tag. Its comment falls back to
   * "Recurring expense" where the breakdown of later edits says "No note".
   */
  function SeededExpense(t: Recurring.RecurringExpense, entryId: Id, categoryId: Id): Category {
    var e := Entry(entryId, t.amount, NoteOr(t.note, ""), Some(t.tag));
    Category(categoryId, t.category, t.amount, IntToString(t.amount) + "(" + NoteOr(t.note, "Recurring expense") + ")", [e])
  }

  /**
   * One seeded category per template, in listing order and never merged by
   * name; each takes two fresh ids, its entry's first.
   */
  function SeedExpenses(ts: seq<Recurring.RecurringExpense>, firstId: nat): (r: seq<Category>)
    ensures |r| == |ts|
    decreases |ts|
  {
    if ts == [] then [] else [SeededExpense(ts[0], firstId, firstId + 1)] + SeedExpenses(ts[1..], firstId + 2)
  }

  /** Template i becomes category i, with ids firstId + 2i (entry) and firstId + 2i + 1 (category). */
  lemma SeedExpensesAt(ts: seq<Recurring.RecurringExpense>, firstId: nat)
    ensures forall i :: 0 <= i < |ts| ==>
      SeedExpenses(ts, firstId)[i] == SeededExpense(ts[i], firstId + 2 * i, firstId + 2 * i + 1)
  {
    forall i | 0 <= i < |ts|
      ensures SeedExpenses(ts, firstId)[i] == SeededExpense(ts[i], firstId + 2 * i, firstId + 2 * i + 1)
    {
      SeedExpenseAt(ts, firstId, i);
    }
  }

  lemma {:induction false} SeedExpenseAt(ts: seq<Recurring.RecurringExpense>, firstId: nat, i: nat)
    requires i < |ts|
    ensures SeedExpenses(ts, firstId)[i] == SeededExpense(ts[i], firstId + 2 * i, firstId + 2 * i + 1)
    decreases i
  {
    SeedExpensesCons(ts, firstId);
    if i > 0 {
      SeedExpenseAt(ts[1..], firstId + 2, i - 1);
      assert ts[1..][i - 1] == ts[i];
    }
  }

  /** The first template takes the first two ids; the rest are seeded after it. */
  lemma SeedExpensesCons(ts: seq<Recurring.RecurringExpense>, firstId: nat)
    requires |ts| > 0
    ensures SeedExpenses(ts, firstId)[0] == SeededExpense(ts[0], firstId, firstId + 1)
    ensures forall j :: 1 <= j < |ts| ==> SeedExpenses(ts, firstId)[j] == SeedExpenses(ts[1..], firstId + 2)[j - 1]
  {
  }

  /** Seeding one more template appends its category with the next two ids. */
  lemma {:induction false} SeedExpensesAppend(ts: seq<Recurring.RecurringExpense>, t: Recurring.RecurringExpense, firstId: nat)
    ensures SeedExpenses(ts + [t], firstId) == SeedExpenses(ts, firstId) + [SeededExpense(t, firstId + 2 * |ts|, firstId + 2 * |ts| + 1)]
  {
    var a := SeedExpenses(ts + [t], firstId);
    var b := SeedExpenses(ts, firstId) + [SeededExpense(t, firstId + 2 * |ts|, firstId + 2 * |ts| + 1)];
    SeedExpensesAt(ts + [t], firstId);
    SeedExpensesAt(ts, firstId);
    forall i | 0 <= i < |a| ensures a[i] == b[i] {
      assert (ts + [t])[i] == if i < |ts| then ts[i] else t;
    }
  }

  /** Seeding one template more extends the seeded prefix by that template's category. */
  lemma SeedExpensesPrefix(ts: seq<Recurring.RecurringExpense>, i: nat, firstId: nat)
    requires i < |ts|
    ensures SeedExpenses(ts[..i + 1], firstId) == SeedExpenses(ts[..i], firstId) + [SeededExpense(ts[i], firstId + 2 * i, firstId + 2 * i + 1)]
  {
    assert ts[..i + 1] == ts[..i] + [ts[i]];
    SeedExpensesAppend(ts[..i], ts[i], firstId);
  }

  function TemplateAmount(t: Recurring.RecurringExpense): int { t.amount }

  /** The ids the carried category and entry take: none when nothing is carried. */
  function CarryIds(carry: int): nat {
    if carry > 0 then 2 else 0
  }

  /** The income side `createMonth` starts with: the carried balance as one category when it is positive, nothing otherwise. */
  function CarryIncome(carry: int, year: int, month: int, firstId: nat): seq<Category> {
    if carry > 0 then [CarryCategory(carry, CarryNote(year, month), firstId, firstId + 1)] else []
  }

  /** The record `createMonth` builds before recalculating its totals. */
  function NewMonthRecord(userId: string, year: int, month: int, carry: int, ts: seq<Recurring.RecurringExpense>, firstId: nat): MonthData {
    MonthData(firstId + CarryIds(carry) + 2 * |ts|, userId, DisplayName(year, month), year, month,
      CarryIncome(carry, year, month, firstId),
      SeedExpenses(ts, firstId + CarryIds(carry)), 0, 0, 0)
  }

  /**
   * The month `createMonth` stores: the carried balance (if positive) as
   * income, the seeded templates as expenses, totals recalculated, and the
   * month's own id issued after all category and entry ids.
   */
  function NewMonth(userId: string, year: int, month: int, carry: int, ts: seq<Recurring.RecurringExpense>, firstId: nat): MonthData {
    RecalculateTotals(NewMonthRecord(userId, year, month, carry, ts, firstId))
  }


  /**
   * `createMonth`: MONTH_EXISTS when the slot is taken; otherwise the new
   * month is appended and returned.
   */
  function CreateMonthSpec(ms: seq<MonthData>, nextId: nat, userId: string, year: int, month: int, ts: seq<Recurring.RecurringExpense>): Outcome {
    if FindSlot(ms, userId, year, month) != -1 then Outcome(Err(MonthExists), ms, nextId)
    else
      var m := NewMonth(userId, year, month, CarryIn(ms, userId, year, month), ts, nextId);
      Outcome(Ok(m), ms + [m], m.id + 1)
  }

  lemma SumEntriesSingle(e: Entry)
    ensures SumEntries([e]) == e.amount
  {
    JsArray.SumByConcat([], [e], EntryAmount);
    assert [] + [e] == [e];
  }

  lemma BreakdownSingle(e: Entry)
    ensures Breakdown([e]) == EntryText(e)
  {
    assert EntryTexts([e]) == [EntryText(e)];
  }

  /** The seeded expenses add up to the templates' amounts. */
  lemma {:induction false} SeedExpensesTotal(ts: seq<Recurring.RecurringExpense>, firstId: nat)
    ensures SumAmounts(SeedExpenses(ts, firstId)) == JsArray.SumBy(ts, TemplateAmount)
    decreases |ts|
  {
    if ts != [] {
      SeedExpensesTotal(ts[1..], firstId + 2);
      JsArray.SumByConcat([SeededExpense(ts[0], firstId, firstId + 1)], SeedExpenses(ts[1..], firstId + 2), CategoryAmount);
      JsArray.SumByConcat([ts[0]], ts[1..], TemplateAmount);
      assert [ts[0]] + ts[1..] == ts;
      assert JsArray.SumBy([SeededExpense(ts[0], firstId, firstId + 1)], CategoryAmount) == ts[0].amount;
      assert JsArray.SumBy([ts[0]], TemplateAmount) == ts[0].amount;
    }
  }

  /** The seeded side is well formed, and its ids lie in [firstId, firstId + 2|ts|). */
  lemma SeedExpensesOk(ts: seq<Recurring.RecurringExpense>, firstId: nat)
    ensures SideOk(Expense, SeedExpenses(ts, firstId))
    ensures IdsBelow(SeedExpenses(ts, firstId), firstId + 2 * |ts|)
    ensures IdsFrom(SeedExpenses(ts, firstId), firstId)
  {
    var r := SeedExpenses(ts, firstId);
    SeedExpensesAt(ts, firstId);
    forall i | 0 <= i < |r| ensures CategoryOk(Expense, r[i]) {
      SumEntriesSingle(r[i].entries[0]);
      assert r[i].entries == [r[i].entries[0]];
    }
  }

  /** The income side of a new month: the carried balance alone, as one "Carry Forward" category exactly when it is positive. */
  lemma NewMonthIncome(userId: string, year: int, month: int, carry: int, ts: seq<Recurring.RecurringExpense>, firstId: nat)
    ensures var m := NewMonth(userId, year, month, carry, ts, firstId);
      && SideOk(Income, m.income) && IdsBelow(m.income, firstId + CarryIds(carry)) && IdsFrom(m.income, firstId)
      && (carry > 0 <==> |m.income| == 1) && |m.income| <= 1
      && (carry > 0 ==> m.income[0].name == "Carry Forward" && m.income[0].amount == carry
                        && m.income[0].entries[0].note == CarryNote(year, month))
      && SumAmounts(m.income) == (if carry > 0 then carry else 0)
  {
    if carry > 0 {
      var c := CarryCategory(carry, CarryNote(year, month), firstId, firstId + 1);
      SumEntriesSingle(c.entries[0]);
      assert c.entries == [c.entries[0]];
      assert CategoryOk(Income, c);
      JsArray.SumByConcat([], [c], CategoryAmount);
      assert [] + [c] == [c];
    }
  }

  /** The expense side of a new month: the templates one for one, with their amounts and tags, adding up to their sum. */
  lemma NewMonthExpenses(userId: string, year: int, month: int, carry: int, ts: seq<Recurring.RecurringExpense>, firstId: nat)
    ensures var m := NewMonth(userId, year, month, carry, ts, firstId);
      && SideOk(Expense, m.expenses) && IdsBelow(m.expenses, m.id) && IdsFrom(m.expenses, firstId + CarryIds(carry))
      && |m.expenses| == |ts|
      && (forall i :: 0 <= i < |ts| ==>
            && m.expenses[i].name == ts[i].category && m.expenses[i].amount == ts[i].amount
            && |m.expenses[i].entries| == 1 && m.expenses[i].entries[0].tag == Some(ts[i].tag)
            && m.expenses[i].entries[0].note == NoteOr(ts[i].note, ""))
      && SumAmounts(m.expenses) == JsArray.SumBy(ts, TemplateAmount)
  {
    var seedStart := firstId + CarryIds(carry);
    var m := NewMonth(userId, year, month, carry, ts, firstId);
    var es := SeedExpenses(ts, seedStart);
    assert m.expenses == es && m.id == seedStart + 2 * |ts|;
    SeedExpensesOk(ts, seedStart);
    SeedExpensesTotal(ts, seedStart);
    SeedExpensesAt(ts, seedStart);
    forall i | 0 <= i < |ts|
      ensures && es[i].name == ts[i].category && es[i].amount == ts[i].amount
              && |es[i].entries| == 1 && es[i].entries[0].tag == Some(ts[i].tag)
              && es[i].entries[0].note == NoteOr(ts[i].note, "")
    {
      assert es[i] == SeededExpense(ts[i], seedStart + 2 * i, seedStart + 2 * i + 1);
    }
  }

  /**
   * A new month is well formed and sits in its slot under its display
   * name; its totals are the carry, the templates' sum and their
   * difference; and every id in it is issued before the month's own.
   */
  lemma NewMonthSpec(userId: string, year: int, month: int, carry: int, ts: seq<Recurring.RecurringExpense>, firstId: nat)
    ensures var m := NewMonth(userId, year, month, carry, ts, firstId);
      && MonthOk(m) && InSlot(m, userId, year, month) && m.monthName == DisplayName(year, month)
      && m.id == firstId + CarryIds(carry) + 2 * |ts| && firstId <= m.id
      && IdsBelow(m.income, m.id) && IdsBelow(m.expenses, m.id)
      && m.totalIncome == (if carry > 0 then carry else 0)
      && m.totalExpense == JsArray.SumBy(ts, TemplateAmount)
      && m.carryForward == m.totalIncome - m.totalExpense
  {
    var m := NewMonth(userId, year, month, carry, ts, firstId);
    NewMonthIncome(userId, year, month, carry, ts, firstId);
    NewMonthExpenses(userId, year, month, carry, ts, firstId);
    IdsBelowGrow(m.income, firstId + CarryIds(carry), m.id);
  }

  /**
   * The carried category's comment is its breakdown; a seeded category's
   * comment is its breakdown exactly when the template has a note, since
   * with no note it reads "(Recurring expense)" where the breakdown reads
   * "(No note)".
   */
  lemma SeededComments(t: Recurring.RecurringExpense, carry: int, note: string, entryId: Id, categoryId: Id)
    ensures note != "" ==> CarryCategory(carry, note, categoryId, entryId).comment
                           == Breakdown(CarryCategory(carry, note, categoryId, entryId).entries)
    ensures var c := SeededExpense(t, entryId, categoryId);
      c.comment == Breakdown(c.entries) <==> t.note != ""
  {
    var c := SeededExpense(t, entryId, categoryId);
    BreakdownSingle(c.entries[0]);
    BreakdownSingle(CarryCategory(carry, note, categoryId, entryId).entries[0]);
    if t.note == "" {
      assert |c.comment| != |Breakdown(c.entries)|;
    }
  }

  /** Appending a month with issued ids, a fresh slot and an id above every stored one keeps the store invariant. */
  lemma StoreAppend(ms: seq<MonthData>, nextId: nat, m: MonthData, nextId': nat)
    requires StoreOk(ms, nextId) && nextId <= m.id && nextId <= nextId'
    requires MonthIssued(m, nextId')
    requires forall k :: 0 <= k < |ms| ==> !SameSlot(ms[k], m)
    ensures StoreOk(ms + [m], nextId')
  {
    var ms' := ms + [m];
    forall k | 0 <= k < |ms'| ensures MonthIssued(ms'[k], nextId') {
      if k < |ms| {
        assert MonthIssued(ms[k], nextId);
        IdsBelowGrow(ms[k].income, nextId, nextId');
        IdsBelowGrow(ms[k].expenses, nextId, nextId');
      }
    }
    forall i, j | 0 <= i < j < |ms'| ensures ms'[i].id < ms'[j].id && !SameSlot(ms'[i], ms'[j]) {
      if j == |ms| {
        assert MonthIssued(ms[i], nextId);
        assert !SameSlot(ms[i], m);
      }
    }
  }

  lemma NewMonthIssued(userId: string, year: int, month: int, carry: int, ts: seq<Recurring.RecurringExpense>, firstId: nat)
    ensures var m := NewMonth(userId, year, month, carry, ts, firstId);
      && MonthIssued(m, m.id + 1) && InSlot(m, userId, year, month) && firstId <= m.id
      && IdsFrom(m.income, firstId) && IdsFrom(m.expenses, firstId)
      && IdsBelow(m.income, m.id) && IdsBelow(m.expenses, m.id)
  {
    var m := NewMonth(userId, year, month, carry, ts, firstId);
    NewMonthSpec(userId, year, month, carry, ts, firstId);
    NewMonthIncome(userId, year, month, carry, ts, firstId);
    NewMonthExpenses(userId, year, month, carry, ts, firstId);
    IdsFromShrink(m.expenses, firstId + CarryIds(carry), firstId);
    IdsBelowGrow(m.income, m.id, m.id + 1);
    IdsBelowGrow(m.expenses, m.id, m.id + 1);
  }

  /** Creating a month keeps the store invariant, and succeeds exactly when the slot was free. */
  lemma CreateMonthOk(ms: seq<MonthData>, nextId: nat, userId: string, year: int, month: int, ts: seq<Recurring.RecurringExpense>)
    requires StoreOk(ms, nextId)
    ensures var o := CreateMonthSpec(ms, nextId, userId, year, month, ts);
      && StoreOk(o.months, o.nextId) && nextId <= o.nextId
      && (o.result.Err? <==> exists k :: 0 <= k < |ms| && InSlot(ms[k], userId, year, month))
      && (o.result.Err? ==> o.result == Err(MonthExists) && o.months == ms && o.nextId == nextId)
      && (o.result.Ok? ==> o.months == ms + [o.result.value] && InSlot(o.result.value, userId, year, month))
  {
    var k := FindSlot(ms, userId, year, month);
    if k == -1 {
      var m := NewMonth(userId, year, month, CarryIn(ms, userId, year, month), ts, nextId);
      CreatedMonthOk(ms, nextId, userId, year, month, ts, m);
      CreateMonthFree(ms, nextId, userId, year, month, ts, m);
    } else {
      CreateMonthTaken(ms, nextId, userId, year, month, ts, k);
    }
  }

  lemma CreateMonthFree(ms: seq<MonthData>, nextId: nat, userId: string, year: int, month: int, ts: seq<Recurring.RecurringExpense>, m: MonthData)
    requires FindSlot(ms, userId, year, month) == -1
    requires m == NewMonth(userId, year, month, CarryIn(ms, userId, year, month), ts, nextId)
    ensures CreateMonthSpec(ms, nextId, userId, year, month, ts) == Outcome(Ok(m), ms + [m], m.id + 1)
    ensures !exists k :: 0 <= k < |ms| && InSlot(ms[k], userId, year, month)
  {
  }

  lemma CreateMonthTaken(ms: seq<MonthData>, nextId: nat, userId: string, year: int, month: int, ts: seq<Recurring.RecurringExpense>, k: int)
    requires k == FindSlot(ms, userId, year, month) && k != -1
    ensures CreateMonthSpec(ms, nextId, userId, year, month, ts) == Outcome(Err(MonthExists), ms, nextId)
    ensures exists k :: 0 <= k < |ms| && InSlot(ms[k], userId, year, month)
  {
    assert InSlot(ms[k], userId, year, month);
  }

  /**
   * With one month per slot, the balance carried in is the predecessor's
   * carry-forward when that is positive, and 0 otherwise.
   */
  lemma CarryInFromPredecessor(ms: seq<MonthData>, nextId: nat, userId: string, year: int, month: int, k: nat)
    requires StoreOk(ms, nextId)
    requires k < |ms| && InSlot(ms[k], userId, Predecessor(year, month).0, Predecessor(year, month).1)
    ensures CarryIn(ms, userId, year, month) == (if ms[k].carryForward > 0 then ms[k].carryForward else 0)
  {
    var p := Predecessor(year, month);
    var f := FindSlot(ms, userId, p.0, p.1);
    if f != k {
      assert f < k;
      assert SameSlot(ms[f], ms[k]);
    }
  }

  /**
   * A created month's income is one "Carry Forward" category holding the
   * predecessor's carry-forward when that is positive, and empty otherwise.
   */
  lemma CreateMonthCarries(ms: seq<MonthData>, nextId: nat, userId: string, year: int, month: int, ts: seq<Recurring.RecurringExpense>, k: nat)
    requires StoreOk(ms, nextId)
    requires k < |ms| && InSlot(ms[k], userId, Predecessor(year, month).0, Predecessor(year, month).1)
    ensures var o := CreateMonthSpec(ms, nextId, userId, year, month, ts);
      o.result.Ok? ==>
        && (ms[k].carryForward > 0 ==>
              && |o.result.value.income| == 1 && o.result.value.income[0].name == "Carry Forward"
              && o.result.value.income[0].amount == ms[k].carryForward
              && o.result.value.totalIncome == ms[k].carryForward)
        && (ms[k].carryForward <= 0 ==> o.result.value.income == [] && o.result.value.totalIncome == 0)
  {
    if FindSlot(ms, userId, year, month) == -1 {
      var carry := CarryIn(ms, userId, year, month);
      var m := NewMonth(userId, year, month, carry, ts, nextId);
      CarryInFromPredecessor(ms, nextId, userId, year, month, k);
      CreateMonthFree(ms, nextId, userId, year, month, ts, m);
      NewMonthIncome(userId, year, month, carry, ts, nextId);
      NewMonthSpec(userId, year, month, carry, ts, nextId);
    }
  }

  /** With no month in the predecessor's slot, a created month starts with no income. */
  lemma CreateMonthWithoutPredecessor(ms: seq<MonthData>, nextId: nat, userId: string, year: int, month: int, ts: seq<Recurring.RecurringExpense>)
    requires forall k :: 0 <= k < |ms| ==> !InSlot(ms[k], userId, Predecessor(year, month).0, Predecessor(year, month).1)
    ensures var o := CreateMonthSpec(ms, nextId, userId, year, month, ts);
      o.result.Ok? ==> o.result.value.income == [] && o.result.value.totalIncome == 0
  {
    if FindSlot(ms, userId, year, month) == -1 {
      var carry := CarryIn(ms, userId, year, month);
      var m := NewMonth(userId, year, month, carry, ts, nextId);
      CreateMonthFree(ms, nextId, userId, year, month, ts, m);
      NewMonthIncome(userId, year, month, carry, ts, nextId);
      NewMonthSpec(userId, year, month, carry, ts, nextId);
    }
  }

  /** The month created in a free slot has fresh ids and keeps the store invariant. */
  lemma CreatedMonthOk(ms: seq<MonthData>, nextId: nat, userId: string, year: int, month: int, ts: seq<Recurring.RecurringExpense>, m: MonthData)
    requires StoreOk(ms, nextId) && FindSlot(ms, userId, year, month) == -1
    requires m == NewMonth(userId, year, month, CarryIn(ms, userId, year, month), ts, nextId)
    ensures StoreOk(ms + [m], m.id + 1) && nextId <= m.id && InSlot(m, userId, year, month)
  {
    NewMonthIssued(userId, year, month, CarryIn(ms, userId, year, month), ts, nextId);
    FreeSlotAppend(ms, nextId, userId, year, month, m);
  }

  /** Storing a month with fresh ids in a free slot keeps the store invariant. */
  lemma FreeSlotAppend(ms: seq<MonthData>, nextId: nat, userId: string, year: int, month: int, m: MonthData)
    requires StoreOk(ms, nextId) && nextId <= m.id
    requires forall j :: 0 <= j < |ms| ==> !InSlot(ms[j], userId, year, month)
    requires MonthIssued(m, m.id + 1) && InSlot(m, userId, year, month)
    ensures StoreOk(ms + [m], m.id + 1)
  {
    forall j | 0 <= j < |ms| ensures !SameSlot(ms[j], m) {
      assert !InSlot(ms[j], userId, year, month);
    }
    StoreAppend(ms, nextId, m, m.id + 1);
  }

  // ---------------------------------------------------------------------
  // Entry and category operations on one month
  // ---------------------------------------------------------------------

  /**
   * The month after one side changed: identity, slot, name and the other
   * side are untouched, and the side's total, and with it the
   * carry-forward, moves by `delta`.
   */
  predicate SideMovedBy(m: MonthData, r: MonthData, side: Side, delta: int) {
    && r.id == m.id && r.userId == m.userId && r.monthName == m.monthName
    && r.year == m.year && r.month == m.month
    && (side == Income ==> r.expenses == m.expenses && r.totalIncome == m.totalIncome + delta && r.totalExpense == m.totalExpense)
    && (side == Expense ==> r.income == m.income && r.totalExpense == m.totalExpense + delta && r.totalIncome == m.totalIncome)
    && r.carryForward == m.carryForward + (if side == Income then delta else -delta)
  }

  /** The month with one side replaced by `cs` and its totals recalculated. */
  function WithSide(m: MonthData, side: Side, cs: seq<Category>): MonthData {
    RecalculateTotals(m.WithCategories(side, cs))
  }

  lemma WithSideMoves(m: MonthData, side: Side, cs: seq<Category>, delta: int, bound: nat)
    requires MonthOk(m) && SideOk(side, cs) && SumAmounts(cs) == SumAmounts(m.Categories(side)) + delta
    requires IdsBelow(cs, bound) && IdsBelow(m.income, bound) && IdsBelow(m.expenses, bound)
    ensures MonthOk(WithSide(m, side, cs)) && SideMovedBy(m, WithSide(m, side, cs), side, delta)
    ensures IdsBelow(WithSide(m, side, cs).income, bound) && IdsBelow(WithSide(m, side, cs).expenses, bound)
  {
  }

  /** The new entry: the note defaults to "", an expense's tag to neutral, an income entry has none. */
  function NewEntry(side: Side, id: Id, amount: int, note: string, tag: Option<Tag>): (e: Entry)
    ensures EntryFits(side, e)
  {
    Entry(id, amount, NoteOr(note, ""), if side == Expense then Some(TagOrNeutral(tag)) else None)
  }

  /**
   * `addIncomeEntry` / `addExpenseEntry`: the entry takes the next id and
   * a new category the one after it; the generator advances by the ids
   * taken.
   */
  function AddEntrySpec(ms: seq<MonthData>, nextId: nat, side: Side, monthId: Id, category: string, amount: int, note: string, tag: Option<Tag>): Outcome {
    var k := FindMonth(ms, monthId);
    if k == -1 then Outcome(Err(MonthNotFound), ms, nextId)
    else
      var m := ms[k];
      var added := AddToSide(m.Categories(side), category, NewEntry(side, nextId, amount, note, tag), nextId + 1);
      var isNew := FindByName(m.Categories(side), category) == -1;
      var m' := WithSide(m, side, added);
      Outcome(Ok(m'), ms[k := m'], if isNew then nextId + 2 else nextId + 1)
  }

  /**
   * Adding keeps the store invariant; it fails only for an unknown month,
   * and otherwise raises that month's side total by the amount and moves
   * its carry-forward with it.
   */
  lemma AddEntryOk(ms: seq<MonthData>, nextId: nat, side: Side, monthId: Id, category: string, amount: int, note: string, tag: Option<Tag>)
    requires StoreOk(ms, nextId)
    ensures var o := AddEntrySpec(ms, nextId, side, monthId, category, amount, note, tag);
      var k := FindMonth(ms, monthId);
      && StoreOk(o.months, o.nextId) && nextId <= o.nextId
      && (k == -1 <==> o.result == Err(MonthNotFound))
      && (o.result.Err? ==> o.months == ms && o.nextId == nextId)
      && (k != -1 ==> o.result.Ok? && o.months == ms[k := o.result.value] && SideMovedBy(ms[k], o.result.value, side, amount))
  {
    var k := FindMonth(ms, monthId);
    if k != -1 {
      assert MonthIssued(ms[k], nextId);
      var o := AddEntrySpec(ms, nextId, side, monthId, category, amount, note, tag);
      AddedMonthOk(ms[k], side, category, NewEntry(side, nextId, amount, note, tag), nextId, o.nextId);
      StoreWriteBack(ms, nextId, k, o.result.value, o.nextId);
    }
  }

  /** The month-level half of AddEntryOk: the changed month is well formed, uses issued ids and moved by the amount. */
  lemma AddedMonthOk(m: MonthData, side: Side, category: string, e: Entry, nextId: nat, nextId': nat)
    requires MonthIssued(m, nextId) && EntryFits(side, e) && e.id == nextId
    requires nextId' == if FindByName(m.Categories(side), category) == -1 then nextId + 2 else nextId + 1
    ensures var m' := WithSide(m, side, AddToSide(m.Categories(side), category, e, nextId + 1));
      MonthIssued(m', nextId') && SideMovedBy(m, m', side, e.amount) && SameSlot(m', m)
  {
    var cs := m.Categories(side);
    var added := AddToSide(cs, category, e, nextId + 1);
    AddedSideOk(side, cs, category, e, nextId, nextId');
    IdsBelowGrow(m.income, nextId, nextId');
    IdsBelowGrow(m.expenses, nextId, nextId');
    WithSideMoves(m, side, added, e.amount, nextId');
  }

  /** The side-level half of AddedMonthOk: the side stays well formed, uses issued ids and grows by the amount. */
  lemma AddedSideOk(side: Side, cs: seq<Category>, category: string, e: Entry, nextId: nat, nextId': nat)
    requires SideOk(side, cs) && IdsBelow(cs, nextId) && EntryFits(side, e) && e.id == nextId
    requires nextId' == if FindByName(cs, category) == -1 then nextId + 2 else nextId + 1
    ensures var added := AddToSide(cs, category, e, nextId + 1);
      SideOk(side, added) && IdsBelow(added, nextId') && SumAmounts(added) == SumAmounts(cs) + e.amount
  {
    IdsBelowGrow(cs, nextId, nextId + 1);
    AddToSideOk(side, cs, category, e, nextId + 1);
    AddToSideTotal(side, cs, category, e, nextId + 1);
    if FindByName(cs, category) != -1 {
      AddToExistingIds(cs, category, e, nextId + 1, nextId + 1);
    }
  }

  /**
   * `updateIncomeEntry` / `updateExpenseEntry`: the first category of the
   * side holding the entry id has that entry rewritten; ENTRY_NOT_FOUND
   * when no category holds it.
   */
  function UpdateEntrySpec(ms: seq<MonthData>, nextId: nat, side: Side, entryId: Id, monthId: Id, amount: int, note: string, tag: Option<Tag>): Outcome {
    var k := FindMonth(ms, monthId);
    if k == -1 then Outcome(Err(MonthNotFound), ms, nextId)
    else
      var m := ms[k];
      var cs := m.Categories(side);
      var ci := HolderIndex(cs, entryId);
      if ci == -1 then Outcome(Err(EntryNotFound), ms, nextId)
      else
        var m' := WithSide(m, side, UpdateAt(side, cs, ci, EntryIndex(cs[ci].entries, entryId), amount, NoteOr(note, ""), tag));
        Outcome(Ok(m'), ms[k := m'], nextId)
  }

  /**
   * Updating keeps the store invariant and issues no id; it fails for an
   * unknown month or an entry no category holds, and otherwise moves the
   * side total by the new amount minus the old.
   */
  lemma UpdateEntryOk(ms: seq<MonthData>, nextId: nat, side: Side, entryId: Id, monthId: Id, amount: int, note: string, tag: Option<Tag>)
    requires StoreOk(ms, nextId)
    ensures var o := UpdateEntrySpec(ms, nextId, side, entryId, monthId, amount, note, tag);
      var k := FindMonth(ms, monthId);
      && StoreOk(o.months, o.nextId) && o.nextId == nextId
      && (k == -1 <==> o.result == Err(MonthNotFound))
      && (o.result.Err? ==> o.months == ms)
      && (k != -1 ==>
            var cs := ms[k].Categories(side);
            var ci := HolderIndex(cs, entryId);
            && (ci == -1 <==> o.result == Err(EntryNotFound))
            && (ci != -1 ==>
                  && o.result.Ok? && o.months == ms[k := o.result.value]
                  && SideMovedBy(ms[k], o.result.value, side, amount - cs[ci].entries[EntryIndex(cs[ci].entries, entryId)].amount)))
  {
    var k := FindMonth(ms, monthId);
    if k != -1 {
      assert MonthIssued(ms[k], nextId);
      var m := ms[k];
      var cs := m.Categories(side);
      var ci := HolderIndex(cs, entryId);
      if ci != -1 {
        var ei := EntryIndex(cs[ci].entries, entryId);
        var updated := UpdateAt(side, cs, ci, ei, amount, NoteOr(note, ""), tag);
        UpdateAtOk(side, cs, ci, ei, amount, NoteOr(note, ""), tag, nextId);
        UpdateAtTotal(side, cs, ci, ei, amount, NoteOr(note, ""), tag);
        WithSideMoves(m, side, updated, amount - cs[ci].entries[ei].amount, nextId);
        StoreWriteBack(ms, nextId, k, WithSide(m, side, updated), nextId);
      }
    }
  }

  /**
   * `deleteIncomeEntry` / `deleteExpenseEntry`: the entry is spliced out of
   * the first category holding it, and a category left empty is filtered
   * away; ENTRY_NOT_FOUND when no category holds it.
   */
  function DeleteEntrySpec(ms: seq<MonthData>, nextId: nat, side: Side, entryId: Id, monthId: Id): Outcome {
    var k := FindMonth(ms, monthId);
    if k == -1 then Outcome(Err(MonthNotFound), ms, nextId)
    else
      var m := ms[k];
      var cs := m.Categories(side);
      var ci := HolderIndex(cs, entryId);
      if ci == -1 then Outcome(Err(EntryNotFound), ms, nextId)
      else
        var m' := WithSide(m, side, DeleteAt(cs, ci, EntryIndex(cs[ci].entries, entryId)));
        Outcome(Ok(m'), ms[k := m'], nextId)
  }

  /**
   * Deleting an entry keeps the store invariant (no category is ever left
   * empty); it fails for an unknown month or entry, and otherwise lowers
   * the side total by the entry's amount.
   */
  lemma DeleteEntryOk(ms: seq<MonthData>, nextId: nat, side: Side, entryId: Id, monthId: Id)
    requires StoreOk(ms, nextId)
    ensures var o := DeleteEntrySpec(ms, nextId, side, entryId, monthId);
      var k := FindMonth(ms, monthId);
      && StoreOk(o.months, o.nextId) && o.nextId == nextId
      && (k == -1 <==> o.result == Err(MonthNotFound))
      && (o.result.Err? ==> o.months == ms)
      && (k != -1 ==>
            var cs := ms[k].Categories(side);
            var ci := HolderIndex(cs, entryId);
            && (ci == -1 <==> o.result == Err(EntryNotFound))
            && (ci != -1 ==>
                  && o.result.Ok? && o.months == ms[k := o.result.value]
                  && SideMovedBy(ms[k], o.result.value, side, -cs[ci].entries[EntryIndex(cs[ci].entries, entryId)].amount)))
  {
    var k := FindMonth(ms, monthId);
    if k != -1 {
      assert MonthIssued(ms[k], nextId);
      var m := ms[k];
      var cs := m.Categories(side);
      var ci := HolderIndex(cs, entryId);
      if ci != -1 {
        var ei := EntryIndex(cs[ci].entries, entryId);
        var rest := DeleteAt(cs, ci, ei);
        DeleteAtOk(side, cs, ci, ei, nextId);
        DeleteAtTotal(side, cs, ci, ei);
        WithSideMoves(m, side, rest, -cs[ci].entries[ei].amount, nextId);
        StoreWriteBack(ms, nextId, k, WithSide(m, side, rest), nextId);
      }
    }
  }

  /** `deleteIncomeCategory` / `deleteExpenseCategory`: the side filtered by category id; an unknown id changes nothing but is no error. */
  function DeleteCategorySpec(ms: seq<MonthData>, nextId: nat, side: Side, categoryId: Id, monthId: Id): Outcome {
    var k := FindMonth(ms, monthId);
    if k == -1 then Outcome(Err(MonthNotFound), ms, nextId)
    else
      var m' := WithSide(ms[k], side, RemoveCategory(ms[k].Categories(side), categoryId));
      Outcome(Ok(m'), ms[k := m'], nextId)
  }

  /**
   * Deleting a category keeps the store invariant; it fails only for an
   * unknown month, and otherwise lowers the side total by the removed
   * category's amount (by nothing when no category has the id).
   */
  lemma DeleteCategoryOk(ms: seq<MonthData>, nextId: nat, side: Side, categoryId: Id, monthId: Id)
    requires StoreOk(ms, nextId)
    ensures var o := DeleteCategorySpec(ms, nextId, side, categoryId, monthId);
      var k := FindMonth(ms, monthId);
      && StoreOk(o.months, o.nextId) && o.nextId == nextId
      && (k == -1 <==> o.result == Err(MonthNotFound))
      && (o.result.Err? ==> o.months == ms)
      && (k != -1 ==>
            var cs := ms[k].Categories(side);
            var ci := JsArray.FindIndex(cs, (c: Category) => c.id == categoryId);
            && o.result.Ok? && o.months == ms[k := o.result.value]
            && (forall c :: c in o.result.value.Categories(side) <==> c in cs && c.id != categoryId)
            && SideMovedBy(ms[k], o.result.value, side, if ci == -1 then 0 else -cs[ci].amount))
  {
    var k := FindMonth(ms, monthId);
    if k != -1 {
      assert MonthIssued(ms[k], nextId);
      var m := ms[k];
      var cs := m.Categories(side);
      var ci := JsArray.FindIndex(cs, (c: Category) => c.id == categoryId);
      var rest := RemoveCategory(cs, categoryId);
      RemoveCategoryOk(side, cs, categoryId, nextId);
      RemoveCategoryTotal(side, cs, categoryId);
      RemoveCategoryMembers(cs, categoryId);
      WithSideMoves(m, side, rest, if ci == -1 then 0 else -cs[ci].amount, nextId);
      StoreWriteBack(ms, nextId, k, WithSide(m, side, rest), nextId);
    }
  }
}
