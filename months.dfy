/**
 * The month service: the store of month records and the id generator, and
 * the operations the routes call. Each operation loads one month, changes
 * it and writes it back; each is proved to leave the store exactly as the
 * matching function of MonthRules says.
 */
module Months {
  import opened Wrappers
  import opened JsText
  import opened Ledger
  import opened MonthRules
  import Recurring

  /**
   * The loop of `createMonth` over the recurring templates: one expense
   * category per template, each with a fresh entry id and then a fresh
   * category id.
   */
  method SeedFrom(templates: seq<Recurring.RecurringExpense>, firstId: nat) returns (expenses: seq<Category>)
    ensures expenses == SeedExpenses(templates, firstId)
    ensures |expenses| == |templates|
  {
    expenses := [];
    var nextId := firstId;
    var i := 0;
    while i < |templates|
      invariant 0 <= i <= |templates|
      invariant nextId == firstId + 2 * i
      invariant expenses == SeedExpenses(templates[..i], firstId)
    {
      var t := templates[i];
      var entryId := nextId;
      var categoryId := nextId + 1;
      nextId := nextId + 2;
      var item := SeededExpense(t, entryId, categoryId);
      SeedExpensesPrefix(templates, i, firstId);
      expenses := expenses + [item];
      i := i + 1;
    }
    assert templates[..i] == templates;
  }

  /**
   * The loop of `updateIncomeEntry` / `updateExpenseEntry`: finds the first
   * category holding the entry and rewrites that entry in place, with the
   * category's amount and breakdown recomputed; reports whether one was
   * found.
   */
  method RewriteEntry(side: Side, categories: seq<Category>, entryId: Id, amount: int, note: string, tag: Option<Tag>)
    returns (found: bool, cs: seq<Category>)
    ensures found <==> HolderIndex(categories, entryId) != -1
    ensures !found ==> cs == categories
    ensures found ==>
      var ci := HolderIndex(categories, entryId);
      cs == UpdateAt(side, categories, ci, EntryIndex(categories[ci].entries, entryId), amount, note, tag)
  {
    cs := categories;
    var i := FindHolder(cs, entryId);
    found := i != -1;
    if found {
      var ei := EntryIndex(cs[i].entries, entryId);
      var es := cs[i].entries;
      es := es[ei := UpdatedEntry(side, es[ei], amount, note, tag)];
      cs := cs[i := WithEntries(cs[i], es)];
    }
  }

  /**
   * The loop shared by the update and delete operations: the first
   * category whose entries hold the id, found by scanning the side in
   * order, or -1.
   */
  method FindHolder(cs: seq<Category>, entryId: Id) returns (i: int)
    ensures i == HolderIndex(cs, entryId)
  {
    i := 0;
    while i < |cs|
      invariant 0 <= i <= |cs|
      invariant forall j :: 0 <= j < i ==> EntryIndex(cs[j].entries, entryId) == -1
    {
      if EntryIndex(cs[i].entries, entryId) != -1 {
        return;
      }
      i := i + 1;
    }
    i := -1;
  }

  /**
   * The loop of `deleteIncomeEntry` / `deleteExpenseEntry`: finds the first
   * category holding the entry and splices the entry out, filtering the
   * category away by its id when it is left empty; reports whether one was
   * found.
   */
  method SpliceEntry(categories: seq<Category>, entryId: Id) returns (found: bool, cs: seq<Category>)
    ensures found <==> HolderIndex(categories, entryId) != -1
    ensures !found ==> cs == categories
    ensures found ==>
      var ci := HolderIndex(categories, entryId);
      cs == DeleteAt(categories, ci, EntryIndex(categories[ci].entries, entryId))
  {
    cs := categories;
    var i := FindHolder(cs, entryId);
    found := i != -1;
    if found {
      var ei := EntryIndex(cs[i].entries, entryId);
      var es := cs[i].entries[..ei] + cs[i].entries[ei + 1..];
      if |es| == 0 {
        cs := RemoveCategory(cs, cs[i].id);
      } else {
        cs := cs[i := WithEntries(cs[i], es)];
      }
      assert cs == DeleteAt(categories, i, ei);
    }
  }

  /**
   * The body of `createMonth` once the slot is known to be free: the
   * predecessor's positive balance becomes a "Carry Forward" income
   * category (category id, then entry id), each template becomes an
   * expense category, and the record gets the id issued after all of
   * them. Its totals are recalculated by the caller.
   */
  method BuildMonth(months: seq<MonthData>, userId: string, year: int, month: int,
                    templates: seq<Recurring.RecurringExpense>, firstId: nat) returns (created: MonthData)
    ensures created == NewMonthRecord(userId, year, month, CarryIn(months, userId, year, month), templates, firstId)
  {
    var carry := CarryIn(months, userId, year, month);
    var income := CarryIncome(carry, year, month, firstId);
    var seedId := firstId + CarryIds(carry);
    var expenses := SeedFrom(templates, seedId);
    created := MonthData(seedId + 2 * |templates|, userId, DisplayName(year, month), year, month, income, expenses, 0, 0, 0);
    assert created == NewMonthRecord(userId, year, month, carry, templates, firstId);
  }

  class MonthDataService {
    /** The stored month records, in insertion order. */
    var months: seq<MonthData>
    /** The id generator: the next id it hands out. */
    var nextId: nat

    ghost predicate Valid()
      reads this
    {
      StoreOk(months, nextId)
    }

    constructor ()
      ensures Valid() && months == [] && nextId == 0
    {
      months := [];
      nextId := 0;
    }

    /** `getMonthById`. */
    method GetMonthById(monthId: Id) returns (r: Result<MonthData, LedgerError>)
      ensures r == GetMonth(months, monthId)
      ensures r.Ok? ==> r.value in months && r.value.id == monthId
      ensures r.Err? <==> forall j :: 0 <= j < |months| ==> months[j].id != monthId
    {
      var k := FindMonth(months, monthId);
      if k == -1 {
        return Err(MonthNotFound);
      }
      r := Ok(months[k]);
    }

    /**
     * `createMonth`: refuses a taken slot; carries a positive balance of the
     * month before; seeds one expense category per recurring template of the
     * user, newest template first; stores the month with its totals
     * recalculated.
     */
    method CreateMonth(userId: string, year: int, month: int, recurring: Recurring.RecurringExpenseService)
      returns (r: Result<MonthData, LedgerError>)
      requires Valid() && recurring.Valid()
      modifies this
      ensures Valid()
      ensures Outcome(r, months, nextId)
           == CreateMonthSpec(old(months), old(nextId), userId, year, month, Recurring.ListFor(recurring.rows, userId))
    {
      if FindSlot(months, userId, year, month) != -1 {
        return Err(MonthExists);
      }
      var templates := recurring.GetRecurringExpenses(userId);
      var record := BuildMonth(months, userId, year, month, templates, nextId);
      var created := RecalculateTotals(record);
      CreatedMonthOk(months, nextId, userId, year, month, templates, created);
      CreateMonthFree(months, nextId, userId, year, month, templates, created);
      nextId := created.id + 1;
      months := months + [created];
      r := Ok(created);
    }

    /**
     * `addIncomeEntry` and `addExpenseEntry`: the entry joins the first
     * category of that name, or a new category at the end.
     */
    method AddEntry(side: Side, monthId: Id, category: string, amount: int, note: string, tag: Option<Tag>)
      returns (r: Result<MonthData, LedgerError>)
      requires Valid()
      modifies this
      ensures Valid()
      ensures Outcome(r, months, nextId) == AddEntrySpec(old(months), old(nextId), side, monthId, category, amount, note, tag)
    {
      AddEntryOk(months, nextId, side, monthId, category, amount, note, tag);
      ghost var spec := AddEntrySpec(months, nextId, side, monthId, category, amount, note, tag);
      var k := FindMonth(months, monthId);
      if k == -1 {
        return Err(MonthNotFound);
      }
      var m := months[k];
      var cs := m.Categories(side);
      var index := FindByName(cs, category);
      var entry := NewEntry(side, nextId, amount, note, tag);
      ghost var added := AddToSide(cs, category, entry, nextId + 1);
      nextId := nextId + 1;
      if index != -1 {
        cs := cs[index := WithEntries(cs[index], cs[index].entries + [entry])];
      } else {
        assert NoteOr(entry.note, "No note") == NoteOr(note, "No note");
        cs := cs + [Category(nextId, category, amount, IntToString(amount) + "(" + NoteOr(note, "No note") + ")", [entry])];
        nextId := nextId + 1;
      }
      assert cs == added && nextId == spec.nextId;
      m := WithSide(m, side, cs);
      assert spec == Outcome(Ok(m), months[k := m], nextId);
      months := months[k := m];
      r := Ok(m);
    }

    method AddIncomeEntry(monthId: Id, category: string, amount: int, note: string)
      returns (r: Result<MonthData, LedgerError>)
      requires Valid()
      modifies this
      ensures Valid()
      ensures Outcome(r, months, nextId) == AddEntrySpec(old(months), old(nextId), Income, monthId, category, amount, note, None)
    {
      r := AddEntry(Income, monthId, category, amount, note, None);
    }

    method AddExpenseEntry(monthId: Id, category: string, amount: int, note: string, tag: Option<Tag>)
      returns (r: Result<MonthData, LedgerError>)
      requires Valid()
      modifies this
      ensures Valid()
      ensures Outcome(r, months, nextId) == AddEntrySpec(old(months), old(nextId), Expense, monthId, category, amount, note, tag)
    {
      r := AddEntry(Expense, monthId, category, amount, note, tag);
    }

    /**
     * `updateIncomeEntry` and `updateExpenseEntry`: walks the categories of
     * the side and rewrites the entry in the first one holding it.
     */
    method UpdateEntry(side: Side, entryId: Id, monthId: Id, amount: int, note: string, tag: Option<Tag>)
      returns (r: Result<MonthData, LedgerError>)
      requires Valid()
      modifies this
      ensures Valid()
      ensures Outcome(r, months, nextId) == UpdateEntrySpec(old(months), old(nextId), side, entryId, monthId, amount, note, tag)
    {
      UpdateEntryOk(months, nextId, side, entryId, monthId, amount, note, tag);
      var k := FindMonth(months, monthId);
      if k == -1 {
        return Err(MonthNotFound);
      }
      var m := months[k];
      var found, cs := RewriteEntry(side, m.Categories(side), entryId, amount, NoteOr(note, ""), tag);
      if !found {
        return Err(EntryNotFound);
      }
      m := WithSide(m, side, cs);
      months := months[k := m];
      r := Ok(m);
    }

    method UpdateIncomeEntry(entryId: Id, monthId: Id, amount: int, note: string)
      returns (r: Result<MonthData, LedgerError>)
      requires Valid()
      modifies this
      ensures Valid()
      ensures Outcome(r, months, nextId) == UpdateEntrySpec(old(months), old(nextId), Income, entryId, monthId, amount, note, None)
    {
      r := UpdateEntry(Income, entryId, monthId, amount, note, None);
    }

    method UpdateExpenseEntry(entryId: Id, monthId: Id, amount: int, note: string, tag: Option<Tag>)
      returns (r: Result<MonthData, LedgerError>)
      requires Valid()
      modifies this
      ensures Valid()
      ensures Outcome(r, months, nextId) == UpdateEntrySpec(old(months), old(nextId), Expense, entryId, monthId, amount, note, tag)
    {
      r := UpdateEntry(Expense, entryId, monthId, amount, note, tag);
    }

    /**
     * `deleteIncomeEntry` and `deleteExpenseEntry`: walks the categories of
     * the side and splices the entry out of the first one holding it,
     * filtering that category away when it is left empty.
     */
    method DeleteEntry(side: Side, entryId: Id, monthId: Id) returns (r: Result<MonthData, LedgerError>)
      requires Valid()
      modifies this
      ensures Valid()
      ensures Outcome(r, months, nextId) == DeleteEntrySpec(old(months), old(nextId), side, entryId, monthId)
    {
      DeleteEntryOk(months, nextId, side, entryId, monthId);
      var k := FindMonth(months, monthId);
      if k == -1 {
        return Err(MonthNotFound);
      }
      var m := months[k];
      var found, cs := SpliceEntry(m.Categories(side), entryId);
      if !found {
        return Err(EntryNotFound);
      }
      m := WithSide(m, side, cs);
      months := months[k := m];
      r := Ok(m);
    }

    method DeleteIncomeEntry(entryId: Id, monthId: Id) returns (r: Result<MonthData, LedgerError>)
      requires Valid()
      modifies this
      ensures Valid()
      ensures Outcome(r, months, nextId) == DeleteEntrySpec(old(months), old(nextId), Income, entryId, monthId)
    {
      r := DeleteEntry(Income, entryId, monthId);
    }

    method DeleteExpenseEntry(entryId: Id, monthId: Id) returns (r: Result<MonthData, LedgerError>)
      requires Valid()
      modifies this
      ensures Valid()
      ensures Outcome(r, months, nextId) == DeleteEntrySpec(old(months), old(nextId), Expense, entryId, monthId)
    {
      r := DeleteEntry(Expense, entryId, monthId);
    }

    /** `deleteIncomeCategory` and `deleteExpenseCategory`. */
    method DeleteCategory(side: Side, categoryId: Id, monthId: Id) returns (r: Result<MonthData, LedgerError>)
      requires Valid()
      modifies this
      ensures Valid()
      ensures Outcome(r, months, nextId) == DeleteCategorySpec(old(months), old(nextId), side, categoryId, monthId)
    {
      DeleteCategoryOk(months, nextId, side, categoryId, monthId);
      var k := FindMonth(months, monthId);
      if k == -1 {
        return Err(MonthNotFound);
      }
      var m := months[k];
      m := WithSide(m, side, RemoveCategory(m.Categories(side), categoryId));
      months := months[k := m];
      r := Ok(m);
    }

    method DeleteIncomeCategory(incomeId: Id, monthId: Id) returns (r: Result<MonthData, LedgerError>)
      requires Valid()
      modifies this
      ensures Valid()
      ensures Outcome(r, months, nextId) == DeleteCategorySpec(old(months), old(nextId), Income, incomeId, monthId)
    {
      r := DeleteCategory(Income, incomeId, monthId);
    }

    method DeleteExpenseCategory(expenseId: Id, monthId: Id) returns (r: Result<MonthData, LedgerError>)
      requires Valid()
      modifies this
      ensures Valid()
      ensures Outcome(r, months, nextId) == DeleteCategorySpec(old(months), old(nextId), Expense, expenseId, monthId)
    {
      r := DeleteCategory(Expense, expenseId, monthId);
    }
  }
}
