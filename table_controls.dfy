/**
 * The table-controls hook of the client: a search box, per-column sort with
 * a three-click cycle, and multi-valued filters, turned into the rows a
 * table shows. Rows are JavaScript records, modelled as maps from property
 * name to a JavaScript value.
 */
module TableControls {
  import opened Wrappers
  import JsText
  import JsArray

  /** The JavaScript values a table row may hold. */
  datatype JsValue =
    | Undefined
    | Null
    | Bool(b: bool)
    | Num(n: real)
    | Str(s: string)
    | Arr(elems: seq<JsValue>)
    | Obj(props: map<string, JsValue>)

  /** A row of the table: a plain record. */
  type Row = map<string, JsValue>

  /** The active filters: for each filter key, the set of accepted values. */
  type Filters = map<string, set<JsValue>>

  datatype SortOrder = Asc | Desc

  /** `row[key]`: a missing property reads as `undefined`. */
  function Get(row: Row, key: string): JsValue {
    if key in row then row[key] else Undefined
  }

  /** `v[key]` on an array element: an object's property, `undefined` for anything else. */
  function Prop(v: JsValue, key: string): JsValue {
    if v.Obj? && key in v.props then v.props[key] else Undefined
  }

  /** JavaScript truthiness. */
  predicate Truthy(v: JsValue) {
    match v
    case Undefined => false
    case Null => false
    case Bool(b) => b
    case Num(n) => n != 0.0
    case Str(s) => s != ""
    case _ => true
  }

  // ---------------------------------------------------------------- search

  /** `text.toLowerCase().includes(query)`. */
  predicate TextMatches(text: string, query: string) {
    JsText.Includes(JsText.ToLowerCase(text), query)
  }

  /** An element of an array field matches if it is a matching string or has a matching `note`. */
  predicate ElementMatches(v: JsValue, query: string) {
    if v.Str? then TextMatches(v.s, query)
    else Prop(v, "note").Str? && TextMatches(Prop(v, "note").s, query)
  }

  /** A field matches if it is a matching string or an array with a matching element. */
  predicate FieldMatches(v: JsValue, query: string) {
    match v
    case Str(s) => TextMatches(s, query)
    case Arr(vs) => exists i :: 0 <= i < |vs| && ElementMatches(vs[i], query)
    case _ => false
  }

  /** The search applies only to a non-blank query and a non-empty list of search fields. */
  predicate SearchActive(query: string, fields: seq<string>) {
    JsText.Trim(query) != "" && |fields| > 0
  }

  /** Some search field of the row matches the lower-cased (untrimmed) query. */
  predicate RowMatches(row: Row, query: string, fields: seq<string>) {
    exists i :: 0 <= i < |fields| && FieldMatches(Get(row, fields[i]), JsText.ToLowerCase(query))
  }

  /** The search stage of `processedData`. */
  function Search(rows: seq<Row>, query: string, fields: seq<string>): seq<Row> {
    if SearchActive(query, fields) then JsArray.Filter(rows, (row: Row) => RowMatches(row, query, fields))
    else rows
  }

  /**
   * The rows the search keeps are the input rows that match; a blank query
   * or an empty field list keeps every row, in order.
   */
  lemma SearchSpec(rows: seq<Row>, query: string, fields: seq<string>)
    ensures !SearchActive(query, fields) ==> Search(rows, query, fields) == rows
    ensures SearchActive(query, fields) ==>
      forall row :: row in Search(rows, query, fields) <==> row in rows && RowMatches(row, query, fields)
    ensures JsArray.IsSubsequence(Search(rows, query, fields), rows)
  {
    var p := (row: Row) => RowMatches(row, query, fields);
    JsArray.FilterIsSubsequence(rows, p);
    if SearchActive(query, fields) {
      forall row ensures row in Search(rows, query, fields) <==> row in rows && RowMatches(row, query, fields) {
        JsArray.FilterMembership(rows, p, row);
      }
    } else {
      NoFilterIsSubsequence(rows);
    }
  }

  lemma {:induction false} NoFilterIsSubsequence(rows: seq<Row>)
    ensures JsArray.IsSubsequence(rows, rows)
  {
    if |rows| > 0 {
      NoFilterIsSubsequence(rows[1..]);
    }
  }

  /** The search ignores the case of the query: "GROC" and "groc" keep the same rows. */
  lemma SearchIgnoresCase(rows: seq<Row>, query: string, fields: seq<string>)
    ensures Search(rows, query, fields) == Search(rows, JsText.ToLowerCase(query), fields)
  {
    var lower := JsText.ToLowerCase(query);
    JsText.ToLowerCaseBlank(query);
    assert SearchActive(query, fields) == SearchActive(lower, fields);
    if SearchActive(query, fields) {
      var p := (row: Row) => RowMatches(row, query, fields);
      var q := (row: Row) => RowMatches(row, lower, fields);
      forall i | 0 <= i < |rows| ensures p(rows[i]) == q(rows[i]) {
        RowMatchesLower(rows[i], query, fields);
      }
      JsArray.FilterSame(rows, p, q);
    }
  }

  /** A row matches a query exactly when it matches the lower-cased query. */
  lemma RowMatchesLower(row: Row, query: string, fields: seq<string>)
    ensures RowMatches(row, query, fields) == RowMatches(row, JsText.ToLowerCase(query), fields)
  {
    JsText.ToLowerCaseIdempotent(query);
  }

  // ---------------------------------------------------------------- filters

  /** `entry[key] || entry.tag || "neutral"`: the value an entry offers to a filter. */
  function EntryFilterValue(entry: JsValue, key: string): JsValue {
    if Truthy(Prop(entry, key)) then Prop(entry, key)
    else if Truthy(Prop(entry, "tag")) then Prop(entry, "tag")
    else Str("neutral")
  }

  /**
   * One filter: a row with an `entries` array passes if some entry offers an
   * accepted value; any other row passes if its own value is accepted.
   */
  predicate PassesFilter(row: Row, key: string, accepted: set<JsValue>) {
    var entries := Get(row, "entries");
    if entries.Arr? then exists i :: 0 <= i < |entries.elems| && EntryFilterValue(entries.elems[i], key) in accepted
    else Get(row, key) in accepted
  }

  predicate PassesFilters(row: Row, filters: Filters) {
    forall key :: key in filters ==> PassesFilter(row, key, filters[key])
  }

  /** The filter stage of `processedData`. */
  function ApplyFilters(rows: seq<Row>, filters: Filters): seq<Row> {
    if |filters| > 0 then JsArray.Filter(rows, (row: Row) => PassesFilters(row, filters)) else rows
  }

  /** A row survives the filters iff it passes every active filter; no filter keeps every row. */
  lemma ApplyFiltersSpec(rows: seq<Row>, filters: Filters)
    ensures ApplyFilters(rows, filters) == JsArray.Filter(rows, (row: Row) => PassesFilters(row, filters))
    ensures forall row :: row in ApplyFilters(rows, filters) <==> row in rows && PassesFilters(row, filters)
    ensures filters == map[] ==> ApplyFilters(rows, filters) == rows
  {
    var p := (row: Row) => PassesFilters(row, filters);
    if |filters| == 0 {
      JsArray.FilterKeepsAll(rows, p);
    }
    forall row ensures row in ApplyFilters(rows, filters) <==> row in rows && PassesFilters(row, filters) {
      JsArray.FilterMembership(rows, p, row);
    }
  }

  /**
   * A row whose entries carry no value for the filter key is matched on
   * their tags, and an entry without a tag counts as neutral.
   */
  lemma EntriesFallBackToTag(row: Row, key: string, accepted: set<JsValue>)
    requires Get(row, "entries").Arr?
    requires forall i :: 0 <= i < |Get(row, "entries").elems| ==> !Truthy(Prop(Get(row, "entries").elems[i], key))
    ensures PassesFilter(row, key, accepted) <==>
      exists i :: 0 <= i < |Get(row, "entries").elems| &&
        (if Truthy(Prop(Get(row, "entries").elems[i], "tag")) then Prop(Get(row, "entries").elems[i], "tag") else Str("neutral")) in accepted
  {
  }

  // ---------------------------------------------------------------- sort

  /** The comparator of `processedData`: strings by `localeCompare`, numbers by difference, else a tie. */
  function CompareBy(a: Row, b: Row, key: string): real {
    var av := Get(a, key);
    var bv := Get(b, key);
    if av.Str? && bv.Str? then JsText.LocaleCompare(av.s, bv.s) as real
    else if av.Num? && bv.Num? then av.n - bv.n
    else 0.0
  }

  /** The comparator with the sort order applied: descending negates it. */
  function Comparator(a: Row, b: Row, key: string, order: SortOrder): real {
    if order == Asc then CompareBy(a, b, key) else -CompareBy(a, b, key)
  }

  /** Swapping the operands negates the comparator, whatever the row values are. */
  lemma ComparatorAntisymmetric(a: Row, b: Row, key: string, order: SortOrder)
    ensures Comparator(b, a, key, order) == -Comparator(a, b, key, order)
  {
    if Get(a, key).Str? && Get(b, key).Str? {
      JsText.LocaleCompareAntisymmetric(Get(a, key).s, Get(b, key).s);
    }
  }

  /** Every row is followed by one it does not compare after. */
  predicate SortedBy(rows: seq<Row>, key: string, order: SortOrder) {
    forall i :: 0 < i < |rows| ==> Comparator(rows[i - 1], rows[i], key, order) <= 0.0
  }

  /** Insertion of `x` before the first row it does not compare after. */
  function Insert(x: Row, rows: seq<Row>, key: string, order: SortOrder): (r: seq<Row>)
    ensures |r| == |rows| + 1
    ensures r[0] == x || (|rows| > 0 && r[0] == rows[0])
  {
    if |rows| == 0 then [x]
    else if Comparator(x, rows[0], key, order) > 0.0 then [rows[0]] + Insert(x, rows[1..], key, order)
    else [x] + rows
  }

  /** A stable sort by the comparator: `Array.prototype.sort` with it. */
  function SortRows(rows: seq<Row>, key: string, order: SortOrder): (r: seq<Row>)
    ensures |r| == |rows|
  {
    if |rows| == 0 then [] else Insert(rows[0], SortRows(rows[1..], key, order), key, order)
  }

  lemma {:induction false} InsertSorted(x: Row, rows: seq<Row>, key: string, order: SortOrder)
    requires SortedBy(rows, key, order)
    ensures SortedBy(Insert(x, rows, key, order), key, order)
  {
    if |rows| > 0 && Comparator(x, rows[0], key, order) > 0.0 {
      var rest := Insert(x, rows[1..], key, order);
      InsertSorted(x, rows[1..], key, order);
      ComparatorAntisymmetric(x, rows[0], key, order);
      var r := [rows[0]] + rest;
      assert Comparator(r[0], r[1], key, order) <= 0.0;
      forall i | 1 < i < |r| ensures Comparator(r[i - 1], r[i], key, order) <= 0.0 {
        assert r[i - 1] == rest[i - 2] && r[i] == rest[i - 1];
      }
    }
  }

  lemma {:induction false} InsertPermutes(x: Row, rows: seq<Row>, key: string, order: SortOrder)
    ensures multiset(Insert(x, rows, key, order)) == multiset(rows) + multiset{x}
  {
    if |rows| > 0 && Comparator(x, rows[0], key, order) > 0.0 {
      InsertPermutes(x, rows[1..], key, order);
      assert rows == [rows[0]] + rows[1..];
    }
  }

  /**
   * The sort returns the same rows, each row followed by one it does not
   * compare after. The order of the rows holds for any row values, mixed
   * types included, since the comparator is antisymmetric.
   */
  lemma {:induction false} SortRowsSpec(rows: seq<Row>, key: string, order: SortOrder)
    ensures SortedBy(SortRows(rows, key, order), key, order)
    ensures multiset(SortRows(rows, key, order)) == multiset(rows)
  {
    if |rows| > 0 {
      SortRowsSpec(rows[1..], key, order);
      InsertSorted(rows[0], SortRows(rows[1..], key, order), key, order);
      InsertPermutes(rows[0], SortRows(rows[1..], key, order), key, order);
      assert rows == [rows[0]] + rows[1..];
    }
  }

  // ---------------------------------------------------------------- pipeline

  /** `if (sortBy)`: an empty column name is falsy and disables sorting. */
  predicate SortActive(sortBy: Option<string>) {
    sortBy.Some? && sortBy.value != ""
  }

  /** `processedData`: search, then filters, then the sort. */
  function Process(data: seq<Row>, fields: seq<string>, query: string, sortBy: Option<string>,
                   order: SortOrder, filters: Filters): seq<Row>
  {
    var kept := ApplyFilters(Search(data, query, fields), filters);
    if SortActive(sortBy) then SortRows(kept, sortBy.value, order) else kept
  }

  /** Whether a row survives both the search and the filters. */
  predicate Keep(row: Row, fields: seq<string>, query: string, filters: Filters) {
    (!SearchActive(query, fields) || RowMatches(row, query, fields)) && PassesFilters(row, filters)
  }

  /**
   * The shown rows are exactly the input rows that match the search and
   * pass the filters. Without a sort they keep their input order; with one
   * they are the same rows, sorted by the comparator.
   */
  lemma ProcessSpec(data: seq<Row>, fields: seq<string>, query: string, sortBy: Option<string>,
                    order: SortOrder, filters: Filters)
    ensures var keep := (row: Row) => Keep(row, fields, query, filters);
      && multiset(Process(data, fields, query, sortBy, order, filters)) == multiset(JsArray.Filter(data, keep))
      && (!SortActive(sortBy) ==> Process(data, fields, query, sortBy, order, filters) == JsArray.Filter(data, keep))
      && (SortActive(sortBy) ==> SortedBy(Process(data, fields, query, sortBy, order, filters), sortBy.value, order))
    ensures forall row :: row in Process(data, fields, query, sortBy, order, filters) <==>
      row in data && Keep(row, fields, query, filters)
    ensures !SortActive(sortBy) ==> JsArray.IsSubsequence(Process(data, fields, query, sortBy, order, filters), data)
  {
    var keep := (row: Row) => Keep(row, fields, query, filters);
    var kept := ApplyFilters(Search(data, query, fields), filters);
    var shown := Process(data, fields, query, sortBy, order, filters);
    KeptRows(data, fields, query, filters);
    JsArray.FilterIsSubsequence(data, keep);
    if SortActive(sortBy) {
      SortRowsSpec(kept, sortBy.value, order);
      assert shown == SortRows(kept, sortBy.value, order);
      forall row ensures row in shown <==> row in kept {
        assert row in shown <==> row in multiset(shown);
      }
    }
    forall row ensures row in kept <==> row in data && Keep(row, fields, query, filters) {
      JsArray.FilterMembership(data, keep, row);
    }
  }

  /** The search and the filters together keep the rows satisfying both, in input order. */
  lemma KeptRows(data: seq<Row>, fields: seq<string>, query: string, filters: Filters)
    ensures ApplyFilters(Search(data, query, fields), filters) ==
      JsArray.Filter(data, (row: Row) => Keep(row, fields, query, filters))
  {
    var keep := (row: Row) => Keep(row, fields, query, filters);
    var s := (row: Row) => RowMatches(row, query, fields);
    var f := (row: Row) => PassesFilters(row, filters);
    var found := Search(data, query, fields);
    ApplyFiltersSpec(found, filters);
    assert ApplyFilters(found, filters) == JsArray.Filter(found, f);
    if SearchActive(query, fields) {
      assert found == JsArray.Filter(data, s);
      JsArray.FilterFilter(data, s, f, keep);
    } else {
      assert found == data;
      forall i | 0 <= i < |data| ensures f(data[i]) == keep(data[i]) {
      }
      JsArray.FilterSame(data, f, keep);
    }
  }

  /** `hasActiveFilters`: a non-blank query, any filter, or a sort column. */
  predicate Active(query: string, sortBy: Option<string>, filters: Filters) {
    JsText.Trim(query) != "" || |filters| > 0 || sortBy != None
  }

  /** When nothing is active, the table shows the data exactly as given. */
  lemma InactiveShowsData(data: seq<Row>, fields: seq<string>, query: string, sortBy: Option<string>,
                          order: SortOrder, filters: Filters)
    requires !Active(query, sortBy, filters)
    ensures Process(data, fields, query, sortBy, order, filters) == data
  {
    ApplyFiltersSpec(data, filters);
  }

  // ---------------------------------------------------------------- state transitions

  datatype SortState = SortState(sortBy: Option<string>, order: SortOrder)

  /**
   * `handleSort(column)`: a new column sorts ascending, a second click on it
   * sorts descending, and a third click clears the sort.
   */
  function SortStep(st: SortState, column: string): (r: SortState)
    ensures r.sortBy == Some(column) || r == SortState(None, Asc)
    ensures r.sortBy.None? <==> st.sortBy == Some(column) && st.order.Desc?
    ensures st.sortBy != Some(column) ==> r == SortState(Some(column), Asc)
  {
    if st.sortBy == Some(column) then
      if st.order == Asc then SortState(Some(column), Desc) else SortState(None, Asc)
    else SortState(Some(column), Asc)
  }

  /** Clicking one column over and over cycles through ascending, descending and unsorted. */
  lemma SortStepCycle(st: SortState, column: string)
    ensures var r := SortStep(st, column);
      SortStep(SortStep(SortStep(r, column), column), column) == r
  {
  }

  /** Filters as `toggleFilter` leaves them: no key maps to an empty set. */
  predicate NoEmptySets(filters: Filters) {
    forall key :: key in filters ==> filters[key] != {}
  }

  /** The values accepted under a key; an absent key accepts nothing. */
  function AcceptedUnder(filters: Filters, key: string): set<JsValue> {
    if key in filters then filters[key] else {}
  }

  /**
   * `toggleFilter(key, value)`: flips whether `value` is accepted under
   * `key`, dropping the key when its set becomes empty.
   */
  function Toggle(filters: Filters, key: string, value: JsValue): (r: Filters)
    ensures NoEmptySets(filters) ==> NoEmptySets(r)
    ensures forall k :: k != key ==> (k in r <==> k in filters) && (k in r ==> r[k] == filters[k])
    ensures forall v :: v in AcceptedUnder(r, key) <==> (if v == value then v !in AcceptedUnder(filters, key) else v in AcceptedUnder(filters, key))
    ensures key in r <==> AcceptedUnder(r, key) != {}
  {
    var current := AcceptedUnder(filters, key);
    var next := if value in current then current - {value} else current + {value};
    if |next| == 0 then filters - {key} else filters[key := next]
  }

  /** Toggling the same value twice restores the filters. */
  lemma ToggleTwice(filters: Filters, key: string, value: JsValue)
    requires NoEmptySets(filters)
    ensures Toggle(Toggle(filters, key, value), key, value) == filters
  {
    var once := Toggle(filters, key, value);
    var r := Toggle(once, key, value);
    var accepted := AcceptedUnder(filters, key);
    assert AcceptedUnder(r, key) == accepted by {
      forall v ensures v in AcceptedUnder(r, key) <==> v in accepted {
        assert v in AcceptedUnder(once, key) <==> (if v == value then v !in accepted else v in accepted);
      }
    }
    forall k ensures k in r <==> k in filters {
      if k == key {
        assert key in filters <==> accepted != {};
      }
    }
    assert r.Keys == filters.Keys;
    forall k | k in r ensures r[k] == filters[k] {
      if k == key {
        assert r[k] == AcceptedUnder(r, key);
      }
    }
  }

  /** `initialSortBy || null`: a missing or empty initial column means no sort. */
  function InitialSort(initialSortBy: Option<string>): (r: Option<string>)
    ensures r.None? || (r == initialSortBy && r.value != "")
    ensures initialSortBy.Some? && initialSortBy.value != "" ==> r == initialSortBy
  {
    if initialSortBy.Some? && initialSortBy.value == "" then None else initialSortBy
  }

  /** The state the hook keeps between renders. */
  class TableState {
    var searchQuery: string
    var sortBy: Option<string>
    var sortOrder: SortOrder
    var filters: Filters

    ghost predicate Valid()
      reads this
    {
      NoEmptySets(filters)
    }

    /**
     * The hook's initial state. The hook's defaults (`initialSortOrder`
     * "asc", `searchFields` []) are left to the caller: the order is passed
     * explicitly here, and the search fields are an argument of `ProcessedData`.
     */
    constructor (initialSortBy: Option<string>, initialSortOrder: SortOrder)
      ensures Valid()
      ensures searchQuery == "" && sortBy == InitialSort(initialSortBy) && sortOrder == initialSortOrder
      ensures filters == map[]
    {
      searchQuery := "";
      sortBy := InitialSort(initialSortBy);
      sortOrder := initialSortOrder;
      filters := map[];
    }

    /** `setSearchQuery`. */
    method SetSearchQuery(query: string)
      requires Valid()
      modifies this
      ensures Valid()
      ensures searchQuery == query
      ensures sortBy == old(sortBy) && sortOrder == old(sortOrder) && filters == old(filters)
    {
      searchQuery := query;
    }

    /**
     * `handleSort(column)`: the sort column is set first, then the order is
     * advanced; leaving descending on the same column clears the column again.
     */
    method HandleSort(column: string)
      requires Valid()
      modifies this
      ensures Valid()
      ensures SortState(sortBy, sortOrder) == SortStep(SortState(old(sortBy), old(sortOrder)), column)
      ensures searchQuery == old(searchQuery) && filters == old(filters)
    {
      var prev := sortBy;
      var reset := false;
      if prev == Some(column) {
        if sortOrder == Asc {
          sortOrder := Desc;
        } else {
          reset := true;
          sortOrder := Asc;
        }
      } else {
        sortOrder := Asc;
      }
      sortBy := Some(column);
      if reset {
        sortBy := None;
      }
    }

    /** `toggleFilter(key, value)`. */
    method ToggleFilter(key: string, value: JsValue)
      requires Valid()
      modifies this
      ensures Valid()
      ensures filters == Toggle(old(filters), key, value)
      ensures searchQuery == old(searchQuery) && sortBy == old(sortBy) && sortOrder == old(sortOrder)
    {
      var accepted := AcceptedUnder(filters, key);
      if value in accepted {
        accepted := accepted - {value};
      } else {
        accepted := accepted + {value};
      }
      if |accepted| == 0 {
        filters := filters - {key};
      } else {
        filters := filters[key := accepted];
      }
    }

    /** `clearFilters`: empties the query and the filters and clears the sort. */
    method ClearFilters()
      requires Valid()
      modifies this
      ensures Valid()
      ensures searchQuery == "" && sortBy == None && sortOrder == Asc && filters == map[]
      ensures !HasActiveFilters()
    {
      searchQuery := "";
      sortBy := None;
      sortOrder := Asc;
      filters := map[];
    }

    /** `processedData` for the current state. */
    function ProcessedData(data: seq<Row>, fields: seq<string>): (r: seq<Row>)
      reads this
      ensures forall row :: row in r <==> row in data && Keep(row, fields, searchQuery, filters)
      ensures SortActive(sortBy) ==> SortedBy(r, sortBy.value, sortOrder)
      ensures !SortActive(sortBy) ==> JsArray.IsSubsequence(r, data)
    {
      ProcessSpec(data, fields, searchQuery, sortBy, sortOrder, filters);
      Process(data, fields, searchQuery, sortBy, sortOrder, filters)
    }

    /** `hasActiveFilters`. */
    predicate HasActiveFilters()
      reads this
    {
      Active(searchQuery, sortBy, filters)
    }
  }
}
