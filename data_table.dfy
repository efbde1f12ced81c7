/** The generic data table (apps/frontend/src/components/data-table.tsx):
    which filter chips show, what clearing one sends, row keys, and when
    the pagination bar and the empty box appear. */
module DataTable {
  import opened Wrappers
  import opened Strings

  /** A column header: text, a render function, another node, or none. */
  datatype Header = TextHeader(text: string) | FunctionHeader | NodeHeader | NoHeader

  /** The part of a column definition the table reads; `enableFilter`
      missing is `false`. */
  datatype Column = Column(enableFilter: bool, filterName: Option<string>, header: Header)

  /** `searchParams.get(name)`: `None` for null. */
  type SearchParams = string -> Option<string>

  predicate Truthy(s: Option<string>) {
    s.Some? && s.value != ""
  }

  /** The filter test of lines 92-95. */
  predicate Active(col: Column, params: SearchParams) {
    col.enableFilter && Truthy(col.filterName) && Truthy(params(col.filterName.value))
  }

  /** A chip: its caption, the parameter name and its value. */
  datatype Filter = Filter(caption: string, name: string, value: string)

  /** Lines 96-100: the caption is a text header, else the filter name. */
  function FilterOf(col: Column, params: SearchParams): (f: Filter)
    requires Active(col, params)
    ensures f.name == col.filterName.value && f.value == params(col.filterName.value).value
    ensures col.header.TextHeader? ==> f.caption == col.header.text
    ensures !col.header.TextHeader? ==> f.caption == col.filterName.value
  {
    var name := col.filterName.value;
    Filter(if col.header.TextHeader? then col.header.text else name, name, params(name).value)
  }

  /** `activeFilters` (lines 91-100), in column order. */
  function ActiveFilters(columns: seq<Column>, params: SearchParams): (r: seq<Filter>)
    ensures |r| <= |columns|
  {
    if columns == [] then []
    else
      var rest := ActiveFilters(columns[1..], params);
      if Active(columns[0], params) then [FilterOf(columns[0], params)] + rest else rest
  }

  /** Every chip comes from an active column, and every active column has
      its chip; `ActiveFiltersInOrder` gives their order. */
  lemma {:induction false} ActiveFiltersExact(columns: seq<Column>, params: SearchParams)
    ensures forall f :: f in ActiveFilters(columns, params) <==>
              exists i :: 0 <= i < |columns| && Active(columns[i], params) && f == FilterOf(columns[i], params)
  {
    if columns != [] {
      ActiveFiltersExact(columns[1..], params);
      var r := ActiveFilters(columns, params);
      forall f
        ensures f in r <==> exists i :: 0 <= i < |columns| && Active(columns[i], params) && f == FilterOf(columns[i], params)
      {
        if exists i :: 0 <= i < |columns| && Active(columns[i], params) && f == FilterOf(columns[i], params) {
          var i :| 0 <= i < |columns| && Active(columns[i], params) && f == FilterOf(columns[i], params);
          if i > 0 {
            assert columns[1..][i - 1] == columns[i];
          }
        }
        if f in ActiveFilters(columns[1..], params) {
          var i :| 0 <= i < |columns[1..]| && Active(columns[1..][i], params) && f == FilterOf(columns[1..][i], params);
          assert columns[i + 1] == columns[1..][i];
        }
      }
    }
  }

  /** Chips keep column order: the chips of the columns `a` then `b` are
      those of `a` followed by those of `b`. */
  lemma {:induction false} ActiveFiltersInOrder(a: seq<Column>, b: seq<Column>, params: SearchParams)
    ensures ActiveFilters(a + b, params) == ActiveFilters(a, params) + ActiveFilters(b, params)
  {
    if a == [] {
      assert a + b == b;
    } else {
      assert (a + b)[0] == a[0] && (a + b)[1..] == a[1..] + b;
      ActiveFiltersInOrder(a[1..], b, params);
    }
  }

  /** The number of chips is the number of active columns. */
  function ActiveCount(columns: seq<Column>, params: SearchParams): nat {
    if columns == [] then 0 else (if Active(columns[0], params) then 1 else 0) + ActiveCount(columns[1..], params)
  }

  lemma {:induction false} ChipCount(columns: seq<Column>, params: SearchParams)
    ensures |ActiveFilters(columns, params)| == ActiveCount(columns, params)
  {
    if columns != [] {
      ChipCount(columns[1..], params);
    }
  }

  /** A handler the caller may leave out; a missing one becomes a no-op
      (lines 86-89). */
  datatype Handler<F> = NoOp | Call(f: F)

  function HandlerOf<F>(given: Option<F>): (h: Handler<F>)
    ensures given.None? <==> h.NoOp?
    ensures given.Some? ==> h == Call(given.value)
  {
    if given.Some? then Call(given.value) else NoOp
  }

  /** What clicking a chip does (line 122): `onClear?.({[name]: undefined})`
      calls the caller's own handler, if any, with that one key cleared. */
  datatype ClearCall = NoClear | Clear(data: map<string, Option<string>>)

  function ChipClick(hasOnClear: bool, f: Filter): (c: ClearCall)
    ensures c.Clear? <==> hasOnClear
    ensures c.Clear? ==> c.data.Keys == {f.name} && c.data[f.name].None?
  {
    if hasOnClear then Clear(map[f.name := None]) else NoClear
  }

  /** Line 177: the caller's key, or the row index in decimal. */
  function RowKey<T>(getRowKey: Option<T -> string>, row: T, index: nat): (key: string)
    ensures getRowKey.Some? ==> key == getRowKey.value(row)
    ensures getRowKey.None? ==> key == NatToDecimal(index)
  {
    if getRowKey.Some? then getRowKey.value(row) else NatToDecimal(index)
  }

  /** Default row keys are distinct, because decimal numerals are. */
  lemma DefaultKeysDistinct<T>(rowA: T, rowB: T, i: nat, j: nat)
    requires i != j
    ensures RowKey(None, rowA, i) != RowKey(None, rowB, j)
  {
    DecimalInjective(i, j);
  }

  lemma {:induction false} DecimalInjective(m: nat, n: nat)
    requires m != n
    ensures NatToDecimal(m) != NatToDecimal(n)
    decreases m + n
  {
    var a, b := NatToDecimal(m), NatToDecimal(n);
    if m < 10 && n < 10 {
      assert a[0] != b[0];
    } else if m < 10 {
      TwoDigits(n);
    } else if n < 10 {
      TwoDigits(m);
    } else if m % 10 != n % 10 {
      assert a[|a| - 1] == DigitChar(m % 10) && b[|b| - 1] == DigitChar(n % 10);
    } else {
      DecimalInjective(m / 10, n / 10);
      if |a| == |b| {
        assert a[..|a| - 1] == NatToDecimal(m / 10);
        assert b[..|b| - 1] == NatToDecimal(n / 10);
      }
    }
  }

  lemma TwoDigits(n: nat)
    requires n >= 10
    ensures |NatToDecimal(n)| >= 2
  {
  }

  /** The cursors of the current page; `None` is null or missing. */
  datatype PaginationMeta = PaginationMeta(nextPage: Option<string>, prevPage: Option<string>)

  /** Lines 198-217: once loading is over, the bar shows when either
      cursor is truthy. */
  predicate PaginationShown(p: Option<PaginationMeta>, loading: bool) {
    !loading && p.Some? && (Truthy(p.value.nextPage) || Truthy(p.value.prevPage))
  }

  datatype Direction = Prev | Next

  /** Lines 221-242: a link needs its cursor and the navigation callback;
      its target is what the callback returns. */
  function PageLink(p: Option<PaginationMeta>, navigate: Option<(Direction, string) -> string>, d: Direction)
    : (href: Option<string>)
    ensures href.Some? <==> navigate.Some? && p.Some? &&
                            Truthy(if d == Prev then p.value.prevPage else p.value.nextPage)
    ensures href.Some? ==> href.value == navigate.value(d, (if d == Prev then p.value.prevPage else p.value.nextPage).value)
  {
    if p.None? || navigate.None? then None
    else
      var cursor := if d == Prev then p.value.prevPage else p.value.nextPage;
      if Truthy(cursor) then Some(navigate.value(d, cursor.value)) else None
  }

  /** After loading, a link only ever appears inside a shown pagination
      bar. */
  lemma LinksNeedBar(p: Option<PaginationMeta>, navigate: Option<(Direction, string) -> string>, d: Direction)
    ensures PageLink(p, navigate, d).Some? ==> PaginationShown(p, false)
  {
  }

  /** Line 195: the empty box needs loaded data of length 0; null data
      shows nothing. */
  predicate EmptyBoxShown<T>(data: Option<seq<T>>) {
    data.Some? && |data.value| == 0
  }

  /** No data yet is not an empty result. */
  lemma EmptyBoxOnlyLoaded<T>(data: Option<seq<T>>)
    ensures !EmptyBoxShown<T>(None)
    ensures data.Some? ==> (EmptyBoxShown(data) <==> data.value == [])
  {
  }

  /** Lines 111 and 114: the bar above the table shows with a header or
      chips; the chips themselves wait for loading to finish. */
  function TopBar(hasHeader: bool, filters: seq<Filter>, loading: bool): (r: (bool, bool))
    ensures r.0 <==> hasHeader || |filters| > 0
    ensures r.1 ==> r.0
    ensures r.1 <==> |filters| > 0 && !loading
  {
    (hasHeader || |filters| > 0, |filters| > 0 && !loading)
  }
}
