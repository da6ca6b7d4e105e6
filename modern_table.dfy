/** The headless state logic of the `ModernTable` data grid: derived selection
    flags and the tri-state header checkbox, the select-all and select-row id
    lists, the two-state sort toggle, the view-mode/density override, column
    visibility, per-row action menus, the bulk-action payload and the choice
    of what the body renders.

    The grid is a controlled component: `data`, `selectedRows`, `sortState`
    and `columns` belong to the caller and appear here as parameters and
    results. The grid never sorts or searches rows itself; it only hands a new
    `SortState` to `onSort`, and renders `data` in the order it is given.
    Its own state (`viewMode`, `density`, `visibleColumns`,
    `showRowHighlight`) is the class `TableView`. */
module ModernTable {
  import opened Optional
  import opened Seqs

  datatype ViewMode = Table | Card | Compact
  datatype Density = Comfortable | Dense
  datatype Direction = Asc | Desc

  /** `SortState`: the type allows a null column; the grid itself never emits one. */
  datatype SortState = SortState(column: Option<string>, direction: Direction)

  datatype Column = Column(id: string, header: string, sortable: bool)

  /** `RowHighlight`, with `NoHighlight` for `null`. */
  datatype Highlight = Warning | Danger | Success | Info | New | NoHighlight

  /** A `RowAction<T>`: `divider` and `hidden` are optional in the source. */
  datatype RowAction<!T> = RowAction(id: string, divider: Option<bool>, hidden: Option<T -> bool>)

  // ---------------------------------------------------------------------------
  // Selection
  // ---------------------------------------------------------------------------

  /** `allSelected`: compares counts, not identities. */
  predicate AllSelected(dataLen: nat, selected: seq<string>) {
    dataLen > 0 && |selected| == dataLen
  }

  /** `someSelected` */
  predicate SomeSelected(dataLen: nat, selected: seq<string>) {
    |selected| > 0 && |selected| < dataLen
  }

  datatype CheckState = Checked | Unchecked | Indeterminate

  /** The header checkbox: `someSelected ? 'indeterminate' : allSelected`. */
  function HeaderCheckbox(dataLen: nat, selected: seq<string>): (c: CheckState)
    ensures !(AllSelected(dataLen, selected) && SomeSelected(dataLen, selected))
    ensures c == Indeterminate <==> SomeSelected(dataLen, selected)
    ensures c == Checked <==> AllSelected(dataLen, selected)
    ensures c == Unchecked <==> selected == [] || |selected| > dataLen || dataLen == 0
  {
    if SomeSelected(dataLen, selected) then Indeterminate
    else if AllSelected(dataLen, selected) then Checked
    else Unchecked
  }

  /** `data.map(keyExtractor)` */
  function Keys<T>(data: seq<T>, key: T -> string): (ks: seq<string>)
    ensures |ks| == |data|
    ensures forall i :: 0 <= i < |data| ==> ks[i] == key(data[i])
  {
    seq(|data|, i requires 0 <= i < |data| => key(data[i]))
  }

  /** `handleSelectAll(checked)`: the id list handed to `onSelectionChange`.
      Checking selects every row of `data`, in data order, and the header then
      shows checked; unchecking clears the selection. */
  function SelectAll<T>(data: seq<T>, key: T -> string, checked: bool): (ids: seq<string>)
    ensures checked ==> |ids| == |data|
    ensures checked ==> forall i :: 0 <= i < |data| ==> ids[i] == key(data[i])
    ensures checked && |data| > 0 ==> HeaderCheckbox(|data|, ids) == Checked
    ensures !checked ==> ids == [] && HeaderCheckbox(|data|, ids) == Unchecked
  {
    if checked then Keys(data, key) else []
  }

  /** The list update shared by row selection and column visibility:
      checking appends the id at the end (no duplicate check), unchecking
      removes every occurrence and keeps the other ids, each as often as
      before, in their order (`Filter` with `FilterAtPositions`). */
  function SetChecked(ids: seq<string>, id: string, checked: bool): (r: seq<string>)
    ensures checked ==> |r| == |ids| + 1 && r[..|ids|] == ids && r[|ids|] == id
    ensures !checked ==> r == Filter(ids, x => x != id)
    ensures !checked ==> multiset(r) == multiset(ids)[id := 0]
    ensures !checked ==> id !in r && |r| <= |ids|
    ensures !checked ==> forall i :: 0 <= i < |ids| && ids[i] != id ==> ids[i] in r
    ensures !checked ==> forall i :: 0 <= i < |r| ==> r[i] in ids
  {
    if checked then ids + [id]
    else
      FilterMultiset(ids, x => x != id);
      Filter(ids, x => x != id)
  }

  /** `handleSelectRow(id, checked)`: the id list handed to `onSelectionChange`.
      Checking appends the id after the current selection; unchecking drops
      every copy of it and keeps the others, in order and with their copies. */
  function SelectRow(selected: seq<string>, id: string, checked: bool): (ids: seq<string>)
    ensures checked ==> ids == selected + [id]
    ensures !checked ==> ids == Filter(selected, x => x != id)
    ensures !checked ==> multiset(ids) == multiset(selected)[id := 0]
    ensures checked ==> id in ids && |ids| == |selected| + 1
    ensures !checked ==> id !in ids
    ensures forall x :: x in selected && x != id ==> x in ids
  {
    SetChecked(selected, id, checked)
  }

  /** Unchecking a row that was just checked restores the previous selection. */
  lemma {:induction false} SelectRowRoundTrip(selected: seq<string>, id: string)
    requires id !in selected
    ensures SelectRow(SelectRow(selected, id, true), id, false) == selected
  {
    var neq := x => x != id;
    FilterConcat(selected, [id], neq);
    FilterAll(selected, neq);
    assert Filter([id], neq) == [];
  }

  /** Unchecking a row twice is unchecking it once. */
  lemma {:induction false} DeselectIdempotent(selected: seq<string>, id: string)
    ensures SelectRow(SelectRow(selected, id, false), id, false) == SelectRow(selected, id, false)
  {
    var once := SelectRow(selected, id, false);
    FilterAll(once, x => x != id);
  }

  /** While the selection holds each row's id at most once and only ids of the
      current rows (which the grid never checks), the count-based flags mean
      what they say: all rows are selected exactly when `allSelected`. */
  lemma {:induction false} AllSelectedMeansEveryRow<T>(data: seq<T>, key: T -> string, selected: seq<string>)
    requires Distinct(Keys(data, key)) && Distinct(selected)
    requires forall i :: 0 <= i < |selected| ==> selected[i] in Keys(data, key)
    ensures AllSelected(|data|, selected) <==> |data| > 0 && forall i :: 0 <= i < |data| ==> key(data[i]) in selected
  {
    var ks := Keys(data, key);
    DistinctCard(ks);
    DistinctCard(selected);
    assert Elems(selected) <= Elems(ks);
    if |selected| == |data| {
      SubsetSameCard(Elems(selected), Elems(ks));
      forall i | 0 <= i < |data| ensures key(data[i]) in selected {
        assert ks[i] in Elems(ks);
      }
    }
    if forall i :: 0 <= i < |data| ==> key(data[i]) in selected {
      forall x | x in Elems(ks) ensures x in Elems(selected) {
        var i :| 0 <= i < |ks| && ks[i] == x;
        assert key(data[i]) in selected;
      }
      assert Elems(ks) == Elems(selected);
    }
  }

  /** Ids left over from an earlier data set make the header show "checked"
      although no current row is selected. */
  lemma StaleSelectionShowsChecked()
    ensures var data := ["c", "d"];
            var selected := ["a", "b"];
            HeaderCheckbox(|data|, selected) == Checked &&
            forall i :: 0 <= i < |data| ==> data[i] !in selected
  {
  }

  // ---------------------------------------------------------------------------
  // Sorting
  // ---------------------------------------------------------------------------

  function Flip(d: Direction): Direction {
    if d == Asc then Desc else Asc
  }

  /** `handleSort(columnId)`: the state handed to `onSort`, or nothing at all
      when no `onSort` is given. A column other than the active one starts
      ascending; the active column flips its direction. */
  function NextSort(hasOnSort: bool, current: Option<SortState>, columnId: string): (r: Option<SortState>)
    ensures r.None? <==> !hasOnSort
    ensures r.Some? ==> r.value.column == Some(columnId)
    ensures r.Some? && current.Some? && current.value.column == Some(columnId) ==>
              r.value.direction == Flip(current.value.direction)
    ensures r.Some? && !(current.Some? && current.value.column == Some(columnId)) ==>
              r.value.direction == Asc
  {
    if !hasOnSort then None
    else if current.Some? && current.value.column == Some(columnId) then
      Some(SortState(Some(columnId), Flip(current.value.direction)))
    else Some(SortState(Some(columnId), Asc))
  }

  /** A click on a column header: only a sortable column calls `handleSort`,
      so a click elsewhere hands nothing to `onSort`. */
  function HeaderClick(hasOnSort: bool, current: Option<SortState>, column: Column): (r: Option<SortState>)
    ensures r.Some? <==> column.sortable && hasOnSort
    ensures r.Some? ==> r.value.column == Some(column.id)
    ensures r.Some? ==> r == NextSort(hasOnSort, current, column.id)
  {
    if column.sortable then NextSort(hasOnSort, current, column.id) else None
  }

  /** The sort state after `k` clicks on one column header, when the caller
      feeds every emitted state straight back in as `sortState`. */
  function Clicks(current: Option<SortState>, columnId: string, k: nat): Option<SortState> {
    if k == 0 then current else NextSort(true, Clicks(current, columnId, k - 1), columnId)
  }

  /** Repeated clicks on a column that was not active alternate ascending and
      descending forever: there is no third "unsorted" state, and the column
      is never cleared. */
  lemma {:induction false} ClicksAlternate(current: Option<SortState>, columnId: string, k: nat)
    requires !(current.Some? && current.value.column == Some(columnId))
    requires k >= 1
    ensures Clicks(current, columnId, k) == Some(SortState(Some(columnId), if k % 2 == 1 then Asc else Desc))
  {
    if k > 1 {
      ClicksAlternate(current, columnId, k - 1);
    }
  }

  /** Two clicks on the active column restore the original state. */
  lemma SortTwiceRestores(current: SortState, columnId: string)
    requires current.column == Some(columnId)
    ensures Clicks(Some(current), columnId, 2) == Some(current)
  {
    assert Clicks(Some(current), columnId, 0) == Some(current);
    var once := Clicks(Some(current), columnId, 1);
    assert once == NextSort(true, Some(current), columnId);
    assert Clicks(Some(current), columnId, 2) == NextSort(true, once, columnId);
  }

  // ---------------------------------------------------------------------------
  // Columns
  // ---------------------------------------------------------------------------

  /** `columns.map(c => c.id)`: the initial visible set. */
  function ColumnIds(columns: seq<Column>): (ids: seq<string>)
    ensures |ids| == |columns|
    ensures forall i :: 0 <= i < |columns| ==> ids[i] == columns[i].id
  {
    seq(|columns|, i requires 0 <= i < |columns| => columns[i].id)
  }

  /** `columns.filter(col => visibleColumns.includes(col.id))`: the data
      columns a row and the header render. The k-th rendered column is the
      column at the k-th visible position of the definition list, so they
      come in definition order, each once per definition. */
  function DataColumns(columns: seq<Column>, visible: seq<string>): (r: seq<Column>)
    ensures forall i :: 0 <= i < |r| ==> r[i] in columns && r[i].id in visible
    ensures forall i :: 0 <= i < |columns| && columns[i].id in visible ==> columns[i] in r
    ensures var shown := (c: Column) => c.id in visible;
            |r| == |Positions(columns, shown, 0)| &&
            forall k :: 0 <= k < |r| ==> r[k] == columns[Positions(columns, shown, 0)[k]]
  {
    FilterAtPositions(columns, (c: Column) => c.id in visible);
    Filter(columns, (c: Column) => c.id in visible)
  }

  /** The rendered columns depend only on which ids are visible, not on the
      order in which they were toggled on. */
  lemma {:induction false} DataColumnsIgnoreToggleOrder(columns: seq<Column>, v1: seq<string>, v2: seq<string>)
    requires Elems(v1) == Elems(v2)
    ensures DataColumns(columns, v1) == DataColumns(columns, v2)
  {
    forall i | 0 <= i < |columns|
      ensures (columns[i].id in v1) == (columns[i].id in v2)
    {
      assert columns[i].id in v1 <==> columns[i].id in Elems(v1);
      assert columns[i].id in v2 <==> columns[i].id in Elems(v2);
    }
    FilterCongruent(columns, (c: Column) => c.id in v1, (c: Column) => c.id in v2);
  }

  /** Initially every column is rendered, in definition order. */
  lemma {:induction false} AllColumnsInitiallyVisible(columns: seq<Column>)
    ensures DataColumns(columns, ColumnIds(columns)) == columns
  {
    var ids := ColumnIds(columns);
    forall i | 0 <= i < |columns| ensures columns[i].id in ids {
      assert ids[i] == columns[i].id;
    }
    FilterAll(columns, (c: Column) => c.id in ids);
  }

  // ---------------------------------------------------------------------------
  // Row actions and bulk actions
  // ---------------------------------------------------------------------------

  /** `action.divider ?? !action.hidden?.(row)`: a divider entry is kept when
      `divider` is true, dropped when it is false; an entry without `divider`
      is kept unless its `hidden` returns true for the row. */
  predicate ShownInMenu<T>(a: RowAction<T>, row: T) {
    match a.divider
    case Some(d) => d
    case None => a.hidden.None? || !a.hidden.value(row)
  }

  /** The row's dropdown menu, as positions in the (unchanged) action list:
      exactly the shown entries, in list order. An entry whose `divider` is
      true renders as a separator. */
  function RowMenu<T>(actions: seq<RowAction<T>>, row: T): (idx: seq<nat>)
    ensures forall k :: 0 <= k < |idx| ==> idx[k] < |actions| && ShownInMenu(actions[idx[k]], row)
    ensures forall k, l :: 0 <= k < l < |idx| ==> idx[k] < idx[l]
    ensures forall i :: 0 <= i < |actions| ==> (i in idx <==> ShownInMenu(actions[i], row))
  {
    PositionsComplete(actions, (a: RowAction<T>) => ShownInMenu(a, row), 0);
    Positions(actions, (a: RowAction<T>) => ShownInMenu(a, row), 0)
  }

  /** An entry with `divider: false` never shows: `??` only falls back on
      `hidden` when `divider` is absent. */
  lemma DividerFalseDropped<T>(actions: seq<RowAction<T>>, row: T, i: nat)
    requires i < |actions| && actions[i].divider == Some(false)
    ensures i !in RowMenu(actions, row)
  {
  }

  /** The rows handed to a bulk action:
      `data.filter(row => selectedRows.includes(keyExtractor(row)))`. The k-th
      row handed over is the row at the k-th selected position of `data`:
      data order, one entry per matching row. */
  function BulkPayload<T>(data: seq<T>, key: T -> string, selected: seq<string>): (rows: seq<T>)
    ensures |rows| <= |data|
    ensures forall i :: 0 <= i < |rows| ==> rows[i] in data && key(rows[i]) in selected
    ensures forall i :: 0 <= i < |data| && key(data[i]) in selected ==> data[i] in rows
    ensures var picked := (row: T) => key(row) in selected;
            |rows| == |Positions(data, picked, 0)| &&
            forall k :: 0 <= k < |rows| ==> rows[k] == data[Positions(data, picked, 0)[k]]
  {
    FilterAtPositions(data, (row: T) => key(row) in selected);
    Filter(data, (row: T) => key(row) in selected)
  }

  /** Filtering rows by their key and then taking keys is taking keys and then filtering them. */
  lemma KeysOfFilter<T>(data: seq<T>, key: T -> string, selected: seq<string>)
    ensures Keys(BulkPayload(data, key, selected), key) == Filter(Keys(data, key), k => k in selected)
  {
    KeysOfPicked(data, key, selected);
  }

  lemma {:induction false} KeysOfPicked<T>(data: seq<T>, key: T -> string, selected: seq<string>)
    ensures Keys(Filter(data, (row: T) => key(row) in selected), key) == Filter(Keys(data, key), k => k in selected)
  {
    if data != [] {
      KeysOfPicked(data[1..], key, selected);
      var ks := Keys(data, key);
      assert ks[0] == key(data[0]) && ks[1..] == Keys(data[1..], key);
      var rest := Filter(data[1..], (row: T) => key(row) in selected);
      if key(data[0]) in selected {
        KeysCons(data[0], rest, key);
      }
    }
  }

  /** The keys of a row followed by more rows. */
  lemma KeysCons<T>(row: T, rows: seq<T>, key: T -> string)
    ensures Keys([row] + rows, key) == [key(row)] + Keys(rows, key)
  {
    var l := Keys([row] + rows, key);
    forall i | 0 <= i < |l| ensures l[i] == ([key(row)] + Keys(rows, key))[i] {
      if i > 0 { assert ([row] + rows)[i] == rows[i - 1]; }
    }
  }

  /** A sub-sequence chosen by a filter keeps distinctness. */
  lemma {:induction false} FilterDistinct(s: seq<string>, p: string -> bool)
    requires Distinct(s)
    ensures Distinct(Filter(s, p))
  {
    if s != [] {
      FilterDistinct(s[1..], p);
      assert s[0] !in s[1..];
      assert s[0] !in Filter(s[1..], p);
    }
  }

  /** With unique row ids and a consistent selection, a bulk action receives
      exactly as many rows as the bar's "N selected" label counts. */
  lemma {:induction false} BulkPayloadSize<T>(data: seq<T>, key: T -> string, selected: seq<string>)
    requires Distinct(Keys(data, key)) && Distinct(selected)
    requires forall i :: 0 <= i < |selected| ==> selected[i] in Keys(data, key)
    ensures |BulkPayload(data, key, selected)| == |selected|
  {
    var ks := Keys(data, key);
    var picked := Filter(ks, k => k in selected);
    KeysOfFilter(data, key, selected);
    FilterDistinct(ks, k => k in selected);
    DistinctCard(picked);
    DistinctCard(selected);
    forall x | x in Elems(selected) ensures x in Elems(picked) {
      var i :| 0 <= i < |selected| && selected[i] == x;
      var j :| 0 <= j < |ks| && ks[j] == x;
      assert ks[j] in picked;
    }
    assert Elems(picked) == Elems(selected);
  }

  /** The bulk bar exists only while something is selected and bulk actions are given. */
  predicate BulkBarShown(selected: seq<string>, hasBulkActions: bool) {
    |selected| > 0 && hasBulkActions
  }

  // ---------------------------------------------------------------------------
  // The grid's own state
  // ---------------------------------------------------------------------------

  /** What the body of the grid renders. */
  datatype Body = LoadingSkeleton | EmptyState | CardGrid | TableRows(density: Density)

  /** The state `ModernTable` keeps for itself (`useState`). */
  class TableView {
    var viewMode: ViewMode
    var density: Density
    var visibleColumns: seq<string>
    var showRowHighlight: bool

    /** Mount: table view, comfortable density, every column of the initial
        column list visible, highlighting as `enableRowHighlight` says. */
    constructor (columns: seq<Column>, enableRowHighlight: bool)
      ensures viewMode == Table && density == Comfortable
      ensures visibleColumns == ColumnIds(columns)
      ensures showRowHighlight == enableRowHighlight
    {
      viewMode := Table;
      density := Comfortable;
      visibleColumns := ColumnIds(columns);
      showRowHighlight := enableRowHighlight;
    }

    /** `effectiveDensity`: compact view forces dense rows without touching the stored density. */
    function EffectiveDensity(): (d: Density)
      reads this
      ensures viewMode == Compact ==> d == Dense
      ensures viewMode != Compact ==> d == density
    {
      if viewMode == Compact then Dense else density
    }

    /** The view-mode switcher: only `viewMode` changes. */
    method SetViewMode(mode: ViewMode)
      modifies this
      ensures viewMode == mode
      ensures density == old(density) && visibleColumns == old(visibleColumns)
      ensures showRowHighlight == old(showRowHighlight)
    {
      viewMode := mode;
    }

    /** The density menu (offered in table view only). */
    method SetDensity(d: Density)
      modifies this
      ensures density == d
      ensures viewMode == old(viewMode) && visibleColumns == old(visibleColumns)
      ensures showRowHighlight == old(showRowHighlight)
    {
      density := d;
    }

    /** The density and column menus appear in table view only. */
    predicate ToolbarMenusShown()
      reads this
    {
      viewMode == Table
    }

    /** A column's checkbox in the column menu. */
    method SetColumnVisible(columnId: string, checked: bool)
      modifies this
      ensures visibleColumns == SetChecked(old(visibleColumns), columnId, checked)
      ensures viewMode == old(viewMode) && density == old(density)
      ensures showRowHighlight == old(showRowHighlight)
    {
      visibleColumns := SetChecked(visibleColumns, columnId, checked);
    }

    /** The palette button flips row highlighting. */
    method ToggleRowHighlight()
      modifies this
      ensures showRowHighlight == !old(showRowHighlight)
      ensures viewMode == old(viewMode) && density == old(density)
      ensures visibleColumns == old(visibleColumns)
    {
      showRowHighlight := !showRowHighlight;
    }

    /** The palette button is offered only when a classifier is given. */
    predicate HighlightToggleShown<T>(classify: Option<T -> Highlight>)
    {
      classify.Some?
    }

    /** The highlight a row receives: none unless highlighting is on and a
        classifier is given. */
    function RowHighlight<T>(classify: Option<T -> Highlight>, row: T): (h: Highlight)
      reads this
      ensures !showRowHighlight || classify.None? ==> h == NoHighlight
      ensures showRowHighlight && classify.Some? ==> h == classify.value(row)
    {
      if showRowHighlight && classify.Some? then classify.value(row) else NoHighlight
    }

    /** The body: the loading skeleton wins over the empty state, which wins
        over the card grid or the table. */
    function Body(loading: bool, dataLen: nat): (b: Body)
      reads this
      ensures loading ==> b == LoadingSkeleton
      ensures !loading && dataLen == 0 ==> b == EmptyState
      ensures !loading && dataLen > 0 && viewMode == Card ==> b == CardGrid
      ensures !loading && dataLen > 0 && viewMode != Card ==> b == TableRows(EffectiveDensity())
    {
      if loading then LoadingSkeleton
      else if dataLen == 0 then EmptyState
      else if viewMode == Card then CardGrid
      else TableRows(EffectiveDensity())
    }
  }

  /** Passing through compact view and back to the table gives back the
      density chosen before. */
  method CompactRoundTrip(view: TableView)
    modifies view
    ensures view.viewMode == Table && view.EffectiveDensity() == old(view.density)
  {
    view.SetViewMode(Compact);
    assert view.EffectiveDensity() == Dense;
    view.SetViewMode(Table);
  }
}
