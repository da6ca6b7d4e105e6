/** `FilterBar`: a controlled search box plus a row of select filters. The
    bar keeps no state; it counts the active filters, decides which controls
    appear, labels the active-filter tags and tells the caller which value
    to set. `filterValues` is modelled as its entries in `Object.entries`
    order, each key once. */
module FilterBar {
  import opened Optional
  import opened Seqs

  datatype FilterOption = FilterOption(value: string, text: string)
  datatype FilterConfig = FilterConfig(key: string, text: string, placeholder: Option<string>, options: seq<FilterOption>)

  type Entry = (string, string)

  /** A value that filters something: neither empty nor "all". */
  predicate IsActive(value: string) {
    value != "" && value != "all"
  }

  /** Each key occurs once, as in a JavaScript object. */
  predicate UniqueKeys(entries: seq<Entry>) {
    forall i, j :: 0 <= i < j < |entries| ==> entries[i].0 != entries[j].0
  }

  /** `activeFilterCount`: the number of entries the active-entry filter keeps. */
  function ActiveFilterCount(entries: seq<Entry>): (n: nat)
    ensures n == |Filter(entries, (e: Entry) => IsActive(e.1))|
    ensures n <= |entries|
    ensures n == 0 <==> forall i :: 0 <= i < |entries| ==> !IsActive(entries[i].1)
  {
    CountIsFilterLength(entries, (e: Entry) => IsActive(e.1));
    Count(entries, (e: Entry) => IsActive(e.1))
  }

  /** `hasActiveFilters` */
  predicate HasActiveFilters(entries: seq<Entry>, search: string) {
    ActiveFilterCount(entries) > 0 || |search| > 0
  }

  /** The value of a key, when the object has it. */
  function Lookup(entries: seq<Entry>, key: string): (v: Option<string>)
    ensures v.None? <==> forall i :: 0 <= i < |entries| ==> entries[i].0 != key
    ensures v.Some? ==> exists i :: 0 <= i < |entries| && entries[i] == (key, v.value)
  {
    if entries == [] then None
    else if entries[0].0 == key then Some(entries[0].1)
    else Lookup(entries[1..], key)
  }

  /** The value a filter's select shows: `filterValues[key] || 'all'`. */
  function SelectValue(entries: seq<Entry>, key: string): (v: string)
    ensures v != ""
    ensures Lookup(entries, key).None? || Lookup(entries, key) == Some("") ==> v == "all"
    ensures Lookup(entries, key).Some? && Lookup(entries, key) != Some("") ==> v == Lookup(entries, key).value
  {
    match Lookup(entries, key)
    case Some(v) => if v != "" then v else "all"
    case None => "all"
  }

  /** The caller's `onFilterChange(key, value)` applied as an object spread:
      a present key takes the value in place, every other entry keeps its
      position and value; an absent key is added at the end. */
  function SetValue(entries: seq<Entry>, key: string, value: string): (r: seq<Entry>)
    ensures Lookup(r, key) == Some(value)
    ensures (exists i :: 0 <= i < |entries| && entries[i].0 == key) ==>
              |r| == |entries| &&
              (forall i :: 0 <= i < |entries| && entries[i].0 != key ==> r[i] == entries[i]) &&
              (forall i :: 0 <= i < |entries| && entries[i].0 == key ==> r[i] == (key, value))
    ensures (forall i :: 0 <= i < |entries| ==> entries[i].0 != key) ==> r == entries + [(key, value)]
  {
    if exists i :: 0 <= i < |entries| && entries[i].0 == key then
      var r := seq(|entries|, i requires 0 <= i < |entries| => if entries[i].0 == key then (key, value) else entries[i]);
      assert Lookup(r, key).Some? by {
        var i :| 0 <= i < |entries| && entries[i].0 == key;
        assert r[i].0 == key;
      }
      LookupFindsUpdated(r, key, value);
      r
    else
      LookupAppended(entries, key, value);
      entries + [(key, value)]
  }

  lemma LookupFindsUpdated(r: seq<Entry>, key: string, value: string)
    requires forall i :: 0 <= i < |r| && r[i].0 == key ==> r[i].1 == value
    requires Lookup(r, key).Some?
    ensures Lookup(r, key) == Some(value)
  {
  }

  lemma {:induction false} LookupAppended(entries: seq<Entry>, key: string, value: string)
    requires forall i :: 0 <= i < |entries| ==> entries[i].0 != key
    ensures Lookup(entries + [(key, value)], key) == Some(value)
  {
    if entries != [] {
      assert (entries + [(key, value)])[1..] == entries[1..] + [(key, value)];
      LookupAppended(entries[1..], key, value);
    }
  }

  /** Setting one key leaves every other key's value as it was, and keeps the
      keys unique. */
  lemma SetValueKeepsOthers(entries: seq<Entry>, key: string, value: string, other: string)
    requires other != key
    ensures Lookup(SetValue(entries, key, value), other) == Lookup(entries, other)
    ensures UniqueKeys(entries) ==> UniqueKeys(SetValue(entries, key, value))
  {
    var r := SetValue(entries, key, value);
    LookupOtherKey(entries, r, key, other);
  }

  lemma {:induction false} LookupOtherKey(entries: seq<Entry>, r: seq<Entry>, key: string, other: string)
    requires other != key && |entries| <= |r|
    requires forall i :: 0 <= i < |entries| && entries[i].0 != key ==> r[i] == entries[i]
    requires forall i :: 0 <= i < |entries| && entries[i].0 == key ==> r[i].0 == key
    requires forall i :: |entries| <= i < |r| ==> r[i].0 == key
    ensures Lookup(r, other) == Lookup(entries, other)
  {
    if entries != [] {
      LookupOtherKey(entries[1..], r[1..], key, other);
    }
  }

  /** Removing an active filter's tag asks for "all" on its key, which takes
      exactly one off the active count. */
  lemma RemoveTagLowersCount(entries: seq<Entry>, j: nat)
    requires UniqueKeys(entries) && j < |entries| && IsActive(entries[j].1)
    ensures ActiveFilterCount(SetValue(entries, entries[j].0, "all")) + 1 == ActiveFilterCount(entries)
  {
    var key := entries[j].0;
    var r := SetValue(entries, key, "all");
    assert exists i :: 0 <= i < |entries| && entries[i].0 == key;
    assert |r| == |entries|;
    forall i | 0 <= i < |entries| && i != j ensures entries[i] == r[i] {
      assert entries[i].0 != key;
    }
    CountChangeOne(entries, r, (e: Entry) => IsActive(e.1), j);
  }

  /** The Clear button needs something to clear and a handler; its badge
      shows only when filters (not just the search) are active. */
  predicate ClearButtonShown(entries: seq<Entry>, search: string, hasOnClear: bool) {
    HasActiveFilters(entries, search) && hasOnClear
  }

  predicate ClearBadgeShown(entries: seq<Entry>) {
    ActiveFilterCount(entries) > 0
  }

  /** The search box, and with it its clear button, exists only with an
      `onSearchChange` handler; the button shows for non-empty text and asks
      for "". */
  predicate SearchClearShown(search: string, hasOnSearchChange: bool) {
    hasOnSearchChange && search != ""
  }

  const ClearedSearch: string := ""

  /** With a handler, the Clear button shows for any active filter (and then
      carries the count badge) and also for search text alone, where it has
      no badge. */
  lemma ClearButtonCases(entries: seq<Entry>, search: string)
    ensures ClearBadgeShown(entries) ==> ClearButtonShown(entries, search, true)
    ensures (forall i :: 0 <= i < |entries| ==> !IsActive(entries[i].1)) ==>
              (ClearButtonShown(entries, search, true) <==> SearchClearShown(search, true)) && !ClearBadgeShown(entries)
    ensures !ClearButtonShown(entries, search, false) && !SearchClearShown(search, false)
  {
  }

  // ---------------------------------------------------------------------------
  // Active-filter tags
  // ---------------------------------------------------------------------------

  /** `Array.prototype.find` on filter keys: the first filter with the key. */
  function FindFilter(filters: seq<FilterConfig>, key: string): (f: Option<FilterConfig>)
    ensures f.Some? ==> exists i :: 0 <= i < |filters| && filters[i] == f.value && f.value.key == key &&
                          forall j :: 0 <= j < i ==> filters[j].key != key
    ensures f.None? ==> forall i :: 0 <= i < |filters| ==> filters[i].key != key
  {
    if filters == [] then None
    else if filters[0].key == key then Some(filters[0])
    else
      var f := FindFilter(filters[1..], key);
      if f.Some? then
        var i :| 0 <= i < |filters| - 1 && filters[1..][i] == f.value && f.value.key == key &&
                 forall j :: 0 <= j < i ==> filters[1..][j].key != key;
        assert filters[i + 1] == f.value;
        f
      else f
  }

  /** The first option with the value. */
  function FindOption(options: seq<FilterOption>, value: string): (o: Option<FilterOption>)
    ensures o.Some? ==> exists i :: 0 <= i < |options| && options[i] == o.value && o.value.value == value &&
                          forall j :: 0 <= j < i ==> options[j].value != value
    ensures o.None? ==> forall i :: 0 <= i < |options| ==> options[i].value != value
  {
    if options == [] then None
    else if options[0].value == value then Some(options[0])
    else
      var o := FindOption(options[1..], value);
      if o.Some? then
        var i :| 0 <= i < |options| - 1 && options[1..][i] == o.value && o.value.value == value &&
                 forall j :: 0 <= j < i ==> options[1..][j].value != value;
        assert options[i + 1] == o.value;
        o
      else o
  }

  /** A tag's text: the matching option's label, or the raw value. */
  function TagText(filters: seq<FilterConfig>, key: string, value: string): (t: string)
    ensures FindFilter(filters, key).None? ==> t == value
    ensures FindFilter(filters, key).Some? && FindOption(FindFilter(filters, key).value.options, value).None? ==> t == value
    ensures FindFilter(filters, key).Some? && FindOption(FindFilter(filters, key).value.options, value).Some? ==>
              t == FindOption(FindFilter(filters, key).value.options, value).value.text
  {
    match FindFilter(filters, key)
    case None => value
    case Some(f) =>
      match FindOption(f.options, value)
      case Some(o) => o.text
      case None => value
  }

  /** One tag: its key, the `filter?.label` prefix and the shown text. */
  datatype Tag = Tag(key: string, filterText: Option<string>, text: string)

  function TagOf(filters: seq<FilterConfig>, e: Entry): Tag {
    var f := FindFilter(filters, e.0);
    Tag(e.0, if f.Some? then Some(f.value.text) else None, TagText(filters, e.0, e.1))
  }

  /** When `filters[i]` is the first filter with the entry's key, the tag is
      prefixed with that filter's label and shows the label of the first
      option with the entry's value, or the raw value when no option has it;
      a key no filter declares gets no prefix and the raw value. */
  lemma TagOfFirstMatches(filters: seq<FilterConfig>, e: Entry, i: nat)
    requires i < |filters| && filters[i].key == e.0
    requires forall j :: 0 <= j < i ==> filters[j].key != e.0
    ensures TagOf(filters, e).key == e.0 && TagOf(filters, e).filterText == Some(filters[i].text)
    ensures forall j :: 0 <= j < |filters[i].options| && filters[i].options[j].value == e.1 &&
                        (forall l :: 0 <= l < j ==> filters[i].options[l].value != e.1) ==>
              TagOf(filters, e).text == filters[i].options[j].text
    ensures (forall j :: 0 <= j < |filters[i].options| ==> filters[i].options[j].value != e.1) ==>
              TagOf(filters, e).text == e.1
  {
    var f := FindFilter(filters, e.0);
    var i' :| 0 <= i' < |filters| && filters[i'] == f.value && f.value.key == e.0 &&
              forall j :: 0 <= j < i' ==> filters[j].key != e.0;
    assert i' == i;
    var o := FindOption(filters[i].options, e.1);
    if o.Some? {
      var j' :| 0 <= j' < |filters[i].options| && filters[i].options[j'] == o.value && o.value.value == e.1 &&
                forall l :: 0 <= l < j' ==> filters[i].options[l].value != e.1;
      forall j | 0 <= j < |filters[i].options| && filters[i].options[j].value == e.1 &&
                 (forall l :: 0 <= l < j ==> filters[i].options[l].value != e.1)
        ensures j == j'
      {
      }
    }
  }

  /** A key that no filter declares: no prefix, the raw value. */
  lemma TagOfUndeclaredKey(filters: seq<FilterConfig>, e: Entry)
    requires forall i :: 0 <= i < |filters| ==> filters[i].key != e.0
    ensures TagOf(filters, e) == Tag(e.0, None, e.1)
  {
  }

  /** The tags: one per active entry, in entry order. */
  function Tags(filters: seq<FilterConfig>, entries: seq<Entry>): (tags: seq<Tag>)
    ensures |tags| == ActiveFilterCount(entries)
    ensures forall k :: 0 <= k < |tags| ==> tags[k] == TagOf(filters, Filter(entries, (e: Entry) => IsActive(e.1))[k])
  {
    var active := Filter(entries, (e: Entry) => IsActive(e.1));
    CountIsFilterLength(entries, (e: Entry) => IsActive(e.1));
    seq(|active|, i requires 0 <= i < |active| => TagOf(filters, active[i]))
  }

  /** The tag row appears exactly when some filter is active; every tag
      belongs to an active entry, and the k-th tag is the tag of the entry at
      the k-th active position, so tags follow entry order. */
  lemma TagsMatchActiveEntries(filters: seq<FilterConfig>, entries: seq<Entry>)
    ensures |Tags(filters, entries)| > 0 <==> ClearBadgeShown(entries)
    ensures forall k :: 0 <= k < |Tags(filters, entries)| ==>
              exists i :: 0 <= i < |entries| && IsActive(entries[i].1) && Tags(filters, entries)[k].key == entries[i].0
    ensures var active := (e: Entry) => IsActive(e.1);
            |Tags(filters, entries)| == |Positions(entries, active, 0)| &&
            forall k :: 0 <= k < |Tags(filters, entries)| ==>
              Tags(filters, entries)[k] == TagOf(filters, entries[Positions(entries, active, 0)[k]])
  {
    FilterAtPositions(entries, (e: Entry) => IsActive(e.1));
    var active := Filter(entries, (e: Entry) => IsActive(e.1));
    forall k | 0 <= k < |Tags(filters, entries)|
      ensures exists i :: 0 <= i < |entries| && IsActive(entries[i].1) && Tags(filters, entries)[k].key == entries[i].0
    {
      assert active[k] in entries;
    }
  }
}
