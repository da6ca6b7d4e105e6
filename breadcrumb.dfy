/** `DynamicBreadcrumb`: turns the current pathname into a trail of crumbs.
    Each non-empty path segment becomes one crumb whose label comes from the
    route table, from the "dynamic id" rule or from title-casing the segment;
    every crumb but the last links to the path up to and including it. */
module Breadcrumb {
  import opened Optional
  import opened Seqs
  import opened JsPrims

  datatype Icon = HomeIcon | FileTextIcon | UsersIcon | BellIcon | SettingsIcon | UserIcon

  datatype RouteConfig = RouteConfig(text: string, icon: Option<Icon>)

  /** One crumb: `href` is absent on the current page. */
  datatype Crumb = Crumb(text: string, href: Option<string>, icon: Option<Icon>, isCurrentPage: bool)

  /** The keys the route table declares itself. */
  const RouteKeys: set<string> :=
    {"dashboard", "documents", "team", "notifications", "settings", "general",
     "profile", "security", "new", "create", "edit"}

  /** The route table's own entries. */
  function OwnRoute(segment: string): (c: Option<RouteConfig>)
    ensures c.Some? <==> segment in RouteKeys
    ensures c.Some? ==> |c.value.text| > 0
  {
    if segment == "dashboard" then Some(RouteConfig("Dashboard", Some(HomeIcon)))
    else if segment == "documents" then Some(RouteConfig("Documents", Some(FileTextIcon)))
    else if segment == "team" then Some(RouteConfig("Team", Some(UsersIcon)))
    else if segment == "notifications" then Some(RouteConfig("Notifications", Some(BellIcon)))
    else if segment == "settings" then Some(RouteConfig("Settings", Some(SettingsIcon)))
    else if segment == "general" then Some(RouteConfig("General", Some(SettingsIcon)))
    else if segment == "profile" then Some(RouteConfig("Profile", Some(UserIcon)))
    else if segment == "security" then Some(RouteConfig("Security", Some(SettingsIcon)))
    else if segment == "new" then Some(RouteConfig("New", None))
    else if segment == "create" then Some(RouteConfig("Create", None))
    else if segment == "edit" then Some(RouteConfig("Edit", None))
    else None
  }

  // ---------------------------------------------------------------------------
  // Segments
  // ---------------------------------------------------------------------------

  /** `pathname.split('/').filter(Boolean)`: the non-empty pieces between
      slashes, in pathname order (`FilterAtPositions`). */
  function Segments(pathname: string): (segs: seq<string>)
    ensures segs == Filter(Split(pathname, '/'), (s: string) => s != "")
    ensures forall i :: 0 <= i < |segs| ==> segs[i] != "" && '/' !in segs[i]
  {
    Filter(Split(pathname, '/'), (s: string) => s != "")
  }

  /** Pieces joined with slashes give back the non-empty pieces, in order:
      leading, doubled and trailing slashes produce no segment. */
  lemma SegmentsOfJoin(parts: seq<string>)
    requires |parts| >= 1
    requires forall i :: 0 <= i < |parts| ==> '/' !in parts[i]
    ensures Segments(Join(parts, "/")) == Filter(parts, (s: string) => s != "")
  {
    assert "/" == ['/'];
    SplitJoin(parts, '/');
  }

  /** A trailing slash changes nothing. */
  lemma TrailingSlashIgnored(pathname: string)
    ensures Segments(pathname + "/") == Segments(pathname)
  {
    var parts := Split(pathname, '/');
    JoinSplit(pathname, '/');
    assert "/" == ['/'];
    JoinSnoc(parts, "", "/");
    assert pathname + "/" == Join(parts + [""], "/");
    SegmentsOfJoin(parts + [""]);
    var nonEmpty := (s: string) => s != "";
    FilterConcat(parts, [""], nonEmpty);
    assert Filter([""], nonEmpty) == [];
  }

  /** A pathname written in canonical form gives back exactly its segments. */
  lemma SegmentsOfCanonical(segs: seq<string>)
    requires |segs| >= 1
    requires forall i :: 0 <= i < |segs| ==> segs[i] != "" && '/' !in segs[i]
    ensures Segments("/" + Join(segs, "/")) == segs
  {
    var parts := [""] + segs;
    LeadingSlashJoin(segs);
    forall i | 0 <= i < |parts| ensures '/' !in parts[i] {
      if i > 0 { assert parts[i] == segs[i - 1]; }
    }
    SegmentsOfJoin(parts);
    NonEmptyAfterLeadingEmpty(segs);
  }

  /** A leading empty piece joins to a leading slash. */
  lemma LeadingSlashJoin(segs: seq<string>)
    requires |segs| >= 1
    ensures Join([""] + segs, "/") == "/" + Join(segs, "/")
  {
    var parts := [""] + segs;
    assert |parts| > 1 && parts[0] == "" && parts[1..] == segs;
  }

  /** Keeping the non-empty pieces of `[""] + segs` gives `segs` when no
      piece of `segs` is empty. */
  lemma NonEmptyAfterLeadingEmpty(segs: seq<string>)
    requires forall i :: 0 <= i < |segs| ==> segs[i] != ""
    ensures Filter([""] + segs, (s: string) => s != "") == segs
  {
    var nonEmpty := (s: string) => s != "";
    FilterConcat([""], segs, nonEmpty);
    FilterAll(segs, nonEmpty);
    assert Filter([""], nonEmpty) == [];
  }

  // ---------------------------------------------------------------------------
  // Labels
  // ---------------------------------------------------------------------------

  predicate IsHexOrDash(c: char) {
    ('a' <= c <= 'f') || IsDigit(c) || c == '-'
  }

  /** `/^[a-f0-9-]{8,}$|^\d+$/`: an id-like segment (a UUID or a number). */
  predicate IsDynamic(segment: string) {
    (|segment| >= 8 && forall i :: 0 <= i < |segment| ==> IsHexOrDash(segment[i]))
    || (|segment| >= 1 && forall i :: 0 <= i < |segment| ==> IsDigit(segment[i]))
  }

  /** No route-table key looks like an id, so every configured label is reachable. */
  lemma RouteKeysNotDynamic(segment: string)
    requires segment in RouteKeys
    ensures !IsDynamic(segment)
  {
    var k := if segment == "dashboard" || segment == "edit" then 2
             else if segment == "documents" || segment == "create" then 1
             else 0;
    assert !IsHexOrDash(segment[k]) && !IsDigit(segment[k]);
  }

  /** `word.charAt(0).toUpperCase() + word.slice(1)` */
  function Capitalize(word: string): (r: string)
    ensures |r| == |word|
    ensures word != "" ==> r[0] == UpperChar(word[0]) && r[1..] == word[1..]
  {
    if word == "" then "" else [UpperChar(word[0])] + word[1..]
  }

  function MapCapitalize(words: seq<string>): (r: seq<string>)
    ensures |r| == |words|
    ensures forall i :: 0 <= i < |words| ==> r[i] == Capitalize(words[i])
  {
    seq(|words|, i requires 0 <= i < |words| => Capitalize(words[i]))
  }

  const WordSeparators: set<char> := {'-', '_'}

  /** `segment.split(/[-_]/).map(capitalize).join(' ')` */
  function TitleCase(segment: string): string {
    Join(MapCapitalize(SplitAny(segment, WordSeparators)), " ")
  }

  /** A left-to-right reading of title-casing: every separator becomes a space
      and the first character of every word is upper-cased. `atStart` says
      whether the next character begins a word. */
  function TitleScan(s: string, atStart: bool): (r: string)
    ensures |r| == |s|
    ensures forall i :: 0 <= i < |s| && s[i] in WordSeparators ==> r[i] == ' '
    ensures forall i :: 0 <= i < |s| && s[i] !in WordSeparators ==> r[i] == s[i] || r[i] == UpperChar(s[i])
  {
    if s == [] then []
    else if s[0] in WordSeparators then [' '] + TitleScan(s[1..], true)
    else [if atStart then UpperChar(s[0]) else s[0]] + TitleScan(s[1..], false)
  }

  /** Title-casing by split/map/join is the left-to-right scan; the second
      conjunct covers a first word that is not capitalized. */
  lemma {:induction false} TitleCaseIsScan(s: string)
    ensures TitleCase(s) == TitleScan(s, true)
    ensures var parts := SplitAny(s, WordSeparators);
            Join([parts[0]] + MapCapitalize(parts[1..]), " ") == TitleScan(s, false)
  {
    if s != [] {
      TitleCaseIsScan(s[1..]);
      var parts := SplitAny(s, WordSeparators);
      var rest := SplitAny(s[1..], WordSeparators);
      if s[0] in WordSeparators {
        assert parts == [""] + rest;
        assert parts[0] == "" && parts[1..] == rest;
        ScanSeparatorStep(rest, TitleScan(s[1..], true));
      } else {
        assert parts == [[s[0]] + rest[0]] + rest[1..];
        assert parts[0] == [s[0]] + rest[0] && parts[1..] == rest[1..];
        ScanLetterStep(s[0], rest, TitleScan(s[1..], false));
      }
    }
  }

  /** The step of `TitleCaseIsScan` over a leading separator: an empty first
      word, then a space. */
  lemma ScanSeparatorStep(rest: seq<string>, scan: string)
    requires |rest| >= 1
    requires Join(MapCapitalize(rest), " ") == scan
    ensures Join(MapCapitalize([""] + rest), " ") == [' '] + scan
    ensures Join([""] + MapCapitalize(rest), " ") == [' '] + scan
  {
    assert MapCapitalize([""] + rest) == [""] + MapCapitalize(rest);
    var ws := [""] + MapCapitalize(rest);
    assert ws[0] == "" && ws[1..] == MapCapitalize(rest);
  }

  /** The step of `TitleCaseIsScan` over a leading word character `c`, which
      joins the first word and is upper-cased only at the start. */
  lemma ScanLetterStep(c: char, rest: seq<string>, scan: string)
    requires |rest| >= 1
    requires Join([rest[0]] + MapCapitalize(rest[1..]), " ") == scan
    ensures Join(MapCapitalize([[c] + rest[0]] + rest[1..]), " ") == [UpperChar(c)] + scan
    ensures Join([[c] + rest[0]] + MapCapitalize(rest[1..]), " ") == [c] + scan
  {
    var tail := [rest[0]] + MapCapitalize(rest[1..]);
    assert tail[0] == rest[0] && tail[1..] == MapCapitalize(rest[1..]);
    var first := [c] + rest[0];
    MapCapitalizeCons(first, rest[1..]);
    assert first[1..] == rest[0];
    assert Capitalize(first) == [UpperChar(c)] + rest[0];
    JoinExtendFirst([UpperChar(c)], tail, " ");
    JoinExtendFirst([c], tail, " ");
  }

  /** Capitalising a list word by word starts with its first word. */
  lemma MapCapitalizeCons(w: string, ws: seq<string>)
    ensures MapCapitalize([w] + ws) == [Capitalize(w)] + MapCapitalize(ws)
  {
    var l := MapCapitalize([w] + ws);
    var r := [Capitalize(w)] + MapCapitalize(ws);
    forall i | 0 <= i < |l| ensures l[i] == r[i] {
      if i > 0 { assert ([w] + ws)[i] == ws[i - 1]; }
    }
  }

  /** Title-casing keeps the length, turns every `-` and `_` into a space and
      keeps or upper-cases every other character. */
  lemma TitleCaseShape(s: string)
    ensures |TitleCase(s)| == |s|
    ensures forall i :: 0 <= i < |s| && s[i] in WordSeparators ==> TitleCase(s)[i] == ' '
    ensures forall i :: 0 <= i < |s| && s[i] !in WordSeparators ==>
              TitleCase(s)[i] == s[i] || TitleCase(s)[i] == UpperChar(s[i])
  {
    TitleCaseIsScan(s);
  }

  /** Inside a word the scan leaves the characters as they are. */
  lemma {:induction false} ScanInsideWord(s: string)
    requires forall i :: 0 <= i < |s| ==> s[i] !in WordSeparators
    ensures TitleScan(s, false) == s
  {
    if s != [] {
      ScanInsideWord(s[1..]);
    }
  }

  /** A one-word segment only has its first letter upper-cased. */
  lemma SingleWordTitleCase(s: string)
    requires s != ""
    requires forall i :: 0 <= i < |s| ==> s[i] !in WordSeparators
    ensures TitleCase(s) == [UpperChar(s[0])] + s[1..]
  {
    TitleCaseIsScan(s);
    ScanInsideWord(s[1..]);
  }

  /** The label of a segment, as corrected: an id-like segment reads
      "Details", a configured one its table label, any other its title-cased
      form. */
  function Label(segment: string): string {
    if IsDynamic(segment) then "Details"
    else match OwnRoute(segment)
      case Some(c) => c.text
      case None => TitleCase(segment)
  }

  /** Every route-table key shows its configured label and icon. */
  lemma ConfiguredLabel(segment: string)
    requires segment in RouteKeys
    ensures Label(segment) == OwnRoute(segment).value.text
    ensures IconOf(segment) == OwnRoute(segment).value.icon
  {
    RouteKeysNotDynamic(segment);
  }

  /** A non-empty segment never gets an empty label. */
  lemma LabelNonEmpty(segment: string)
    requires segment != ""
    ensures |Label(segment)| > 0
  {
    TitleCaseShape(segment);
  }

  /** The label as the code computes it: `routeConfig[segment]` also finds the
      members every object inherits, so such a segment takes the truthy
      inherited value's missing `label` and falls back to the raw segment
      instead of being title-cased. */
  function LabelAsWritten(segment: string): (text: string)
    ensures !InheritedObjectMember(segment) ==> text == Label(segment)
    ensures InheritedObjectMember(segment) && !IsDynamic(segment) ==> text == segment
  {
    if IsDynamic(segment) then "Details"
    else match OwnRoute(segment)
      case Some(c) => c.text
      case None => if InheritedObjectMember(segment) then segment else TitleCase(segment)
  }

  /** A path segment named `constructor` is shown as "constructor", where any
      other unknown word is capitalized. */
  lemma InheritedSegmentNotTitleCased()
    ensures LabelAsWritten("constructor") == "constructor"
    ensures Label("constructor") == "Constructor"
  {
    var s := "constructor";
    assert |s| == 11 && s[1] == 'o';
    assert !IsDynamic(s);
    assert OwnRoute(s).None?;
    assert InheritedObjectMember(s);
    ConstructorTitleCase(s);
  }

  lemma ConstructorTitleCase(s: string)
    requires s == "constructor"
    ensures TitleCase(s) == "Constructor"
  {
    forall i | 0 <= i < |s| ensures s[i] !in WordSeparators {
    }
    SingleWordTitleCase(s);
    assert UpperChar(s[0]) == 'C';
    assert [UpperChar(s[0])] + s[1..] == "Constructor";
  }

  /** As corrected, a segment that is neither id-like nor configured is
      title-cased, whatever names it shares with inherited object members:
      a word that starts it is upper-cased. */
  lemma UnconfiguredLabelTitleCased(segment: string)
    requires segment != "" && !IsDynamic(segment) && OwnRoute(segment).None?
    ensures Label(segment) == TitleCase(segment)
    ensures segment[0] !in WordSeparators ==> Label(segment)[0] == UpperChar(segment[0])
  {
    TitleCaseIsScan(segment);
    assert TitleScan(segment, true)[0] == if segment[0] in WordSeparators then ' ' else UpperChar(segment[0]);
  }

  /** The icon: configured routes only, and never on an id-like segment. */
  function IconOf(segment: string): (icon: Option<Icon>)
    ensures IsDynamic(segment) || segment !in RouteKeys ==> icon.None?
  {
    if IsDynamic(segment) then None
    else match OwnRoute(segment)
      case Some(c) => c.icon
      case None => None
  }

  // ---------------------------------------------------------------------------
  // Crumbs
  // ---------------------------------------------------------------------------

  /** `currentPath` after the first `k` segments. */
  function PathTo(segs: seq<string>, k: nat): string
    requires k <= |segs|
  {
    if k == 0 then "" else PathTo(segs, k - 1) + "/" + segs[k - 1]
  }

  /** The path up to segment `k` is `/` followed by those segments joined with `/`. */
  lemma {:induction false} PathToJoin(segs: seq<string>, k: nat)
    requires 1 <= k <= |segs|
    ensures PathTo(segs, k) == "/" + Join(segs[..k], "/")
  {
    if k == 1 {
      assert segs[..1] == [segs[0]];
    } else {
      PathToJoin(segs, k - 1);
      assert segs[..k] == segs[..k - 1] + [segs[k - 1]];
      JoinSnoc(segs[..k - 1], segs[k - 1], "/");
    }
  }

  /** Shorter paths are prefixes of longer ones. */
  lemma {:induction false} PathToPrefix(segs: seq<string>, k: nat, m: nat)
    requires k <= m <= |segs|
    ensures StartsWith(PathTo(segs, m), PathTo(segs, k))
    ensures k < m ==> |PathTo(segs, k)| < |PathTo(segs, m)|
  {
    if k < m {
      PathToPrefix(segs, k, m - 1);
      var p := PathTo(segs, m - 1);
      assert PathTo(segs, m) == p + ("/" + segs[m - 1]);
      assert PathTo(segs, m)[..|p|] == p;
    }
  }

  /** The path up to segment `k` starts the canonical pathname. */
  lemma PathToInPathname(segs: seq<string>, k: nat)
    requires 1 <= k <= |segs|
    ensures StartsWith("/" + Join(segs, "/"), PathTo(segs, k))
    ensures PathTo(segs, k) == "/" + Join(segs[..k], "/")
  {
    PathToJoin(segs, |segs|);
    assert segs[..|segs|] == segs;
    PathToPrefix(segs, k, |segs|);
    PathToJoin(segs, k);
  }

  /** The link of the crumb for segment `i`: none on the last one. */
  function HrefAt(segs: seq<string>, i: nat): Option<string>
    requires i < |segs|
  {
    if i == |segs| - 1 then None else Some(PathTo(segs, i + 1))
  }

  /** The crumb for segment `i`. */
  function CrumbAt(segs: seq<string>, i: nat): Crumb
    requires i < |segs|
  {
    CrumbOf(segs[i], HrefAt(segs, i), i == |segs| - 1)
  }

  /** A crumb for one segment, given its link. */
  function CrumbOf(segment: string, href: Option<string>, isLast: bool): Crumb {
    Crumb(Label(segment), href, IconOf(segment), isLast)
  }

  /** The crumbs of the first `n` segments. */
  function Trail(segs: seq<string>, n: nat): (r: seq<Crumb>)
    requires n <= |segs|
    ensures |r| == n
  {
    if n == 0 then [] else Trail(segs, n - 1) + [CrumbAt(segs, n - 1)]
  }

  /** The trail holds each segment's crumb at that segment's position. */
  lemma {:induction false} TrailAt(segs: seq<string>, n: nat, i: nat)
    requires i < n <= |segs|
    ensures Trail(segs, n)[i] == CrumbAt(segs, i)
  {
    if i < n - 1 {
      TrailAt(segs, n - 1, i);
    }
  }

  /** A crumb as the code builds it, with the label of `LabelAsWritten`; the
      icon is the same, since an inherited member has no `icon`. */
  function CrumbOfAsWritten(segment: string, href: Option<string>, isLast: bool): Crumb {
    Crumb(LabelAsWritten(segment), href, IconOf(segment), isLast)
  }

  function CrumbAtAsWritten(segs: seq<string>, i: nat): Crumb
    requires i < |segs|
  {
    CrumbOfAsWritten(segs[i], HrefAt(segs, i), i == |segs| - 1)
  }

  /** The crumbs of the first `n` segments, as written. */
  function TrailAsWritten(segs: seq<string>, n: nat): (r: seq<Crumb>)
    requires n <= |segs|
    ensures |r| == n
  {
    if n == 0 then [] else TrailAsWritten(segs, n - 1) + [CrumbAtAsWritten(segs, n - 1)]
  }

  /** The two trails agree in everything but the label, and in the label too
      unless the segment is named like an inherited object member. */
  lemma TrailsDifferOnlyInInheritedLabels(segs: seq<string>, n: nat, i: nat)
    requires i < n <= |segs|
    ensures TrailAsWritten(segs, n)[i] == Trail(segs, n)[i].(text := LabelAsWritten(segs[i]))
    ensures !InheritedObjectMember(segs[i]) ==> TrailAsWritten(segs, n)[i] == Trail(segs, n)[i]
  {
    TrailAt(segs, n, i);
    TrailAsWrittenAt(segs, n, i);
    var c := CrumbAt(segs, i);
    var w := CrumbAtAsWritten(segs, i);
    assert w == c.(text := LabelAsWritten(segs[i]));
  }

  /** The as-written trail holds each segment's as-written crumb at that
      segment's position. */
  lemma {:induction false} TrailAsWrittenAt(segs: seq<string>, n: nat, i: nat)
    requires i < n <= |segs|
    ensures TrailAsWritten(segs, n)[i] == CrumbAtAsWritten(segs, i)
  {
    var before := TrailAsWritten(segs, n - 1);
    assert TrailAsWritten(segs, n) == before + [CrumbAtAsWritten(segs, n - 1)];
    if i < n - 1 {
      TrailAsWrittenAt(segs, n - 1, i);
      assert TrailAsWritten(segs, n)[i] == before[i];
    }
  }

  /** The pathname `/docs/constructor`: as written the last crumb reads
      "constructor", as corrected "Constructor". */
  lemma ConstructorCrumb()
    ensures var segs := Segments("/docs/constructor");
      |segs| == 2 &&
      TrailAsWritten(segs, 2)[1].text == "constructor" && Trail(segs, 2)[1].text == "Constructor"
  {
    var segs := ["docs", "constructor"];
    assert "/docs/constructor" == "/" + Join(segs, "/");
    SegmentsOfCanonical(segs);
    InheritedSegmentNotTitleCased();
    TrailsDifferOnlyInInheritedLabels(segs, 2, 1);
  }

  /** `generateBreadcrumbs(pathname)`, with the corrected `Label`: the crumbs
      of the pathname's segments. */
  method GenerateBreadcrumbs(pathname: string) returns (crumbs: seq<Crumb>)
    ensures crumbs == Trail(Segments(pathname), |Segments(pathname)|)
  {
    crumbs := CrumbsFor(Segments(pathname));
  }

  /** The loop of `generateBreadcrumbs`, with the corrected `Label`: one crumb
      per segment, extending `currentPath` one segment at a time. */
  method CrumbsFor(segments: seq<string>) returns (crumbs: seq<Crumb>)
    ensures crumbs == Trail(segments, |segments|)
  {
    crumbs := [];
    var currentPath := "";
    var i := 0;
    while i < |segments|
      invariant 0 <= i <= |segments|
      invariant currentPath == PathTo(segments, i)
      invariant crumbs == Trail(segments, i)
    {
      var segment := segments[i];
      currentPath := currentPath + "/" + segment;
      var isLast := i == |segments| - 1;
      var crumb := CrumbOf(segment, if isLast then None else Some(currentPath), isLast);
      assert HrefAt(segments, i) == if isLast then None else Some(currentPath);
      assert Trail(segments, i + 1) == crumbs + [crumb];
      crumbs := crumbs + [crumb];
      i := i + 1;
    }
  }

  /** `generateBreadcrumbs(pathname)` as written: the labels of inherited
      member names are not title-cased. */
  method GenerateBreadcrumbsAsWritten(pathname: string) returns (crumbs: seq<Crumb>)
    ensures crumbs == TrailAsWritten(Segments(pathname), |Segments(pathname)|)
  {
    crumbs := CrumbsForAsWritten(Segments(pathname));
  }

  /** The loop of `generateBreadcrumbs` as written. */
  method CrumbsForAsWritten(segments: seq<string>) returns (crumbs: seq<Crumb>)
    ensures crumbs == TrailAsWritten(segments, |segments|)
  {
    crumbs := [];
    var currentPath := "";
    var i := 0;
    while i < |segments|
      invariant 0 <= i <= |segments|
      invariant currentPath == PathTo(segments, i)
      invariant crumbs == TrailAsWritten(segments, i)
    {
      var segment := segments[i];
      currentPath := currentPath + "/" + segment;
      var isLast := i == |segments| - 1;
      var crumb := CrumbOfAsWritten(segment, if isLast then None else Some(currentPath), isLast);
      assert HrefAt(segments, i) == if isLast then None else Some(currentPath);
      assert TrailAsWritten(segments, i + 1) == crumbs + [crumb];
      crumbs := crumbs + [crumb];
      i := i + 1;
    }
  }

  /** Exactly the last crumb is the current page; it has no link, and every
      other crumb links to the path up to its segment, a prefix of the
      pathname when that is written canonically (see `SegmentsOfCanonical`). */
  lemma CrumbLinks(segs: seq<string>, i: nat)
    requires i < |segs|
    ensures CrumbAt(segs, i).isCurrentPage <==> i == |segs| - 1
    ensures CrumbAt(segs, i).href.None? <==> i == |segs| - 1
    ensures i < |segs| - 1 ==> StartsWith("/" + Join(segs, "/"), CrumbAt(segs, i).href.value)
    ensures i < |segs| - 1 ==> CrumbAt(segs, i).href.value == "/" + Join(segs[..i + 1], "/")
  {
    assert CrumbAt(segs, i).href == HrefAt(segs, i);
    if i < |segs| - 1 {
      HrefLinks(segs, i);
    }
  }

  /** A crumb before the last links to the path up to its segment. */
  lemma HrefLinks(segs: seq<string>, i: nat)
    requires i < |segs| - 1
    ensures HrefAt(segs, i).Some?
    ensures StartsWith("/" + Join(segs, "/"), HrefAt(segs, i).value)
    ensures HrefAt(segs, i).value == "/" + Join(segs[..i + 1], "/")
  {
    PathToInPathname(segs, i + 1);
  }

  // ---------------------------------------------------------------------------
  // Rendering
  // ---------------------------------------------------------------------------

  /** Authentication pages and the root show no breadcrumbs. */
  predicate SkippedRoute(pathname: string) {
    StartsWith(pathname, "/login") || StartsWith(pathname, "/signup")
    || StartsWith(pathname, "/forgot-password") || pathname == "/"
  }

  /** The trail renders only outside the skipped routes and with at least two crumbs. */
  predicate Rendered(pathname: string) {
    !SkippedRoute(pathname) && |Segments(pathname)| > 1
  }

  /** The trail shows exactly when the route is not skipped and the trail
      `GenerateBreadcrumbs` builds holds more than one crumb. */
  lemma RenderedIff(pathname: string)
    ensures Rendered(pathname) <==>
              !SkippedRoute(pathname) && |Trail(Segments(pathname), |Segments(pathname)|)| > 1
  {
  }

  /** A canonical pathname outside the skipped routes renders exactly when it
      has at least two segments: a top-level page such as `/dashboard` shows
      no trail, a nested one such as `/dashboard/settings` does. */
  lemma RenderedOfCanonical(segs: seq<string>)
    requires |segs| >= 1
    requires forall i :: 0 <= i < |segs| ==> segs[i] != "" && '/' !in segs[i]
    requires !SkippedRoute("/" + Join(segs, "/"))
    ensures Rendered("/" + Join(segs, "/")) <==> |segs| >= 2
  {
    SegmentsOfCanonical(segs);
  }

  /** However many segments follow, the authentication pages show no trail. */
  lemma AuthPagesNotRendered(rest: string)
    ensures !Rendered("/login" + rest) && !Rendered("/signup" + rest)
    ensures !Rendered("/forgot-password" + rest)
  {
    assert StartsWith("/login" + rest, "/login");
    assert StartsWith("/signup" + rest, "/signup");
    assert StartsWith("/forgot-password" + rest, "/forgot-password");
  }

  /** On narrow screens a trail of more than three crumbs folds the middle
      ones into a dropdown: `breadcrumbs.slice(1, -1)`. */
  function Collapsed(crumbs: seq<Crumb>): (folded: seq<Crumb>)
    ensures |crumbs| > 3 ==> folded == crumbs[1..|crumbs| - 1]
    ensures |crumbs| <= 3 ==> folded == []
  {
    if |crumbs| > 3 then Slice(crumbs, 1, -1) else []
  }

  /** Folded crumbs are never the current page, so every dropdown entry has a
      real link rather than the `#` fallback. */
  lemma CollapsedHaveLinks(segs: seq<string>)
    ensures forall k :: 0 <= k < |Collapsed(Trail(segs, |segs|))| ==>
              Collapsed(Trail(segs, |segs|))[k].href.Some?
  {
    var crumbs := Trail(segs, |segs|);
    forall k | 0 <= k < |Collapsed(crumbs)|
      ensures Collapsed(crumbs)[k].href.Some?
    {
      assert Collapsed(crumbs)[k] == crumbs[k + 1];
      TrailAt(segs, |segs|, k + 1);
      assert CrumbAt(segs, k + 1).href == HrefAt(segs, k + 1);
    }
  }
}
