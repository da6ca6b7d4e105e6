/** `LiveActivityTimeline`: relative-time labels, avatar initials, the
    visible slice of the feed and the "New" badge on a freshly arrived first
    activity. Activities are represented by their ids, which is all the
    detection looks at; the clock enters as the elapsed milliseconds. */
module ActivityTimeline {
  import opened Seqs
  import opened JsPrims

  // ---------------------------------------------------------------------------
  // Relative time
  // ---------------------------------------------------------------------------

  /** The label `formatTimeAgo` picks; `LocaleDate` is the
      `toLocaleDateString()` fallback, which is not modelled further. */
  datatype TimeAgo = JustNow | MinutesAgo(minutes: int) | HoursAgo(hours: int) | DaysAgo(days: int) | LocaleDate

  /** Floor division twice is floor division by the product. */
  lemma DivDiv(a: int, b: int, c: int)
    requires b > 0 && c > 0
    ensures a / b / c == a / (b * c)
  {
    var q1 := a / b;
    var r1 := a % b;
    var q2 := q1 / c;
    var r2 := q1 % c;
    assert a == q1 * b + r1;
    assert q1 == q2 * c + r2;
    MulSplit(q2 * c, r2, b);
    assert q1 * b == q2 * c * b + r2 * b;
    assert q2 * c * b == q2 * (b * c);
    MulBelow(r2, c, b);
    ModUnique(a, b * c, q2, r2 * b + r1);
  }

  lemma MulSplit(x: int, y: int, b: int)
    ensures (x + y) * b == x * b + y * b
  {
  }

  lemma MulBelow(r: int, c: int, b: int)
    requires 0 <= r < c && b > 0
    ensures 0 <= r * b && r * b + b <= c * b
  {
    MulSplit(r, 1, b);
    assert (r + 1) * b <= c * b;
  }

  /** `formatTimeAgo` for a timestamp `diffMs` milliseconds in the past
      (negative for the future), with `Math.floor` at every unit. */
  function FormatTimeAgo(diffMs: int): TimeAgo {
    var diffSecs := diffMs / 1000;
    var diffMins := diffSecs / 60;
    var diffHours := diffMins / 60;
    var diffDays := diffHours / 24;
    if diffSecs < 60 then JustNow
    else if diffMins < 60 then MinutesAgo(diffMins)
    else if diffHours < 24 then HoursAgo(diffHours)
    else if diffDays < 7 then DaysAgo(diffDays)
    else LocaleDate
  }

  /** The buckets in milliseconds: under a minute (the future included) is
      "Just now", then whole minutes 1-59, whole hours 1-23, whole days 1-6,
      and the date from a week on. */
  lemma FormatTimeAgoBuckets(diffMs: int)
    ensures FormatTimeAgo(diffMs) == JustNow <==> diffMs < 60_000
    ensures 60_000 <= diffMs < 3_600_000 ==> FormatTimeAgo(diffMs) == MinutesAgo(diffMs / 60_000)
    ensures 3_600_000 <= diffMs < 86_400_000 ==> FormatTimeAgo(diffMs) == HoursAgo(diffMs / 3_600_000)
    ensures 86_400_000 <= diffMs < 604_800_000 ==> FormatTimeAgo(diffMs) == DaysAgo(diffMs / 86_400_000)
    ensures FormatTimeAgo(diffMs) == LocaleDate <==> diffMs >= 604_800_000
    ensures FormatTimeAgo(diffMs).MinutesAgo? ==> 1 <= FormatTimeAgo(diffMs).minutes <= 59
    ensures FormatTimeAgo(diffMs).HoursAgo? ==> 1 <= FormatTimeAgo(diffMs).hours <= 23
    ensures FormatTimeAgo(diffMs).DaysAgo? ==> 1 <= FormatTimeAgo(diffMs).days <= 6
  {
    DivDiv(diffMs, 1000, 60);
    DivDiv(diffMs, 60_000, 60);
    DivDiv(diffMs, 3_600_000, 24);
  }

  /** The rendered label. */
  function TimeAgoText(t: TimeAgo): string {
    match t
    case JustNow => "Just now"
    case MinutesAgo(m) => (if m >= 0 then NatToString(m) else "") + "m ago"
    case HoursAgo(h) => (if h >= 0 then NatToString(h) else "") + "h ago"
    case DaysAgo(d) => (if d >= 0 then NatToString(d) else "") + "d ago"
    case LocaleDate => ""
  }

  /** Two elapsed times whose labels read the same, both short of the
      date fallback, fall into the same bucket: the labels never confuse
      minutes, hours and days, nor two different counts. */
  lemma TimeAgoTextDistinguishes(x: int, y: int)
    requires FormatTimeAgo(x) != LocaleDate && FormatTimeAgo(y) != LocaleDate
    requires TimeAgoText(FormatTimeAgo(x)) == TimeAgoText(FormatTimeAgo(y))
    ensures FormatTimeAgo(x) == FormatTimeAgo(y)
  {
    FormatTimeAgoBuckets(x);
    FormatTimeAgoBuckets(y);
    LabelsDistinct(FormatTimeAgo(x), FormatTimeAgo(y));
  }

  /** `TimeAgoText` is one-to-one on the labels with a non-negative count. */
  lemma LabelsDistinct(a: TimeAgo, b: TimeAgo)
    requires !a.LocaleDate? && !b.LocaleDate?
    requires CountNonNegative(a) && CountNonNegative(b)
    requires TimeAgoText(a) == TimeAgoText(b)
    ensures a == b
  {
    var s := TimeAgoText(a);
    LabelShape(a);
    LabelShape(b);
    if !a.JustNow? && !b.JustNow? {
      assert Unit(a) == s[|s| - 5] == Unit(b);
      assert NatToString(Amount(a)) == s[..|s| - 5] == NatToString(Amount(b));
      NatToStringInjective(Amount(a), Amount(b));
    }
  }

  /** The count of a label is never negative. */
  predicate CountNonNegative(t: TimeAgo) {
    (t.MinutesAgo? ==> t.minutes >= 0) &&
    (t.HoursAgo? ==> t.hours >= 0) &&
    (t.DaysAgo? ==> t.days >= 0)
  }

  /** A label is "Just now", whose fifth character from the end is 't', or
      the count, the unit letter and " ago". */
  lemma LabelShape(t: TimeAgo)
    requires !t.LocaleDate? && CountNonNegative(t)
    ensures var s := TimeAgoText(t);
      |s| >= 5 && (t.JustNow? <==> s[|s| - 5] == 't')
    ensures !t.JustNow? ==> TimeAgoText(t) == NatToString(Amount(t)) + [Unit(t)] + " ago"
  {
  }

  /** The count of a minutes, hours or days label. */
  function Amount(t: TimeAgo): nat
    requires t.MinutesAgo? || t.HoursAgo? || t.DaysAgo?
    requires CountNonNegative(t)
  {
    match t
    case MinutesAgo(m) => m
    case HoursAgo(h) => h
    case DaysAgo(d) => d
  }

  /** The unit letter of a minutes, hours or days label. */
  function Unit(t: TimeAgo): char
    requires t.MinutesAgo? || t.HoursAgo? || t.DaysAgo?
  {
    match t
    case MinutesAgo(_) => 'm'
    case HoursAgo(_) => 'h'
    case DaysAgo(_) => 'd'
  }

  // ---------------------------------------------------------------------------
  // Initials
  // ---------------------------------------------------------------------------

  /** `.map(n => n[0]).join('')`: the first character of every word; an empty
      word gives `undefined`, which `join` writes as nothing. */
  function FirstChars(words: seq<string>): (r: string)
    ensures |r| <= |words|
  {
    if words == [] then ""
    else (if words[0] == "" then "" else [words[0][0]]) + FirstChars(words[1..])
  }

  /** Empty words (from doubled, leading or trailing spaces) contribute nothing. */
  lemma {:induction false} FirstCharsSkipsEmpty(words: seq<string>)
    ensures FirstChars(words) == FirstChars(Filter(words, (w: string) => w != ""))
  {
    if words != [] {
      FirstCharsSkipsEmpty(words[1..]);
      var nonEmpty := (w: string) => w != "";
      if words[0] != "" {
        var f := Filter(words, nonEmpty);
        assert f == [words[0]] + Filter(words[1..], nonEmpty);
        assert f[1..] == Filter(words[1..], nonEmpty);
      }
    }
  }

  /** `getInitials(name)` */
  function GetInitials(name: string): (r: string)
    ensures |r| <= 2
    ensures r == Upper(FirstChars(Split(name, ' ')))[..Min(2, |FirstChars(Split(name, ' '))|)]
  {
    var s := Upper(FirstChars(Split(name, ' ')));
    SliceTake(s, 2);
    Slice(s, 0, 2)
  }

  /** Without empty words, there is one first character per word. */
  lemma {:induction false} FirstCharsOfWords(words: seq<string>)
    requires forall i :: 0 <= i < |words| ==> words[i] != ""
    ensures |FirstChars(words)| == |words|
    ensures forall i :: 0 <= i < |words| ==> FirstChars(words)[i] == words[i][0]
  {
    if words != [] {
      FirstCharsOfWords(words[1..]);
    }
  }

  /** For a name made of space-separated words, the initials are the
      upper-cased first letters of the first two words. */
  lemma InitialsOfWords(words: seq<string>)
    requires |words| >= 1
    requires forall i :: 0 <= i < |words| ==> words[i] != "" && ' ' !in words[i]
    ensures |GetInitials(Join(words, " "))| == Min(2, |words|)
    ensures forall i :: 0 <= i < Min(2, |words|) ==> GetInitials(Join(words, " "))[i] == UpperChar(words[i][0])
  {
    SplitJoin(words, ' ');
    FirstCharsOfWords(words);
  }

  // ---------------------------------------------------------------------------
  // The visible feed
  // ---------------------------------------------------------------------------

  /** `activities.slice(0, maxItems)` */
  function Visible(activities: seq<string>, maxItems: int): (v: seq<string>)
    ensures maxItems >= 0 ==> v == activities[..Min(maxItems, |activities|)]
  {
    if maxItems >= 0 then SliceTake(activities, maxItems); Slice(activities, 0, maxItems)
    else Slice(activities, 0, maxItems)
  }

  /** The "View all" footer appears exactly when the slice hides something. */
  lemma ViewAllWhenHidden(activities: seq<string>, maxItems: int)
    requires maxItems >= 0
    ensures |activities| > maxItems <==> |Visible(activities, maxItems)| < |activities|
  {
  }

  // ---------------------------------------------------------------------------
  // "New" detection
  // ---------------------------------------------------------------------------

  /** The ids the detection effect marks: the first visible activity, when
      there was a previous list and it did not hold that id. */
  function DetectNew(prev: seq<string>, visible: seq<string>): (ids: set<string>)
    ensures |ids| <= 1
    ensures ids != {} <==> |visible| > 0 && |prev| > 0 && visible[0] !in prev
    ensures ids != {} ==> ids == {visible[0]}
  {
    if |visible| > 0 && |prev| > 0 && visible[0] !in prev then {visible[0]} else {}
  }

  /** The detection state: the previous visible list, the marked ids and
      whether a clearing timer is pending. */
  datatype Feed = Feed(prev: seq<string>, marked: set<string>, timerArmed: bool)

  const Mounted: Feed := Feed([], {}, false)

  /** Every mark will be cleared: a pending timer exists whenever something is marked. */
  predicate MarksExpire(f: Feed) {
    f.marked != {} ==> f.timerArmed
  }

  /** One run of the effect as written. It depends on `visibleActivities`, a
      fresh array on every render, so it runs after every render, and its
      cleanup first cancels the timer of the previous run. */
  function EffectRunAsWritten(f: Feed, visible: seq<string>): (g: Feed)
    ensures g.prev == visible
    ensures DetectNew(f.prev, visible) != {} ==> g.marked == DetectNew(f.prev, visible) && g.timerArmed
    ensures DetectNew(f.prev, visible) == {} ==> g.marked == f.marked && !g.timerArmed
  {
    var newIds := DetectNew(f.prev, visible);
    if newIds != {} then Feed(visible, newIds, true) else Feed(visible, f.marked, false)
  }

  /** A render with new props as written: the effect runs, and when it marked
      an id, `setNewActivityIds` renders again and the effect runs once more. */
  function RenderAsWritten(f: Feed, visible: seq<string>): (g: Feed)
    ensures g.prev == visible
    ensures DetectNew(f.prev, visible) != {} ==>
              g.marked == DetectNew(f.prev, visible) && !g.timerArmed && !MarksExpire(g)
    ensures DetectNew(f.prev, visible) == {} ==> g.marked == f.marked && !g.timerArmed
  {
    var g := EffectRunAsWritten(f, visible);
    if DetectNew(f.prev, visible) != {} then EffectRunAsWritten(g, visible) else g
  }

  /** As written, the re-render caused by marking cancels the clearing timer,
      so a "New" badge stays until another activity arrives. */
  lemma NewBadgeNeverExpiresAsWritten()
    ensures var f := RenderAsWritten(RenderAsWritten(Mounted, ["a"]), ["b", "a"]);
            f.marked == {"b"} && !f.timerArmed && !MarksExpire(f)
  {
    var f1 := RenderAsWritten(Mounted, ["a"]);
    assert f1 == Feed(["a"], {}, false);
    assert "b" !in ["a"];
    assert DetectNew(["a"], ["b", "a"]) == {"b"};
    var g := EffectRunAsWritten(f1, ["b", "a"]);
    assert g == Feed(["b", "a"], {"b"}, true);
    assert DetectNew(["b", "a"], ["b", "a"]) == {};
  }

  /** The corrected detection: a run that finds nothing new leaves the marks
      and their pending timer alone. */
  function Render(f: Feed, visible: seq<string>): (g: Feed)
    ensures g.prev == visible
    ensures DetectNew(f.prev, visible) != {} ==> g.marked == DetectNew(f.prev, visible) && g.timerArmed
    ensures DetectNew(f.prev, visible) == {} ==> g.marked == f.marked && g.timerArmed == f.timerArmed
  {
    var newIds := DetectNew(f.prev, visible);
    if newIds != {} then Feed(visible, newIds, true) else Feed(visible, f.marked, f.timerArmed)
  }

  /** The 3000 ms timer firing. */
  function Expire(f: Feed): (g: Feed)
    ensures f.timerArmed ==> g.marked == {} && !g.timerArmed
    ensures !f.timerArmed ==> g == f
    ensures g.prev == f.prev
  {
    if f.timerArmed then Feed(f.prev, {}, false) else f
  }

  /** At most one id is marked at a time. */
  predicate MarkShape(f: Feed) {
    |f.marked| <= 1
  }

  /** Both steps keep every mark on a pending timer and at most one mark. */
  lemma StepsKeepMarksExpiring(f: Feed, visible: seq<string>)
    requires MarksExpire(f) && MarkShape(f)
    ensures MarksExpire(Render(f, visible)) && MarkShape(Render(f, visible))
    ensures MarksExpire(Expire(f)) && MarkShape(Expire(f))
  {
  }

  /** With the correction, the same arrival is marked and then cleared when the timer fires. */
  lemma NewBadgeExpires()
    ensures var f := Render(Render(Render(Mounted, ["a"]), ["b", "a"]), ["b", "a"]);
            f.marked == {"b"} && Expire(f).marked == {}
  {
    assert "b" !in ["a"];
    assert DetectNew(["a"], ["b", "a"]) == {"b"};
    assert DetectNew(["b", "a"], ["b", "a"]) == {};
  }

  /** The feed component, with the corrected detection. */
  class ActivityFeed {
    var prevIds: seq<string>
    var newActivityIds: set<string>
    var timerArmed: bool

    function State(): Feed
      reads this
    {
      Feed(prevIds, newActivityIds, timerArmed)
    }

    constructor ()
      ensures State() == Mounted
    {
      prevIds := [];
      newActivityIds := {};
      timerArmed := false;
    }

    /** A render with the given activities. */
    method Show(activities: seq<string>, maxItems: int)
      modifies this
      ensures State() == Render(old(State()), Visible(activities, maxItems))
      ensures old(MarksExpire(State())) ==> MarksExpire(State())
    {
      var visible := Visible(activities, maxItems);
      var newIds := DetectNew(prevIds, visible);
      prevIds := visible;
      if newIds != {} {
        newActivityIds := newIds;
        timerArmed := true;
      }
    }

    /** The clearing timer fires. */
    method TimerFires()
      modifies this
      ensures State() == Expire(old(State()))
      ensures old(timerArmed) ==> newActivityIds == {}
    {
      if timerArmed {
        newActivityIds := {};
        timerArmed := false;
      }
    }

    /** The "New" badge of one item. */
    predicate IsNew(id: string)
      reads this
    {
      id in newActivityIds
    }
  }
}
