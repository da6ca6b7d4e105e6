/** Three pieces of state from the animated effects: the `useTypewriter`
    state machine (one tick per timer), the `MouseTrail` buffer of recent
    cursor positions, and the `MagneticWrapper` offset reset. Timers are
    explicit steps and the clock is a parameter. */
module AnimatedEffects {
  import opened JsPrims

  // ---------------------------------------------------------------------------
  // Typewriter
  // ---------------------------------------------------------------------------

  /** The three state variables of `useTypewriter`. */
  datatype TypeState = TypeState(wordIndex: nat, text: string, isDeleting: bool)

  /** What one tick did. `ArmDelete` schedules the 1500 ms timer that starts
      deleting; `Threw` is the error an out-of-range word index causes. */
  datatype Tick = Typed | ArmDelete | Deleted | NextWord | Threw

  const InitialTypeState := TypeState(0, "", false)
  const DefaultSpeed: real := 100.0
  const PauseBeforeDeleteMs := 1500

  /** The shown text is a prefix of the current word. */
  predicate Good(words: seq<string>, s: TypeState) {
    s.wordIndex < |words| && s.text <= words[s.wordIndex]
  }

  /** The delay before the next tick: half the speed while deleting. */
  function TickDelay(isDeleting: bool, speed: real): (d: real)
    ensures isDeleting ==> d * 2.0 == speed
    ensures !isDeleting ==> d == speed
  {
    if isDeleting then speed / 2.0 else speed
  }

  /** The timeout callback of `useTypewriter`. */
  function Next(words: seq<string>, s: TypeState): (r: (TypeState, Tick))
    ensures s.wordIndex >= |words| ==> r == (s, Threw)
    ensures Good(words, s) ==> Good(words, r.0)
    ensures Good(words, s) && !s.isDeleting && |s.text| < |words[s.wordIndex]| ==>
              r.1 == Typed && r.0 == s.(text := s.text + [words[s.wordIndex][|s.text|]])
    ensures Good(words, s) && !s.isDeleting && |s.text| == |words[s.wordIndex]| ==>
              r == (s, ArmDelete)
    ensures Good(words, s) && s.isDeleting && |s.text| > 0 ==>
              r.1 == Deleted && r.0 == s.(text := s.text[..|s.text| - 1])
    ensures Good(words, s) && s.isDeleting && s.text == [] ==>
              r.1 == NextWord && r.0 == TypeState((s.wordIndex + 1) % |words|, "", false)
  {
    if s.wordIndex >= |words| then (s, Threw)
    else
      var word := words[s.wordIndex];
      if !s.isDeleting then
        if |s.text| < |word| then
          SliceTake(word, |s.text| + 1);
          (s.(text := Slice(word, 0, |s.text| + 1)), Typed)
        else (s, ArmDelete)
      else if |s.text| > 0 then
        (s.(text := Slice(s.text, 0, -1)), Deleted)
      else
        (TypeState((s.wordIndex + 1) % |words|, "", false), NextWord)
  }

  /** The 1500 ms timer armed at the end of a word. */
  function StartDeleting(s: TypeState): (r: TypeState)
    ensures r.isDeleting && r.text == s.text && r.wordIndex == s.wordIndex
  {
    s.(isDeleting := true)
  }

  /** `n` ticks in a row. */
  function Ticks(words: seq<string>, s: TypeState, n: nat): TypeState
    decreases n
  {
    if n == 0 then s else Ticks(words, Next(words, s).0, n - 1)
  }

  /** Typing finishes the current word, one character per tick. */
  lemma {:induction false} TypingCompletesWord(words: seq<string>, s: TypeState)
    requires Good(words, s) && !s.isDeleting
    ensures Ticks(words, s, |words[s.wordIndex]| - |s.text|) == s.(text := words[s.wordIndex])
    decreases |words[s.wordIndex]| - |s.text|
  {
    var w := words[s.wordIndex];
    if |s.text| < |w| {
      var s1 := Next(words, s).0;
      assert s1.text == w[..|s.text| + 1] by {
        assert s.text == w[..|s.text|];
      }
      TypingCompletesWord(words, s1);
    } else {
      assert s.text == w[..|s.text|];
    }
  }

  /** Deleting empties the text and then moves on to the next word, in range. */
  lemma {:induction false} DeletingMovesToNextWord(words: seq<string>, s: TypeState)
    requires Good(words, s) && s.isDeleting
    ensures Ticks(words, s, |s.text| + 1) == TypeState((s.wordIndex + 1) % |words|, "", false)
    ensures Good(words, Ticks(words, s, |s.text| + 1))
    decreases |s.text|
  {
    if |s.text| > 0 {
      var s1 := Next(words, s).0;
      DeletingMovesToNextWord(words, s1);
    }
  }

  /** One whole cycle on a word: typed in full, paused, deleted, and the
      index moved on, starting from an empty text. */
  lemma WordCycle(words: seq<string>, i: nat)
    requires i < |words|
    ensures var typed := Ticks(words, TypeState(i, "", false), |words[i]|);
            typed == TypeState(i, words[i], false)
            && Next(words, typed) == (typed, ArmDelete)
            && Ticks(words, StartDeleting(typed), |words[i]| + 1) == TypeState((i + 1) % |words|, "", false)
  {
    TypingCompletesWord(words, TypeState(i, "", false));
    DeletingMovesToNextWord(words, TypeState(i, words[i], true));
  }

  /** The hook's state, with the word list it was given. */
  class Typewriter {
    const words: seq<string>
    var state: TypeState
    var deleteTimerArmed: bool

    predicate Valid()
      reads this
    {
      |words| > 0 ==> Good(words, state)
    }

    constructor (words: seq<string>)
      ensures this.words == words && state == InitialTypeState && !deleteTimerArmed
      ensures Valid()
    {
      this.words := words;
      state := InitialTypeState;
      deleteTimerArmed := false;
    }

    /** The tick timer fires. */
    method Tick() returns (tick: Tick)
      requires Valid()
      modifies this
      ensures (state, tick) == Next(words, old(state))
      ensures deleteTimerArmed == (old(deleteTimerArmed) || tick == ArmDelete)
      ensures Valid()
    {
      var r := Next(words, state);
      state := r.0;
      tick := r.1;
      if tick == ArmDelete {
        deleteTimerArmed := true;
      }
    }

    /** The 1500 ms timer fires. */
    method DeleteTimerFires()
      requires Valid()
      modifies this
      ensures old(deleteTimerArmed) ==> state == StartDeleting(old(state)) && !deleteTimerArmed
      ensures !old(deleteTimerArmed) ==> state == old(state) && !deleteTimerArmed
      ensures Valid()
    {
      if deleteTimerArmed {
        state := StartDeleting(state);
        deleteTimerArmed := false;
      }
    }
  }

  // ---------------------------------------------------------------------------
  // Mouse trail
  // ---------------------------------------------------------------------------

  datatype TrailPoint = TrailPoint(x: real, y: real, id: int)

  const TrailLength := 10

  /** `trails.slice(-10)` */
  function Recent(trails: seq<TrailPoint>): (r: seq<TrailPoint>)
    ensures |r| == Min(TrailLength, |trails|)
    ensures r == trails[|trails| - |r|..]
  {
    SliceLast(trails, TrailLength);
    SliceFrom(trails, -TrailLength)
  }

  /** Trimming on every move gives the same trail as trimming the whole history once. */
  lemma RecentOfRecent(h: seq<TrailPoint>, p: TrailPoint)
    ensures Recent(Recent(h) + [p]) == Recent(h + [p])
  {
    var a := Recent(Recent(h) + [p]);
    var b := Recent(h + [p]);
    assert |a| == |b|;
    forall i | 0 <= i < |a| ensures a[i] == b[i] {
      if i == |a| - 1 {
        assert a[i] == p == b[i];
      }
    }
  }

  /** The trail ref, with every position received so far as ghost history. */
  class MouseTrail {
    var trails: seq<TrailPoint>
    ghost var history: seq<TrailPoint>

    ghost predicate Valid()
      reads this
    {
      trails == Recent(history)
    }

    constructor ()
      ensures trails == [] && history == [] && Valid()
    {
      trails := [];
      history := [];
    }

    /** `handleMouseMove` at time `now`. */
    method MouseMove(x: real, y: real, now: int)
      requires Valid()
      modifies this
      ensures history == old(history) + [TrailPoint(x, y, now)]
      ensures Valid()
      ensures |trails| <= TrailLength && trails[|trails| - 1] == TrailPoint(x, y, now)
    {
      RecentOfRecent(history, TrailPoint(x, y, now));
      history := history + [TrailPoint(x, y, now)];
      trails := Recent(trails + [TrailPoint(x, y, now)]);
    }
  }

  // ---------------------------------------------------------------------------
  // Magnetic wrapper
  // ---------------------------------------------------------------------------

  class MagneticOffset {
    var x: real
    var y: real

    constructor ()
      ensures x == 0.0 && y == 0.0
    {
      x, y := 0.0, 0.0;
    }

    /** `handleMouseLeave`: the offset snaps back to the origin. */
    method MouseLeave()
      modifies this
      ensures x == 0.0 && y == 0.0
    {
      x, y := 0.0, 0.0;
    }
  }
}
