/** `useKonamiCode` and `useEasterEggs`: a buffer of the last ten keys that
    fires when it spells the Konami code, the secret mode the code switches
    on for five seconds, and a three-timestamp buffer for the triple click.
    The clock enters as a parameter and the reset timer as an explicit step. */
module Konami {
  import opened JsPrims

  const KonamiCode: seq<string> :=
    ["ArrowUp", "ArrowUp", "ArrowDown", "ArrowDown", "ArrowLeft", "ArrowRight", "ArrowLeft", "ArrowRight", "b", "a"]

  const BufferSize := 10

  /** `s.slice(-10)`: the last ten entries, or all of them when fewer. */
  function LastTen(s: seq<string>): (r: seq<string>)
    ensures |r| == Min(BufferSize, |s|)
    ensures r == s[|s| - |r|..]
  {
    SliceLast(s, BufferSize);
    SliceFrom(s, -BufferSize)
  }

  /** Trimming before appending loses nothing: the buffer is always the
      last ten keys of everything received since it was last cleared. */
  lemma LastTenOfLastTen(s: seq<string>, k: string)
    ensures LastTen(LastTen(s) + [k]) == LastTen(s + [k])
  {
    var t := LastTen(s);
    var a := LastTen(t + [k]);
    var b := LastTen(s + [k]);
    assert |a| == |b|;
    forall i | 0 <= i < |a| ensures a[i] == b[i] {
      if i == |a| - 1 {
        assert a[i] == k == b[i];
      }
    }
  }

  /** One keydown on a buffer: the trimmed buffer, or the empty buffer when
      it matched, and whether it matched. Comparing the JSON texts of two
      string arrays is comparing the arrays. */
  function Step(keys: seq<string>, key: string): (r: (seq<string>, bool))
    ensures r.1 <==> LastTen(keys + [key]) == KonamiCode
    ensures r.1 ==> r.0 == [] && |keys| >= BufferSize - 1
    ensures !r.1 ==> r.0 == LastTen(keys + [key])
    ensures |r.0| <= BufferSize
  {
    var newKeys := LastTen(keys + [key]);
    if newKeys == KonamiCode then ([], true) else (newKeys, false)
  }

  /** A match takes the key "a": any other key leaves the buffer trimmed, never cleared. */
  lemma OnlyAFinishesTheCode(keys: seq<string>, key: string)
    requires key != "a"
    ensures !Step(keys, key).1
  {
    var newKeys := LastTen(keys + [key]);
    assert newKeys[|newKeys| - 1] == key;
  }

  /** The buffer after a run of keys. */
  function Feed(keys: seq<string>, ks: seq<string>): (r: seq<string>)
    ensures |r| <= BufferSize || (ks == [] && r == keys)
  {
    if ks == [] then keys else Step(Feed(keys, ks[..|ks| - 1]), ks[|ks| - 1]).0
  }

  /** Keys without "a" just slide through the buffer. */
  lemma {:induction false} FeedWithoutA(keys: seq<string>, ks: seq<string>)
    requires forall i :: 0 <= i < |ks| ==> ks[i] != "a"
    ensures Feed(keys, ks) == (if ks == [] then keys else LastTen(keys + ks))
  {
    if ks != [] {
      var init := ks[..|ks| - 1];
      var last := ks[|ks| - 1];
      forall i | 0 <= i < |init| ensures init[i] != "a" {
        assert init[i] == ks[i];
      }
      FeedWithoutA(keys, init);
      var before := Feed(keys, init);
      assert before == (if init == [] then keys else LastTen(keys + init));
      FeedSlides(keys, ks);
      assert Feed(keys, ks) == LastTen(before + [last]);
      SlideAfter(keys, init, last);
      assert init + [last] == ks;
      assert LastTen(before + [last]) == LastTen(keys + ks);
    }
  }

  /** Sliding one more key into the buffer of `keys + init`. */
  lemma SlideAfter(keys: seq<string>, init: seq<string>, last: string)
    ensures LastTen((if init == [] then keys else LastTen(keys + init)) + [last]) == LastTen(keys + (init + [last]))
  {
    assert keys + (init + [last]) == (keys + init) + [last];
    if init != [] {
      LastTenOfLastTen(keys + init, last);
    } else {
      assert keys + init == keys;
    }
  }

  /** A last key other than "a" only slides the buffer. */
  lemma FeedSlides(keys: seq<string>, ks: seq<string>)
    requires ks != [] && ks[|ks| - 1] != "a"
    ensures Feed(keys, ks) == LastTen(Feed(keys, ks[..|ks| - 1]) + [ks[|ks| - 1]])
  {
    OnlyAFinishesTheCode(Feed(keys, ks[..|ks| - 1]), ks[|ks| - 1]);
  }

  /** Typing the code fires on its last key, whatever the buffer held before. */
  lemma TypingTheCodeFires(keys: seq<string>)
    ensures Step(Feed(keys, KonamiCode[..9]), KonamiCode[9]).1
  {
    var init := KonamiCode[..9];
    assert init == ["ArrowUp", "ArrowUp", "ArrowDown", "ArrowDown", "ArrowLeft", "ArrowRight", "ArrowLeft", "ArrowRight", "b"];
    assert KonamiCode[9] == "a";
    FeedWithoutA(keys, init);
    LastTenOfLastTen(keys + init, "a");
    var full := keys + KonamiCode;
    assert (keys + init) + ["a"] == full;
    assert full[|full| - BufferSize..] == KonamiCode;
  }

  /** The state `useEasterEggs` keeps: the key buffer, the secret mode, and
      how many five-second reset timers are still pending. */
  class EasterEggs {
    var keys: seq<string>
    var secretMode: bool
    var pendingResets: nat

    constructor ()
      ensures keys == [] && !secretMode && pendingResets == 0
    {
      keys := [];
      secretMode := false;
      pendingResets := 0;
    }

    /** `handleKeyDown`: a match turns secret mode on and arms a reset timer. */
    method KeyDown(key: string) returns (matched: bool)
      modifies this
      ensures (keys, matched) == Step(old(keys), key)
      ensures matched ==> secretMode && pendingResets == old(pendingResets) + 1
      ensures !matched ==> secretMode == old(secretMode) && pendingResets == old(pendingResets)
    {
      var newKeys := LastTen(keys + [key]);
      matched := newKeys == KonamiCode;
      if matched {
        keys := [];
        secretMode := true;
        pendingResets := pendingResets + 1;
      } else {
        keys := newKeys;
      }
    }

    /** A reset timer fires, five seconds after its match. */
    method ResetTimerFires()
      modifies this
      ensures old(pendingResets) > 0 ==> !secretMode && pendingResets == old(pendingResets) - 1
      ensures old(pendingResets) == 0 ==> secretMode == old(secretMode) && pendingResets == 0
      ensures keys == old(keys)
    {
      if pendingResets > 0 {
        secretMode := false;
        pendingResets := pendingResets - 1;
      }
    }
  }

  // ---------------------------------------------------------------------------
  // Triple click
  // ---------------------------------------------------------------------------

  const EggWindowMs := 500

  /** One click at time `now`: push, drop the oldest beyond three, and fire
      when three clicks span less than half a second. */
  function ClickStep(clicks: seq<int>, now: int): (r: (seq<int>, bool))
    requires |clicks| <= 3
    ensures |clicks| < 3 ==> r.0 == clicks + [now]
    ensures |clicks| == 3 ==> r.0 == clicks[1..] + [now]
    ensures r.1 <==> |r.0| == 3 && now - r.0[0] < EggWindowMs
  {
    if |clicks| < 3 then
      var kept := clicks + [now];
      (kept, |kept| == 3 && now - kept[0] < EggWindowMs)
    else
      (clicks[1..] + [now], now - clicks[1] < EggWindowMs)
  }

  /** Three clicks within half a second fire on the third, whatever came before. */
  lemma ThreeQuickClicksFire(clicks: seq<int>, t0: int, t1: int, t2: int)
    requires |clicks| <= 3 && t2 - t0 < EggWindowMs
    ensures var c1 := ClickStep(clicks, t0).0;
            var c2 := ClickStep(c1, t1).0;
            ClickStep(c2, t2).1
  {
    var c1 := ClickStep(clicks, t0).0;
    var c2 := ClickStep(c1, t1).0;
    assert c1[|c1| - 1] == t0;
    assert c2[|c2| - 2] == t0;
    var c3 := ClickStep(c2, t2).0;
    assert c3[0] == t0;
  }

  /** The click buffer one `handleTripleClick()` call creates. */
  class ClickBuffer {
    var clicks: seq<int>

    constructor ()
      ensures clicks == []
    {
      clicks := [];
    }

    /** A click at time `now`; reports whether the easter egg fires. */
    method Click(now: int) returns (egg: bool)
      requires |clicks| <= 3
      modifies this
      ensures (clicks, egg) == ClickStep(old(clicks), now)
      ensures |clicks| <= 3
    {
      clicks := clicks + [now];
      if |clicks| > 3 {
        clicks := clicks[1..];
        assert clicks == old(clicks)[1..] + [now];
      }
      assert clicks[|clicks| - 1] == now;
      egg := |clicks| == 3 && clicks[2] - clicks[0] < EggWindowMs;
    }
  }
}
