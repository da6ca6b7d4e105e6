/** `BalanceCard` arithmetic: the default "days and hours" rendering of a
    leave balance measured in (possibly fractional) days of eight hours, the
    percentage of the entitlement that remains, and the colour status
    derived from it. Numbers are JavaScript doubles; they are modelled as
    exact reals. */
module StatCard {
  import opened Optional
  import opened JsPrims

  /** `Math.round`: halves go up, towards positive infinity. */
  function Round(x: real): (n: int)
    ensures n as real - 0.5 <= x < n as real + 0.5
  {
    (x + 0.5).Floor
  }

  /** The working hours in a day. */
  const HoursPerDay: int := 8

  /** The rendered pieces for a balance of `totalHours` hours: whole days
      first, then the remaining hours, each only when positive. There are
      none for a balance of zero hours or less; otherwise every piece is a
      positive number with its unit and no space, days come before hours,
      and an hour count stays below a day. `DurationPartsRoundTrip` shows
      the pieces read back as `totalHours`. */
  function DurationParts(totalHours: int): (parts: seq<string>)
    ensures |parts| <= 2
    ensures parts == [] <==> totalHours <= 0
    ensures forall k :: 0 <= k < |parts| ==>
              ' ' !in parts[k] && ParsePiece(parts[k]).Some? && ParsePiece(parts[k]).value.0 > 0
    ensures |parts| == 2 ==> ParsePiece(parts[0]).value.1 == 'd' && ParsePiece(parts[1]).value.1 == 'h'
    ensures forall k :: 0 <= k < |parts| && ParsePiece(parts[k]).value.1 == 'h' ==>
              ParsePiece(parts[k]).value.0 < HoursPerDay
  {
    var wholeDays := totalHours / HoursPerDay;
    var remainingHours := JsRem(totalHours, HoursPerDay);
    assert totalHours > 0 ==> wholeDays > 0 || remainingHours > 0;
    assert totalHours <= 0 ==> wholeDays <= 0 && remainingHours <= 0;
    DayHourPieces(wholeDays, remainingHours)
  }

  /** `days` followed by `hours`, each rendered only when positive. */
  function DayHourPieces(days: int, hours: int): (parts: seq<string>)
    requires hours < HoursPerDay
    ensures |parts| <= 2
    ensures parts == [] <==> days <= 0 && hours <= 0
    ensures forall k :: 0 <= k < |parts| ==>
              ' ' !in parts[k] && ParsePiece(parts[k]).Some? && ParsePiece(parts[k]).value.0 > 0
    ensures |parts| == 2 ==> ParsePiece(parts[0]).value.1 == 'd' && ParsePiece(parts[1]).value.1 == 'h'
    ensures forall k :: 0 <= k < |parts| && ParsePiece(parts[k]).value.1 == 'h' ==>
              ParsePiece(parts[k]).value.0 < HoursPerDay
  {
    var dayPart := if days > 0 then (PieceRoundTrip(days, 'd'); [NatToString(days) + "d"]) else [];
    var hourPart := if hours > 0 then (PieceRoundTrip(hours, 'h'); [NatToString(hours) + "h"]) else [];
    dayPart + hourPart
  }

  /** A rendered hour count lies between 1 and 7. */
  lemma HoursBelowADay(totalHours: int)
    ensures JsRem(totalHours, HoursPerDay) > 0 ==> 1 <= JsRem(totalHours, HoursPerDay) <= 7
  {
  }

  /** `defaultFormatValue(value)` for a balance in days. */
  function DefaultFormatValue(value: real): (s: string)
    ensures value == 0.0 ==> s == "0"
    ensures value != 0.0 && DurationParts(Round(value * 8.0)) == [] ==> s == "0"
    ensures value != 0.0 && DurationParts(Round(value * 8.0)) != [] ==> s == Join(DurationParts(Round(value * 8.0)), " ")
  {
    if value == 0.0 then "0"
    else
      var parts := DurationParts(Round(value * HoursPerDay as real));
      if |parts| > 0 then Join(parts, " ") else "0"
  }

  /** Negative balances, and balances under half an hour, render as "0". */
  lemma SmallOrNegativeIsZero(value: real)
    requires value * 8.0 < 0.5
    ensures DefaultFormatValue(value) == "0"
  {
    var t := Round(value * 8.0);
    assert t <= 0;
    if t < 0 {
      assert t / HoursPerDay < 0;
    }
  }

  // ---------------------------------------------------------------------------
  // Reading a rendered balance back
  // ---------------------------------------------------------------------------

  /** One rendered piece: digits followed by the unit `d` or `h`. */
  function ParsePiece(t: string): Option<(nat, char)> {
    if |t| >= 2 && t[|t| - 1] in {'d', 'h'} && forall i :: 0 <= i < |t| - 1 ==> IsDigit(t[i])
    then Some((ParseNat(t[..|t| - 1]), t[|t| - 1]))
    else None
  }

  /** Reads a rendering back into hours: "0", "Nd", "Nh" or "Nd Mh". */
  function ParseDuration(s: string): Option<nat> {
    if s == "0" then Some(0)
    else
      var pieces := Split(s, ' ');
      if |pieces| == 1 then
        match ParsePiece(pieces[0])
        case Some((n, u)) => if u == 'd' then Some(n * 8) else Some(n)
        case None => None
      else if |pieces| == 2 then
        var first := ParsePiece(pieces[0]);
        var second := ParsePiece(pieces[1]);
        if first.Some? && first.value.1 == 'd' && second.Some? && second.value.1 == 'h'
        then Some(first.value.0 * 8 + second.value.0)
        else None
      else None
  }

  lemma PieceRoundTrip(n: nat, u: char)
    requires u in {'d', 'h'}
    ensures ParsePiece(NatToString(n) + [u]) == Some((n, u))
    ensures ' ' !in NatToString(n) + [u]
  {
    var t := NatToString(n) + [u];
    assert t[..|t| - 1] == NatToString(n);
    ParseNatToString(n);
  }

  /** Whole hours divided into days are rendered from exactly that many hours. */
  lemma RoundWholeHours(hours: nat)
    ensures Round(hours as real / 8.0 * 8.0) == hours
  {
    assert hours as real / 8.0 * 8.0 == hours as real;
  }

  /** Reading back a rendering other than "0" from its pieces. */
  lemma ParseRendering(s: string, parts: seq<string>, hours: nat)
    requires s != "0" && Split(s, ' ') == parts
    requires 1 <= |parts| <= 2
    requires |parts| == 1 ==> (ParsePiece(parts[0]) == Some((hours / 8, 'd')) && hours % 8 == 0)
                              || ParsePiece(parts[0]) == Some((hours, 'h'))
    requires |parts| == 2 ==> ParsePiece(parts[0]) == Some((hours / 8, 'd'))
                              && ParsePiece(parts[1]) == Some((hours % 8, 'h'))
    ensures ParseDuration(s) == Some(hours)
  {
    assert hours == hours / 8 * 8 + hours % 8;
  }

  /** Every whole number of hours renders to a string that reads back as
      that number: the rendering loses nothing. */
  lemma FormatRoundTrip(hours: nat)
    ensures ParseDuration(DefaultFormatValue(hours as real / 8.0)) == Some(hours)
  {
    RoundWholeHours(hours);
    if hours > 0 {
      DurationPartsRoundTrip(hours);
    }
  }

  /** A positive number of hours, split into pieces and joined with spaces,
      reads back as that number. */
  lemma DurationPartsRoundTrip(hours: int)
    requires hours > 0
    ensures ParseDuration(Join(DurationParts(hours), " ")) == Some(hours)
  {
    var days := hours / 8;
    var rest := hours % 8;
    assert JsRem(hours, HoursPerDay) == rest;
    var parts := DurationParts(hours);
    PieceRoundTrip(days, 'd');
    PieceRoundTrip(rest, 'h');
    var a := NatToString(days) + "d";
    var b := NatToString(rest) + "h";
    if days > 0 && rest > 0 {
      assert parts == [a, b];
      assert Join(parts, " ") == a + " " + b;
      assert Join(parts, " ")[|a|] == ' ';
    } else if days > 0 {
      assert parts == [a];
      assert Join(parts, " ") == a;
      assert a[|a| - 1] == 'd';
    } else {
      assert parts == [b];
      assert Join(parts, " ") == b;
      assert b[|b| - 1] == 'h';
    }
    SplitJoin(parts, ' ');
    ParseRendering(Join(parts, " "), parts, hours);
  }

  // ---------------------------------------------------------------------------
  // Status
  // ---------------------------------------------------------------------------

  datatype Status = Good | Warning | Critical

  function Rank(s: Status): nat {
    match s
    case Critical => 0
    case Warning => 1
    case Good => 2
  }

  /** `getStatus(percentRemaining)` */
  function GetStatus(percent: real): (s: Status)
    ensures s == Good <==> percent >= 50.0
    ensures s == Warning <==> 20.0 <= percent < 50.0
    ensures s == Critical <==> percent < 20.0
  {
    if percent >= 50.0 then Good
    else if percent >= 20.0 then Warning
    else Critical
  }

  /** More remaining never gives a worse status. */
  lemma GetStatusMonotone(p: real, q: real)
    requires p <= q
    ensures Rank(GetStatus(p)) <= Rank(GetStatus(q))
  {
  }

  /** `percentRemaining` */
  function PercentRemaining(balance: real, total: real): (p: real)
    ensures total <= 0.0 ==> p == 0.0
    ensures total > 0.0 ==> p * total == balance * 100.0
  {
    if total > 0.0 then balance / total * 100.0 else 0.0
  }

  /** The card's status: an explicit `status` prop wins over the computed one. */
  function CardStatus(statusOverride: Option<Status>, balance: real, total: real): (s: Status)
    ensures statusOverride.Some? ==> s == statusOverride.value
    ensures statusOverride.None? ==> s == GetStatus(PercentRemaining(balance, total))
  {
    match statusOverride
    case Some(st) => st
    case None => GetStatus(PercentRemaining(balance, total))
  }

  /** Without an override, a card is "good" exactly when at least half of a
      positive entitlement remains, and a card without entitlement is critical. */
  lemma GoodIffHalfRemains(balance: real, total: real)
    ensures total > 0.0 ==> (CardStatus(None, balance, total) == Good <==> 2.0 * balance >= total)
    ensures total <= 0.0 ==> CardStatus(None, balance, total) == Critical
  {
    if total > 0.0 {
      var p := PercentRemaining(balance, total);
      assert p * total == balance * 100.0;
      if p >= 50.0 {
        assert p * total >= 50.0 * total;
      } else {
        assert p * total < 50.0 * total;
      }
    }
  }
}
