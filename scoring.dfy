/**
 * The minigames' shared scoring helpers (lib/scoring.js): difficulty aliases, the points
 * formula and the mm:ss clock text. Numbers are exact: JavaScript's doubles are read as reals,
 * Math.round(x) as floor(x + 1/2) and Math.floor as Floor.
 */
module Scoring {
  import opened Wrappers
  import opened JavaStrings

  /** One row of the DIFF table: base points and target seconds (the factor caps are shared). */
  datatype DiffConfig = DiffConfig(base: int, targetSec: int)

  const MinTimeFactor: real := 0.55
  const MaxTimeFactor: real := 1.45

  /** `String(d || "EASY").toUpperCase()` with the four aliases; a missing or empty d is EASY. */
  function NormalizeDifficulty(d: Option<string>): (r: string)
    ensures d.None? || d.value == "" ==> r == "EASY"
    ensures d.Some? && ToUpper(d.value) in {"MED", "M"} ==> r == "MEDIUM"
    ensures d.Some? && ToUpper(d.value) == "H" ==> r == "HARD"
    ensures d.Some? && ToUpper(d.value) == "E" ==> r == "EASY"
    ensures d.Some? && d.value != "" && ToUpper(d.value) !in {"MED", "M", "H", "E"} ==> r == ToUpper(d.value)
  {
    var x := if d.None? || d.value == "" then "EASY" else ToUpper(d.value);
    if x == "MED" || x == "M" then "MEDIUM"
    else if x == "H" then "HARD"
    else if x == "E" then "EASY"
    else x
  }

  /** `DIFF[diff] || DIFF.EASY`: the three rows, EASY for any other name. */
  function ConfigFor(diff: string): (r: DiffConfig)
    ensures diff !in {"MEDIUM", "HARD"} ==> r == DiffConfig(120, 60)
    ensures r.base > 0 && r.targetSec > 0
  {
    if diff == "MEDIUM" then DiffConfig(220, 90)
    else if diff == "HARD" then DiffConfig(340, 120)
    else DiffConfig(120, 60)
  }

  /** Math.round: the nearest integer, halves rounded up. */
  function Round(x: real): (r: int)
    ensures x - 0.5 < r as real <= x + 0.5
  {
    (x + 0.5).Floor
  }

  function ClampReal(x: real, lo: real, hi: real): (r: real)
    requires lo <= hi
    ensures lo <= r <= hi
    ensures lo <= x <= hi ==> r == x
  {
    if x < lo then lo else if x > hi then hi else x
  }

  /** `Math.max(1, Math.round((timeMs || 0) / 1000))`: whole seconds, never below 1. */
  function Seconds(timeMs: Option<int>): (r: int)
    ensures r >= 1
    ensures timeMs.Some? && timeMs.value >= 1500 ==> r == Round(timeMs.value as real / 1000.0)
  {
    var t := timeMs.GetOr(0);
    var s := Round(t as real / 1000.0);
    if s < 1 then 1 else s
  }

  /** computePoints; errors is `Number(errors || 0)`, negative counts read as 0. */
  function ComputePoints(difficulty: Option<string>, timeMs: Option<int>, errors: int, won: bool): (r: int)
    ensures !won ==> r == 0
    ensures r >= 0
    ensures r <= Round(ConfigFor(NormalizeDifficulty(difficulty)).base as real * MaxTimeFactor)
  {
    var cfg := ConfigFor(NormalizeDifficulty(difficulty));
    var secs := Seconds(timeMs);
    if !won then 0
    else
      var timeFactor := ClampReal(cfg.targetSec as real / secs as real, MinTimeFactor, MaxTimeFactor);
      Awarded(cfg.base, timeFactor, if errors < 0 then 0 else errors)
  }

  /** The points of a win: base times the time factor, less 8% of base per error (rounded), never below 0. */
  function Awarded(base: int, timeFactor: real, err: nat): (r: int)
    requires base > 0 && timeFactor <= MaxTimeFactor
    ensures 0 <= r <= Round(base as real * MaxTimeFactor)
  {
    var penalty := Round(err as real * base as real * 0.08);
    var pts := Round(base as real * timeFactor - penalty as real);
    RoundMonotone(base as real * timeFactor - penalty as real, base as real * MaxTimeFactor);
    if pts < 0 then 0 else pts
  }

  lemma RoundMonotone(x: real, y: real)
    requires x <= y
    ensures Round(x) <= Round(y)
  {
  }

  // ---------------------------------------------------------------------------------------
  // formatTime
  // ---------------------------------------------------------------------------------------

  function DigitChar(d: int): char
    requires 0 <= d < 10
  {
    "0123456789"[d]
  }

  /** String(n) for a non-negative integer: its decimal digits, no leading zero. */
  function Decimal(n: nat): (r: string)
    ensures |r| >= 1
    ensures n < 10 <==> |r| == 1
    ensures forall i :: 0 <= i < |r| ==> '0' <= r[i] <= '9'
    decreases n
  {
    if n < 10 then [DigitChar(n)] else Decimal(n / 10) + [DigitChar(n % 10)]
  }

  /** The value of a run of decimal digits (the inverse reading of Decimal). */
  function DigitsValue(s: string): nat
  {
    if s == [] then 0
    else
      var d := s[|s| - 1] as int - '0' as int;
      DigitsValue(s[..|s| - 1]) * 10 + (if 0 <= d < 10 then d else 0)
  }

  /** padStart(2, "0"): a one-digit text gets a leading zero; longer texts stay. */
  function PadTwo(s: string): (r: string)
    ensures |s| < 2 ==> |r| == 2
    ensures |s| >= 2 ==> r == s
  {
    if |s| == 0 then "00" else if |s| == 1 then "0" + s else s
  }

  /** formatTime: whole seconds (missing, zero or negative input reads as 0) as "mm:ss". */
  function FormatTime(timeMs: Option<int>): (r: string)
    ensures |r| >= 5 && r[|r| - 3] == ':'
    ensures (timeMs.None? || timeMs.value < 1000) ==> r == "00:00"
  {
    var t := timeMs.GetOr(0);
    var s := if t / 1000 < 0 then 0 else t / 1000;
    PadTwo(Decimal(s / 60)) + ":" + PadTwo(Decimal(s % 60))
  }

  /** The minutes and the seconds fields of FormatTime's text. */
  function Minutes(r: string): string
    requires |r| >= 3
  {
    r[..|r| - 3]
  }

  function SecondsField(r: string): string
    requires |r| >= 3
  {
    r[|r| - 2..]
  }

  // ---------------------------------------------------------------------------------------
  // Properties
  // ---------------------------------------------------------------------------------------

  /** Decimal and DigitsValue are inverse: the text spells the number. */
  lemma {:induction false} DecimalValue(n: nat)
    ensures DigitsValue(Decimal(n)) == n
    decreases n
  {
    var r := Decimal(n);
    if n >= 10 {
      DecimalValue(n / 10);
      assert r[..|r| - 1] == Decimal(n / 10);
    }
  }

  lemma LeadingZeroValue(s: string)
    requires |s| == 1 && '0' <= s[0] <= '9'
    ensures DigitsValue("0" + s) == DigitsValue(s)
  {
    assert ("0" + s)[..1] == "0";
  }

  /** A padded field reads back to its number; it has two digits below 100 and more above. */
  lemma PaddedField(n: nat)
    ensures DigitsValue(PadTwo(Decimal(n))) == n
    ensures |PadTwo(Decimal(n))| >= 2
    ensures n < 100 ==> |PadTwo(Decimal(n))| == 2
  {
    DecimalValue(n);
    if n < 10 {
      LeadingZeroValue(Decimal(n));
    } else if n < 100 {
      assert Decimal(n) == Decimal(n / 10) + [DigitChar(n % 10)];
    }
  }

  /**
   * formatTime reads back to the whole seconds of the input: the seconds field has two digits
   * worth less than 60, the minutes field has at least two, and minutes * 60 + seconds is
   * max(0, floor(timeMs / 1000)).
   */
  lemma FormatTimeReadsBack(timeMs: Option<int>)
    ensures var r := FormatTime(timeMs);
      var s := if timeMs.GetOr(0) / 1000 < 0 then 0 else timeMs.GetOr(0) / 1000;
      |SecondsField(r)| == 2 && |Minutes(r)| >= 2 &&
      DigitsValue(SecondsField(r)) < 60 &&
      DigitsValue(Minutes(r)) * 60 + DigitsValue(SecondsField(r)) == s
  {
    var t := timeMs.GetOr(0);
    var s: nat := if t / 1000 < 0 then 0 else t / 1000;
    var mm := PadTwo(Decimal(s / 60));
    var ss := PadTwo(Decimal(s % 60));
    PaddedField(s / 60);
    PaddedField(s % 60);
    var r := FormatTime(timeMs);
    assert r == mm + ":" + ss;
    JoinedFields(mm, ss);
    assert DigitsValue(mm) * 60 + DigitsValue(ss) == s / 60 * 60 + s % 60 == s;
  }

  /** The fields of "mm:ss" are the two texts joined. */
  lemma JoinedFields(mm: string, ss: string)
    requires |ss| == 2
    ensures Minutes(mm + ":" + ss) == mm && SecondsField(mm + ":" + ss) == ss
  {
    var r := mm + ":" + ss;
    assert r[..|r| - 3] == mm;
    assert r[|r| - 2..] == ss;
  }

  /** An unknown or missing difficulty is scored as EASY. */
  lemma UnknownDifficultyIsEasy(difficulty: Option<string>, timeMs: Option<int>, errors: int, won: bool)
    requires NormalizeDifficulty(difficulty) !in {"MEDIUM", "HARD"}
    ensures ComputePoints(difficulty, timeMs, errors, won) == ComputePoints(Some("EASY"), timeMs, errors, won)
  {
    assert NormalizeDifficulty(Some("EASY")) == "EASY" by {
      assert ToUpper("EASY") == "EASY";
    }
  }

  /** More errors never score more. */
  lemma MoreErrorsNoMorePoints(difficulty: Option<string>, timeMs: Option<int>, e1: int, e2: int, won: bool)
    requires e1 <= e2
    ensures ComputePoints(difficulty, timeMs, e2, won) <= ComputePoints(difficulty, timeMs, e1, won)
  {
    if won {
      var cfg := ConfigFor(NormalizeDifficulty(difficulty));
      var timeFactor := ClampReal(cfg.targetSec as real / Seconds(timeMs) as real, MinTimeFactor, MaxTimeFactor);
      AwardedMonotone(cfg.base, timeFactor, if e1 < 0 then 0 else e1, if e2 < 0 then 0 else e2);
    }
  }

  lemma AwardedMonotone(base: int, timeFactor: real, e1: nat, e2: nat)
    requires base > 0 && timeFactor <= MaxTimeFactor && e1 <= e2
    ensures Awarded(base, timeFactor, e2) <= Awarded(base, timeFactor, e1)
  {
    var full := base as real * timeFactor;
    var p1 := Round(e1 as real * base as real * 0.08);
    var p2 := Round(e2 as real * base as real * 0.08);
    PenaltyMonotone(base, e1, e2);
    RoundMonotone(full - p2 as real, full - p1 as real);
    assert Awarded(base, timeFactor, e1) == if Round(full - p1 as real) < 0 then 0 else Round(full - p1 as real);
    assert Awarded(base, timeFactor, e2) == if Round(full - p2 as real) < 0 then 0 else Round(full - p2 as real);
  }

  /** The rounded error penalty grows with the number of errors. */
  lemma PenaltyMonotone(base: int, e1: nat, e2: nat)
    requires base > 0 && e1 <= e2
    ensures Round(e1 as real * base as real * 0.08) <= Round(e2 as real * base as real * 0.08)
  {
    ScaleMonotone(e1 as real, e2 as real, base as real);
    ScaleMonotone(e1 as real * base as real, e2 as real * base as real, 0.08);
    RoundMonotone(e1 as real * base as real * 0.08, e2 as real * base as real * 0.08);
  }

  lemma ScaleMonotone(x: real, y: real, c: real)
    requires x <= y && c >= 0.0
    ensures x * c <= y * c
  {
  }

  /** A winner at or under the target time with no errors gets at least the base points. */
  lemma FastCleanWinGetsBase(difficulty: Option<string>, timeMs: Option<int>)
    requires Seconds(timeMs) <= ConfigFor(NormalizeDifficulty(difficulty)).targetSec
    ensures ComputePoints(difficulty, timeMs, 0, true) >= ConfigFor(NormalizeDifficulty(difficulty)).base
  {
    var cfg := ConfigFor(NormalizeDifficulty(difficulty));
    var secs := Seconds(timeMs);
    assert cfg.targetSec as real / secs as real >= 1.0;
  }
}
