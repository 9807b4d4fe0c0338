/** Runs of decimal digits: `get_digit` and the two other digit patterns the parser uses
    (`re.findall(r"(\d+)", v)` and `re.search(r"(\d+)(?=ª)", v)`). */
module Utils {
  import opened Wrappers
  import opened Text

  /** The longest prefix of `s` made of digits. */
  function LeadingDigits(s: string): (d: string)
    ensures |d| <= |s| && d == s[..|d|] && AllDigits(d)
    ensures |d| == |s| || !IsDigit(s[|d|])
    decreases |s|
  {
    if |s| > 0 && IsDigit(s[0]) then
      var d := [s[0]] + LeadingDigits(s[1..]);
      assert d == s[..|d|];
      d
    else
      []
  }

  /** Any maximal all-digit prefix is the one `LeadingDigits` finds. */
  lemma {:induction false} LeadingDigitsUnique(s: string, p: string)
    requires |p| <= |s| && s[..|p|] == p && AllDigits(p)
    requires |p| == |s| || !IsDigit(s[|p|])
    ensures LeadingDigits(s) == p
    decreases |p|
  {
    if |p| > 0 {
      assert s[0] == p[0];
      assert s[1..][..|p| - 1] == p[1..];
      LeadingDigitsUnique(s[1..], p[1..]);
    }
  }

  function Pow10(n: nat): (p: nat)
    ensures p > 0
  {
    if n == 0 then 1 else 10 * Pow10(n - 1)
  }

  /** `int(d)` for a string of ASCII digits: a number of `|d|` digits stays below `10^|d|`. */
  function DigitsValue(d: string): (n: nat)
    ensures AllDigits(d) ==> n < Pow10(|d|)
    decreases |d|
  {
    if |d| == 0 then 0
    else
      var n := 10 * DigitsValue(d[..|d| - 1]) + (if IsDigit(d[|d| - 1]) then d[|d| - 1] as int - '0' as int else 0);
      assert AllDigits(d) ==> AllDigits(d[..|d| - 1]);
      n
  }

  lemma ShiftByTen(x: nat, p: nat)
    ensures 10 * (x * p) == x * (10 * p)
  {
  }

  /** Positional notation: the digits written after `a` shift its value left by their count. */
  lemma {:induction false} DigitsValueConcat(a: string, b: string)
    ensures DigitsValue(a + b) == DigitsValue(a) * Pow10(|b|) + DigitsValue(b)
    decreases |b|
  {
    if |b| == 0 {
      assert a + b == a;
    } else {
      var c := a + b;
      var init := b[..|b| - 1];
      assert c[..|c| - 1] == a + init;
      assert c[|c| - 1] == b[|b| - 1];
      DigitsValueConcat(a, init);
      var last := if IsDigit(b[|b| - 1]) then b[|b| - 1] as int - '0' as int else 0;
      calc {
        DigitsValue(c);
        10 * DigitsValue(a + init) + last;
        10 * (DigitsValue(a) * Pow10(|init|) + DigitsValue(init)) + last;
        { ShiftByTen(DigitsValue(a), Pow10(|init|)); }
        DigitsValue(a) * (10 * Pow10(|init|)) + (10 * DigitsValue(init) + last);
        DigitsValue(a) * Pow10(|b|) + DigitsValue(b);
      }
    }
  }

  /** `run` is the first maximal run of digits of `s` and starts at `start`. */
  ghost predicate IsFirstDigitRun(s: string, start: int, run: string) {
    && 0 <= start && start + |run| <= |s|
    && |run| > 0 && AllDigits(run) && s[start..start + |run|] == run
    && (forall i | 0 <= i < start :: !IsDigit(s[i]))
    && (start + |run| == |s| || !IsDigit(s[start + |run|]))
  }

  lemma FirstDigitRunShift(s: string)
    requires |s| > 0 && !IsDigit(s[0])
    ensures forall start, run :: IsFirstDigitRun(s[1..], start, run) ==> IsFirstDigitRun(s, start + 1, run)
  {
    forall start, run | IsFirstDigitRun(s[1..], start, run)
      ensures IsFirstDigitRun(s, start + 1, run)
    {
      assert s[start + 1..start + 1 + |run|] == s[1..][start..start + |run|];
    }
  }

  /** `get_digit(text)`: the first maximal run of digits, or `None` when there is no digit. */
  function GetDigit(text: string): (r: Option<string>)
    ensures r.None? <==> NoDigit(text)
    ensures r.Some? ==> exists start :: IsFirstDigitRun(text, start, r.value)
    decreases |text|
  {
    if |text| == 0 then
      None
    else if IsDigit(text[0]) then
      var d := LeadingDigits(text);
      assert IsFirstDigitRun(text, 0, d);
      Some(d)
    else
      var r := GetDigit(text[1..]);
      FirstDigitRunShift(text);
      assert forall i | 1 <= i < |text| :: text[i] == text[1..][i - 1];
      r
  }

  /** There is only one first maximal run of digits. */
  lemma {:induction false} FirstDigitRunUnique(s: string, i: int, d: string, j: int, e: string)
    requires IsFirstDigitRun(s, i, d) && IsFirstDigitRun(s, j, e)
    ensures i == j && d == e
  {
    assert s[i] == d[0] && s[j] == e[0];
    assert i == j;
    assert s[i..][..|d|] == d && s[i..][..|e|] == e;
    LeadingDigitsUnique(s[i..], d);
    LeadingDigitsUnique(s[i..], e);
  }

  /** `get_digit` returns exactly the first maximal run of digits, whichever way it is asked. */
  lemma GetDigitIsFirstRun(s: string, d: string)
    ensures GetDigit(s) == Some(d) <==> exists start :: IsFirstDigitRun(s, start, d)
  {
    if exists start :: IsFirstDigitRun(s, start, d) {
      var start :| IsFirstDigitRun(s, start, d);
      assert s[start] == s[start..start + |d|][0] == d[0];
      assert !NoDigit(s) by {
        assert IsDigit(s[start]);
      }
      var r := GetDigit(s);
      var other :| IsFirstDigitRun(s, other, r.value);
      FirstDigitRunUnique(s, start, d, other, r.value);
    }
  }

  /** The digits of `s`, in order. */
  function KeepDigits(s: string): (r: string)
    decreases |s|
  {
    if |s| == 0 then [] else (if IsDigit(s[0]) then [s[0]] else []) + KeepDigits(s[1..])
  }

  function Concat(runs: seq<string>): string
    decreases |runs|
  {
    if |runs| == 0 then [] else runs[0] + Concat(runs[1..])
  }

  lemma {:induction false} KeepDigitsOfRun(d: string, rest: string)
    requires AllDigits(d)
    ensures KeepDigits(d + rest) == d + KeepDigits(rest)
    decreases |d|
  {
    if |d| > 0 {
      assert (d + rest)[1..] == d[1..] + rest;
      KeepDigitsOfRun(d[1..], rest);
      assert d == [d[0]] + d[1..];
    } else {
      assert d + rest == rest;
    }
  }

  /** `re.findall(r"(\d+)", s)`: every maximal run of digits, left to right. */
  function AllDigitRuns(s: string): (runs: seq<string>)
    ensures forall i | 0 <= i < |runs| :: |runs[i]| > 0 && AllDigits(runs[i])
    ensures runs == [] <==> NoDigit(s)
    decreases |s|
  {
    if |s| == 0 then
      []
    else if IsDigit(s[0]) then
      var d := LeadingDigits(s);
      [d] + AllDigitRuns(s[|d|..])
    else
      var runs := AllDigitRuns(s[1..]);
      assert forall i | 1 <= i < |s| :: s[i] == s[1..][i - 1];
      runs
  }

  /** `gaps[0] + runs[0] + gaps[1] + ... + runs[n - 1] + gaps[n]` */
  function Weave(gaps: seq<string>, runs: seq<string>): string
    requires |gaps| == |runs| + 1
    decreases |runs|
  {
    if |runs| == 0 then gaps[0] else gaps[0] + runs[0] + Weave(gaps[1..], runs[1..])
  }

  /** `s` is `runs` interleaved with digit-free gaps, the gaps between two runs being
      non-empty: then each run is a whole maximal run of digits of `s`, and every digit of
      `s` lies in one of them. */
  ghost predicate SeparatedRuns(s: string, gaps: seq<string>, runs: seq<string>) {
    && |gaps| == |runs| + 1
    && (forall i | 0 <= i < |runs| :: |runs[i]| > 0 && AllDigits(runs[i]))
    && (forall i | 0 <= i < |gaps| :: NoDigit(gaps[i]))
    && (forall i | 0 < i < |runs| :: |gaps[i]| > 0)
    && Weave(gaps, runs) == s
  }

  /** `findall` returns exactly the maximal runs of digits of `s`, in order. */
  lemma AllDigitRunsSeparated(s: string, runs: seq<string>)
    ensures AllDigitRuns(s) == runs <==> exists gaps :: SeparatedRuns(s, gaps, runs)
  {
    AllDigitRunsWeave(s);
    assert AllDigitRuns(s) == runs ==> SeparatedRuns(s, DigitGaps(s), runs);
    if exists gaps :: SeparatedRuns(s, gaps, runs) {
      var gaps :| SeparatedRuns(s, gaps, runs);
      SeparatedRunsUnique(s, gaps, runs);
    }
  }

  /** The text around the runs `findall` returns: before the first, between each two, and
      after the last. */
  function DigitGaps(s: string): (gaps: seq<string>)
    ensures |gaps| == |AllDigitRuns(s)| + 1
    decreases |s|
  {
    if |s| == 0 then
      [""]
    else if IsDigit(s[0]) then
      [""] + DigitGaps(s[|LeadingDigits(s)|..])
    else
      var g := DigitGaps(s[1..]);
      [[s[0]] + g[0]] + g[1..]
  }

  /** The gaps between the runs `findall` returns are digit-free, and non-empty between two
      runs. */
  lemma {:induction false} AllDigitRunsWeave(s: string)
    ensures SeparatedRuns(s, DigitGaps(s), AllDigitRuns(s))
    decreases |s|
  {
    if |s| == 0 {
    } else if IsDigit(s[0]) {
      var d := LeadingDigits(s);
      var rest := s[|d|..];
      AllDigitRunsWeave(rest);
      assert s == d + rest;
      SeparatedRunsAfterRun(d, rest, DigitGaps(rest), AllDigitRuns(rest));
    } else {
      AllDigitRunsWeave(s[1..]);
      assert s == [s[0]] + s[1..];
      SeparatedRunsAfterGap(s[0], s[1..], DigitGaps(s[1..]), AllDigitRuns(s[1..]));
    }
  }

  /** A maximal run in front of a separated text starts a separated text. */
  lemma SeparatedRunsAfterRun(d: string, rest: string, gaps: seq<string>, runs: seq<string>)
    requires |d| > 0 && AllDigits(d) && (rest == [] || !IsDigit(rest[0]))
    requires SeparatedRuns(rest, gaps, runs)
    ensures SeparatedRuns(d + rest, [""] + gaps, [d] + runs)
  {
    var g := [""] + gaps;
    var r := [d] + runs;
    if |runs| > 0 {
      WeaveStart(gaps, runs);
    }
    assert g[1..] == gaps && r[1..] == runs;
    assert Weave(g, r) == "" + d + Weave(gaps, runs);
    assert forall i | 0 < i < |r| :: g[i] == gaps[i - 1] && r[i] == runs[i - 1];
  }

  /** A non-digit in front of a separated text joins its first gap. */
  lemma SeparatedRunsAfterGap(c: char, rest: string, gaps: seq<string>, runs: seq<string>)
    requires !IsDigit(c)
    requires SeparatedRuns(rest, gaps, runs)
    ensures SeparatedRuns([c] + rest, [[c] + gaps[0]] + gaps[1..], runs)
  {
    var g := [[c] + gaps[0]] + gaps[1..];
    WeaveCons(c, gaps, runs);
    assert forall i | 0 < i < |g| :: g[i] == gaps[i];
    assert NoDigit(g[0]);
  }

  /** A weave whose first gap is empty starts with its first run. */
  lemma WeaveStart(gaps: seq<string>, runs: seq<string>)
    requires |gaps| == |runs| + 1 && |runs| > 0 && |runs[0]| > 0
    ensures gaps[0] == [] ==> |Weave(gaps, runs)| > 0 && Weave(gaps, runs)[0] == runs[0][0]
  {
    if gaps[0] == [] {
      assert Weave(gaps, runs) == [] + runs[0] + Weave(gaps[1..], runs[1..]);
    }
  }

  /** Putting a character in front of a weave lengthens its first gap. */
  lemma WeaveCons(c: char, gaps: seq<string>, runs: seq<string>)
    requires |gaps| == |runs| + 1
    ensures Weave([[c] + gaps[0]] + gaps[1..], runs) == [c] + Weave(gaps, runs)
  {
    var g := [[c] + gaps[0]] + gaps[1..];
    assert g[1..] == gaps[1..];
  }

  /** A separation of `s` into runs and gaps is the one `findall` finds. */
  lemma {:induction false} SeparatedRunsUnique(s: string, gaps: seq<string>, runs: seq<string>)
    requires SeparatedRuns(s, gaps, runs)
    ensures AllDigitRuns(s) == runs
    decreases |s|
  {
    if |gaps[0]| > 0 {
      var g := [gaps[0][1..]] + gaps[1..];
      SeparatedRunsDropGap(s, gaps, runs);
      SeparatedRunsUnique(s[1..], g, runs);
    } else if |runs| > 0 {
      SeparatedRunsDropRun(s, gaps, runs);
      SeparatedRunsUnique(s[|runs[0]|..], gaps[1..], runs[1..]);
    } else {
      assert s == gaps[0] == [];
    }
  }

  /** Without its first character, a separated text starting with a gap is still separated. */
  lemma SeparatedRunsDropGap(s: string, gaps: seq<string>, runs: seq<string>)
    requires SeparatedRuns(s, gaps, runs) && |gaps[0]| > 0
    ensures |s| > 0 && !IsDigit(s[0])
    ensures SeparatedRuns(s[1..], [gaps[0][1..]] + gaps[1..], runs)
  {
    var g := [gaps[0][1..]] + gaps[1..];
    assert gaps[0] == [gaps[0][0]] + gaps[0][1..];
    WeaveCons(gaps[0][0], g, runs);
    assert [[gaps[0][0]] + g[0]] + g[1..] == gaps;
    assert !IsDigit(gaps[0][0]);
    assert forall i | 0 < i < |g| :: g[i] == gaps[i];
  }

  /** A separated text starting with a run: the run is its leading digits, and what follows
      is separated by the remaining gaps. */
  lemma SeparatedRunsDropRun(s: string, gaps: seq<string>, runs: seq<string>)
    requires SeparatedRuns(s, gaps, runs) && |gaps[0]| == 0 && |runs| > 0
    ensures |runs[0]| <= |s| && IsDigit(s[0]) && LeadingDigits(s) == runs[0]
    ensures SeparatedRuns(s[|runs[0]|..], gaps[1..], runs[1..])
  {
    var d := runs[0];
    var rest := Weave(gaps[1..], runs[1..]);
    assert s == gaps[0] + d + rest;
    assert gaps[0] + d == d by {
      assert gaps[0] == [];
    }
    assert s[..|d|] == d;
    WeaveAfterRun(gaps, runs);
    if |rest| > 0 {
      assert s[|d|] == rest[0];
    }
    LeadingDigitsUnique(s, d);
    assert s[0] == d[0];
    assert s[|d|..] == rest;
    SeparatedRunsTail(gaps, runs);
  }

  /** What follows the first run of a separated text does not start with a digit. */
  lemma WeaveAfterRun(gaps: seq<string>, runs: seq<string>)
    requires |gaps| == |runs| + 1 && |runs| > 0 && SeparatedRuns(Weave(gaps, runs), gaps, runs)
    ensures var rest := Weave(gaps[1..], runs[1..]); rest == [] || !IsDigit(rest[0])
  {
    var rest := Weave(gaps[1..], runs[1..]);
    if |rest| > 0 {
      if |runs| > 1 {
        assert |gaps[1]| > 0;
        assert rest == gaps[1] + runs[1] + Weave(gaps[2..], runs[2..]) by {
          assert gaps[1..][1..] == gaps[2..] && runs[1..][1..] == runs[2..];
        }
        assert rest[0] == gaps[1][0];
      } else {
        assert rest == gaps[1];
      }
    }
  }

  /** Without its first gap and run, a separated text is separated by what remains. */
  lemma SeparatedRunsTail(gaps: seq<string>, runs: seq<string>)
    requires |gaps| == |runs| + 1 && |runs| > 0 && SeparatedRuns(Weave(gaps, runs), gaps, runs)
    ensures SeparatedRuns(Weave(gaps[1..], runs[1..]), gaps[1..], runs[1..])
  {
    assert forall i | 0 < i < |runs| - 1 :: gaps[1..][i] == gaps[i + 1];
  }

  /** Nothing is lost or invented: the runs put together are exactly the digits of `s`, and
      the first of them is the one `get_digit` finds. */
  lemma {:induction false} AllDigitRunsKeepDigits(s: string)
    ensures Concat(AllDigitRuns(s)) == KeepDigits(s)
    ensures AllDigitRuns(s) != [] ==> GetDigit(s) == Some(AllDigitRuns(s)[0])
    decreases |s|
  {
    if |s| > 0 {
      if IsDigit(s[0]) {
        var d := LeadingDigits(s);
        var runs := AllDigitRuns(s);
        AllDigitRunsKeepDigits(s[|d|..]);
        assert runs[1..] == AllDigitRuns(s[|d|..]);
        assert s == d + s[|d|..];
        KeepDigitsOfRun(d, s[|d|..]);
      } else {
        AllDigitRunsKeepDigits(s[1..]);
      }
    }
  }

  /** The ordinal indicator that marks a floor number ("3ª planta"). */
  const OrdinalMark: char := '\U{00AA}'

  /** A digit stands directly before the ordinal mark at position `i`. */
  predicate DigitBeforeMark(s: string, i: int) {
    0 <= i < |s| - 1 && IsDigit(s[i]) && s[i + 1] == OrdinalMark
  }

  /** `run` is a maximal run of digits at `start`, immediately followed by the ordinal mark,
      and no digit before it is followed by the mark. */
  ghost predicate IsFirstOrdinalRun(s: string, start: int, run: string) {
    && 0 <= start && start + |run| < |s|
    && |run| > 0 && AllDigits(run) && s[start..start + |run|] == run
    && (start == 0 || !IsDigit(s[start - 1]))
    && s[start + |run|] == OrdinalMark
    && (forall i | 0 <= i < start :: !DigitBeforeMark(s, i))
  }

  lemma OrdinalRunShift(s: string, k: nat)
    requires 0 < k <= |s| && (k < |s| && IsDigit(s[k]) ==> !IsDigit(s[k - 1]))
    requires forall i | 0 <= i < k :: !DigitBeforeMark(s, i)
    ensures forall start, run :: IsFirstOrdinalRun(s[k..], start, run) ==> IsFirstOrdinalRun(s, start + k, run)
  {
    forall start, run | IsFirstOrdinalRun(s[k..], start, run)
      ensures IsFirstOrdinalRun(s, start + k, run)
    {
      assert s[start + k..start + k + |run|] == s[k..][start..start + |run|];
      forall i | k <= i < start + k
        ensures !DigitBeforeMark(s, i)
      {
        assert !DigitBeforeMark(s[k..], i - k);
      }
    }
  }

  lemma NoMarkAfterPrefix(s: string, k: nat)
    requires k <= |s|
    requires forall i | 0 <= i < k :: !DigitBeforeMark(s, i)
    ensures (forall i | 0 <= i < |s| :: !DigitBeforeMark(s, i)) <==>
            (forall j | 0 <= j < |s| - k :: !DigitBeforeMark(s[k..], j))
  {
    if forall j | 0 <= j < |s| - k :: !DigitBeforeMark(s[k..], j) {
      forall i | k <= i < |s|
        ensures !DigitBeforeMark(s, i)
      {
        assert !DigitBeforeMark(s[k..], i - k);
      }
    } else {
      var j :| 0 <= j < |s| - k && DigitBeforeMark(s[k..], j);
      assert DigitBeforeMark(s, j + k);
    }
  }

  /** `re.search(r"(\d+)(?=ª)", s).group(1)`: the first maximal run of digits followed by the
      ordinal mark, or `None` when no digit is followed by it. */
  function OrdinalDigits(s: string): (r: Option<string>)
    ensures r.None? <==> forall i | 0 <= i < |s| :: !DigitBeforeMark(s, i)
    ensures r.Some? ==> exists start :: IsFirstOrdinalRun(s, start, r.value)
    decreases |s|
  {
    if |s| == 0 then
      None
    else if IsDigit(s[0]) then
      var d := LeadingDigits(s);
      if |d| < |s| && s[|d|] == OrdinalMark then
        assert IsFirstOrdinalRun(s, 0, d);
        assert DigitBeforeMark(s, |d| - 1);
        Some(d)
      else
        forall i | 0 <= i < |d|
          ensures !DigitBeforeMark(s, i)
        {
          if i + 1 < |d| {
            assert s[i + 1] == d[i + 1];
            assert IsDigit(s[i + 1]);
          }
        }
        var r := OrdinalDigits(s[|d|..]);
        NoMarkAfterPrefix(s, |d|);
        OrdinalRunShift(s, |d|);
        r
    else
      var r := OrdinalDigits(s[1..]);
      NoMarkAfterPrefix(s, 1);
      OrdinalRunShift(s, 1);
      r
  }
}
