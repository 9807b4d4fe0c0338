/** `Address.from_location`: a comma-delimited location string becomes an `Address`. */
module Addresses {
  import opened Wrappers
  import opened Text
  import opened Utils

  datatype Address = Address(
    street: Option<string>,
    number: Option<string>,
    neighborhood: Option<string>,
    district: Option<string>,
    city: Option<string>,
    region: Option<string>,
    autonomousCommunity: Option<string>)

  /** `Address()`: every field unset. */
  const NoAddress := Address(None, None, None, None, None, None, None)

  /** The location has fewer than three segments; the source fails with an `IndexError`,
      either reading the second segment or reading the third segment from the end. */
  datatype LocationError = TooFewSegments(segments: nat)

  /** `[p.strip() for p in location.split(",")]` */
  function LocationParts(location: string): (parts: seq<string>)
    ensures |parts| == Occurrences(location, ',') + 1
    ensures forall i | 0 <= i < |parts| :: parts[i] == Strip(Split(location, ',')[i])
  {
    var raw := Split(location, ',');
    seq(|raw|, i requires 0 <= i < |raw| => Strip(raw[i]))
  }

  // The street pattern `^(.*?)(?:[\s,-]+(\d+|s/n))?$`, applied with `re.match`.

  /** Where `$` matches: at the very end, or just before a final newline. */
  predicate EndAnchor(s: string, i: int) {
    i == |s| || (0 <= i == |s| - 1 && s[i] == '\n')
  }

  /** The class `[\s,-]`. */
  predicate IsNumberSeparator(c: char) {
    IsSpace(c) || c == ',' || c == '-'
  }

  predicate AllSeparators(s: string) {
    forall i | 0 <= i < |s| :: IsNumberSeparator(s[i])
  }

  /** A street number: a run of digits, or "s/n" (sin número). */
  predicate IsNumberToken(t: string) {
    (|t| > 0 && AllDigits(t)) || t == "s/n"
  }

  /** `t` splits after `k` characters into separators and a number token that ends the text. */
  predicate SuffixSplit(t: string, k: int, token: string) {
    && 1 <= k <= |t|
    && AllSeparators(t[..k])
    && IsNumberToken(token)
    && (t[k..] == token || t[k..] == token + "\n")
  }

  /** The length of the run of separators that starts `t`. */
  function SeparatorRun(t: string): (n: nat)
    ensures n <= |t| && AllSeparators(t[..n])
    ensures n == |t| || !IsNumberSeparator(t[n])
    decreases |t|
  {
    if |t| > 0 && IsNumberSeparator(t[0]) then
      var n := 1 + SeparatorRun(t[1..]);
      assert t[..n] == [t[0]] + t[1..][..n - 1];
      n
    else
      0
  }

  /** Any maximal prefix of separators is the one `SeparatorRun` finds. */
  lemma {:induction false} SeparatorRunUnique(t: string, k: nat)
    requires k <= |t| && AllSeparators(t[..k])
    requires k == |t| || !IsNumberSeparator(t[k])
    ensures SeparatorRun(t) == k
    decreases k
  {
    if k > 0 {
      assert t[0] == t[..k][0];
      assert t[1..][..k - 1] == t[..k][1..];
      SeparatorRunUnique(t[1..], k - 1);
    }
  }

  lemma LeadingDigitsOfToken(rest: string, token: string)
    requires |token| > 0 && AllDigits(token)
    requires rest == token || rest == token + "\n"
    ensures LeadingDigits(rest) == token
  {
    assert rest[..|token|] == token;
    LeadingDigitsUnique(rest, token);
  }

  /** The optional group followed by `$`, tried against the whole of `t`: the number it
      captures exactly when `t` is separators, a number token, and the end. */
  function NumberSuffix(t: string): (r: Option<string>)
    ensures r.Some? ==> exists k :: SuffixSplit(t, k, r.value)
    ensures forall k, token :: SuffixSplit(t, k, token) ==> r == Some(token)
  {
    var k := SeparatorRun(t);
    var rest := t[k..];
    var digits := LeadingDigits(rest);
    var r :=
      if k == 0 then None
      else if |digits| > 0 then (if EndAnchor(rest, |digits|) then Some(digits) else None)
      else if StartsWith(rest, "s/n") && EndAnchor(rest, 3) then Some("s/n")
      else None;
    NumberSuffixComplete(t, r);
    assert r.Some? ==> SuffixSplit(t, k, r.value) by {
      if r.Some? && |digits| > 0 {
        assert rest == digits || rest == digits + "\n";
      } else if r.Some? {
        assert rest[..3] == "s/n";
        assert rest == "s/n" || rest == "s/n" + "\n";
      }
    }
    r
  }

  lemma NumberSuffixComplete(t: string, r: Option<string>)
    requires var k := SeparatorRun(t);
             var rest := t[k..];
             var digits := LeadingDigits(rest);
             r == if k == 0 then None
                  else if |digits| > 0 then (if EndAnchor(rest, |digits|) then Some(digits) else None)
                  else if StartsWith(rest, "s/n") && EndAnchor(rest, 3) then Some("s/n")
                  else None
    ensures forall k, token :: SuffixSplit(t, k, token) ==> r == Some(token)
  {
    forall k, token | SuffixSplit(t, k, token)
      ensures r == Some(token)
    {
      assert IsNumberToken(token);
      assert t[k] == token[0];
      assert !IsNumberSeparator(t[k]);
      SeparatorRunUnique(t, k);
      var rest := t[k..];
      if |token| > 0 && AllDigits(token) {
        LeadingDigitsOfToken(rest, token);
      } else {
        assert token == "s/n";
        assert LeadingDigits(rest) == [];
        assert rest[..3] == "s/n";
      }
    }
  }

  /** The lazy group `(.*?)` may stop before position `i`. */
  predicate CanStop(s: string, i: nat)
    requires i <= |s|
  {
    NumberSuffix(s[i..]).Some? || EndAnchor(s, i)
  }

  /** The two groups of a successful street match. */
  datatype StreetMatch = StreetMatch(name: string, number: Option<string>)

  /** The lazy scan from position `i`: stop at the first position where the rest of the pattern
      matches; `.` does not cross a newline, so the match fails at one. */
  function LazyStreet(s: string, i: nat): (m: Option<StreetMatch>)
    requires i <= |s|
    ensures m.Some? ==>
              var n := |m.value.name|;
              && i <= n <= |s| && m.value.name == s[..n]
              && CanStop(s, n) && m.value.number == NumberSuffix(s[n..])
              && forall j | i <= j < n :: !CanStop(s, j) && s[j] != '\n'
    ensures m.None? ==>
              exists nl :: i <= nl < |s| && s[nl] == '\n' && !CanStop(s, nl) &&
                           forall j | i <= j < nl :: !CanStop(s, j) && s[j] != '\n'
    decreases |s| - i
  {
    var suffix := NumberSuffix(s[i..]);
    if suffix.Some? then
      assert CanStop(s, |s[..i]|);
      Some(StreetMatch(s[..i], suffix))
    else if EndAnchor(s, i) then
      assert CanStop(s, |s[..i]|);
      Some(StreetMatch(s[..i], None))
    else if s[i] == '\n' then
      assert !CanStop(s, i);
      None
    else
      assert !CanStop(s, i) && s[i] != '\n';
      LazyStreet(s, i + 1)
  }

  /** `re.match(r"^(.*?)(?:[\s,-]+(\d+|s/n))?$", s)`: group 1 is the shortest prefix after which
      the optional number group and `$` match; it never holds a newline. The match fails exactly
      when the scan meets a newline before any position where the rest of the pattern matches,
      so it can only fail on a text with a newline. */
  function StreetPattern(s: string): (m: Option<StreetMatch>)
    ensures m.Some? ==>
              var n := |m.value.name|;
              && n <= |s| && m.value.name == s[..n] && '\n' !in m.value.name
              && CanStop(s, n) && m.value.number == NumberSuffix(s[n..])
              && (m.value.number.None? ==> EndAnchor(s, n))
              && forall j | 0 <= j < n :: !CanStop(s, j)
    ensures m.None? ==>
              exists nl :: 0 <= nl < |s| && s[nl] == '\n' && !CanStop(s, nl) &&
                           forall j | 0 <= j < nl :: !CanStop(s, j) && s[j] != '\n'
    ensures '\n' !in s ==> m.Some?
  {
    var m := LazyStreet(s, 0);
    if m.Some? then
      var n := |m.value.name|;
      assert forall j | 0 <= j < n :: m.value.name[j] == s[j];
      m
    else
      m
  }

  /** `re.match(r"^-?\d+|s/n$", t)`: the alternation binds loosest, so either `t` begins with
      an optionally signed digit, or it is "s/n" followed by `$`. */
  predicate SecondSegmentIsNumber(t: string) {
    || (|t| > 0 && IsDigit(t[0]))
    || (|t| > 1 && t[0] == '-' && IsDigit(t[1]))
    || (StartsWith(t, "s/n") && EndAnchor(t, 3))
  }

  /** The alternation binds loosest: a leading digit is enough whatever follows, while "s/n"
      must end the segment. */
  lemma SecondSegmentExamples()
    ensures SecondSegmentIsNumber("12") && SecondSegmentIsNumber("-3") && SecondSegmentIsNumber("4 bis")
    ensures SecondSegmentIsNumber("s/n") && SecondSegmentIsNumber("s/n\n")
    ensures !SecondSegmentIsNumber("s/n bis") && !SecondSegmentIsNumber("Madrid") && !SecondSegmentIsNumber("-")
  {
    assert "s/n bis"[..3] == "s/n";
  }

  /** The last segment that starts with `prefix`. */
  function LastWithPrefix(parts: seq<string>, prefix: string): (r: Option<string>)
    ensures r.None? <==> forall i | 0 <= i < |parts| :: !StartsWith(parts[i], prefix)
    ensures r.Some? ==> exists i :: 0 <= i < |parts| && parts[i] == r.value && StartsWith(r.value, prefix) &&
                                   forall j | i < j < |parts| :: !StartsWith(parts[j], prefix)
    decreases |parts|
  {
    if |parts| == 0 then
      None
    else
      var later := LastWithPrefix(parts[1..], prefix);
      assert forall i | 1 <= i < |parts| :: parts[i] == parts[1..][i - 1];
      if later.Some? then later
      else if StartsWith(parts[0], prefix) then Some(parts[0])
      else None
  }

  /** The body of the loop over the segments: the `if/elif` on the three label words. A
      segment starting with a label word stores itself under that label, whatever the order of
      the tests, and any other segment changes nothing. */
  function Label(a: Address, part: string): (b: Address)
    ensures StartsWith(part, "Distrito") ==> b == a.(district := Some(part))
    ensures StartsWith(part, "Comarca") ==> b == a.(region := Some(part))
    ensures StartsWith(part, "Barrio") ==> b == a.(neighborhood := Some(part))
    ensures !StartsWith(part, "Distrito") && !StartsWith(part, "Comarca") && !StartsWith(part, "Barrio") ==> b == a
  {
    LabelWordsExclusive(part);
    if StartsWith(part, "Distrito") then a.(district := Some(part))
    else if StartsWith(part, "Comarca") then a.(region := Some(part))
    else if StartsWith(part, "Barrio") then a.(neighborhood := Some(part))
    else a
  }

  /** The loop over the segments only ever touches the three labels. */
  function ScanLabels(parts: seq<string>, a: Address): (b: Address)
    ensures b.street == a.street && b.number == a.number
    ensures b.city == a.city && b.autonomousCommunity == a.autonomousCommunity
    decreases |parts|
  {
    if |parts| == 0 then a else ScanLabels(parts[1..], Label(a, parts[0]))
  }

  /** The label words exclude one another, so the `elif` never hides a label. */
  lemma LabelWordsExclusive(part: string)
    ensures StartsWith(part, "Barrio") ==> !StartsWith(part, "Distrito") && !StartsWith(part, "Comarca")
    ensures StartsWith(part, "Comarca") ==> !StartsWith(part, "Distrito")
  {
    if StartsWith(part, "Barrio") {
      assert part[0] == 'B';
    }
    if StartsWith(part, "Comarca") {
      assert part[0] == 'C';
    }
  }

  /** The scan leaves each label holding the last segment that starts with its word, and
      keeps the earlier value when there is none. */
  lemma {:induction false} ScanLabelsFindsLast(parts: seq<string>, a: Address)
    ensures var b := ScanLabels(parts, a);
            && b.district == Or(LastWithPrefix(parts, "Distrito"), a.district)
            && b.region == Or(LastWithPrefix(parts, "Comarca"), a.region)
            && b.neighborhood == Or(LastWithPrefix(parts, "Barrio"), a.neighborhood)
            && b.street == a.street && b.number == a.number
            && b.city == a.city && b.autonomousCommunity == a.autonomousCommunity
    decreases |parts|
  {
    if |parts| > 0 {
      LabelWordsExclusive(parts[0]);
      ScanLabelsFindsLast(parts[1..], Label(a, parts[0]));
    }
  }

  /** Group 1 stripped, unless it is a neighbourhood label. */
  function StreetName(m: Option<StreetMatch>): (street: Option<string>)
    ensures street.Some? <==> m.Some? && !StartsWith(Strip(m.value.name), "Barrio")
    ensures street.Some? ==> street.value == Strip(m.value.name) && Strip(street.value) == street.value
  {
    if m.None? then
      None
    else
      var name := Strip(m.value.name);
      StripIdempotent(m.value.name);
      if StartsWith(name, "Barrio") then None else Some(name)
  }

  /** `Address.from_location(location)` */
  function FromLocation(location: string): (r: Result<Address, LocationError>)
    ensures var parts := LocationParts(location);
            r.Failure? <==> |parts| < 3
    ensures r.Failure? ==> r.error == TooFewSegments(|LocationParts(location)|)
  {
    var parts := LocationParts(location);
    if |parts| < 3 then
      Failure(TooFewSegments(|parts|))
    else
      var m := StreetPattern(parts[0]);
      var street := StreetName(m);
      var matched := if m.Some? then m.value.number else None;
      var number := if matched.None? && SecondSegmentIsNumber(parts[1]) then Some(parts[1]) else matched;
      var labelled := ScanLabels(parts, Address(street, number, None, None, None, None, None));
      Success(labelled.(city := Some(parts[|parts| - 3]),
                        region := Some(parts[|parts| - 2]),
                        autonomousCommunity := Some(parts[|parts| - 1])))
  }

  /** The last three segments are the city, the region and the autonomous community; the
      district and the neighbourhood are the last segments labelled "Distrito" and "Barrio". */
  lemma FromLocationLayout(location: string)
    requires FromLocation(location).Success?
    ensures var parts := LocationParts(location);
            var a := FromLocation(location).value;
            && a.city == Some(parts[|parts| - 3])
            && a.region == Some(parts[|parts| - 2])
            && a.autonomousCommunity == Some(parts[|parts| - 1])
            && a.district == LastWithPrefix(parts, "Distrito")
            && a.neighborhood == LastWithPrefix(parts, "Barrio")
  {
    var parts := LocationParts(location);
    var m := StreetPattern(parts[0]);
    var matched := if m.Some? then m.value.number else None;
    var number := if matched.None? && SecondSegmentIsNumber(parts[1]) then Some(parts[1]) else matched;
    ScanLabelsFindsLast(parts, Address(StreetName(m), number, None, None, None, None, None));
  }

  /** The street is the stripped name the street pattern captures in the first segment,
      unless that name is a "Barrio" label. */
  lemma FromLocationStreet(location: string)
    requires FromLocation(location).Success?
    ensures var parts := LocationParts(location);
            var m := StreetPattern(parts[0]);
            var a := FromLocation(location).value;
            && (a.street.Some? <==> m.Some? && !StartsWith(Strip(m.value.name), "Barrio"))
            && (a.street.Some? ==> a.street.value == Strip(m.value.name) && Strip(a.street.value) == a.street.value)
  {
    var parts := LocationParts(location);
    var m := StreetPattern(parts[0]);
    var matched := if m.Some? then m.value.number else None;
    var number := if matched.None? && SecondSegmentIsNumber(parts[1]) then Some(parts[1]) else matched;
    ScanLabelsFindsLast(parts, Address(StreetName(m), number, None, None, None, None, None));
  }

  /** The number is the one the street pattern captures, or else the second segment when it
      is a number or "s/n". */
  lemma FromLocationNumber(location: string)
    requires FromLocation(location).Success?
    ensures var parts := LocationParts(location);
            var m := StreetPattern(parts[0]);
            var a := FromLocation(location).value;
            && (a.number.Some? ==> IsNumberToken(a.number.value) || (a.number.value == parts[1] && SecondSegmentIsNumber(parts[1])))
            && (m.Some? && m.value.number.Some? ==> a.number == m.value.number)
            && (!(m.Some? && m.value.number.Some?) ==>
                  a.number == if SecondSegmentIsNumber(parts[1]) then Some(parts[1]) else None)
  {
    var parts := LocationParts(location);
    var m := StreetPattern(parts[0]);
    var matched := if m.Some? then m.value.number else None;
    assert matched.Some? ==> IsNumberToken(matched.value) by {
      if matched.Some? {
        var n := |m.value.name|;
        var k :| SuffixSplit(parts[0][n..], k, matched.value);
      }
    }
    var number := if matched.None? && SecondSegmentIsNumber(parts[1]) then Some(parts[1]) else matched;
    ScanLabelsFindsLast(parts, Address(StreetName(m), number, None, None, None, None, None));
  }
}
