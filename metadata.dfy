/** The slicer metadata readers of the G-code analyser: the print-time string
    ("1d 2h 3m 4s") and the `; key = value` comment lines. The regular expressions are
    written out as the scanners they amount to; Python's `float()` is a parameter. */
module Metadata {
  import opened Common

  // ---------------------------------------------------------------------------
  // Durations: `re.findall(r'(\d+)\s*(d|h|m|s)', s)` and the weighted sum.
  // ---------------------------------------------------------------------------

  /** One match of the duration pattern: a decimal number and its unit letter. */
  datatype Token = Token(value: nat, unit: char)

  predicate IsUnit(c: char) {
    c == 'd' || c == 'h' || c == 'm' || c == 's'
  }

  function UnitSeconds(u: char): nat {
    if u == 'd' then 86400 else if u == 'h' then 3600 else if u == 'm' then 60 else if u == 's' then 1 else 0
  }

  predicate AllDigits(s: string) {
    forall i :: 0 <= i < |s| ==> IsDigit(s[i])
  }

  /** Length of the run of digits that starts the string. */
  function DigitsLen(s: string): (n: nat)
    ensures n <= |s| && AllDigits(s[..n]) && (n < |s| ==> !IsDigit(s[n]))
    decreases |s|
  {
    if s != [] && IsDigit(s[0]) then
      var n := 1 + DigitsLen(s[1..]);
      assert s[..n] == [s[0]] + s[1..][..n - 1];
      n
    else 0
  }

  /** Length of the run of white space that starts the string. */
  function SpacesLen(s: string): (n: nat)
    ensures n <= |s| && (n < |s| ==> !IsSpace(s[n]))
    decreases |s|
  {
    if s != [] && IsSpace(s[0]) then 1 + SpacesLen(s[1..]) else 0
  }

  /** `int()` of a string of decimal digits. */
  function Value(s: string): nat
    requires AllDigits(s)
    decreases |s|
  {
    if s == [] then 0 else 10 * Value(s[..|s| - 1]) + DigitValue(s[|s| - 1])
  }

  /** The match of the pattern at the start of the string, with its length. The
      greedy `\d+` and `\s*` take their longest runs, and a unit letter must follow:
      giving back digits or spaces would leave a digit or a space where the letter is
      required. */
  function MatchAt(s: string): (r: Option<(Token, nat)>)
    ensures r.Some? ==> 2 <= r.value.1 <= |s| && IsUnit(r.value.0.unit)
  {
    var q := DigitsLen(s);
    if q == 0 then None
    else
      var r := q + SpacesLen(s[q..]);
      if r < |s| && IsUnit(s[r]) then Some((Token(Value(s[..q]), s[r]), r + 1)) else None
  }

  /** The matches `findall` returns, left to right: after a match the scan resumes
      behind it, otherwise it moves on by one character. */
  function Tokens(s: string): (ts: seq<Token>)
    ensures forall i :: 0 <= i < |ts| ==> IsUnit(ts[i].unit)
    decreases |s|
  {
    if s == [] then []
    else
      match MatchAt(s)
      case Some(m) => [m.0] + Tokens(s[m.1..])
      case None => Tokens(s[1..])
  }

  /** The unit-weighted sum, accumulated in the order of the matches. */
  function Seconds(ts: seq<Token>): nat
    decreases |ts|
  {
    if ts == [] then 0 else Seconds(ts[..|ts| - 1]) + ts[|ts| - 1].value * UnitSeconds(ts[|ts| - 1].unit)
  }

  /** `parse_duration_to_seconds`: None for a missing or empty string and for a total
      of zero, otherwise the total in seconds. */
  method ParseDurationToSeconds(duration: Option<string>) returns (r: Option<nat>)
    ensures r.Some? ==> r.value > 0
    ensures (duration.None? || duration.value == "") ==> r.None?
    ensures duration.Some? && duration.value != "" ==>
              r == (if Seconds(Tokens(duration.value)) > 0 then Some(Seconds(Tokens(duration.value))) else None)
  {
    if duration.None? || duration.value == "" {
      return None;
    }
    var matches := Tokens(duration.value);
    var seconds := 0;
    var k := 0;
    while k < |matches|
      invariant 0 <= k <= |matches|
      invariant seconds == Seconds(matches[..k])
    {
      assert matches[..k + 1][..k] == matches[..k];
      var t := matches[k];
      if t.unit == 'd' {
        seconds := seconds + t.value * 86400;
      } else if t.unit == 'h' {
        seconds := seconds + t.value * 3600;
      } else if t.unit == 'm' {
        seconds := seconds + t.value * 60;
      } else if t.unit == 's' {
        seconds := seconds + t.value;
      }
      k := k + 1;
    }
    assert matches[..k] == matches;
    return if seconds > 0 then Some(seconds) else None;
  }

  /** The decimal text of a number, as a slicer writes it. */
  function Decimal(n: nat): (s: string)
    ensures s != [] && AllDigits(s)
    decreases n
  {
    if n < 10 then [('0' as int + n) as char] else Decimal(n / 10) + [('0' as int + n % 10) as char]
  }

  lemma {:induction false} ValueOfDecimal(n: nat)
    ensures Value(Decimal(n)) == n
    decreases n
  {
    if n >= 10 {
      ValueOfDecimal(n / 10);
      var s := Decimal(n);
      assert s[..|s| - 1] == Decimal(n / 10);
    }
  }

  /** A duration as the slicer prints it: the parts separated by single spaces. */
  function Render(ts: seq<Token>): string
    decreases |ts|
  {
    if ts == [] then []
    else if |ts| == 1 then Decimal(ts[0].value) + [ts[0].unit]
    else Decimal(ts[0].value) + [ts[0].unit] + " " + Render(ts[1..])
  }

  lemma {:induction false} DigitsLenOfDigits(digits: string, rest: string)
    requires AllDigits(digits) && (rest == [] || !IsDigit(rest[0]))
    ensures DigitsLen(digits + rest) == |digits|
    decreases |digits|
  {
    if digits != [] {
      assert (digits + rest)[1..] == digits[1..] + rest;
      DigitsLenOfDigits(digits[1..], rest);
    }
  }

  /** A number directly followed by a unit letter is one match. */
  lemma TokensOfNumberAndUnit(digits: string, u: char, rest: string)
    requires digits != [] && AllDigits(digits) && IsUnit(u)
    ensures Tokens(digits + [u] + rest) == [Token(Value(digits), u)] + Tokens(rest)
  {
    var s := digits + [u] + rest;
    MatchAtNumberAndUnit(digits, u, rest);
    assert s[|digits| + 1..] == rest;
  }

  lemma MatchAtNumberAndUnit(digits: string, u: char, rest: string)
    requires digits != [] && AllDigits(digits) && IsUnit(u)
    ensures MatchAt(digits + [u] + rest) == Some((Token(Value(digits), u), |digits| + 1))
  {
    var tail := [u] + rest;
    var s := digits + tail;
    assert digits + [u] + rest == s;
    DigitsLenOfDigits(digits, tail);
    var q := |digits|;
    assert s[q..] == tail;
    assert SpacesLen(tail) == 0 by {
      assert !IsSpace(u);
    }
    assert s[..q] == digits;
    MatchAtUnitAfterDigits(s, q);
  }

  /** A unit letter right behind the run of digits closes the match. */
  lemma MatchAtUnitAfterDigits(s: string, q: nat)
    requires 0 < q < |s| && DigitsLen(s) == q && SpacesLen(s[q..]) == 0 && IsUnit(s[q])
    ensures MatchAt(s) == Some((Token(Value(s[..q]), s[q]), q + 1))
  {
  }

  /** A space between matches is skipped. */
  lemma TokensSkipSpace(rest: string)
    ensures Tokens(" " + rest) == Tokens(rest)
  {
    assert (" " + rest)[1..] == rest;
  }

  /** Round trip: the parser reads back exactly the parts a duration was printed from. */
  lemma {:induction false} TokensOfRender(ts: seq<Token>)
    requires forall i :: 0 <= i < |ts| ==> IsUnit(ts[i].unit)
    ensures Tokens(Render(ts)) == ts
    decreases |ts|
  {
    if |ts| == 1 {
      TokensOfRenderedPart(ts[0], []);
      assert Render(ts) == Decimal(ts[0].value) + [ts[0].unit] + [];
    } else if |ts| > 1 {
      var tail := Render(ts[1..]);
      TokensOfRenderedPart(ts[0], " " + tail);
      assert Render(ts) == Decimal(ts[0].value) + [ts[0].unit] + (" " + tail);
      TokensSkipSpace(tail);
      TokensOfRender(ts[1..]);
      assert ts == [ts[0]] + ts[1..];
    }
  }

  lemma TokensOfRenderedPart(t: Token, rest: string)
    requires IsUnit(t.unit)
    ensures Tokens(Decimal(t.value) + [t.unit] + rest) == [t] + Tokens(rest)
  {
    ValueOfDecimal(t.value);
    TokensOfNumberAndUnit(Decimal(t.value), t.unit, rest);
  }

  /** Days, hours, minutes and seconds weigh 86400, 3600, 60 and 1. */
  lemma WeightedSum(d: nat, h: nat, m: nat, s: nat)
    ensures Seconds([Token(d, 'd'), Token(h, 'h'), Token(m, 'm'), Token(s, 's')])
         == 86400 * d + 3600 * h + 60 * m + s
  {
    var ts := [Token(d, 'd'), Token(h, 'h'), Token(m, 'm'), Token(s, 's')];
    assert ts[..1][..0] == [];
    assert Seconds(ts[..1]) == 86400 * d;
    assert ts[..2][..1] == ts[..1];
    assert Seconds(ts[..2]) == 86400 * d + 3600 * h;
    assert ts[..3][..2] == ts[..2];
    assert Seconds(ts[..3]) == 86400 * d + 3600 * h + 60 * m;
    assert ts[..4][..3] == ts[..3] && ts[..4] == ts;
  }

  /** "1h 30m" is 5400 seconds. */
  lemma HourAndHalf()
    ensures Tokens("1h 30m") == [Token(1, 'h'), Token(30, 'm')]
    ensures Seconds(Tokens("1h 30m")) == 5400
  {
    var ts := [Token(1, 'h'), Token(30, 'm')];
    assert Decimal(30) == "30";
    assert Render(ts) == "1h 30m";
    TokensOfRender(ts);
    assert ts[..1][..0] == [];
  }

  /** Text without any number and unit yields no match, so a total of zero. */
  lemma {:induction false} NoDigitsNoTokens(s: string)
    requires forall i :: 0 <= i < |s| ==> !IsDigit(s[i])
    ensures Tokens(s) == []
    decreases |s|
  {
    if s != [] {
      NoDigitsNoTokens(s[1..]);
    }
  }

  // ---------------------------------------------------------------------------
  // `; key = value` lines: `re.compile(r'^\s*;\s*([^=]+?)\s*=\s*(.*)').match(line)`.
  // ---------------------------------------------------------------------------

  /** Position of the first '=' in the string, if any. */
  function FirstEq(s: string): (r: Option<nat>)
    ensures r.Some? ==> r.value < |s| && s[r.value] == '=' && '=' !in s[..r.value]
    ensures r.None? ==> '=' !in s
    decreases |s|
  {
    if s == [] then None
    else if s[0] == '=' then Some(0)
    else
      var rest := FirstEq(s[1..]);
      if rest.None? then None
      else
        assert s[..rest.value + 1] == [s[0]] + s[1..][..rest.value];
        Some(rest.value + 1)
  }

  /** The key and value a comment line defines. After leading white space the line
      must hold ';'; the lazy key group needs at least one character before the first
      '=' that follows (it cannot cross an '='); the white space the surrounding `\s*`
      take off is also what `.strip()` removes, so the key is the stripped text between
      ';' and that '=', and the value the stripped rest of the line. */
  function LineMatch(line: string): (r: Option<(string, string)>)
  {
    var rest := StripLeft(line);
    if rest == [] || rest[0] != ';' then None else AssignmentAfter(rest[1..])
  }

  /** The key and value in the text after the ';'. */
  function AssignmentAfter(after: string): (r: Option<(string, string)>)
    ensures r.Some? <==> FirstEq(after).Some? && FirstEq(after).value > 0
  {
    var eq := FirstEq(after);
    if eq.None? || eq.value == 0 then None
    else Some((Strip(after[..eq.value]), Strip(after[eq.value + 1..])))
  }

  /** What each line contributes: its key and value, or nothing. */
  type Entry = Option<(string, string)>

  function Entries(lines: seq<string>): (es: seq<Entry>)
    ensures |es| == |lines| && forall i :: 0 <= i < |lines| ==> es[i] == LineMatch(lines[i])
  {
    seq(|lines|, i requires 0 <= i < |lines| => LineMatch(lines[i]))
  }

  /** The raw metadata after the given entries: a later entry with the same key
      overwrites an earlier one. */
  function Collect(entries: seq<Entry>): map<string, string>
    decreases |entries|
  {
    if entries == [] then map[]
    else
      var m := Collect(entries[..|entries| - 1]);
      var last := entries[|entries| - 1];
      if last.Some? then m[last.value.0 := last.value.1] else m
  }

  predicate Defines(e: Entry, key: string) {
    e.Some? && e.value.0 == key
  }

  /** A key is present exactly when some entry defines it. */
  lemma {:induction false} CollectHasKey(entries: seq<Entry>, key: string)
    ensures key in Collect(entries) <==> exists j :: 0 <= j < |entries| && Defines(entries[j], key)
    decreases |entries|
  {
    if entries != [] {
      var init := entries[..|entries| - 1];
      CollectHasKey(init, key);
      assert forall j :: 0 <= j < |init| ==> init[j] == entries[j];
      if key in Collect(entries) && !Defines(entries[|entries| - 1], key) {
        assert key in Collect(init);
        var j :| 0 <= j < |init| && Defines(init[j], key);
        assert Defines(entries[j], key);
      }
    }
  }

  /** Last key wins: the value kept for a key is the one of its last defining entry. */
  lemma {:induction false} CollectLastWins(entries: seq<Entry>, j: nat)
    requires j < |entries| && entries[j].Some?
    requires forall k :: j < k < |entries| ==> !Defines(entries[k], entries[j].value.0)
    ensures entries[j].value.0 in Collect(entries)
    ensures Collect(entries)[entries[j].value.0] == entries[j].value.1
    decreases |entries|
  {
    if j < |entries| - 1 {
      var init := entries[..|entries| - 1];
      assert init[j] == entries[j];
      forall k | j < k < |init|
        ensures !Defines(init[k], init[j].value.0)
      {
        assert init[k] == entries[k];
      }
      CollectLastWins(init, j);
    }
  }

  /** The fields `parse_slicer_metadata` reports. */
  datatype SlicerMetadata = SlicerMetadata(
    durationSeconds: Option<nat>,
    filamentUsedG: Option<real>,
    nozzleDiameter: Option<real>,
    filamentDiameter: Option<real>)

  const DurationKey := "estimated printing time (normal mode)"
  const FilamentUsedKey := "filament used [g]"
  const NozzleKey := "nozzle_diameter"
  const FilamentDiameterKey := "filament_diameter"

  /** `float(s) if s else None`, where `toFloat` is Python's `float()` and None stands
      for its `ValueError`. */
  function FloatField(raw: map<string, string>, key: string, toFloat: string -> Option<real>): (r: Option<real>)
    ensures key !in raw || raw[key] == "" ==> r.None?
    ensures key in raw && raw[key] != "" ==> r == toFloat(raw[key])
  {
    if key in raw && raw[key] != "" then toFloat(raw[key]) else None
  }

  /** The duration field, computed as `parse_duration_to_seconds` does. */
  function DurationField(raw: map<string, string>): (r: Option<nat>)
    ensures r.Some? ==> DurationKey in raw && r.value > 0
  {
    if DurationKey !in raw || raw[DurationKey] == "" then None
    else
      var total := Seconds(Tokens(raw[DurationKey]));
      if total > 0 then Some(total) else None
  }

  /** The key-to-value map the comment lines of a file's text define. */
  function RawMetadata(content: string): map<string, string> {
    Collect(Entries(Split(content, '\n')))
  }

  /** The four reported fields, read from the collected map. */
  function Fields(raw: map<string, string>, toFloat: string -> Option<real>): SlicerMetadata {
    SlicerMetadata(DurationField(raw),
                   FloatField(raw, FilamentUsedKey, toFloat),
                   FloatField(raw, NozzleKey, toFloat),
                   FloatField(raw, FilamentDiameterKey, toFloat))
  }

  /** `parse_slicer_metadata`: collect the comment lines, then convert four fields. */
  method ParseSlicerMetadata(content: string, toFloat: string -> Option<real>) returns (r: SlicerMetadata)
    ensures r == Fields(RawMetadata(content), toFloat)
  {
    var lines := Split(content, '\n');
    var raw: map<string, string> := map[];
    var k := 0;
    while k < |lines|
      invariant 0 <= k <= |lines|
      invariant raw == Collect(Entries(lines)[..k])
    {
      assert Entries(lines)[..k + 1][..k] == Entries(lines)[..k];
      var m := LineMatch(lines[k]);
      if m.Some? {
        raw := raw[m.value.0 := m.value.1];
      }
      k := k + 1;
    }
    assert Entries(lines)[..k] == Entries(lines);
    var duration := ParseDurationToSeconds(if DurationKey in raw then Some(raw[DurationKey]) else None);
    r := SlicerMetadata(duration,
                        FloatField(raw, FilamentUsedKey, toFloat),
                        FloatField(raw, NozzleKey, toFloat),
                        FloatField(raw, FilamentDiameterKey, toFloat));
  }

  /** A key no line of the text defines is absent from the collected map. */
  lemma MissingKeyAbsent(content: string, key: string)
    requires forall j :: 0 <= j < |Split(content, '\n')| ==> !Defines(LineMatch(Split(content, '\n')[j]), key)
    ensures key !in RawMetadata(content)
  {
    CollectHasKey(Entries(Split(content, '\n')), key);
  }

  /** A field whose key no line defines is reported as None: the duration as well as
      the three numbers. */
  lemma MissingFieldIsNone(content: string, key: string, toFloat: string -> Option<real>)
    requires forall j :: 0 <= j < |Split(content, '\n')| ==> !Defines(LineMatch(Split(content, '\n')[j]), key)
    ensures FloatField(RawMetadata(content), key, toFloat).None?
    ensures key == DurationKey ==> DurationField(RawMetadata(content)).None?
  {
    MissingKeyAbsent(content, key);
  }

  /** A line defines one of the four keys the analysis reports. */
  predicate DefinesKnownKey(e: Entry) {
    Defines(e, DurationKey) || Defines(e, FilamentUsedKey) || Defines(e, NozzleKey) ||
    Defines(e, FilamentDiameterKey)
  }

  /** Text in which no line defines a reported key gives four None fields. */
  lemma NoKnownKeyAllNone(content: string, toFloat: string -> Option<real>)
    requires forall j :: 0 <= j < |Split(content, '\n')| ==> !DefinesKnownKey(LineMatch(Split(content, '\n')[j]))
    ensures Fields(RawMetadata(content), toFloat) == SlicerMetadata(None, None, None, None)
  {
    MissingFieldIsNone(content, DurationKey, toFloat);
    MissingFieldIsNone(content, FilamentUsedKey, toFloat);
    MissingFieldIsNone(content, NozzleKey, toFloat);
    MissingFieldIsNone(content, FilamentDiameterKey, toFloat);
  }

  /** A number field takes the `float()` of the value on the last line that defines
      its key, when that value is not empty. */
  lemma LastDefinitionConverts(content: string, j: nat, toFloat: string -> Option<real>)
    requires j < |Split(content, '\n')|
    requires LineMatch(Split(content, '\n')[j]).Some? && LineMatch(Split(content, '\n')[j]).value.1 != ""
    requires forall k :: j < k < |Split(content, '\n')| ==>
               !Defines(LineMatch(Split(content, '\n')[k]), LineMatch(Split(content, '\n')[j]).value.0)
    ensures var (key, value) := LineMatch(Split(content, '\n')[j]).value;
      FloatField(RawMetadata(content), key, toFloat) == toFloat(value)
  {
    CollectLastWins(Entries(Split(content, '\n')), j);
  }

  /** The duration comes from the value on the last line that defines its key: none
      when that value is empty or its tokens add up to no time, else their seconds. */
  lemma LastDefinitionGivesDuration(content: string, j: nat)
    requires j < |Split(content, '\n')|
    requires LineMatch(Split(content, '\n')[j]).Some? && LineMatch(Split(content, '\n')[j]).value.0 == DurationKey
    requires forall k :: j < k < |Split(content, '\n')| ==> !Defines(LineMatch(Split(content, '\n')[k]), DurationKey)
    ensures var value := LineMatch(Split(content, '\n')[j]).value.1;
      DurationField(RawMetadata(content)) ==
        if value == "" || Seconds(Tokens(value)) == 0 then None else Some(Seconds(Tokens(value)))
  {
    CollectLastWins(Entries(Split(content, '\n')), j);
  }

  /** The print-time line a slicer writes, `; estimated printing time (normal mode) =
      1h 30m`, on its own gives a duration of 5400 seconds and no other field. */
  lemma PrintTimeLine(toFloat: string -> Option<real>)
    ensures Fields(RawMetadata("; " + DurationKey + " = " + "1h 30m"), toFloat)
         == SlicerMetadata(Some(5400), None, None, None)
  {
    var value := "1h 30m";
    var line := "; " + DurationKey + " = " + value;
    DurationKeyIsPlain();
    StripLeftSpaces([], value);
    StripRightSpaces(value, []);
    assert [] + value == value && value + [] == value;
    assert '\n' !in value && '\n' !in "; " && '\n' !in " = ";
    CommentLineRoundTrip(DurationKey, value);
    OneLineMetadata(line);
    HourAndHalf();
    DurationOnly(value, toFloat);
  }

  /** A map that holds only the duration gives that duration and no other field. */
  lemma DurationOnly(value: string, toFloat: string -> Option<real>)
    requires value != "" && Seconds(Tokens(value)) > 0
    ensures Fields(map[DurationKey := value], toFloat)
         == SlicerMetadata(Some(Seconds(Tokens(value))), None, None, None)
  {
    assert |FilamentUsedKey| != |DurationKey| && |NozzleKey| != |DurationKey| &&
           |FilamentDiameterKey| != |DurationKey|;
  }

  /** The duration key is a valid key of a comment line. */
  lemma DurationKeyIsPlain()
    ensures '=' !in DurationKey && '\n' !in DurationKey && Strip(DurationKey) == DurationKey
  {
    var a, b, c := "estimated", " printing", " time";
    var d, e := " (normal", " mode)";
    DurationKeyPieces();
    PiecesArePlain();
    assert DurationKey == (a + b) + (c + (d + e));
    DurationKeyIsStripped();
  }

  lemma DurationKeyPieces()
    ensures DurationKey == ("estimated" + " printing") + (" time" + (" (normal" + " mode)"))
  {
  }

  lemma PiecesArePlain()
    ensures '=' !in "estimated" + " printing" && '\n' !in "estimated" + " printing"
    ensures '=' !in " time" + (" (normal" + " mode)") && '\n' !in " time" + (" (normal" + " mode)")
  {
    var a, b, c := "estimated", " printing", " time";
    var d, e := " (normal", " mode)";
    assert '=' !in a && '\n' !in a && '=' !in b && '\n' !in b;
    assert '=' !in c && '\n' !in c && '=' !in d && '\n' !in d && '=' !in e && '\n' !in e;
  }

  lemma DurationKeyIsStripped()
    ensures Strip(DurationKey) == DurationKey
  {
    var key := DurationKey;
    assert key[0] == 'e' && key[|key| - 1] == ')';
    StripLeftSpaces([], key);
    assert [] + key == key && key + [] == key;
    StripRightSpaces(key, []);
  }

  /** A text of one line collects exactly what that line defines. */
  lemma OneLineMetadata(line: string)
    requires '\n' !in line && LineMatch(line).Some?
    ensures RawMetadata(line) == map[LineMatch(line).value.0 := LineMatch(line).value.1]
  {
    SplitJoin([line], '\n');
    assert Split(line, '\n') == [line];
    var es := Entries([line]);
    assert es == [LineMatch(line)];
    assert es[..0] == [];
    assert Collect(es) == Collect(es[..0])[LineMatch(line).value.0 := LineMatch(line).value.1];
  }

  /** The first '=' is where the text before it has none. */
  lemma {:induction false} FirstEqAt(s: string, e: nat)
    requires e < |s| && s[e] == '=' && forall i :: 0 <= i < e ==> s[i] != '='
    ensures FirstEq(s) == Some(e)
    decreases e
  {
    if e > 0 {
      FirstEqAt(s[1..], e - 1);
    }
  }

  /** The line a slicer writes for a setting, "; key = value", is read back as that
      key and value. */
  lemma CommentLineRoundTrip(key: string, value: string)
    requires key != [] && '=' !in key && Strip(key) == key && Strip(value) == value
    ensures LineMatch("; " + key + " = " + value) == Some((key, value))
  {
    var after := " " + key + " = " + value;
    assert "; " + key + " = " + value == [';'] + after;
    LineMatchAtSemicolon(after);
    AssignmentOfKeyValue(key, value);
  }

  /** A line that starts with ';' is read from the text after it. */
  lemma LineMatchAtSemicolon(after: string)
    ensures LineMatch([';'] + after) == AssignmentAfter(after)
  {
    var line := [';'] + after;
    StripLeftSpaces([], line);
    assert line[1..] == after;
  }

  lemma AssignmentOfKeyValue(key: string, value: string)
    requires key != [] && '=' !in key && Strip(key) == key && Strip(value) == value
    ensures AssignmentAfter(" " + key + " = " + value) == Some((key, value))
  {
    var e := FirstEqAfterKey(key, value);
    KeyAfterSemicolon(key, value);
    ValueAfterEquals(key, value);
  }

  lemma FirstEqAfterKey(key: string, value: string) returns (e: nat)
    requires '=' !in key
    ensures e == |key| + 2 && FirstEq(" " + key + " = " + value) == Some(e)
  {
    var after := " " + key + " = " + value;
    e := |key| + 2;
    forall i | 0 <= i < e ensures after[i] != '=' {
      if 1 <= i <= |key| {
        assert after[i] == key[i - 1];
      }
    }
    FirstEqAt(after, e);
  }

  lemma KeyAfterSemicolon(key: string, value: string)
    requires key != [] && Strip(key) == key
    ensures Strip((" " + key + " = " + value)[..|key| + 2]) == key
  {
    assert (" " + key + " = " + value)[..|key| + 2] == " " + key + " ";
    StripPadded(" ", key, " ");
  }

  lemma ValueAfterEquals(key: string, value: string)
    requires Strip(value) == value
    ensures Strip((" " + key + " = " + value)[|key| + 3..]) == value
  {
    var head := " " + key + " =";
    assert " " + key + " = " + value == head + (" " + value);
    assert (head + (" " + value))[|head|..] == " " + value;
    if value == [] {
      StripAllSpace(" ");
    } else {
      StripPadded(" ", value, []);
      assert " " + value + [] == " " + value;
    }
  }

  /** A line whose first '=' directly follows the ';' gives the lazy key group nothing
      to match, so it defines no key. */
  lemma EmptyKeyLineIgnored()
    ensures LineMatch(";=1").None?
  {
    var line := ";=1";
    assert !IsSpace(line[0]);
    assert StripLeft(line) == line;
    assert line[1..] == "=1";
    assert FirstEq("=1") == Some(0);
  }
}
