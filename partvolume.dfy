/** `analyze_per_part_volume`: a single pass over the G-code lines that grows one
    bounding box per printed object, then the volume of each box and its share of the
    total. The three regular expressions are written out as line classifiers; the text
    the object-start pattern captures as the name is a parameter, so that the
    accumulation can be stated for any extraction and then for the real one. */
module PartVolume {
  import opened Common

  const StartPrefix := "; printing object "
  const EndPrefix := "; stop printing object "

  datatype Point = Point(x: real, y: real, z: real)

  /** What one line means to the loop. */
  datatype Event =
    | Start(name: string)    // `OBJECT_START_RE` matched; the stripped captured name
    | End                    // `OBJECT_END_RE` matched
    | Move(p: Point)         // `G1_COMMAND_RE` matched and the three numbers convert
    | BadMove                // `G1_COMMAND_RE` matched but `float()` rejects a group
    | Other

  // ---------------------------------------------------------------------------
  // `G1_COMMAND_RE = ^G1 .*?X([\d\.]+) .*?Y([\d\.]+) .*?Z([\d\.]+)`
  // ---------------------------------------------------------------------------

  predicate IsNumChar(c: char) {
    IsDigit(c) || c == '.'
  }

  /** Text the class `[\d\.]` matches throughout. */
  predicate NumText(s: string) {
    forall i :: 0 <= i < |s| ==> IsNumChar(s[i])
  }

  /** Where the run of digits and dots that starts at `i` ends. */
  function RunEnd(s: string, i: nat): (e: nat)
    requires i <= |s|
    ensures i <= e <= |s| && (e < |s| ==> !IsNumChar(s[e]))
    decreases |s| - i
  {
    if i < |s| && IsNumChar(s[i]) then RunEnd(s, i + 1) else i
  }

  /** The run `RunEnd` measures is made of digits and dots. */
  lemma {:induction false} RunEndIsNumText(s: string, i: nat)
    requires i <= |s|
    ensures NumText(s[i..RunEnd(s, i)])
    decreases |s| - i
  {
    if i < |s| && IsNumChar(s[i]) {
      RunEndIsNumText(s, i + 1);
      assert s[i..RunEnd(s, i)] == [s[i]] + s[i + 1..RunEnd(s, i + 1)];
    }
  }

  /** Is there a group for the letter `c` at position `i`: the letter, a non-empty
      (maximal) run of digits and dots, and, when `space` is set, a space after it?
      The greedy run cannot give characters back, since a digit or a dot would then
      stand where the space is required. Returns the end of the run. */
  function GroupAt(s: string, i: nat, c: char, space: bool): (r: Option<nat>)
    ensures r.Some? ==> i + 1 < r.value <= |s| && s[i] == c && r.value == RunEnd(s, i + 1)
    ensures r.Some? ==> (r.value == |s| || !IsNumChar(s[r.value])) && (space ==> r.value < |s| && s[r.value] == ' ')
  {
    if i < |s| && s[i] == c then
      var e := RunEnd(s, i + 1);
      if e > i + 1 && (!space || (e < |s| && s[e] == ' ')) then Some(e) else None
    else None
  }

  /** The number of a group is made of digits and dots. */
  lemma GroupAtNumText(s: string, i: nat, c: char, space: bool)
    requires GroupAt(s, i, c, space).Some?
    ensures NumText(s[i + 1..GroupAt(s, i, c, space).value])
  {
    RunEndIsNumText(s, i + 1);
  }

  /** The first group for `c` at or after `from`: the lazy `.*?` tries positions from
      left to right. */
  function FirstGroup(s: string, from: nat, c: char, space: bool): (r: Option<(nat, nat)>)
    ensures r.Some? ==> from <= r.value.0 < r.value.1 <= |s| && GroupAt(s, r.value.0, c, space) == Some(r.value.1)
    decreases |s| - from
  {
    if from >= |s| then None
    else
      var g := GroupAt(s, from, c, space);
      if g.Some? then Some((from, g.value)) else FirstGroup(s, from + 1, c, space)
  }

  /** The group found is the leftmost one, and none is missed. */
  lemma {:induction false} FirstGroupIsLeftmost(s: string, from: nat, c: char, space: bool, i: nat)
    requires from <= i
    requires FirstGroup(s, from, c, space).Some? ==> i < FirstGroup(s, from, c, space).value.0
    ensures GroupAt(s, i, c, space).None?
    decreases |s| - from
  {
    if from < |s| && from < i {
      FirstGroupIsLeftmost(s, from + 1, c, space, i);
    }
  }

  /** The `^G1 ` anchor of the move pattern, letter by letter. */
  predicate IsG1Line(line: string) {
    3 <= |line| && line[0] == 'G' && line[1] == '1' && line[2] == ' '
  }

  /** Where the three groups of a G1 line lie: for each, the position of its letter
      and the end of its number. Backtracking never needs a later X or Y: any Y (or Z)
      found after a later candidate also lies after the first one, so the first X
      group, the first Y group after it and the first Z group after that are the match
      whenever there is one. */
  function G1Spans(line: string): (r: Option<((nat, nat), (nat, nat), (nat, nat))>)
    ensures r.Some? ==> 3 <= r.value.0.0 < r.value.0.1 < r.value.1.0 < r.value.1.1 < r.value.2.0 < r.value.2.1 <= |line|
    ensures r.Some? ==> (GroupAt(line, r.value.0.0, 'X', true) == Some(r.value.0.1) &&
                         GroupAt(line, r.value.1.0, 'Y', true) == Some(r.value.1.1) &&
                         GroupAt(line, r.value.2.0, 'Z', false) == Some(r.value.2.1))
  {
    if !IsG1Line(line) then None
    else
      var gx := FirstGroup(line, 3, 'X', true);
      if gx.None? then None else SpansAfterX(line, gx.value)
  }

  /** The Y and Z groups once the X group `gx` is known. */
  function SpansAfterX(line: string, gx: (nat, nat)): (r: Option<((nat, nat), (nat, nat), (nat, nat))>)
    ensures r.Some? ==> r.value.0 == gx && gx.1 < r.value.1.0 < r.value.1.1 < r.value.2.0 < r.value.2.1 <= |line|
    ensures r.Some? ==> (GroupAt(line, r.value.1.0, 'Y', true) == Some(r.value.1.1) &&
                         GroupAt(line, r.value.2.0, 'Z', false) == Some(r.value.2.1))
  {
    var gy := FirstGroup(line, gx.1 + 1, 'Y', true);
    if gy.None? then None else SpansAfterY(line, gx, gy.value)
  }

  /** The Z group once the X and Y groups are known. */
  function SpansAfterY(line: string, gx: (nat, nat), gy: (nat, nat)): (r: Option<((nat, nat), (nat, nat), (nat, nat))>)
    ensures r.Some? ==> r.value.0 == gx && r.value.1 == gy && gy.1 < r.value.2.0 < r.value.2.1 <= |line|
    ensures r.Some? ==> GroupAt(line, r.value.2.0, 'Z', false) == Some(r.value.2.1)
  {
    var gz := FirstGroup(line, gy.1 + 1, 'Z', false);
    if gz.None? then None else Some((gx, gy, gz.value))
  }

  /** The three captured groups of a G1 line: digits and dots only. */
  function G1Match(line: string): (r: Option<(string, string, string)>)
    ensures r.Some? ==> NumText(r.value.0) && NumText(r.value.1) && NumText(r.value.2)
    ensures r.Some? <==> G1Spans(line).Some?
  {
    var sp := G1Spans(line);
    if sp.None? then None
    else
      var (gx, gy, gz) := sp.value;
      GroupAtNumText(line, gx.0, 'X', true);
      GroupAtNumText(line, gy.0, 'Y', true);
      GroupAtNumText(line, gz.0, 'Z', false);
      Some((line[gx.0 + 1..gx.1], line[gy.0 + 1..gy.1], line[gz.0 + 1..gz.1]))
  }

  /** No group for `c` starts in `[lo, hi)`. */
  predicate NoGroupIn(s: string, lo: nat, hi: nat, c: char, space: bool) {
    forall i :: lo <= i < hi ==> GroupAt(s, i, c, space).None?
  }

  /** No group lies between the start of a search and the group `g` it finds. */
  lemma NoGroupBefore(s: string, from: nat, c: char, space: bool, g: (nat, nat))
    requires FirstGroup(s, from, c, space) == Some(g)
    ensures NoGroupIn(s, from, g.0, c, space)
  {
    forall i | from <= i < g.0 ensures GroupAt(s, i, c, space).None? {
      FirstGroupIsLeftmost(s, from, c, space, i);
    }
  }

  lemma {:induction false} RunEndOf(s: string, i: nat, e: nat)
    requires i <= e <= |s| && NumText(s[i..e]) && (e == |s| || !IsNumChar(s[e]))
    ensures RunEnd(s, i) == e
    decreases e - i
  {
    if i < e {
      assert s[i..e][0] == s[i];
      assert s[i + 1..e] == s[i..e][1..];
      RunEndOf(s, i + 1, e);
    }
  }

  /** A letter followed by a number of `len` characters is a group there. */
  lemma GroupAtOf(s: string, i: nat, c: char, len: nat, space: bool)
    requires i + 1 + len <= |s| && len > 0 && s[i] == c && NumText(s[i + 1..i + 1 + len])
    requires i + 1 + len == |s| || !IsNumChar(s[i + 1 + len])
    requires space ==> i + 1 + len < |s| && s[i + 1 + len] == ' '
    ensures GroupAt(s, i, c, space) == Some(i + 1 + len)
    ensures FirstGroup(s, i, c, space) == Some((i, i + 1 + len))
  {
    RunEndOf(s, i + 1, i + 1 + len);
  }

  function CountDots(s: string): nat
    decreases |s|
  {
    if s == [] then 0 else (if s[0] == '.' then 1 else 0) + CountDots(s[1..])
  }

  predicate DigitText(s: string) {
    forall i :: 0 <= i < |s| ==> IsDigit(s[i])
  }

  /** Value of a string of digits (and nothing else). */
  function DigitsValue(s: string): nat
    requires DigitText(s)
    decreases |s|
  {
    if s == [] then 0 else 10 * DigitsValue(s[..|s| - 1]) + DigitValue(s[|s| - 1])
  }

  function DotIndex(s: string): (r: nat)
    requires CountDots(s) >= 1
    ensures r < |s| && s[r] == '.' && CountDots(s[r + 1..]) == CountDots(s) - 1
    ensures forall i :: 0 <= i < r ==> s[i] != '.'
    decreases |s|
  {
    if s[0] == '.' then 0 else 1 + DotIndex(s[1..])
  }

  lemma {:induction false} NoDotsAllDigits(s: string)
    requires CountDots(s) == 0 && NumText(s)
    ensures DigitText(s)
    decreases |s|
  {
    if s != [] {
      NoDotsAllDigits(s[1..]);
      forall i | 1 <= i < |s| ensures IsDigit(s[i]) {
        assert s[1..][i - 1] == s[i];
      }
    }
  }

  /** The value of a digit string with one dot: integer part plus fraction. */
  function DottedValue(s: string): (v: real)
    requires NumText(s) && CountDots(s) == 1
    ensures v >= 0.0
  {
    var d := DotIndex(s);
    DotParts(s, d);
    DigitsValue(s[..d]) as real + FractionValue(s[d + 1..])
  }

  /** The value of the digits after a decimal point: the first digit counts tenths,
      the next hundredths, and so on. */
  function FractionValue(s: string): (v: real)
    requires DigitText(s)
    ensures 0.0 <= v <= 1.0
    decreases |s|
  {
    if s == [] then 0.0 else (DigitValue(s[0]) as real + FractionValue(s[1..])) / 10.0
  }

  lemma DotParts(s: string, d: nat)
    requires NumText(s) && CountDots(s) == 1 && d == DotIndex(s)
    ensures DigitText(s[..d]) && DigitText(s[d + 1..])
  {
    var ip := s[..d];
    forall i | 0 <= i < |ip| ensures IsDigit(ip[i]) {
      assert ip[i] == s[i] && s[i] != '.' && IsNumChar(s[i]);
    }
    var fp := s[d + 1..];
    assert NumText(fp) by {
      forall i | 0 <= i < |fp| ensures IsNumChar(fp[i]) {
        assert fp[i] == s[d + 1 + i];
      }
    }
    NoDotsAllDigits(fp);
  }

  /** Python's `float()` of a run of digits and dots: it needs at least one digit and
      at most one dot ("5", "5.", ".5", "1.25"); anything else is a `ValueError`. */
  function ParseNumber(s: string): (r: Option<real>)
    requires NumText(s)
    ensures r.Some? ==> r.value >= 0.0
    ensures r.Some? <==> CountDots(s) <= 1 && |s| > CountDots(s)
  {
    if CountDots(s) == 0 then
      if s == [] then None
      else
        NoDotsAllDigits(s);
        Some(DigitsValue(s) as real)
    else if CountDots(s) == 1 && |s| > 1 then Some(DottedValue(s))
    else None
  }

  function Pow10(n: nat): (p: nat)
    ensures p >= 1
  {
    if n == 0 then 1 else 10 * Pow10(n - 1)
  }

  /** Reading digits from the front: the first digit is worth its power of ten. */
  lemma {:induction false} DigitsValueFront(s: string)
    requires DigitText(s) && s != []
    ensures DigitsValue(s) == DigitValue(s[0]) * Pow10(|s| - 1) + DigitsValue(s[1..])
    decreases |s|
  {
    var n := |s|;
    if n > 1 {
      var init, mid := s[..n - 1], s[1..n - 1];
      assert init[0] == s[0] && init[1..] == mid;
      assert s[1..][..n - 2] == mid && s[1..][n - 2] == s[n - 1];
      DigitsValueFront(init);
      var d, x, y, l := DigitValue(s[0]), Pow10(n - 2), DigitsValue(mid), DigitValue(s[n - 1]);
      assert DigitsValue(init) == d * x + y;
      assert DigitsValue(s) == 10 * DigitsValue(init) + l;
      assert DigitsValue(s[1..]) == 10 * y + l;
      assert Pow10(n - 1) == 10 * x;
      FrontStep(d, x, y, l);
    } else {
      assert s[..0] == [] && s[1..] == [];
    }
  }

  lemma FrontStep(d: nat, x: nat, y: nat, l: nat)
    ensures 10 * (d * x + y) + l == d * (10 * x) + (10 * y + l)
  {
  }

  /** `v` moved `n` decimal places to the right, one division by ten at a time. */
  function Shifted(v: real, n: nat): real {
    if n == 0 then v else Shifted(v, n - 1) / 10.0
  }

  /** Moving `n` places is dividing by the `n`-th power of ten. */
  lemma {:induction false} ShiftedIsDivision(v: real, n: nat)
    ensures Shifted(v, n) == v / Pow10(n) as real
  {
    if n > 0 {
      ShiftedIsDivision(v, n - 1);
      var p := Pow10(n - 1) as real;
      assert Pow10(n) as real == 10.0 * p;
      assert (v / p) / 10.0 == v / (10.0 * p);
    }
  }

  lemma {:induction false} ShiftedAdd(u: real, v: real, n: nat)
    ensures Shifted(u + v, n) == Shifted(u, n) + Shifted(v, n)
  {
    if n > 0 {
      ShiftedAdd(u, v, n - 1);
    }
  }

  lemma {:induction false} ShiftedTimesTen(v: real, n: nat)
    ensures Shifted(10.0 * v, n) == 10.0 * Shifted(v, n)
  {
    if n > 0 {
      ShiftedTimesTen(v, n - 1);
    }
  }

  /** A digit worth `10^n` comes back as itself after `n` places. */
  lemma {:induction false} ShiftedPower(d: nat, n: nat)
    ensures Shifted((d * Pow10(n)) as real, n) == d as real
  {
    if n > 0 {
      var y := d * Pow10(n - 1);
      assert d * Pow10(n) == 10 * y by {
        assert Pow10(n) == 10 * Pow10(n - 1);
        TenFactor(d, Pow10(n - 1));
      }
      ShiftedTimesTen(y as real, n - 1);
      ShiftedPower(d, n - 1);
    }
  }

  lemma TenFactor(d: nat, p: nat)
    ensures d * (10 * p) == 10 * (d * p)
  {
  }

  /** The digits after the point denote their integer value moved past the point:
      ".25" is 25 moved two places, 25/100. */
  lemma {:induction false} FractionValueClosedForm(s: string)
    requires DigitText(s)
    ensures FractionValue(s) == Shifted(DigitsValue(s) as real, |s|)
    decreases |s|
  {
    if s != [] {
      var t := s[1..];
      var d, v := DigitValue(s[0]), DigitsValue(t);
      FractionValueClosedForm(t);
      DigitsValueFront(s);
      assert |s| - 1 == |t|;
      var w := (d * Pow10(|t|)) as real;
      assert DigitsValue(s) as real == w + v as real;
      ShiftedAdd(w, v as real, |t|);
      ShiftedPower(d, |t|);
    }
  }

  lemma {:induction false} DigitTextHasNoDots(s: string)
    requires DigitText(s)
    ensures CountDots(s) == 0
    decreases |s|
  {
    if s != [] {
      DigitTextHasNoDots(s[1..]);
    }
  }

  /** `float()` of a plain run of digits is its integer value. */
  lemma ParseNumberOfDigits(a: string)
    requires a != [] && DigitText(a)
    ensures ParseNumber(a) == Some(DigitsValue(a) as real)
  {
    DigitTextHasNoDots(a);
  }

  /** `float()` of digits, a point and digits ("12.25", "5.", ".5") is the integer part
      plus the fraction digits moved past the point (see ShiftedIsDivision). */
  lemma ParseNumberOfDecimal(s: string, d: nat)
    requires d < |s| && s[d] == '.' && 1 < |s| && DigitText(s[..d]) && DigitText(s[d + 1..])
    ensures NumText(s)
    ensures ParseNumber(s) == Some(DigitsValue(s[..d]) as real + Shifted(DigitsValue(s[d + 1..]) as real, |s[d + 1..]|))
  {
    ParseNumberOfDecimalParts(s, d);
    FractionValueClosedForm(s[d + 1..]);
  }

  /** The same value with the fraction digits read one place at a time. */
  lemma ParseNumberOfDecimalParts(s: string, d: nat)
    requires d < |s| && s[d] == '.' && 1 < |s| && DigitText(s[..d]) && DigitText(s[d + 1..])
    ensures NumText(s)
    ensures ParseNumber(s) == Some(DigitsValue(s[..d]) as real + FractionValue(s[d + 1..]))
  {
    DotShape(s, d);
    ParseDotted(s, d);
  }

  /** A string of digits with one dot at `d` is a number text whose only dot is at `d`. */
  lemma DotShape(s: string, d: nat)
    requires d < |s| && s[d] == '.' && DigitText(s[..d]) && DigitText(s[d + 1..])
    ensures NumText(s) && CountDots(s) == 1 && DotIndex(s) == d
  {
    var a, b := s[..d], s[d + 1..];
    assert s == a + ("." + b);
    forall i | 0 <= i < |s| ensures IsNumChar(s[i]) {
      assert i < d ==> s[i] == a[i];
      assert i > d ==> s[i] == b[i - d - 1];
    }
    DigitTextHasNoDots(a);
    DigitTextHasNoDots(b);
    CountDotsAppend(a, "." + b);
    assert ("." + b)[1..] == b;
    forall i | 0 <= i < d ensures s[i] != '.' {
      assert s[i] == a[i];
    }
  }

  lemma ParseDotted(s: string, d: nat)
    requires NumText(s) && CountDots(s) == 1 && |s| > 1 && DotIndex(s) == d
    ensures DigitText(s[..d]) && DigitText(s[d + 1..])
    ensures ParseNumber(s) == Some(DigitsValue(s[..d]) as real + FractionValue(s[d + 1..]))
  {
    DotParts(s, d);
    var r := ParseNumber(s);
    assert r.Some? && r.value == DottedValue(s);
    SomeOfValue(r, DigitsValue(s[..d]) as real + FractionValue(s[d + 1..]));
  }

  lemma SomeOfValue(r: Option<real>, v: real)
    requires r.Some? && r.value == v
    ensures r == Some(v)
  {
  }

  lemma {:induction false} CountDotsAppend(s: string, t: string)
    ensures CountDots(s + t) == CountDots(s) + CountDots(t)
    decreases |s|
  {
    if s == [] {
      assert s + t == t;
    } else {
      assert (s + t)[0] == s[0];
      assert (s + t)[1..] == s[1..] + t;
      CountDotsAppend(s[1..], t);
    }
  }

  /** The line classifier: the start pattern first, then the end pattern, then G1.
      `extract` gives the name group from the text after the start prefix. */
  function Classify(line: string, extract: string -> string): (e: Event)
  {
    if StartsWith(line, StartPrefix) then Start(Strip(extract(line[|StartPrefix|..])))
    else if StartsWith(line, EndPrefix) then End
    else MoveOf(G1Match(line))
  }

  /** The event for the outcome of the G1 pattern. */
  function MoveOf(g: Option<(string, string, string)>): (e: Event)
    requires g.Some? ==> NumText(g.value.0) && NumText(g.value.1) && NumText(g.value.2)
    ensures !e.Start?
  {
    if g.None? then Other
    else
      match PointOf(g.value)
      case Some(p) => Move(p)
      case None => BadMove
  }

  /** The three `float()` conversions of a matched line; `None` when any of them fails. */
  function PointOf(g: (string, string, string)): (r: Option<Point>)
    requires NumText(g.0) && NumText(g.1) && NumText(g.2)
    ensures r.Some? <==> ParseNumber(g.0).Some? && ParseNumber(g.1).Some? && ParseNumber(g.2).Some?
    ensures r.Some? ==> r.value.x >= 0.0 && r.value.y >= 0.0 && r.value.z >= 0.0
  {
    var x, y, z := ParseNumber(g.0), ParseNumber(g.1), ParseNumber(g.2);
    if x.Some? && y.Some? && z.Some? then Some(Point(x.value, y.value, z.value)) else None
  }

  /** The name group of `(.*?)` at the end of `OBJECT_START_RE`: a lazy group with
      nothing after it matches the empty string. */
  function LazyName(rest: string): string
  {
    ""
  }

  /** The name a greedy group `(.*)` would capture: the rest of the line. */
  function GreedyName(rest: string): string
  {
    rest
  }

  // ---------------------------------------------------------------------------
  // The accumulation.
  // ---------------------------------------------------------------------------

  datatype Box = Box(minX: real, maxX: real, minY: real, maxY: real, minZ: real, maxZ: real)

  predicate Contains(b: Box, p: Point) {
    b.minX <= p.x <= b.maxX && b.minY <= p.y <= b.maxY && b.minZ <= p.z <= b.maxZ
  }

  predicate Within(inner: Box, outer: Box) {
    outer.minX <= inner.minX && inner.maxX <= outer.maxX &&
    outer.minY <= inner.minY && inner.maxY <= outer.maxY &&
    outer.minZ <= inner.minZ && inner.maxZ <= outer.maxZ
  }

  function Min(a: real, b: real): real { if a <= b then a else b }
  function Max(a: real, b: real): real { if a >= b then a else b }

  /** The box of a part's first point: `min(inf, x)` and `max(-inf, x)` are `x`. */
  function PointBox(p: Point): (b: Box)
    ensures Contains(b, p)
  {
    Box(p.x, p.x, p.y, p.y, p.z, p.z)
  }

  /** The six `min`/`max` updates for one more point. */
  function Extend(b: Box, p: Point): (r: Box)
    ensures Contains(r, p) && Within(b, r)
  {
    Box(Min(b.minX, p.x), Max(b.maxX, p.x), Min(b.minY, p.y), Max(b.maxY, p.y),
        Min(b.minZ, p.z), Max(b.maxZ, p.z))
  }

  /** The loop's state: the current part ("" for both `None` and the empty name, which
      Python treats alike), the parts in order of first appearance, and their boxes. */
  datatype Acc = Acc(current: string, names: seq<string>, boxes: map<string, Box>)

  ghost predicate AccValid(a: Acc) {
    (forall i :: 0 <= i < |a.names| ==> a.names[i] in a.boxes) &&
    (forall n :: n in a.boxes ==> n in a.names) &&
    (forall i, j :: 0 <= i < j < |a.names| ==> a.names[i] != a.names[j])
  }

  function Record(a: Acc, name: string, p: Point): (r: Acc)
    ensures name in r.boxes && Contains(r.boxes[name], p)
    ensures r.current == a.current
  {
    if name in a.boxes then a.(boxes := a.boxes[name := Extend(a.boxes[name], p)])
    else a.(names := a.names + [name], boxes := a.boxes[name := PointBox(p)])
  }

  /** One turn of the line loop. A failed `float()` escapes as an exception, which
      the function turns into `None`. */
  function Step(a: Acc, e: Event): Option<Acc>
  {
    match e
    case Start(n) => Some(a.(current := n))
    case End => Some(if a.current != "" then a.(current := "") else a)
    case Move(p) => Some(if a.current != "" then Record(a, a.current, p) else a)
    case BadMove => if a.current != "" then None else Some(a)
    case Other => Some(a)
  }

  function Events(lines: seq<string>, extract: string -> string): (es: seq<Event>)
    ensures |es| == |lines| && forall i :: 0 <= i < |lines| ==> es[i] == Classify(lines[i], extract)
  {
    seq(|lines|, i requires 0 <= i < |lines| => Classify(lines[i], extract))
  }

  const Initial := Acc("", [], map[])

  function Accumulate(events: seq<Event>): Option<Acc>
    decreases |events|
  {
    if events == [] then Some(Initial)
    else
      match Accumulate(events[..|events| - 1])
      case None => None
      case Some(a) => Step(a, events[|events| - 1])
  }

  /** Every turn keeps the part list and the box map in step, without duplicates. */
  lemma StepKeepsValid(a: Acc, e: Event)
    requires AccValid(a) && Step(a, e).Some?
    ensures AccValid(Step(a, e).value)
  {
    if e.Move? && a.current != "" && a.current !in a.boxes {
      var r := Step(a, e).value;
      assert r.names == a.names + [a.current];
      forall i, j | 0 <= i < j < |r.names| ensures r.names[i] != r.names[j] {
        if j == |a.names| {
          assert r.names[i] == a.names[i] && r.names[i] in a.boxes;
        }
      }
    }
  }

  lemma {:induction false} AccumulateValid(events: seq<Event>)
    requires Accumulate(events).Some?
    ensures AccValid(Accumulate(events).value)
    decreases |events|
  {
    if events != [] {
      AccumulateValid(events[..|events| - 1]);
      StepKeepsValid(Accumulate(events[..|events| - 1]).value, events[|events| - 1]);
    }
  }

  /** Boxes only grow: a later state's box for a part holds the earlier one. */
  lemma {:induction false} BoxesGrow(events: seq<Event>, k: nat)
    requires k <= |events| && Accumulate(events).Some?
    ensures Accumulate(events[..k]).Some?
    ensures forall n :: n in Accumulate(events[..k]).value.boxes ==>
              n in Accumulate(events).value.boxes &&
              Within(Accumulate(events[..k]).value.boxes[n], Accumulate(events).value.boxes[n])
    decreases |events| - k
  {
    if k == |events| {
      assert events[..k] == events;
    } else {
      var init := events[..|events| - 1];
      assert init[..k] == events[..k];
      BoxesGrow(init, k);
    }
  }

  /** Every point recorded while a part is current lies in that part's final box. */
  lemma RecordedPointInBox(events: seq<Event>, j: nat)
    requires j < |events| && events[j].Move? && Accumulate(events).Some?
    requires Accumulate(events[..j]).Some? && Accumulate(events[..j]).value.current != ""
    ensures var n := Accumulate(events[..j]).value.current;
            n in Accumulate(events).value.boxes && Contains(Accumulate(events).value.boxes[n], events[j].p)
  {
    BoxesGrow(events, j + 1);
    assert events[..j + 1][..j] == events[..j];
  }

  /** Coordinate `k` of a point: 0 for x, 1 for y, 2 for z. */
  function Coord(p: Point, k: nat): real
    requires k < 3
  {
    if k == 0 then p.x else if k == 1 then p.y else p.z
  }

  /** Face `k` of a box: its lower then upper bound along x, then y, then z. */
  function Face(b: Box, k: nat): real
    requires k < 6
  {
    match k
    case 0 => b.minX
    case 1 => b.maxX
    case 2 => b.minY
    case 3 => b.maxY
    case 4 => b.minZ
    case _ => b.maxZ
  }

  /** Extending a box moves each face to the new point's coordinate or leaves it. */
  lemma ExtendFace(b: Box, p: Point, k: nat)
    requires k < 6
    ensures Face(Extend(b, p), k) == Face(b, k) || Face(Extend(b, p), k) == Coord(p, k / 2)
  {
  }

  /** Event `j` is a point recorded while `n` was the current part. */
  ghost predicate RecordedFor(events: seq<Event>, j: nat, n: string) {
    j < |events| && events[j].Move? && Accumulate(events[..j]).Some? &&
    Accumulate(events[..j]).value.current == n
  }

  lemma RecordedForLonger(events: seq<Event>, j: nat, n: string)
    requires events != [] && RecordedFor(events[..|events| - 1], j, n)
    ensures RecordedFor(events, j, n)
  {
    assert events[..|events| - 1][..j] == events[..j];
  }

  /** A turn changes no box but the current part's, and only on a point. */
  lemma StepKeepsOtherBox(a: Acc, e: Event, n: string)
    requires Step(a, e).Some? && n in Step(a, e).value.boxes
    requires !(e.Move? && a.current == n && n != "")
    ensures n in a.boxes && Step(a, e).value.boxes[n] == a.boxes[n]
  {
  }

  /** The boxes are tight: every face of a part's final box is the matching coordinate
      of some point recorded while that part was current. With `RecordedPointInBox`,
      each box is exactly the bounding box of its part's points. */
  lemma {:induction false} BoxesAreTight(events: seq<Event>, n: string, k: nat)
    requires k < 6 && Accumulate(events).Some? && n in Accumulate(events).value.boxes
    ensures exists j: nat :: RecordedFor(events, j, n) &&
                        Coord(events[j].p, k / 2) == Face(Accumulate(events).value.boxes[n], k)
    decreases |events|
  {
    assert events != [];
    var last := |events| - 1;
    var init := events[..last];
    assert Accumulate(events) == Step(Accumulate(init).value, events[last]);
    var a := Accumulate(init).value;
    var face := Face(Accumulate(events).value.boxes[n], k);
    if events[last].Move? && a.current == n && n != "" {
      var p := events[last].p;
      assert init == events[..last];
      assert RecordedFor(events, last, n);
      if n in a.boxes {
        assert Accumulate(events).value.boxes[n] == Extend(a.boxes[n], p);
        ExtendFace(a.boxes[n], p, k);
        if face != Coord(p, k / 2) {
          BoxesAreTight(init, n, k);
          var j: nat :| RecordedFor(init, j, n) && Coord(init[j].p, k / 2) == Face(a.boxes[n], k);
          RecordedForLonger(events, j, n);
        }
      } else {
        assert Accumulate(events).value.boxes[n] == PointBox(p);
      }
    } else {
      StepKeepsOtherBox(a, events[last], n);
      BoxesAreTight(init, n, k);
      var j: nat :| RecordedFor(init, j, n) && Coord(init[j].p, k / 2) == Face(a.boxes[n], k);
      RecordedForLonger(events, j, n);
    }
  }

  // ---------------------------------------------------------------------------
  // Volumes and shares.
  // ---------------------------------------------------------------------------

  /** A box's volume, and 0 unless all three extents are positive. */
  function Volume(b: Box): (v: real)
    ensures v >= 0.0
    ensures v > 0.0 <==> b.maxX - b.minX > 0.0 && b.maxY - b.minY > 0.0 && b.maxZ - b.minZ > 0.0
  {
    var w, d, h := b.maxX - b.minX, b.maxY - b.minY, b.maxZ - b.minZ;
    if w > 0.0 && d > 0.0 && h > 0.0 then
      assert w * d > 0.0;
      w * d * h
    else 0.0
  }

  function Sum(vs: seq<real>): real
    decreases |vs|
  {
    if vs == [] then 0.0 else Sum(vs[..|vs| - 1]) + vs[|vs| - 1]
  }

  lemma {:induction false} SumNonNegative(vs: seq<real>)
    requires forall i :: 0 <= i < |vs| ==> vs[i] >= 0.0
    ensures Sum(vs) >= 0.0
    decreases |vs|
  {
    if vs != [] {
      SumNonNegative(vs[..|vs| - 1]);
    }
  }

  function Volumes(names: seq<string>, boxes: map<string, Box>): (vs: seq<real>)
    requires forall i :: 0 <= i < |names| ==> names[i] in boxes
    ensures |vs| == |names| && forall i :: 0 <= i < |names| ==> vs[i] == Volume(boxes[names[i]])
  {
    seq(|names|, i requires 0 <= i < |names| && forall k :: 0 <= k < |names| ==> names[k] in boxes =>
      Volume(boxes[names[i]]))
  }

  /** One part of the result: its name and its share of the total volume. */
  datatype Share = Share(name: string, fraction: real)

  datatype Analysis = Analysis(totalVolume: real, parts: seq<Share>)

  function Shares(names: seq<string>, vs: seq<real>, total: real): (r: seq<Share>)
    requires |names| == |vs| && total != 0.0
    ensures |r| == |names| && forall i :: 0 <= i < |r| ==> r[i] == Share(names[i], vs[i] / total)
  {
    seq(|names|, i requires 0 <= i < |names| && |names| == |vs| => Share(names[i], vs[i] / total))
  }

  /** What follows the loop: None without parts or when every volume is 0, else the
      total and each part's share. */
  function Summary(a: Acc): (r: Option<Analysis>)
    requires forall i :: 0 <= i < |a.names| ==> a.names[i] in a.boxes
  {
    if a.names == [] then None
    else
      var vs := Volumes(a.names, a.boxes);
      var total := Sum(vs);
      if total == 0.0 then None else Some(Analysis(total, Shares(a.names, vs, total)))
  }

  /** `analyze_per_part_volume` as a function of the text and the name extraction. */
  function Analyze(content: string, extract: string -> string): Option<Analysis>
  {
    var acc := Accumulate(Events(Split(content, '\n'), extract));
    if acc.None? then None
    else
      AccumulateValid(Events(Split(content, '\n'), extract));
      Summary(acc.value)
  }

  /** The result is None exactly when a number fails to convert, no part was
      recorded, or the total volume is 0. */
  lemma SummaryNoneWhen(a: Acc)
    requires forall i :: 0 <= i < |a.names| ==> a.names[i] in a.boxes
    ensures Summary(a).None? <==> a.names == [] || Sum(Volumes(a.names, a.boxes)) == 0.0
  {
  }

  function FractionSum(parts: seq<Share>): real
    decreases |parts|
  {
    if parts == [] then 0.0 else FractionSum(parts[..|parts| - 1]) + parts[|parts| - 1].fraction
  }

  lemma {:induction false} FractionSumIsScaledSum(names: seq<string>, vs: seq<real>, total: real)
    requires |names| == |vs| && total != 0.0
    ensures FractionSum(Shares(names, vs, total)) == Sum(vs) / total
    decreases |vs|
  {
    if vs != [] {
      var n := |vs| - 1;
      assert Shares(names, vs, total)[..n] == Shares(names[..n], vs[..n], total);
      FractionSumIsScaledSum(names[..n], vs[..n], total);
    }
  }

  /** The shares add up to one, each share is in [0, 1], and a larger volume has a
      larger share. */
  lemma SharesProperties(a: Acc)
    requires forall i :: 0 <= i < |a.names| ==> a.names[i] in a.boxes
    requires Summary(a).Some?
    ensures Summary(a).value.totalVolume > 0.0
    ensures FractionSum(Summary(a).value.parts) == 1.0
    ensures forall i :: 0 <= i < |a.names| ==>
              Summary(a).value.parts[i] == Share(a.names[i], Volume(a.boxes[a.names[i]]) / Summary(a).value.totalVolume)
    ensures forall i :: 0 <= i < |a.names| ==> 0.0 <= Summary(a).value.parts[i].fraction <= 1.0
    ensures forall i, j :: 0 <= i < |a.names| && 0 <= j < |a.names| ==>
              (Volume(a.boxes[a.names[i]]) < Volume(a.boxes[a.names[j]]) <==>
               Summary(a).value.parts[i].fraction < Summary(a).value.parts[j].fraction)
  {
    var vs := Volumes(a.names, a.boxes);
    SumNonNegative(vs);
    ShareFractions(a.names, vs);
  }

  /** The same facts for any non-negative volumes with a positive total. */
  lemma ShareFractions(names: seq<string>, vs: seq<real>)
    requires |names| == |vs| && Sum(vs) > 0.0
    requires forall k :: 0 <= k < |vs| ==> vs[k] >= 0.0
    ensures FractionSum(Shares(names, vs, Sum(vs))) == 1.0
    ensures forall i :: 0 <= i < |vs| ==> 0.0 <= vs[i] / Sum(vs) <= 1.0
    ensures forall i, j :: 0 <= i < |vs| && 0 <= j < |vs| ==>
              (vs[i] < vs[j] <==> vs[i] / Sum(vs) < vs[j] / Sum(vs))
  {
    var total := Sum(vs);
    FractionSumIsScaledSum(names, vs, total);
    DivSelf(total);
    forall i | 0 <= i < |vs| ensures 0.0 <= vs[i] / total <= 1.0 {
      SumAtLeastElement(vs, i);
      DivBounds(vs[i], total);
    }
    forall i, j | 0 <= i < |vs| && 0 <= j < |vs| ensures vs[i] < vs[j] <==> vs[i] / total < vs[j] / total {
      DivMonotone(vs[i], vs[j], total);
    }
  }

  lemma DivSelf(total: real)
    requires total > 0.0
    ensures total / total == 1.0
  {
    assert total / total * total == total;
  }

  lemma DivBounds(v: real, total: real)
    requires 0.0 <= v <= total && total > 0.0
    ensures 0.0 <= v / total <= 1.0
  {
    assert v / total * total == v;
  }

  lemma DivMonotone(u: real, v: real, total: real)
    requires total > 0.0
    ensures u < v <==> u / total < v / total
  {
    assert u / total * total == u && v / total * total == v;
    if u / total < v / total {
      assert (v / total - u / total) * total > 0.0;
    }
  }

  lemma {:induction false} SumAtLeastElement(vs: seq<real>, i: nat)
    requires i < |vs| && forall k :: 0 <= k < |vs| ==> vs[k] >= 0.0
    ensures vs[i] <= Sum(vs)
    decreases |vs|
  {
    var n := |vs| - 1;
    SumNonNegative(vs[..n]);
    if i < n {
      SumAtLeastElement(vs[..n], i);
    }
  }

  /** One turn of the original's line loop. */
  method ProcessLine(a: Acc, line: string, extract: string -> string) returns (r: Option<Acc>)
    ensures r == Step(a, Classify(line, extract))
  {
    if StartsWith(line, StartPrefix) {
      return Some(a.(current := Strip(extract(line[|StartPrefix|..]))));
    }
    if a.current != "" && StartsWith(line, EndPrefix) {
      return Some(a.(current := ""));
    }
    if a.current != "" {
      r := RecordMove(a, G1Match(line));
    } else {
      r := Some(a);
    }
  }

  /** The G1 branch of the loop body, inside an object, given the line's match: when its
      three numbers convert, the point grows the object's box (listing the object on its first point);
      a failed conversion ends the analysis. */
  method RecordMove(a: Acc, g: Option<(string, string, string)>) returns (r: Option<Acc>)
    requires a.current != ""
    requires g.Some? ==> NumText(g.value.0) && NumText(g.value.1) && NumText(g.value.2)
    ensures r == Step(a, MoveOf(g))
  {
    if g.None? {
      return Some(a);
    }
    var point := PointOf(g.value);
    if point.None? {
      return None;
    }
    var next := RecordPoint(a, point.value);
    return Some(next);
  }

  /** The six `min`/`max` updates of the current object's box, or its first box and
      its place in the list of objects when the point is its first. */
  method RecordPoint(a: Acc, p: Point) returns (r: Acc)
    ensures r == Record(a, a.current, p)
  {
    var current, names, boxes := a.current, a.names, a.boxes;
    if current in boxes {
      boxes := boxes[current := Extend(boxes[current], p)];
    } else {
      names := names + [current];
      boxes := boxes[current := PointBox(p)];
    }
    return Acc(current, names, boxes);
  }

  /** The single pass over the lines, as the original's `for line in ...` loop. */
  method AccumulateLines(lines: seq<string>, extract: string -> string) returns (r: Option<Acc>)
    ensures r == Accumulate(Events(lines, extract))
  {
    var es := Events(lines, extract);
    var acc := Initial;
    var k := 0;
    while k < |lines|
      invariant 0 <= k <= |lines|
      invariant Accumulate(es[..k]) == Some(acc)
    {
      var next := ProcessLine(acc, lines[k], extract);
      AccumulateOneMore(es, k);
      if next.None? {
        NoneStaysNone(es, k + 1);
        return None;
      }
      acc := next.value;
      k := k + 1;
    }
    assert es[..k] == es;
    return Some(acc);
  }

  /** One more event is one more turn of the loop. */
  lemma AccumulateOneMore(events: seq<Event>, k: nat)
    requires k < |events| && Accumulate(events[..k]).Some?
    ensures Accumulate(events[..k + 1]) == Step(Accumulate(events[..k]).value, events[k])
  {
    assert events[..k + 1][..k] == events[..k];
  }

  /** After a failed conversion the result stays None, whatever follows. */
  lemma {:induction false} NoneStaysNone(events: seq<Event>, k: nat)
    requires k <= |events| && Accumulate(events[..k]).None?
    ensures Accumulate(events).None?
    decreases |events| - k
  {
    if k < |events| {
      assert events[..k + 1][..k] == events[..k];
      NoneStaysNone(events, k + 1);
    } else {
      assert events[..k] == events;
    }
  }

  /** The two loops after the pass: total volume, then each part's share. */
  method Summarize(a: Acc) returns (r: Option<Analysis>)
    requires forall i :: 0 <= i < |a.names| ==> a.names[i] in a.boxes
    ensures r == Summary(a)
  {
    if a.names == [] {
      return None;
    }
    var volumes, total := MeasureParts(a);
    if total == 0.0 {
      return None;
    }
    var parts := ShareParts(a.names, volumes, total);
    return Some(Analysis(total, parts));
  }

  /** The first loop after the pass: each part's volume, in order, and their sum. */
  method MeasureParts(a: Acc) returns (volumes: seq<real>, total: real)
    requires forall i :: 0 <= i < |a.names| ==> a.names[i] in a.boxes
    ensures volumes == Volumes(a.names, a.boxes) && total == Sum(volumes)
  {
    volumes, total := [], 0.0;
    var k := 0;
    while k < |a.names|
      invariant 0 <= k <= |a.names|
      invariant volumes == Volumes(a.names, a.boxes)[..k] && total == Sum(volumes)
    {
      var volume := BoxVolume(a.boxes[a.names[k]]);
      assert Volumes(a.names, a.boxes)[..k + 1] == volumes + [volume];
      assert (volumes + [volume])[..k] == volumes;
      volumes := volumes + [volume];
      total := total + volume;
      k := k + 1;
    }
    assert volumes == Volumes(a.names, a.boxes);
  }

  /** `width * depth * height` when all three are positive, else 0. */
  method BoxVolume(b: Box) returns (volume: real)
    ensures volume == Volume(b)
  {
    var width, depth, height := b.maxX - b.minX, b.maxY - b.minY, b.maxZ - b.minZ;
    volume := if width > 0.0 && depth > 0.0 && height > 0.0 then width * depth * height else 0.0;
  }

  /** The second loop: each part's share of the total. */
  method ShareParts(names: seq<string>, volumes: seq<real>, total: real) returns (parts: seq<Share>)
    requires |names| == |volumes| && total != 0.0
    ensures parts == Shares(names, volumes, total)
  {
    parts := [];
    var k := 0;
    while k < |names|
      invariant 0 <= k <= |names|
      invariant parts == Shares(names, volumes, total)[..k]
    {
      parts := parts + [Share(names[k], volumes[k] / total)];
      k := k + 1;
    }
    assert parts == Shares(names, volumes, total);
  }

  /** `analyze_per_part_volume`, with the name extraction as a parameter. */
  method AnalyzePerPartVolume(content: string, extract: string -> string) returns (r: Option<Analysis>)
    ensures r == Analyze(content, extract)
  {
    var lines := Split(content, '\n');
    var acc := AccumulateLines(lines, extract);
    if acc.None? {
      return None;
    }
    AccumulateValid(Events(lines, extract));
    r := Summarize(acc.value);
  }

  // ---------------------------------------------------------------------------
  // The outcome with the real pattern.
  // ---------------------------------------------------------------------------

  /** With a name extraction that always yields "", no part ever becomes current: the
      state never leaves its initial value. */
  lemma {:induction false} EmptyNamesRecordNothing(events: seq<Event>)
    requires forall i :: 0 <= i < |events| ==> (events[i].Start? ==> events[i].name == "")
    ensures Accumulate(events) == Some(Initial)
    decreases |events|
  {
    if events != [] {
      EmptyNamesRecordNothing(events[..|events| - 1]);
    }
  }

  /** The start pattern as written names every object "". */
  lemma LazyStartIsUnnamed(line: string)
    ensures Classify(line, LazyName).Start? ==> Classify(line, LazyName).name == ""
  {
    StripAllSpace("");
  }

  /** As written, the start pattern's lazy group captures "", so the analysis returns
      None for every G-code text. */
  lemma AnalysisAlwaysNone(content: string)
    ensures Analyze(content, LazyName) == None
  {
    var events := Events(Split(content, '\n'), LazyName);
    forall i | 0 <= i < |events| ensures events[i].Start? ==> events[i].name == "" {
      LazyStartIsUnnamed(Split(content, '\n')[i]);
    }
    EmptyNamesRecordNothing(events);
  }

  /** With a greedy group the start line names its object: the stripped rest of the
      line. */
  lemma GreedyStartNamesObject(name: string)
    ensures Classify(StartPrefix + name, GreedyName) == Start(Strip(name))
  {
    assert (StartPrefix + name)[..|StartPrefix|] == StartPrefix;
    assert (StartPrefix + name)[|StartPrefix|..] == name;
  }

  /** With the object named, two moves that span a box of positive extent record one
      part, whose share is the whole volume. */
  lemma NamedObjectIsMeasured(name: string, p: Point, q: Point)
    requires name != "" && p.x < q.x && p.y < q.y && p.z < q.z
    ensures Accumulate([Start(name), Move(p), Move(q), End])
         == Some(Acc("", [name], map[name := Box(p.x, q.x, p.y, q.y, p.z, q.z)]))
    ensures Summary(Acc("", [name], map[name := Box(p.x, q.x, p.y, q.y, p.z, q.z)]))
         == Some(Analysis((q.x - p.x) * (q.y - p.y) * (q.z - p.z), [Share(name, 1.0)]))
  {
    var es := [Start(name), Move(p), Move(q), End];
    assert es[..1][..0] == [];
    assert Accumulate(es[..1]) == Some(Acc(name, [], map[]));
    assert es[..2][..1] == es[..1];
    var m: map<string, Box> := map[];
    assert Record(Acc(name, [], m), name, p) == Acc(name, [name], map[name := PointBox(p)]) by {
      assert [] + [name] == [name];
      assert m[name := PointBox(p)] == map[name := PointBox(p)];
    }
    assert Accumulate(es[..2]) == Some(Acc(name, [name], map[name := PointBox(p)]));
    assert es[..3][..2] == es[..2];
    var b := Box(p.x, q.x, p.y, q.y, p.z, q.z);
    assert Extend(PointBox(p), q) == b;
    assert map[name := PointBox(p)][name := b] == map[name := b];
    assert Accumulate(es[..3]) == Some(Acc(name, [name], map[name := b]));
    assert es[..4][..3] == es[..3] && es[..4] == es;
    var v := (q.x - p.x) * (q.y - p.y) * (q.z - p.z);
    assert Volume(b) == v;
    SinglePartSummary(name, b);
  }

  /** A single part with a positive volume takes the whole total. */
  lemma SinglePartSummary(name: string, b: Box)
    requires Volume(b) > 0.0
    ensures Summary(Acc("", [name], map[name := b])) == Some(Analysis(Volume(b), [Share(name, 1.0)]))
  {
    var a := Acc("", [name], map[name := b]);
    var vs := Volumes(a.names, a.boxes);
    assert vs == [Volume(b)];
    assert vs[..0] == [];
    assert Sum(vs) == Volume(b);
    assert Volume(b) / Volume(b) == 1.0;
    assert Shares(a.names, vs, Volume(b)) == [Share(name, 1.0)];
  }
}
