/** Facts about the `G1_COMMAND_RE` matcher of `PartVolume`: the groups it finds are
    the leftmost ones, and it finds groups whenever the line has them in order. */
module G1Pattern {
  import opened Common
  import opened PartVolume

  /** The anchor is exactly the prefix test for `G1 `. */
  lemma IsG1LineIsPrefix(line: string)
    ensures IsG1Line(line) <==> StartsWith(line, "G1 ")
  {
    if 3 <= |line| {
      assert line[..3] == [line[0], line[1], line[2]];
    }
  }

  /** What a match is made of: the `G1 ` anchor and three searches, each starting
      past the space after the group before. */
  lemma G1SpansSearches(line: string) returns (gx: (nat, nat), gy: (nat, nat), gz: (nat, nat))
    requires G1Spans(line).Some?
    ensures G1Spans(line) == Some((gx, gy, gz)) && IsG1Line(line)
    ensures FirstGroup(line, 3, 'X', true) == Some(gx)
    ensures FirstGroup(line, gx.1 + 1, 'Y', true) == Some(gy)
    ensures FirstGroup(line, gy.1 + 1, 'Z', false) == Some(gz)
  {
    gx := SearchX(line);
    gy := SearchY(line, gx);
    gz := SearchZ(line, gx, gy);
  }

  lemma SearchX(line: string) returns (gx: (nat, nat))
    requires G1Spans(line).Some?
    ensures IsG1Line(line) && FirstGroup(line, 3, 'X', true) == Some(gx)
    ensures G1Spans(line) == SpansAfterX(line, gx)
  {
    gx := FirstGroup(line, 3, 'X', true).value;
  }

  lemma SearchY(line: string, gx: (nat, nat)) returns (gy: (nat, nat))
    requires SpansAfterX(line, gx).Some?
    ensures FirstGroup(line, gx.1 + 1, 'Y', true) == Some(gy)
    ensures SpansAfterX(line, gx) == SpansAfterY(line, gx, gy)
  {
    gy := FirstGroup(line, gx.1 + 1, 'Y', true).value;
  }

  lemma SearchZ(line: string, gx: (nat, nat), gy: (nat, nat)) returns (gz: (nat, nat))
    requires SpansAfterY(line, gx, gy).Some?
    ensures FirstGroup(line, gy.1 + 1, 'Z', false) == Some(gz)
    ensures SpansAfterY(line, gx, gy) == Some((gx, gy, gz))
  {
    gz := FirstGroup(line, gy.1 + 1, 'Z', false).value;
  }

  /** The groups a match is made of are the leftmost ones: the line starts with `G1 `,
      no X group lies between the anchor and the one found, no Y group between the X
      group and the one found, and no Z group between the Y group and the one found. */
  lemma G1SpansLeftmost(line: string, x0: nat, x1: nat, y0: nat, y1: nat, z0: nat, z1: nat)
    requires G1Spans(line) == Some(((x0, x1), (y0, y1), (z0, z1)))
    ensures IsG1Line(line)
    ensures NoGroupIn(line, 3, x0, 'X', true)
    ensures NoGroupIn(line, x1 + 1, y0, 'Y', true)
    ensures NoGroupIn(line, y1 + 1, z0, 'Z', false)
  {
    var gx, gy, gz := G1SpansSearches(line);
    SearchesLeftmost(line, gx, gy, gz);
  }

  lemma SearchesLeftmost(line: string, gx: (nat, nat), gy: (nat, nat), gz: (nat, nat))
    requires FirstGroup(line, 3, 'X', true) == Some(gx)
    requires FirstGroup(line, gx.1 + 1, 'Y', true) == Some(gy)
    requires FirstGroup(line, gy.1 + 1, 'Z', false) == Some(gz)
    ensures NoGroupIn(line, 3, gx.0, 'X', true)
    ensures NoGroupIn(line, gx.1 + 1, gy.0, 'Y', true)
    ensures NoGroupIn(line, gy.1 + 1, gz.0, 'Z', false)
  {
    NoGroupBefore(line, 3, 'X', true, gx);
    NoGroupBefore(line, gx.1 + 1, 'Y', true, gy);
    NoGroupBefore(line, gy.1 + 1, 'Z', false, gz);
  }

  /** A group at `i` is found by the search from any `from <= i`, there or earlier. */
  lemma {:induction false} FirstGroupFinds(s: string, from: nat, c: char, space: bool, i: nat) returns (g: (nat, nat))
    requires from <= i && GroupAt(s, i, c, space).Some?
    ensures FirstGroup(s, from, c, space) == Some(g) && g.0 <= i
    decreases i - from
  {
    if GroupAt(s, from, c, space).None? {
      g := FirstGroupFinds(s, from + 1, c, space, i);
    } else {
      g := (from, GroupAt(s, from, c, space).value);
    }
  }

  /** A letter other than a number character after a space-terminated group starting
      at `i` lies beyond that group's space. */
  lemma PastGroup(s: string, i: nat, c: char, q: nat, d: char)
    requires GroupAt(s, i, c, true).Some? && i < q < |s| && s[q] == d && !IsNumChar(d) && d != ' '
    ensures GroupAt(s, i, c, true).value < q
  {
    var e := GroupAt(s, i, c, true).value;
    GroupAtNumText(s, i, c, true);
    forall k | i + 1 <= k < e ensures IsNumChar(s[k]) {
      assert s[i + 1..e][k - i - 1] == s[k];
    }
  }

  /** A search that can reach a space-terminated group at `p` finds one ending before
      any later letter `d`. */
  lemma SearchEndsBefore(s: string, from: nat, c: char, p: nat, q: nat, d: char, space: bool) returns (g: (nat, nat))
    requires from <= p < q && GroupAt(s, p, c, true).Some?
    requires GroupAt(s, q, d, space).Some? && !IsNumChar(d) && d != ' '
    ensures FirstGroup(s, from, c, true) == Some(g) && g.1 < q
  {
    g := FirstGroupFinds(s, from, c, true, p);
    PastGroup(s, g.0, c, q, d);
  }

  /** Completeness: whenever the line starts with `G1 ` and an X, a Y and a Z group
      follow in that order, the pattern matches. */
  lemma G1SpansComplete(line: string, px: nat, py: nat, pz: nat)
    requires IsG1Line(line) && 3 <= px < py < pz
    requires GroupAt(line, px, 'X', true).Some?
    requires GroupAt(line, py, 'Y', true).Some?
    requires GroupAt(line, pz, 'Z', false).Some?
    ensures G1Spans(line).Some?
  {
    var gx := SearchEndsBefore(line, 3, 'X', px, py, 'Y', true);
    AfterXComplete(line, gx, py, pz);
    SpansFromX(line, gx);
  }

  lemma AfterXComplete(line: string, gx: (nat, nat), py: nat, pz: nat)
    requires gx.1 < py < pz
    requires GroupAt(line, py, 'Y', true).Some? && GroupAt(line, pz, 'Z', false).Some?
    ensures SpansAfterX(line, gx).Some?
  {
    var from := gx.1 + 1;
    var gy := SearchEndsBefore(line, from, 'Y', py, pz, 'Z', false);
    AfterYComplete(line, gx, gy, pz);
    SpansFromY(line, gx, from, gy);
  }

  lemma AfterYComplete(line: string, gx: (nat, nat), gy: (nat, nat), pz: nat)
    requires gy.1 < pz && GroupAt(line, pz, 'Z', false).Some?
    ensures SpansAfterY(line, gx, gy).Some?
  {
    var gz := FirstGroupFinds(line, gy.1 + 1, 'Z', false, pz);
  }

  lemma SpansFromX(line: string, gx: (nat, nat))
    requires IsG1Line(line) && FirstGroup(line, 3, 'X', true) == Some(gx)
    requires SpansAfterX(line, gx).Some?
    ensures G1Spans(line).Some?
  {
  }

  lemma SpansFromY(line: string, gx: (nat, nat), from: nat, gy: (nat, nat))
    requires from == gx.1 + 1 && FirstGroup(line, from, 'Y', true) == Some(gy)
    requires SpansAfterY(line, gx, gy).Some?
    ensures SpansAfterX(line, gx).Some?
  {
  }
}
