/** The `\s*` between the number and the unit of the duration pattern
    `(\d+)\s*(d|h|m|s)`: white space there belongs to the match, so "30 m" reads
    like "30m". */
module DurationSpacing {
  import opened Common
  import opened Metadata

  predicate AllSpaces(s: string) {
    forall i :: 0 <= i < |s| ==> IsSpace(s[i])
  }

  lemma SpaceIsNotDigit(c: char)
    requires IsSpace(c)
    ensures !IsDigit(c)
  {
    var n := c as int;
    assert n <= 0x20 || 0x85 <= n;
    assert '0' as int == 0x30 && '9' as int == 0x39;
  }

  /** The digit scan stops exactly at the first character that is not a digit. */
  lemma {:induction false} DigitsLenOf(s: string, q: nat)
    requires q <= |s| && AllDigits(s[..q]) && (q == |s| || !IsDigit(s[q]))
    ensures DigitsLen(s) == q
    decreases q
  {
    if q > 0 {
      assert s[..q][0] == s[0];
      assert s[1..][..q - 1] == s[..q][1..];
      assert q - 1 == |s[1..]| || s[1..][q - 1] == s[q];
      DigitsLenOf(s[1..], q - 1);
    }
  }

  /** The white-space scan stops exactly at the first character that is not white space. */
  lemma {:induction false} SpacesLenOf(s: string, k: nat)
    requires k <= |s| && AllSpaces(s[..k]) && (k == |s| || !IsSpace(s[k]))
    ensures SpacesLen(s) == k
    decreases k
  {
    if k > 0 {
      assert s[..k][0] == s[0];
      assert s[1..][..k - 1] == s[..k][1..];
      assert k - 1 == |s[1..]| || s[1..][k - 1] == s[k];
      SpacesLenOf(s[1..], k - 1);
    }
  }

  /** A unit letter behind the `q` digits and the `n` white-space characters that
      follow them closes the match, stated field by field. */
  lemma MatchAtUnitAfterSpaces(s: string, q: nat, n: nat)
    requires 0 < q == DigitsLen(s) && SpacesLen(s[q..]) == n && q + n < |s| && IsUnit(s[q + n])
    ensures MatchAt(s).Some? && MatchAt(s).value.1 == q + n + 1
    ensures MatchAt(s).value.0 == Token(Value(s[..q]), s[q + n])
  {
  }

  lemma SomeOfFields(m: Option<(Token, nat)>, t: Token, k: nat)
    requires m.Some? && m.value.0 == t && m.value.1 == k
    ensures m == Some((t, k))
  {
  }

  /** Digits `s[..q]`, any white space `s[q..r]` and a unit letter `s[r]` are one
      match of the pattern, whose number is the value of the digits. */
  lemma MatchAtSpacedUnit(s: string, q: nat, r: nat)
    requires 0 < q <= r < |s| && AllDigits(s[..q]) && AllSpaces(s[q..r]) && IsUnit(s[r])
    ensures MatchAt(s) == Some((Token(Value(s[..q]), s[r]), r + 1))
  {
    assert !IsDigit(s[q]) by {
      if q < r {
        assert s[q..r][0] == s[q];
        SpaceIsNotDigit(s[q]);
      }
    }
    DigitsLenOf(s, q);
    var t := s[q..];
    assert t[..r - q] == s[q..r] && t[r - q] == s[r];
    SpacesLenOf(t, r - q);
    MatchAtUnitAfterSpaces(s, q, r - q);
    SomeOfFields(MatchAt(s), Token(Value(s[..q]), s[r]), r + 1);
  }

  /** The same at the level of the whole scan: the match is taken and the scan goes
      on behind the unit letter. */
  lemma TokensOfSpacedUnit(s: string, q: nat, r: nat)
    requires 0 < q <= r < |s| && AllDigits(s[..q]) && AllSpaces(s[q..r]) && IsUnit(s[r])
    ensures Tokens(s) == [Token(Value(s[..q]), s[r])] + Tokens(s[r + 1..])
  {
    MatchAtSpacedUnit(s, q, r);
    TokensAfterMatch(s, Token(Value(s[..q]), s[r]), r + 1);
  }

  /** One step of the scan: a match at the start is taken and the scan resumes behind it. */
  lemma TokensAfterMatch(s: string, t: Token, k: nat)
    requires s != [] && k <= |s| && MatchAt(s) == Some((t, k))
    ensures Tokens(s) == [t] + Tokens(s[k..])
  {
  }
}
