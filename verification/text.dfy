/** ASCII string helpers standing in for JavaScript's `toLowerCase`,
    `trim`, `includes` and the regular-expression class `\s`. */
module Text {

  /** The ASCII members of JavaScript's whitespace class: space, tab,
      line feed, vertical tab, form feed and carriage return. */
  predicate IsSpace(c: char) {
    c == ' ' || c == '\t' || c == '\n' || c == '\U{000B}' || c == '\U{000C}' || c == '\r'
  }

  predicate IsUpper(c: char) {
    'A' <= c <= 'Z'
  }

  function LowerChar(c: char): (r: char)
    ensures !IsUpper(r)
    ensures IsSpace(r) <==> IsSpace(c)
    ensures !IsUpper(c) ==> r == c
  {
    if IsUpper(c) then (c as int + 32) as char else c
  }

  /** `s.toLowerCase()`, restricted to ASCII letters. */
  function Lower(s: string): (r: string)
    ensures |r| == |s|
    ensures forall i :: 0 <= i < |s| ==> r[i] == LowerChar(s[i])
  {
    if s == [] then [] else [LowerChar(s[0])] + Lower(s[1..])
  }

  lemma LowerIdempotent(s: string)
    ensures Lower(Lower(s)) == Lower(s)
  {
  }

  function TrimStart(s: string): (r: string)
    ensures r == [] || !IsSpace(r[0])
    ensures |r| <= |s| && r == s[|s| - |r|..]
    ensures forall i :: 0 <= i < |s| - |r| ==> IsSpace(s[i])
  {
    if s != [] && IsSpace(s[0]) then TrimStart(s[1..]) else s
  }

  function TrimEnd(s: string): (r: string)
    ensures r == [] || !IsSpace(r[|r| - 1])
    ensures |r| <= |s| && r == s[..|r|]
    ensures forall i :: |r| <= i < |s| ==> IsSpace(s[i])
  {
    if s != [] && IsSpace(s[|s| - 1]) then TrimEnd(s[..|s| - 1]) else s
  }

  /** `s.trim()`: the longest infix of `s` that neither starts nor ends
      with whitespace. */
  function Trim(s: string): (r: string)
    ensures r == [] || (!IsSpace(r[0]) && !IsSpace(r[|r| - 1]))
    ensures exists k :: InfixAt(s, r, k)
  {
    var t := TrimStart(s);
    var r := TrimEnd(t);
    assert InfixAt(s, r, |s| - |t|);
    r
  }

  /** `q` occurs in `s` starting at index `k`. */
  predicate InfixAt(s: string, q: string, k: int) {
    0 <= k && k + |q| <= |s| && s[k..k + |q|] == q
  }

  predicate IsPrefix(p: string, s: string) {
    |p| <= |s| && s[..|p|] == p
  }

  /** `s.includes(q)`: `q` occurs as a contiguous infix of `s`. */
  predicate Contains(s: string, q: string)
    decreases |s|
  {
    IsPrefix(q, s) || (s != [] && Contains(s[1..], q))
  }

  lemma {:induction false} ContainsIffInfix(s: string, q: string)
    ensures Contains(s, q) <==> exists k :: InfixAt(s, q, k)
    decreases |s|
  {
    if IsPrefix(q, s) {
      assert InfixAt(s, q, 0);
    } else if s != [] {
      ContainsIffInfix(s[1..], q);
      if Contains(s[1..], q) {
        var k :| InfixAt(s[1..], q, k);
        assert s[1..][k..k + |q|] == s[k + 1..k + 1 + |q|];
        assert InfixAt(s, q, k + 1);
      }
      if k :| InfixAt(s, q, k) {
        assert k != 0;
        assert s[1..][k - 1..k - 1 + |q|] == s[k..k + |q|];
        assert InfixAt(s[1..], q, k - 1);
      }
    }
  }

  lemma ContainsEmpty(s: string)
    ensures Contains(s, "")
  {
    assert IsPrefix("", s);
  }

  function DigitChar(d: nat): (r: char)
    requires d < 10
    ensures '0' <= r <= '9'
  {
    ('0' as int + d) as char
  }

  /** Decimal rendering of a natural number, as in a template literal. */
  function Decimal(n: nat): (r: string)
    ensures |r| >= 1
    ensures forall i :: 0 <= i < |r| ==> '0' <= r[i] <= '9'
  {
    if n < 10 then [DigitChar(n)] else Decimal(n / 10) + [DigitChar(n % 10)]
  }
}
