/** The PHP string built-ins the Sentinel payload decoder relies on:
    explode() on a single space with a positive limit, implode() as its
    inverse, the (int) cast of a string, and the decimal text PHP produces
    when an integer is used as a string. */
module PhpStrings {

  const SPACE: char := ' '

  /** Index of the first space in s, or |s| when s has none. */
  function SpaceIndex(s: string): (k: nat)
    ensures k <= |s|
    ensures k < |s| ==> s[k] == SPACE
    ensures SPACE !in s[..k]
  {
    if s == [] || s[0] == SPACE then 0
    else
      var k' := SpaceIndex(s[1..]);
      assert s[..k' + 1] == [s[0]] + s[1..][..k'];
      k' + 1
  }

  /** implode(' ', pieces): the pieces glued together with single spaces. */
  function Join(pieces: seq<string>): string
  {
    if |pieces| == 0 then ""
    else if |pieces| == 1 then pieces[0]
    else pieces[0] + [SPACE] + Join(pieces[1..])
  }

  lemma JoinCons(x: string, rest: seq<string>)
    requires 1 <= |rest|
    ensures Join([x] + rest) == x + [SPACE] + Join(rest)
  {
    assert ([x] + rest)[1..] == rest;
  }

  /** explode(' ', s, limit) for a positive limit: s cut at its spaces into
      at most limit pieces; the last piece keeps the rest of s, spaces and all.
      An empty s gives the one piece "". */
  function Explode(s: string, limit: nat): (r: seq<string>)
    requires 1 <= limit
    ensures 1 <= |r| <= limit
    decreases limit
  {
    var k := SpaceIndex(s);
    if limit == 1 || k == |s| then [s] else [s[..k]] + Explode(s[k + 1..], limit - 1)
  }

  /** implode(' ', explode(' ', s, limit)) == s: no character is lost. */
  lemma {:induction false} JoinExplode(s: string, limit: nat)
    requires 1 <= limit
    ensures Join(Explode(s, limit)) == s
    decreases limit
  {
    var k := SpaceIndex(s);
    if limit > 1 && k < |s| {
      JoinExplode(s[k + 1..], limit - 1);
      JoinCons(s[..k], Explode(s[k + 1..], limit - 1));
      assert s == s[..k] + [SPACE] + s[k + 1..];
    }
  }

  /** Every piece but the last is free of spaces, and so is the last one
      when the limit was not reached. */
  lemma {:induction false} ExplodeTokens(s: string, limit: nat)
    requires 1 <= limit
    ensures var r := Explode(s, limit);
      (forall i :: 0 <= i < |r| - 1 ==> SPACE !in r[i]) &&
      (|r| < limit ==> SPACE !in r[|r| - 1])
    decreases limit
  {
    var k := SpaceIndex(s);
    if limit > 1 && k < |s| {
      ExplodeTokens(s[k + 1..], limit - 1);
      var rest := Explode(s[k + 1..], limit - 1);
      var r := [s[..k]] + rest;
      assert Explode(s, limit) == r;
      forall i | 0 <= i < |r| - 1 ensures SPACE !in r[i] {
        if i > 0 { assert r[i] == rest[i - 1]; }
      }
      assert r[|r| - 1] == rest[|rest| - 1];
    }
  }

  /** The index of the first space of a + " " + b when a has none. */
  lemma SpaceIndexAfterToken(a: string, b: string)
    requires SPACE !in a
    ensures SpaceIndex(a + [SPACE] + b) == |a|
  {
    var s := a + [SPACE] + b;
    var k := SpaceIndex(s);
    assert s[|a|] == SPACE;
  }

  /** A string without spaces, or a limit of 1, gives a single piece. */
  lemma ExplodeWhole(s: string, limit: nat)
    requires 1 <= limit
    requires limit == 1 || SPACE !in s
    ensures Explode(s, limit) == [s]
  {
    assert limit == 1 || SpaceIndex(s) == |s|;
  }

  /** Below the limit, explode cuts at the first space and goes on. */
  lemma ExplodeCut(head: string, rest: string, limit: nat)
    requires 2 <= limit
    requires SPACE !in head
    ensures Explode(head + [SPACE] + rest, limit) == [head] + Explode(rest, limit - 1)
  {
    var s := head + [SPACE] + rest;
    SpaceIndexAfterToken(head, rest);
    assert s[..|head|] == head;
    assert s[|head| + 1..] == rest;
  }

  /** The conditions of ExplodeUnique carry over from p to p[1..] and limit - 1. */
  lemma TailTokens(p: seq<string>, limit: nat)
    requires 2 <= |p| <= limit
    requires forall i :: 0 <= i < |p| - 1 ==> SPACE !in p[i]
    requires |p| < limit ==> SPACE !in p[|p| - 1]
    ensures SPACE !in p[0]
    ensures forall i :: 0 <= i < |p[1..]| - 1 ==> SPACE !in p[1..][i]
    ensures |p[1..]| < limit - 1 ==> SPACE !in p[1..][|p[1..]| - 1]
  {
    forall i | 0 <= i < |p[1..]| - 1 ensures SPACE !in p[1..][i] {
      assert p[1..][i] == p[i + 1];
    }
  }

  /** Explode is the only way to cut s into at most limit pieces whose
      spaces all sit between pieces, except for spaces in a last piece
      that the limit keeps together. */
  lemma {:induction false} ExplodeUnique(s: string, limit: nat, p: seq<string>)
    requires 1 <= |p| <= limit
    requires Join(p) == s
    requires forall i :: 0 <= i < |p| - 1 ==> SPACE !in p[i]
    requires |p| < limit ==> SPACE !in p[|p| - 1]
    ensures Explode(s, limit) == p
    decreases |p|
  {
    if |p| == 1 {
      ExplodeWhole(s, limit);
    } else {
      TailTokens(p, limit);
      ExplodeUnique(Join(p[1..]), limit - 1, p[1..]);
      ExplodeUniqueStep(s, limit, p);
    }
  }

  /** The inductive step of ExplodeUnique: cutting off the first piece. */
  lemma ExplodeUniqueStep(s: string, limit: nat, p: seq<string>)
    requires 2 <= |p| <= limit
    requires Join(p) == s
    requires SPACE !in p[0]
    requires Explode(Join(p[1..]), limit - 1) == p[1..]
    ensures Explode(s, limit) == p
  {
    var head, tail := p[0], p[1..];
    assert p == [head] + tail;
    JoinCons(head, tail);
    ExplodeCut(head, Join(tail), limit);
  }

  /** explode(' ', "a b c d e", 5) with a..d free of spaces gives [a, b, c, d, e]. */
  lemma ExplodeFive(a: string, b: string, c: string, d: string, e: string)
    requires SPACE !in a && SPACE !in b && SPACE !in c && SPACE !in d
    ensures Explode(a + [SPACE] + b + [SPACE] + c + [SPACE] + d + [SPACE] + e, 5) == [a, b, c, d, e]
  {
    var t4 := d + [SPACE] + e;
    var t3 := c + [SPACE] + t4;
    var t2 := b + [SPACE] + t3;
    var t1 := a + [SPACE] + t2;
    assert t1 == a + [SPACE] + b + [SPACE] + c + [SPACE] + d + [SPACE] + e;
    assert Explode(t1, 5) == [a, b, c, d, e] by {
      JoinCons(d, [e]);
      JoinCons(c, [d, e]);
      JoinCons(b, [c, d, e]);
      JoinCons(a, [b, c, d, e]);
      ExplodeUnique(t1, 5, [a, b, c, d, e]);
    }
  }

  /** explode(' ', "a b c d", 5) with no space in any token gives [a, b, c, d]. */
  lemma ExplodeFour(a: string, b: string, c: string, d: string)
    requires SPACE !in a && SPACE !in b && SPACE !in c && SPACE !in d
    ensures Explode(a + [SPACE] + b + [SPACE] + c + [SPACE] + d, 5) == [a, b, c, d]
  {
    var t3 := c + [SPACE] + d;
    var t2 := b + [SPACE] + t3;
    var t1 := a + [SPACE] + t2;
    assert t1 == a + [SPACE] + b + [SPACE] + c + [SPACE] + d;
    assert Explode(t1, 5) == [a, b, c, d] by {
      JoinCons(c, [d]);
      JoinCons(b, [c, d]);
      JoinCons(a, [b, c, d]);
      ExplodeUnique(t1, 5, [a, b, c, d]);
    }
  }

  /** explode(' ', "a b c", 3) with a, b free of spaces gives [a, b, c]. */
  lemma ExplodeThree(a: string, b: string, c: string)
    requires SPACE !in a && SPACE !in b
    ensures Explode(a + [SPACE] + b + [SPACE] + c, 3) == [a, b, c]
  {
    var t2 := b + [SPACE] + c;
    var t1 := a + [SPACE] + t2;
    assert t1 == a + [SPACE] + b + [SPACE] + c;
    assert Explode(t1, 3) == [a, b, c] by {
      JoinCons(b, [c]);
      JoinCons(a, [b, c]);
      ExplodeUnique(t1, 3, [a, b, c]);
    }
  }

  predicate IsDigit(c: char) { '0' <= c <= '9' }

  /** The characters C's isspace() accepts: space, tab, line feed,
      vertical tab, form feed, carriage return. */
  predicate IsWhite(c: char) { c == SPACE || '\t' <= c <= '\r' }

  predicate AllDigits(d: string) { forall i :: 0 <= i < |d| ==> IsDigit(d[i]) }

  function DigitValue(c: char): nat
    requires IsDigit(c)
  {
    (c as int) - ('0' as int)
  }

  function DigitChar(d: nat): (c: char)
    requires d < 10
    ensures IsDigit(c) && DigitValue(c) == d
  {
    (('0' as int) + d) as char
  }

  /** The number a run of decimal digits denotes; the empty run denotes 0. */
  function DigitsValue(d: string): nat
    requires AllDigits(d)
  {
    if d == [] then 0 else 10 * DigitsValue(d[..|d| - 1]) + DigitValue(d[|d| - 1])
  }

  /** Length of the run of decimal digits that s starts with. */
  function DigitRun(s: string): (n: nat)
    ensures n <= |s|
    ensures AllDigits(s[..n])
    ensures n < |s| ==> !IsDigit(s[n])
  {
    if s != [] && IsDigit(s[0]) then
      var n' := DigitRun(s[1..]);
      assert s[..n' + 1] == [s[0]] + s[1..][..n'];
      n' + 1
    else 0
  }

  /** s without its leading white space. */
  function SkipWhite(s: string): (t: string)
    ensures t == [] || !IsWhite(t[0])
  {
    if s != [] && IsWhite(s[0]) then SkipWhite(s[1..]) else s
  }

  /** The value of the digit run at the start of s (0 when there is none). */
  function LeadingNumber(s: string): nat
  {
    DigitsValue(s[..DigitRun(s)])
  }

  /** PHP's (int) cast of a string, computed as C's strtol() in base 10:
      leading white space is skipped, an optional sign is read, then the
      longest run of decimal digits; without digits the result is 0. */
  function IntCast(s: string): (r: int)
    ensures (s == [] || !(IsWhite(s[0]) || IsDigit(s[0]) || s[0] == '-' || s[0] == '+')) ==> r == 0
    ensures r < 0 ==> SkipWhite(s) != [] && SkipWhite(s)[0] == '-'
    ensures r > 0 ==> SkipWhite(s) != [] && (IsDigit(SkipWhite(s)[0]) || SkipWhite(s)[0] == '+')
  {
    var t := SkipWhite(s);
    if t != [] && t[0] == '-' then 0 - LeadingNumber(t[1..]) as int
    else if t != [] && t[0] == '+' then LeadingNumber(t[1..])
    else LeadingNumber(t)
  }

  /** The decimal digits of n, without leading zeros ("0" for zero). */
  function NatToString(n: nat): (d: string)
    ensures 1 <= |d| && AllDigits(d)
  {
    if n < 10 then [DigitChar(n)] else NatToString(n / 10) + [DigitChar(n % 10)]
  }

  /** The string PHP produces for an integer used as a string. */
  function IntToString(i: int): (d: string)
    ensures 1 <= |d|
  {
    if i < 0 then "-" + NatToString(-i) else NatToString(i)
  }

  lemma {:induction false} DigitsValueOfNatToString(n: nat)
    ensures DigitsValue(NatToString(n)) == n
  {
    if n >= 10 {
      var p := NatToString(n / 10);
      var d := p + [DigitChar(n % 10)];
      assert d[..|d| - 1] == p;
      DigitsValueOfNatToString(n / 10);
    }
  }

  /** A digit run followed by anything that is not a digit reads as that run. */
  lemma {:induction false} LeadingNumberOfDigits(d: string, rest: string)
    requires AllDigits(d)
    requires rest == [] || !IsDigit(rest[0])
    ensures LeadingNumber(d + rest) == DigitsValue(d)
  {
    DigitRunOfDigits(d, rest);
    assert (d + rest)[..|d|] == d;
  }

  lemma {:induction false} DigitRunOfDigits(d: string, rest: string)
    requires AllDigits(d)
    requires rest == [] || !IsDigit(rest[0])
    ensures DigitRun(d + rest) == |d|
  {
    if d != [] {
      assert (d + rest)[1..] == d[1..] + rest;
      DigitRunOfDigits(d[1..], rest);
    } else {
      assert d + rest == rest;
    }
  }

  /** (int) undoes PHP's integer-to-string conversion. */
  lemma IntCastOfIntToString(i: int)
    ensures IntCast(IntToString(i)) == i
  {
    if i < 0 {
      var d := NatToString(-i);
      var s := "-" + d;
      assert SkipWhite(s) == s;
      assert s[1..] == d + [];
      LeadingNumberOfDigits(d, []);
      DigitsValueOfNatToString(-i);
    } else {
      var d := NatToString(i);
      assert SkipWhite(d) == d;
      assert d == d + [];
      LeadingNumberOfDigits(d, []);
      DigitsValueOfNatToString(i);
    }
  }

  /** (int) of a string that starts with digits reads those digits and
      ignores whatever follows them. */
  lemma IntCastOfDigitsThenText(d: string, rest: string)
    requires 1 <= |d| && AllDigits(d)
    requires rest == [] || !IsDigit(rest[0])
    ensures IntCast(d + rest) == DigitsValue(d)
  {
    assert (d + rest)[0] == d[0];
    LeadingNumberOfDigits(d, rest);
  }
}
