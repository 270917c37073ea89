/**
 * The few JavaScript string operations the availability predicates rely on:
 * `split` on one separator character, `toLowerCase` (on ASCII letters),
 * `indexOf` on a list and `parseInt` in base 10.
 */
module JsText {
  import opened Wrappers

  /** `s.split(c)`: the pieces between separators; the empty string splits into one empty piece. */
  function Split(s: string, c: char): (parts: seq<string>)
    ensures |parts| >= 1
    decreases |s|
  {
    if s == [] then [""]
    else if s[0] == c then [""] + Split(s[1..], c)
    else var rest := Split(s[1..], c); [[s[0]] + rest[0]] + rest[1..]
  }

  /** `parts.join(c)`. */
  function Join(parts: seq<string>, c: char): string
    requires |parts| >= 1
  {
    if |parts| == 1 then parts[0] else parts[0] + [c] + Join(parts[1..], c)
  }

  /** Joining a part in front of at least one more part puts a separator between them. */
  lemma JoinCons(p: string, ps: seq<string>, c: char)
    requires |ps| >= 1
    ensures Join([p] + ps, c) == p + [c] + Join(ps, c)
  {
    assert ([p] + ps)[1..] == ps;
  }

  /** Gluing a character onto the first part puts it in front of the joined string. */
  lemma JoinPrepend(ch: char, parts: seq<string>, c: char)
    requires |parts| >= 1
    ensures Join([[ch] + parts[0]] + parts[1..], c) == [ch] + Join(parts, c)
  {
    if |parts| > 1 {
      var tail := parts[1..];
      assert parts == [parts[0]] + tail;
      JoinCons([ch] + parts[0], tail, c);
      JoinCons(parts[0], tail, c);
      assert [ch] + parts[0] + [c] + Join(tail, c) == [ch] + (parts[0] + [c] + Join(tail, c));
    }
  }

  /** Splitting then joining gives back the original string. */
  lemma {:induction false} JoinSplit(s: string, c: char)
    ensures Join(Split(s, c), c) == s
    decreases |s|
  {
    if s != [] {
      var rest := Split(s[1..], c);
      JoinSplit(s[1..], c);
      assert s == [s[0]] + s[1..];
      if s[0] == c {
        assert Split(s, c) == [""] + rest;
        JoinCons("", rest, c);
      } else {
        assert Split(s, c) == [[s[0]] + rest[0]] + rest[1..];
        JoinPrepend(s[0], rest, c);
      }
    }
  }

  /** A separator-free piece followed by a separator splits off as one part. */
  lemma {:induction false} SplitPiece(p: string, c: char, t: string)
    requires c !in p
    ensures Split(p + [c] + t, c) == [p] + Split(t, c)
    ensures Split(p, c) == [p]
    decreases |p|
  {
    if p == [] {
      assert p + [c] + t == [c] + t;
      assert ([c] + t)[1..] == t;
    } else {
      SplitPiece(p[1..], c, t);
      assert (p + [c] + t)[1..] == p[1..] + [c] + t;
      assert [p[0]] + p[1..] == p;
    }
  }

  /** Joining separator-free parts then splitting gives back the parts. */
  lemma {:induction false} SplitJoin(parts: seq<string>, c: char)
    requires |parts| >= 1
    requires forall i :: 0 <= i < |parts| ==> c !in parts[i]
    ensures Split(Join(parts, c), c) == parts
  {
    SplitPiece(parts[0], c, "");
    if |parts| > 1 {
      SplitJoin(parts[1..], c);
      SplitPiece(parts[0], c, Join(parts[1..], c));
    }
  }

  function LowerChar(ch: char): char
  {
    if 'A' <= ch <= 'Z' then (ch as int - 'A' as int + 'a' as int) as char else ch
  }

  /** `s.toLowerCase()` on ASCII letters. */
  function Lower(s: string): (r: string)
    ensures |r| == |s| && forall i :: 0 <= i < |s| ==> r[i] == LowerChar(s[i])
  {
    seq(|s|, i requires 0 <= i < |s| => LowerChar(s[i]))
  }

  /** `xs.map(s => s.toLowerCase())`. */
  function LowerAll(xs: seq<string>): (r: seq<string>)
    ensures |r| == |xs| && forall i :: 0 <= i < |xs| ==> r[i] == Lower(xs[i])
  {
    seq(|xs|, i requires 0 <= i < |xs| => Lower(xs[i]))
  }

  /** `xs.indexOf(x)`: the first position holding `x`, or -1. */
  function IndexOf(xs: seq<string>, x: string): (r: int)
    ensures r == -1 <==> x !in xs
    ensures r != -1 ==> 0 <= r < |xs| && xs[r] == x && x !in xs[..r]
  {
    if xs == [] then -1
    else if xs[0] == x then 0
    else var k := IndexOf(xs[1..], x); if k == -1 then -1 else assert xs[1..][..k] == xs[1..k + 1]; k + 1
  }

  predicate IsDigit(ch: char)
  {
    '0' <= ch <= '9'
  }

  function DigitValue(ch: char): nat
    requires IsDigit(ch)
  {
    ch as int - '0' as int
  }

  /** The longest prefix of decimal digits. */
  function DigitPrefix(s: string): (d: string)
    ensures |d| <= |s| && forall i :: 0 <= i < |d| ==> d[i] == s[i] && IsDigit(d[i])
    ensures |d| < |s| ==> !IsDigit(s[|d|])
  {
    if s == [] || !IsDigit(s[0]) then [] else [s[0]] + DigitPrefix(s[1..])
  }

  /** The value of a string of decimal digits, most significant first. */
  function DigitsValue(d: string): nat
    requires forall i :: 0 <= i < |d| ==> IsDigit(d[i])
  {
    if d == [] then 0 else DigitsValue(d[..|d| - 1]) * 10 + DigitValue(d[|d| - 1])
  }

  /** The ASCII white space: space, and tab, line feed, vertical tab, form feed and carriage return. */
  predicate IsSpace(ch: char)
  {
    ch == ' ' || '\t' <= ch <= '\r'
  }

  function TrimStart(s: string): (t: string)
    ensures |t| <= |s|
    ensures t == [] || !IsSpace(t[0])
  {
    if s != [] && IsSpace(s[0]) then TrimStart(s[1..]) else s
  }

  /**
   * `parseInt(s)` in base 10: leading white space, an optional sign, then the
   * longest run of digits; None stands for NaN (no digits at all).
   */
  function ParseInt(s: string): Option<int>
  {
    var t := TrimStart(s);
    var negative := |t| > 0 && t[0] == '-';
    var body := if |t| > 0 && (t[0] == '-' || t[0] == '+') then t[1..] else t;
    var digits := DigitPrefix(body);
    if digits == [] then None
    else if negative then Some(-(DigitsValue(digits) as int))
    else Some(DigitsValue(digits))
  }

  /** The decimal representation of a natural number, as `String(n)` writes it. */
  function NatToString(n: nat): (s: string)
    ensures |s| >= 1 && forall i :: 0 <= i < |s| ==> IsDigit(s[i])
  {
    if n < 10 then [('0' as int + n) as char]
    else NatToString(n / 10) + [('0' as int + n % 10) as char]
  }

  lemma {:induction false} NatToStringValue(n: nat)
    ensures DigitsValue(NatToString(n)) == n
  {
    var s := NatToString(n);
    if n >= 10 {
      NatToStringValue(n / 10);
      assert s[..|s| - 1] == NatToString(n / 10);
    }
  }

  /** The digit run of a digit string followed by nothing or a non-digit is that string. */
  lemma {:induction false} DigitPrefixOf(d: string, rest: string)
    requires forall i :: 0 <= i < |d| ==> IsDigit(d[i])
    requires rest == [] || !IsDigit(rest[0])
    ensures DigitPrefix(d + rest) == d
    decreases |d|
  {
    if d != [] {
      assert (d + rest)[1..] == d[1..] + rest;
      DigitPrefixOf(d[1..], rest);
      assert d == [d[0]] + d[1..];
    } else {
      assert d + rest == rest;
    }
  }

  /** parseInt reads back any natural number written in decimal, whatever follows a non-digit. */
  lemma ParseIntNatToString(n: nat, rest: string)
    requires rest == [] || !IsDigit(rest[0])
    ensures ParseInt(NatToString(n) + rest) == Some(n)
  {
    var s := NatToString(n) + rest;
    assert IsDigit(s[0]);
    assert TrimStart(s) == s;
    DigitPrefixOf(NatToString(n), rest);
    NatToStringValue(n);
  }
}
