/**
 * JavaScript strings are sequences of UTF-16 code units: `length`,
 * `charCodeAt`, `split('')`, the default `sort` order and `zod`'s `min`
 * length all count and compare code units, not characters. This module maps a
 * Dafny string (a sequence of Unicode scalar values) to its code units.
 */
module Utf16 {

  type CodeUnit = u: int | 0 <= u < 0x10000

  /** One character as one code unit (below U+10000) or as a surrogate pair. */
  function EncodeChar(c: char): (r: seq<CodeUnit>)
    ensures 1 <= |r| <= 2
    ensures |r| == 1 <==> c as int < 0x10000
    ensures |r| == 1 ==> r[0] == c as int
    ensures |r| == 2 ==> 0xD800 <= r[0] < 0xDC00 && 0xDC00 <= r[1] < 0xE000
  {
    var n := c as int;
    if n < 0x10000 then [n]
    else
      var m := n - 0x10000;
      [0xD800 + m / 0x400, 0xDC00 + m % 0x400]
  }

  /** The code units of a string, in order. */
  function Encode(s: string): (r: seq<CodeUnit>)
    ensures |r| >= |s|
  {
    if s == [] then [] else EncodeChar(s[0]) + Encode(s[1..])
  }

  /** JavaScript `length`: the number of code units. */
  function Length(s: string): nat
  {
    |Encode(s)|
  }

  lemma {:induction false} EncodeAppend(a: string, b: string)
    ensures Encode(a + b) == Encode(a) + Encode(b)
  {
    if a == [] {
      assert a + b == b;
    } else {
      assert (a + b)[0] == a[0];
      assert (a + b)[1..] == a[1..] + b;
      EncodeAppend(a[1..], b);
    }
  }

  /** Where a character's units start is enough to tell which character it was. */
  lemma EncodeCharPrefix(c: char, d: char, x: seq<CodeUnit>, y: seq<CodeUnit>)
    requires EncodeChar(c) + x == EncodeChar(d) + y
    ensures c == d && x == y
  {
    var ec, ed := EncodeChar(c), EncodeChar(d);
    assert ec[0] == (ec + x)[0] == (ed + y)[0] == ed[0];
    if |ec| == 1 {
      assert |ed| == 1;
      
    } else {
      assert |ed| == 2;
      assert ec[1] == (ec + x)[1] == (ed + y)[1] == ed[1];
      var m, k := c as int - 0x10000, d as int - 0x10000;
      assert m / 0x400 == k / 0x400 && m % 0x400 == k % 0x400;
      assert m == (m / 0x400) * 0x400 + m % 0x400;
      assert k == (k / 0x400) * 0x400 + k % 0x400;
    }
    assert x == (ec + x)[|ec|..] == (ed + y)[|ed|..] == y;
  }

  /** Different strings have different code units. */
  lemma {:induction false} EncodeInjective(a: string, b: string)
    requires Encode(a) == Encode(b)
    ensures a == b
  {
    if a != [] && b != [] {
      EncodeCharPrefix(a[0], b[0], Encode(a[1..]), Encode(b[1..]));
      EncodeInjective(a[1..], b[1..]);
    }
  }

  /** The order JavaScript's `<` and default `sort` put strings in: code unit by code unit, a proper prefix first. */
  predicate LexLess(a: seq<CodeUnit>, b: seq<CodeUnit>)
  {
    if a == [] then b != []
    else if b == [] then false
    else a[0] < b[0] || (a[0] == b[0] && LexLess(a[1..], b[1..]))
  }

  /** Of two different unit sequences, exactly one is smaller. */
  lemma {:induction false} LexTotal(a: seq<CodeUnit>, b: seq<CodeUnit>)
    ensures a == b || LexLess(a, b) || LexLess(b, a)
    ensures !(LexLess(a, b) && LexLess(b, a))
  {
    if a != [] && b != [] {
      LexTotal(a[1..], b[1..]);
      if a[0] == b[0] && a[1..] == b[1..] {
        assert a == [a[0]] + a[1..] && b == [b[0]] + b[1..];
      }
    }
  }

  lemma LexIrreflexive(a: seq<CodeUnit>)
    ensures !LexLess(a, a)
  {
    LexTotal(a, a);
  }
}
