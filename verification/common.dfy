/**
 * Vocabulary shared by every handler and component of the platform: optional
 * values, the signed-in user a session resolves to, the status/message reply a
 * route handler returns, and the few JavaScript string operations the code
 * relies on (`trim`, the `\s` class, `split`, `join`, `padStart` and
 * `Number.prototype.toString(radix)`).
 */
module Common {

  datatype Option<T> = None | Some(value: T)

  /**
   * One field of a JSON request body as a schema sees it: absent, present
   * with a value of the expected type, or present with a value of another type.
   */
  datatype Field<T> = Absent | Given(value: T) | Mistyped

  /** The `user` object of a resolved session: id, name, email and role. */
  datatype User = User(id: string, name: string, email: string, role: string)

  /** What `getSession()` yields: a signed-in user, or nothing. */
  type Session = Option<User>

  /**
   * A route handler's answer: the HTTP status, the `message`/`error` text of
   * the JSON body (empty when the body is a payload), and the payload.
   */
  datatype Response<T> = Response(status: int, message: string, data: Option<T>)

  /** A notification of the toast library: its kind (`success`, `error`, `warning`), title and description. */
  datatype Toast = Toast(kind: string, title: string, description: string)

  const OK := 200
  const CREATED := 201
  const BAD_REQUEST := 400
  const UNAUTHORIZED := 401
  const FORBIDDEN := 403
  const NOT_FOUND := 404
  const CONFLICT := 409
  const SERVER_ERROR := 500

  /** JavaScript truthiness of an optional string: present and not empty. */
  predicate Truthy(s: Option<string>)
  {
    s.Some? && s.value != ""
  }

  // ---------------------------------------------------------------------
  // Whitespace and trim
  // ---------------------------------------------------------------------

  /**
   * ECMAScript WhiteSpace and LineTerminator code points: the set matched by
   * the regular expression class `\s` and removed by `String.prototype.trim`.
   */
  predicate IsWhitespace(c: char)
  {
    || c == '\t' || c == '\n' || c == '\U{000B}' || c == '\U{000C}' || c == '\r'
    || c == ' ' || c == '\U{00A0}' || c == '\U{1680}'
    || ('\U{2000}' <= c <= '\U{200A}')
    || c == '\U{2028}' || c == '\U{2029}' || c == '\U{202F}' || c == '\U{205F}'
    || c == '\U{3000}' || c == '\U{FEFF}'
  }

  predicate AllWhitespace(s: string)
  {
    forall i :: 0 <= i < |s| ==> IsWhitespace(s[i])
  }

  /** Removes leading whitespace; what is kept is a suffix that starts with a non-space. */
  function TrimStart(s: string): (r: string)
    ensures |r| <= |s| && r == s[|s| - |r|..]
    ensures r == [] || !IsWhitespace(r[0])
    decreases |s|
  {
    if s != [] && IsWhitespace(s[0]) then TrimStart(s[1..]) else s
  }

  /** What `TrimStart` drops is whitespace. */
  lemma {:induction false} TrimStartDropsWhitespace(s: string)
    ensures forall i :: 0 <= i < |s| - |TrimStart(s)| ==> IsWhitespace(s[i])
    decreases |s|
  {
    if s != [] && IsWhitespace(s[0]) {
      TrimStartDropsWhitespace(s[1..]);
      forall i | 0 < i < |s| - |TrimStart(s)| ensures IsWhitespace(s[i]) {
        assert s[i] == s[1..][i - 1];
      }
    }
  }

  /** Removes trailing whitespace; what is kept is a prefix that ends with a non-space. */
  function TrimEnd(s: string): (r: string)
    ensures |r| <= |s| && r == s[..|r|]
    ensures r == [] || !IsWhitespace(r[|r| - 1])
    decreases |s|
  {
    if s != [] && IsWhitespace(s[|s| - 1]) then TrimEnd(s[..|s| - 1]) else s
  }

  /** What `TrimEnd` drops is whitespace. */
  lemma {:induction false} TrimEndDropsWhitespace(s: string)
    ensures forall i :: |TrimEnd(s)| <= i < |s| ==> IsWhitespace(s[i])
    decreases |s|
  {
    if s != [] && IsWhitespace(s[|s| - 1]) {
      TrimEndDropsWhitespace(s[..|s| - 1]);
      forall i | |TrimEnd(s)| <= i < |s| - 1 ensures IsWhitespace(s[i]) {
        assert s[i] == s[..|s| - 1][i];
      }
    }
  }

  /** `String.prototype.trim`. */
  function Trim(s: string): string
  {
    TrimEnd(TrimStart(s))
  }

  /** A string trims to the empty string exactly when every character of it is whitespace. */
  lemma TrimEmptyIffBlank(s: string)
    ensures Trim(s) == [] <==> AllWhitespace(s)
  {
    var t := TrimStart(s);
    TrimStartDropsWhitespace(s);
    TrimEndDropsWhitespace(t);
    if Trim(s) == [] {
      assert t == [];
      forall i | 0 <= i < |s| ensures IsWhitespace(s[i]) {
      }
    } else {
      var r := Trim(s);
      assert r == t[..|r|];
      assert !IsWhitespace(t[0]);
      assert t[0] == s[|s| - |t|];
    }
  }

  /** Trimming only cuts at the two ends: the result is a contiguous slice of the input. */
  lemma TrimIsSlice(s: string)
    ensures exists i, j :: 0 <= i <= j <= |s| && Trim(s) == s[i..j]
  {
    var t := TrimStart(s);
    var r := TrimEnd(t);
    var i := |s| - |t|;
    assert r == s[i..i + |r|];
  }

  // ---------------------------------------------------------------------
  // split / join
  // ---------------------------------------------------------------------

  /** Index of the first occurrence of `c` in `s`. */
  function IndexOf(s: string, c: char): (k: nat)
    requires c in s
    ensures k < |s| && s[k] == c && c !in s[..k]
  {
    if s[0] == c then 0 else 1 + IndexOf(s[1..], c)
  }

  /** `s.split(sep)` for a one-character separator: the pieces between separators, empty pieces included. */
  function Split(s: string, sep: char): (r: seq<string>)
    ensures |r| >= 1
    ensures forall i :: 0 <= i < |r| ==> sep !in r[i]
    decreases |s|
  {
    if sep !in s then [s]
    else
      var k := IndexOf(s, sep);
      [s[..k]] + Split(s[k + 1..], sep)
  }

  /** `parts.join(sep)`. */
  function Join(parts: seq<string>, sep: string): string
  {
    if parts == [] then ""
    else if |parts| == 1 then parts[0]
    else parts[0] + sep + Join(parts[1..], sep)
  }

  /** Joining the pieces of a split with the same separator gives back the string. */
  lemma {:induction false} SplitJoin(s: string, sep: char)
    ensures Join(Split(s, sep), [sep]) == s
    decreases |s|
  {
    if sep in s {
      var k := IndexOf(s, sep);
      var rest := Split(s[k + 1..], sep);
      assert Split(s, sep) == [s[..k]] + rest;
      JoinCons(s[..k], rest, [sep]);
      SplitJoin(s[k + 1..], sep);
      assert s == s[..k] + [sep] + s[k + 1..];
    }
  }

  /** Joining a head before a non-empty list puts one separator after the head. */
  lemma JoinCons(head: string, rest: seq<string>, sep: string)
    requires |rest| >= 1
    ensures Join([head] + rest, sep) == head + sep + Join(rest, sep)
  {
    assert ([head] + rest)[1..] == rest;
  }

  /** The first piece of a split is the text before the first separator (all of it when there is none). */
  lemma SplitFirst(s: string, sep: char)
    ensures Split(s, sep)[0] == if sep in s then s[..IndexOf(s, sep)] else s
  {
  }

  // ---------------------------------------------------------------------
  // Numbers as text
  // ---------------------------------------------------------------------

  const RADIX_DIGITS := "0123456789abcdefghijklmnopqrstuvwxyz"

  function DigitChar(d: nat): char
    requires d < 36
  {
    RADIX_DIGITS[d]
  }

  /** Value of a digit character in the lowercase alphabet above; 36 for any other character. */
  function DigitValue(c: char): (d: nat)
    ensures d <= 36
    ensures d < 36 ==> DigitChar(d) == c
  {
    if '0' <= c <= '9' then (c as int) - ('0' as int)
    else if 'a' <= c <= 'z' then (c as int) - ('a' as int) + 10
    else 36
  }

  lemma DigitValueOfDigitChar(d: nat)
    requires d < 36
    ensures DigitValue(DigitChar(d)) == d
  {
    assert RADIX_DIGITS[d] == "0123456789abcdefghijklmnopqrstuvwxyz"[d];
  }

  /**
   * `n.toString(radix)` for a non-negative integer: digits most significant
   * first, lowercase letters above 9, no leading zero (zero itself is "0").
   */
  function ToRadix(n: nat, radix: nat): (r: string)
    requires 2 <= radix <= 36
    ensures 1 <= |r|
    ensures forall i :: 0 <= i < |r| ==> DigitValue(r[i]) < radix
    ensures r[0] == '0' <==> n == 0
    decreases n
  {
    if n < radix then
      DigitValueOfDigitChar(n);
      [DigitChar(n)]
    else
      DivMod(n, radix);
      DigitValueOfDigitChar(n % radix);
      ToRadix(n / radix, radix) + [DigitChar(n % radix)]
  }

  /** Reads a digit string in the given radix back into its value. */
  function ParseRadix(s: string, radix: nat): nat
    requires 2 <= radix <= 36
    requires forall i :: 0 <= i < |s| ==> DigitValue(s[i]) < radix
  {
    if s == [] then 0
    else ParseRadix(s[..|s| - 1], radix) * radix + DigitValue(s[|s| - 1])
  }

  /** Reading the text of a number gives the number back. */
  lemma {:induction false} ToRadixRoundTrip(n: nat, radix: nat)
    requires 2 <= radix <= 36
    ensures ParseRadix(ToRadix(n, radix), radix) == n
    decreases n
  {
    var r := ToRadix(n, radix);
    if n < radix {
      DigitValueOfDigitChar(n);
      assert r[..0] == [];
    } else {
      DivMod(n, radix);
      ToRadixRoundTrip(n / radix, radix);
      DigitValueOfDigitChar(n % radix);
      assert r[..|r| - 1] == ToRadix(n / radix, radix);
    }
  }

  /** A number below radix^k takes at most k digits. */
  lemma {:induction false} ToRadixLength(n: nat, radix: nat, k: nat)
    requires 2 <= radix <= 36
    requires k >= 1 && n < Pow(radix, k)
    ensures |ToRadix(n, radix)| <= k
    decreases k
  {
    if n >= radix {
      DivMod(n, radix);
      assert n / radix < Pow(radix, k - 1) by {
        DivBelowPow(n, radix, k);
      }
      ToRadixLength(n / radix, radix, k - 1);
    }
  }

  function Pow(b: nat, k: nat): (p: nat)
    ensures b >= 1 ==> p >= 1
  {
    if k == 0 then 1 else b * Pow(b, k - 1)
  }

  lemma DivBelowPow(n: nat, radix: nat, k: nat)
    requires 2 <= radix && k >= 1 && n < Pow(radix, k)
    ensures n / radix < Pow(radix, k - 1)
  {
    var q := Pow(radix, k - 1);
    DivMod(n, radix);
    assert (n / radix) * radix <= n < q * radix;
    LessMulCancel(n / radix, q, radix);
  }

  lemma LessMulCancel(a: int, b: int, c: int)
    requires c > 0 && a * c < b * c
    ensures a < b
  {
  }

  lemma DivMod(n: nat, r: nat)
    requires r >= 2
    ensures n / r < n || n == 0
    ensures n >= r ==> n / r >= 1
    ensures n % r < r
    ensures n == (n / r) * r + n % r
  {
  }

  /** `String(i)` for an integer: a minus sign before the decimal digits of a negative value. */
  function IntToString(i: int): (r: string)
    ensures |r| >= 1
    ensures (r[0] == '-') <==> i < 0
  {
    if i < 0 then "-" + ToRadix(-i, 10) else ToRadix(i, 10)
  }

  /** `s.padStart(width, pad)`: pads on the left up to `width` characters, never truncates. */
  function PadStart(s: string, width: nat, pad: char): (r: string)
    ensures |r| == if |s| >= width then |s| else width
    ensures r[|r| - |s|..] == s
    ensures forall i :: 0 <= i < |r| - |s| ==> r[i] == pad
    decreases width - |s|
  {
    if |s| >= width then s else PadStart([pad] + s, width, pad)
  }

  /** JavaScript `a % b` for a positive divisor: the remainder takes the sign of `a`. */
  function JsRem(a: int, b: int): (r: int)
    requires b > 0
    ensures a >= 0 ==> r == a % b
    ensures -b < r < b
  {
    if a >= 0 then a % b else -((-a) % b)
  }

  /** A string of zeros reads as 0. */
  lemma {:induction false} ParseZeros(z: string, radix: nat)
    requires 2 <= radix <= 36
    requires forall i :: 0 <= i < |z| ==> z[i] == '0'
    ensures forall i :: 0 <= i < |z| ==> DigitValue(z[i]) < radix
    ensures ParseRadix(z, radix) == 0
    decreases |z|
  {
    if z != [] {
      ParseZeros(z[..|z| - 1], radix);
    }
  }

  /** Leading zeros do not change the value a digit string reads as. */
  lemma {:induction false} ParseZerosPrefix(z: string, s: string, radix: nat)
    requires 2 <= radix <= 36
    requires forall i :: 0 <= i < |z| ==> z[i] == '0'
    requires forall i :: 0 <= i < |s| ==> DigitValue(s[i]) < radix
    ensures forall i :: 0 <= i < |z + s| ==> DigitValue((z + s)[i]) < radix
    ensures ParseRadix(z + s, radix) == ParseRadix(s, radix)
    decreases |s|
  {
    ParseZeros(z, radix);
    if s == [] {
      assert z + s == z;
    } else {
      ParseZerosPrefix(z, s[..|s| - 1], radix);
      assert (z + s)[..|z + s| - 1] == z + s[..|s| - 1];
    }
  }

  /** Padding a digit string with zeros on the left keeps its value. */
  lemma PadStartZeros(s: string, width: nat, radix: nat)
    requires 2 <= radix <= 36
    requires forall i :: 0 <= i < |s| ==> DigitValue(s[i]) < radix
    ensures var r := PadStart(s, width, '0');
      && (forall i :: 0 <= i < |r| ==> DigitValue(r[i]) < radix)
      && ParseRadix(r, radix) == ParseRadix(s, radix)
  {
    var r := PadStart(s, width, '0');
    var z := r[..|r| - |s|];
    assert r == z + s;
    ParseZerosPrefix(z, s, radix);
  }
}
