/** JavaScript's `parseInt(s, 10)` and the decimal text of an integer (what a template
    literal such as `${status}` produces for an integer). NaN is `None`. */
module JsNumber {
  import opened Values

  /** ECMAScript WhiteSpace and LineTerminator code points, which `parseInt` skips first:
      TAB, VT, FF, SP, NBSP, ZWNBSP, the Unicode space separators, LF, CR, LS and PS. */
  predicate IsWhiteSpace(c: char): (b: bool)
    ensures b ==> !IsDigit(c) && c != '+' && c != '-'
    ensures c == ' ' || c == '\t' || c == '\n' || c == '\r' ==> b
  {
    var n := c as int;
    n == 0x09 || n == 0x0B || n == 0x0C || n == 0x20 || n == 0xA0 || n == 0xFEFF
    || n == 0x1680 || (0x2000 <= n <= 0x200A) || n == 0x202F || n == 0x205F || n == 0x3000
    || n == 0x0A || n == 0x0D || n == 0x2028 || n == 0x2029
  }

  predicate IsDigit(c: char)
  {
    '0' <= c <= '9'
  }

  predicate AllDigits(s: string)
  {
    forall i :: 0 <= i < |s| ==> IsDigit(s[i])
  }

  /** The string with its leading white space removed. */
  function TrimStart(s: string): (r: string)
    ensures r == [] || !IsWhiteSpace(r[0])
    ensures |r| <= |s| && r == s[|s| - |r|..]
    ensures forall i :: 0 <= i < |s| - |r| ==> IsWhiteSpace(s[i])
  {
    if |s| > 0 && IsWhiteSpace(s[0]) then TrimStart(s[1..]) else s
  }

  /** The longest prefix of decimal digits. */
  function DigitPrefix(s: string): (r: string)
    ensures AllDigits(r) && |r| <= |s| && r == s[..|r|]
    ensures |r| == |s| || !IsDigit(s[|r|])
  {
    if |s| > 0 && IsDigit(s[0]) then [s[0]] + DigitPrefix(s[1..]) else []
  }

  function DigitValue(c: char): (d: nat)
    requires IsDigit(c)
    ensures d < 10
  {
    (c as int) - ('0' as int)
  }

  function DigitChar(d: nat): (c: char)
    requires d < 10
    ensures IsDigit(c) && DigitValue(c) == d
  {
    (('0' as int) + d) as char
  }

  /** The number a run of decimal digits denotes, most significant first. */
  function DecimalValue(ds: string): nat
    requires AllDigits(ds)
  {
    if |ds| == 0 then 0 else DecimalValue(ds[..|ds| - 1]) * 10 + DigitValue(ds[|ds| - 1])
  }

  /** `parseInt(s, 10)`: skip leading white space, take one optional `+` or `-`, then the
      longest run of decimal digits; no digits gives NaN. The sign of a zero is dropped. */
  function ParseInt(s: string): (r: Option<int>)
    ensures r.None? <==> DigitPrefix(Unsigned(TrimStart(s))) == []
    ensures r.Some? && !Negative(TrimStart(s)) ==> r.value >= 0
    ensures r.Some? && Negative(TrimStart(s)) ==> r.value <= 0
  {
    var t := TrimStart(s);
    var digits := DigitPrefix(Unsigned(t));
    if digits == [] then None
    else
      var v: int := DecimalValue(digits);
      Some(if Negative(t) then -v else v)
  }

  predicate Negative(t: string)
  {
    |t| > 0 && t[0] == '-'
  }

  /** The text after one leading sign character, if there is one. */
  function Unsigned(t: string): (r: string)
    ensures |t| > 0 && (t[0] == '+' || t[0] == '-') ==> r == t[1..]
    ensures !(|t| > 0 && (t[0] == '+' || t[0] == '-')) ==> r == t
  {
    if |t| > 0 && (t[0] == '+' || t[0] == '-') then t[1..] else t
  }

  /** The decimal digits of a natural number, without leading zeros. */
  function NatDigits(n: nat): (r: string)
    ensures |r| > 0 && AllDigits(r)
    ensures r[0] != '0' || n == 0
    decreases n
  {
    if n < 10 then [DigitChar(n)] else NatDigits(n / 10) + [DigitChar(n % 10)]
  }

  /** The decimal text of an integer: `-` before the digits of a negative number. */
  function Decimal(n: int): (r: string)
    ensures |r| > 0 && (IsDigit(r[0]) || r[0] == '-')
    ensures n >= 0 <==> AllDigits(r)
  {
    if n < 0 then "-" + NatDigits(-n) else NatDigits(n)
  }

  lemma {:induction false} NatDigitsValue(n: nat)
    ensures DecimalValue(NatDigits(n)) == n
    decreases n
  {
    var ds := NatDigits(n);
    if n >= 10 {
      NatDigitsValue(n / 10);
      assert ds[..|ds| - 1] == NatDigits(n / 10);
    }
  }

  lemma {:induction false} DigitPrefixOf(ds: string, tail: string)
    requires AllDigits(ds)
    requires tail == [] || !IsDigit(tail[0])
    ensures DigitPrefix(ds + tail) == ds
  {
    if |ds| > 0 {
      DigitPrefixOf(ds[1..], tail);
      assert (ds + tail)[1..] == ds[1..] + tail;
    } else {
      assert ds + tail == tail;
    }
  }

  lemma {:induction false} TrimStartOf(ws: string, t: string)
    requires forall i :: 0 <= i < |ws| ==> IsWhiteSpace(ws[i])
    requires t == [] || !IsWhiteSpace(t[0])
    ensures TrimStart(ws + t) == t
  {
    var s := ws + t;
    if |ws| == 0 {
      assert s == t;
    } else {
      var rest := ws[1..];
      assert IsWhiteSpace(s[0]);
      assert s[1..] == rest + t;
      assert forall i :: 0 <= i < |rest| ==> IsWhiteSpace(rest[i]) by {
        forall i | 0 <= i < |rest| ensures IsWhiteSpace(rest[i]) {
          assert rest[i] == ws[i + 1];
        }
      }
      TrimStartOf(rest, t);
    }
  }

  lemma TrimStartSigned(ws: string, d: string, tail: string)
    requires forall i :: 0 <= i < |ws| ==> IsWhiteSpace(ws[i])
    requires |d| > 0 && (IsDigit(d[0]) || d[0] == '-')
    ensures TrimStart(ws + d + tail) == d + tail
  {
    assert ws + d + tail == ws + (d + tail);
    assert (d + tail)[0] == d[0];
    TrimStartOf(ws, d + tail);
  }

  /** Round trip: `parseInt` reads back the decimal text of any integer, whatever white
      space precedes it and whatever non-digit text follows it. */
  lemma ParseIntDecimal(ws: string, n: int, tail: string)
    requires forall i :: 0 <= i < |ws| ==> IsWhiteSpace(ws[i])
    requires tail == [] || !IsDigit(tail[0])
    ensures ParseInt(ws + Decimal(n) + tail) == Some(n)
  {
    var t := Decimal(n) + tail;
    TrimStartSigned(ws, Decimal(n), tail);
    assert TrimStart(ws + Decimal(n) + tail) == t;
    ParseIntTrimmed(n, tail);
    var digits := DigitPrefix(Unsigned(t));
    assert digits != [] && DecimalValue(digits) == Magnitude(n);
  }

  /** The text holds a decimal digit other than `0`. */
  predicate HasNonZeroDigit(s: string)
  {
    exists i :: 0 <= i < |s| && '1' <= s[i] <= '9'
  }

  lemma {:induction false} NonZeroValueDigit(ds: string)
    requires AllDigits(ds) && DecimalValue(ds) != 0
    ensures HasNonZeroDigit(ds)
  {
    var k := |ds| - 1;
    if ds[k] != '0' {
      assert '1' <= ds[k] <= '9';
    } else {
      var p := ds[..k];
      assert AllDigits(p);
      assert DecimalValue(p) != 0;
      NonZeroValueDigit(p);
      var i :| 0 <= i < |p| && '1' <= p[i] <= '9';
      assert ds[i] == p[i];
    }
  }

  /** `parseInt` gives a non-zero number only for text holding a digit other than `0`. */
  lemma ParseIntNonZero(s: string)
    requires ParseInt(s).Some? && ParseInt(s).value != 0
    ensures HasNonZeroDigit(s)
  {
    var t := TrimStart(s);
    var u := Unsigned(t);
    var ds := DigitPrefix(u);
    assert DecimalValue(ds) != 0;
    NonZeroValueDigit(ds);
    var i :| 0 <= i < |ds| && '1' <= ds[i] <= '9';
    var off := |s| - |u|;
    assert u == s[off..];
    assert s[off + i] == ds[i];
  }

  function Magnitude(n: int): nat
  {
    if n < 0 then -n else n
  }

  /** After the sign of an integer's decimal text come exactly its magnitude's digits. */
  lemma UnsignedDecimal(n: int, tail: string)
    ensures Unsigned(Decimal(n) + tail) == NatDigits(Magnitude(n)) + tail
    ensures Negative(Decimal(n) + tail) <==> n < 0
  {
    var ds := NatDigits(Magnitude(n));
    if n < 0 {
      assert Decimal(n) + tail == ['-'] + (ds + tail);
    } else {
      assert Decimal(n) == ds;
      assert (ds + tail)[0] == ds[0];
    }
  }

  /** The part of the round trip after the white space is gone. */
  lemma ParseIntTrimmed(n: int, tail: string)
    requires tail == [] || !IsDigit(tail[0])
    ensures var t := Decimal(n) + tail;
            DigitPrefix(Unsigned(t)) != [] && (Negative(t) <==> n < 0)
            && DecimalValue(DigitPrefix(Unsigned(t))) == Magnitude(n)
  {
    UnsignedDecimal(n, tail);
    DigitPrefixOf(NatDigits(Magnitude(n)), tail);
    NatDigitsValue(Magnitude(n));
  }

  /** Plain round trip: `parseInt` inverts the decimal text of an integer. */
  lemma ParseIntOfDecimal(n: int)
    ensures ParseInt(Decimal(n)) == Some(n)
  {
    var d := Decimal(n);
    var empty: string := [];
    assert empty + d + empty == d;
    ParseIntDecimal(empty, n, empty);
  }

  /** Text without any decimal digit is NaN; in particular the empty string is. */
  lemma ParseIntNaN(s: string)
    requires forall i :: 0 <= i < |s| ==> !IsDigit(s[i])
    ensures ParseInt(s).None?
  {
    var u := Unsigned(TrimStart(s));
    assert u == s[|s| - |u|..];
    if u != [] {
      assert u[0] == s[|s| - |u|];
    }
  }
}
