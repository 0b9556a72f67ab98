/** Values every part of the agent shares: octets, JSON as the handlers see it,
    and the decimal numerals that end up in temp-file names and grep output. */
module Base {

  datatype Option<+T> = None | Some(value: T)

  /** One byte. File contents, the wire and every CxString are sequences of these. */
  type Octet = c: char | c as int < 256 witness 'a'

  type Text = seq<Octet>

  const CHUNK: nat := 65536        // sizeof( buf ) in every streaming loop

  function Min(a: nat, b: nat): nat {
    if a < b then a else b
  }

  // ---------------------------------------------------------------- JSON

  datatype Json = JText(text: Text) | JNumber(num: real) | JBool(flag: bool) | JOther

  /** What the JSON factory makes of a line. */
  datatype Parsed = Malformed | NotObject | Object(req: Request)

  type Request = map<Text, Json>

  function FindText(req: Request, key: Text): Option<Text> {
    if key in req && req[key].JText? then Some(req[key].text) else None
  }

  function FindNumber(req: Request, key: Text): Option<real> {
    if key in req && req[key].JNumber? then Some(req[key].num) else None
  }

  function FindBool(req: Request, key: Text): Option<bool> {
    if key in req && req[key].JBool? then Some(req[key].flag) else None
  }

  /** The echoed id: 0 unless the request carries a number. */
  function IdOf(req: Request): real {
    match FindNumber(req, "id") case Some(n) => n case None => 0.0
  }

  /** The C++ conversion of a double to an integer: truncation toward zero. */
  function Truncated(r: real): int {
    if r >= 0.0 then r.Floor else -((-r).Floor)
  }

  /** `m & 07777` on a two's complement integer. */
  function PermBits(m: int): (bits: nat)
    ensures bits < 4096
  {
    m % 4096
  }

  // ---------------------------------------------------------------- decimals

  predicate IsDigit(c: Octet) {
    '0' <= c <= '9'
  }

  function DigitOf(d: nat): (c: Octet)
    requires d < 10
    ensures IsDigit(c) && DigitValue(c) == d
  {
    ('0' as int + d) as char
  }

  function DigitValue(c: Octet): (d: nat)
    requires IsDigit(c)
    ensures d < 10
  {
    c as int - '0' as int
  }

  function Decimal(n: nat): (s: Text)
    ensures |s| > 0 && forall i :: 0 <= i < |s| ==> IsDigit(s[i])
    decreases n
  {
    if n < 10 then [DigitOf(n)] else Decimal(n / 10) + [DigitOf(n % 10)]
  }

  /** The value of the digits of `s`, read left to right. */
  function Numeral(s: Text): nat
    requires forall i :: 0 <= i < |s| ==> IsDigit(s[i])
  {
    if s == [] then 0 else 10 * Numeral(s[..|s| - 1]) + DigitValue(s[|s| - 1])
  }

  lemma {:induction false} NumeralOfDecimal(n: nat)
    ensures Numeral(Decimal(n)) == n
    decreases n
  {
    if n >= 10 {
      var s := Decimal(n);
      NumeralOfDecimal(n / 10);
      assert s[..|s| - 1] == Decimal(n / 10);
      assert s[|s| - 1] == DigitOf(n % 10);
    } else {
      assert Decimal(n)[..0] == [];
    }
  }

  const DIGITS: Text := "0123456789"

  /** Numerals are written and read in base ten, the last digit for the units. */
  lemma UsualNumerals(n: nat, d: nat, s: Text)
    requires d < 10 && forall i :: 0 <= i < |s| ==> IsDigit(s[i])
    ensures Decimal(d) == [DIGITS[d]] && (n > 0 ==> Decimal(10 * n + d) == Decimal(n) + [DIGITS[d]])
    ensures Numeral([]) == 0 && IsDigit(DIGITS[d]) && Numeral(s + [DIGITS[d]]) == 10 * Numeral(s) + d
  {
    hide Numeral;
    assert DIGITS[d] == DigitOf(d);
    assert (10 * n + d) / 10 == n && (10 * n + d) % 10 == d;
    NumeralGrows(s, DIGITS[d]);
    assert Numeral([]) == 0 by {
      NumeralGrows([], '0');
    }
  }

  lemma NumeralGrows(s: Text, c: Octet)
    requires IsDigit(c) && forall i :: 0 <= i < |s| ==> IsDigit(s[i])
    ensures Numeral([]) == 0 && Numeral(s + [c]) == 10 * Numeral(s) + DigitValue(c)
  {
    assert (s + [c])[..|s|] == s;
  }

  // ---------------------------------------------------------------- searching

  /** The first position of `c` in `s`, or |s|. */
  function IndexOf(s: Text, c: Octet): (i: nat)
    ensures i <= |s| && (forall j :: 0 <= j < i ==> s[j] != c) && (i < |s| ==> s[i] == c)
  {
    if s == [] || s[0] == c then 0 else 1 + IndexOf(s[1..], c)
  }

  /** Where a given first occurrence stands. */
  lemma {:induction false} IndexOfFirst(before: Text, c: Octet, after: Text)
    requires c !in before
    ensures IndexOf(before + [c] + after, c) == |before|
  {
    var s := before + [c] + after;
    if before == [] {
      assert s[0] == c;
    } else {
      assert s[1..] == before[1..] + [c] + after;
      IndexOfFirst(before[1..], c, after);
    }
  }

  /** What a C string function sees of a string: nothing from the first NUL on. */
  function CString(s: Text): (c: Text)
    ensures '\0' !in c && c <= s && ('\0' !in s ==> c == s)
    ensures |c| < |s| ==> s[|c|] == '\0'
  {
    if s == [] || s[0] == '\0' then [] else [s[0]] + CString(s[1..])
  }

  lemma {:induction false} CStringAppend(a: Text, b: Text)
    requires '\0' !in a
    ensures CString(a + b) == a + CString(b)
    decreases |a|
  {
    if a == [] {
      assert a + b == b;
    } else {
      assert (a + b)[1..] == a[1..] + b;
      CStringAppend(a[1..], b);
    }
  }

  lemma {:induction false} CStringPrefix(a: Text, b: Text)
    requires '\0' in a
    ensures CString(a + b) == CString(a)
  {
    assert (a + b)[1..] == a[1..] + b;
    if a[0] != '\0' {
      CStringPrefix(a[1..], b);
    }
  }
}
