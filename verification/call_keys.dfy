/** The storage keys of a call's metadata: a prefix, the call number in decimal and a
    suffix, put together in a fixed buffer. */
module CallKeys {
  import opened Basics

  const BUFFER_SIZE: nat := 64
  const MAX_DIGITS: nat := 20

  function Digit(d: nat): char
    requires d < 10
  {
    '0' + d as char
  }

  /** The digits of a positive number; none for zero. */
  function Digits(n: nat): string {
    if n == 0 then "" else Digits(n / 10) + [Digit(n % 10)]
  }

  function Decimal(n: nat): string {
    if n == 0 then "0" else Digits(n)
  }

  /** The key of one metadata entry. */
  function Key(prefix: string, id: nat, suffix: string): string {
    prefix + Decimal(id) + suffix
  }

  /** Reads a number from its decimal digits. */
  function Value(text: string): int {
    if text == [] then 0 else Value(text[..|text| - 1]) * 10 + (text[|text| - 1] as int - '0' as int)
  }

  lemma {:induction false} DigitsDenote(n: nat)
    ensures Value(Digits(n)) == n
  {
    if n > 0 {
      DigitsDenote(n / 10);
      assert Digits(n)[..|Digits(n)| - 1] == Digits(n / 10);
    }
  }

  lemma DecimalDenotes(n: nat)
    ensures Value(Decimal(n)) == n
  {
    if n == 0 {
      assert "0"[..0] == "";
      assert Value("0") == Value("") * 10;
    } else {
      DigitsDenote(n);
    }
  }

  /** Different calls have different keys, and a content key is never a hash key. */
  lemma KeysAreDistinct(id: nat, other: nat, suffix: string, otherSuffix: string)
    requires suffix in {"_cid", "_hash"} && otherSuffix in {"_cid", "_hash"}
    ensures Key("call_", id, suffix) == Key("call_", other, otherSuffix) <==> id == other && suffix == otherSuffix
  {
    var a, b := Key("call_", id, suffix), Key("call_", other, otherSuffix);
    if a == b {
      assert a[|a| - 1] == suffix[|suffix| - 1] && b[|b| - 1] == otherSuffix[|otherSuffix| - 1];
      assert suffix == otherSuffix;
      assert a[5..|a| - |suffix|] == Decimal(id) && b[5..|b| - |suffix|] == Decimal(other);
      DecimalDenotes(id);
      DecimalDenotes(other);
    }
  }

  function Pow10(n: nat): nat {
    if n == 0 then 1 else 10 * Pow10(n - 1)
  }

  lemma TwentyDigitsSuffice()
    ensures U64_MAX < Pow10(20)
  {
    assert Pow10(5) == 100_000;
    assert Pow10(10) == 100_000 * Pow10(5);
    assert Pow10(15) == 100_000 * Pow10(10);
    assert Pow10(20) == 100_000 * Pow10(15);
  }

  function Backwards(text: string): string {
    if text == [] then [] else [text[|text| - 1]] + Backwards(text[..|text| - 1])
  }

  lemma NoDigits(text: string)
    requires text == []
    ensures Backwards(text) == [] && Digits(0) == []
  {
  }

  /** A number that fits n digits is down to n - 1 digits without its last one. */
  lemma OneDigitLess(temp: nat, n: nat)
    requires 0 < temp < Pow10(n)
    ensures n > 0 && temp / 10 < Pow10(n - 1)
    ensures Digits(temp) == Digits(temp / 10) + [Digit(temp % 10)]
  {
  }

  lemma OneMoreBackwards(text: string, n: nat)
    requires |text| == n + 1
    ensures Backwards(text) == [text[n]] + Backwards(text[..n])
  {
  }

  /** Appends a text to the buffer, one character at a time. */
  method Append(buf: array<char>, start: nat, text: string) returns (idx: nat)
    requires start + |text| <= buf.Length
    modifies buf
    ensures idx == start + |text| && buf[..idx] == old(buf[..start]) + text
  {
    idx := start;
    for i := 0 to |text|
      invariant idx == start + i
      invariant buf[..idx] == old(buf[..start]) + text[..i]
    {
      buf[idx] := text[i];
      idx := idx + 1;
    }
  }

  /** The digits, least significant first: at most 20 for a 64-bit number. */
  method CollectDigits(id: nat, digits: array<char>) returns (n: nat)
    requires 0 < id <= U64_MAX && digits.Length == MAX_DIGITS
    modifies digits
    ensures n <= MAX_DIGITS && Backwards(digits[..n]) == Digits(id)
  {
    hide U64_MAX, Pow10, Digits, Backwards;
    n := 0;
    var temp: nat := id;
    TwentyDigitsSuffice();
    NoDigits(digits[..0]);
    while temp > 0
      invariant n <= MAX_DIGITS && temp < Pow10(20 - n)
      invariant Digits(id) == Digits(temp) + Backwards(digits[..n])
    {
      OneDigitLess(temp, 20 - n);
      ghost var before := digits[..n];
      digits[n] := Digit(temp % 10);
      assert digits[..n + 1][..n] == before;
      OneMoreBackwards(digits[..n + 1], n);
      assert (Digits(temp / 10) + [digits[n]]) + Backwards(before)
          == Digits(temp / 10) + ([digits[n]] + Backwards(before));
      temp := temp / 10;
      n := n + 1;
    }
    NoDigits([]);
  }

  /** Copies the collected digits behind `start`, most significant first. */
  method AppendBackwards(buf: array<char>, start: nat, digits: array<char>, n: nat) returns (idx: nat)
    requires buf != digits && n <= digits.Length && start + n <= buf.Length
    modifies buf
    ensures idx == start + n && buf[..idx] == old(buf[..start]) + Backwards(digits[..n])
  {
    hide Backwards;
    idx := start;
    var d := n;
    NoDigits([]);
    while d > 0
      invariant 0 <= d <= n && idx == start + n - d
      invariant buf[..idx] + Backwards(digits[..d]) == old(buf[..start]) + Backwards(digits[..n])
    {
      ghost var before := buf[..idx];
      OneMoreBackwards(digits[..d], d - 1);
      assert digits[..d][..d - 1] == digits[..d - 1];
      d := d - 1;
      buf[idx] := digits[d];
      idx := idx + 1;
      assert buf[..idx] == before + [digits[d]];
    }
    assert digits[..0] == [];
  }

  method FormatKey(prefix: string, id: nat, suffix: string) returns (key: string)
    requires id <= U64_MAX && |prefix| + MAX_DIGITS + |suffix| <= BUFFER_SIZE
    ensures key == Key(prefix, id, suffix)
  {
    hide Digits, Backwards, Pow10, U64_MAX;
    var buf := new char[BUFFER_SIZE];
    var idx := Append(buf, 0, prefix);
    if id == 0 {
      buf[idx] := '0';
      idx := idx + 1;
      assert buf[..idx] == prefix + "0";
    } else {
      var digits := new char[MAX_DIGITS];
      var n := CollectDigits(id, digits);
      idx := AppendBackwards(buf, idx, digits, n);
    }
    idx := Append(buf, idx, suffix);
    key := buf[..idx];
  }
}
