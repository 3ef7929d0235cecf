/** The C and C++ library string conversions that the sources call:
    `atoi`, `std::stoi`, `std::stoul` (bases 0, 10 and 16), `find`,
    `find_first_not_of`, as total functions over `seq<char>`.
    A conversion that throws (`std::invalid_argument`, `std::out_of_range`)
    yields `None`. */
module CString {
  import opened Common

  /** The characters for which C's `isspace` holds in the "C" locale. */
  predicate IsSpace(c: char) {
    c == ' ' || c == '\t' || c == '\n' || c == '\r' || c == '\U{0B}' || c == '\U{0C}'
  }

  /** Value of `c` as a digit in `base`, if it is one. */
  function DigitOf(c: char, base: nat): Option<nat> {
    var v :=
      if '0' <= c <= '9' then (c as int) - ('0' as int)
      else if 'a' <= c <= 'z' then (c as int) - ('a' as int) + 10
      else if 'A' <= c <= 'Z' then (c as int) - ('A' as int) + 10
      else 36;
    if v < base then Some(v) else None
  }

  predicate IsDigitIn(c: char, base: nat) {
    DigitOf(c, base).Some?
  }

  /** Length of the longest prefix of `s` made of digits of `base`. */
  function DigitRun(s: string, base: nat): (n: nat)
    ensures n <= |s|
    ensures forall k :: 0 <= k < n ==> IsDigitIn(s[k], base)
    ensures n < |s| ==> !IsDigitIn(s[n], base)
  {
    if |s| == 0 || !IsDigitIn(s[0], base) then 0 else 1 + DigitRun(s[1..], base)
  }

  /** Positional value of a string of digits, most significant first
      (a character that is not a digit counts as 0). */
  function DigitsValue(s: string, base: nat): nat {
    if |s| == 0 then 0
    else
      var d := match DigitOf(s[|s| - 1], base) case Some(v) => v case None => 0;
      DigitsValue(s[..|s| - 1], base) * base + d
  }

  /** First index at or after `i` that is not white space (or `|s|`). */
  function SkipSpace(s: string, i: nat): (j: nat)
    requires i <= |s|
    ensures i <= j <= |s|
    ensures forall k :: i <= k < j ==> IsSpace(s[k])
    ensures j < |s| ==> !IsSpace(s[j])
    decreases |s| - i
  {
    if i < |s| && IsSpace(s[i]) then SkipSpace(s, i + 1) else i
  }

  /** A successful conversion: the value and the index just past the last
      character consumed (the `pos`/`idx` out-argument of `std::stoul`). */
  datatype Conversion = Conversion(value: int, end: nat)

  /** The sign and digits that `strtol`/`strtoul` scan, starting at `i`:
      whether a minus sign was read, the effective base and where the
      digits begin. */
  datatype Scan = Scan(negative: bool, radix: nat, digitsAt: nat)

  function ScanNumber(s: string, base: nat): (r: Scan)
    requires base == 0 || 2 <= base <= 36
    ensures r.digitsAt <= |s|
    ensures 2 <= r.radix <= 36
  {
    var i := SkipSpace(s, 0);
    var neg := i < |s| && s[i] == '-';
    var j := if i < |s| && (s[i] == '-' || s[i] == '+') then i + 1 else i;
    if (base == 0 || base == 16) && HexPrefixAt(s, j) then Scan(neg, 16, j + 2)
    else if base == 0 && j < |s| && s[j] == '0' then Scan(neg, 8, j)
    else if base == 0 then Scan(neg, 10, j)
    else Scan(neg, base, j)
  }

  /** A `0x`/`0X` prefix followed by a hexadecimal digit starts at `j`. */
  predicate HexPrefixAt(s: string, j: nat) {
    j + 2 < |s| && s[j] == '0' && (s[j + 1] == 'x' || s[j + 1] == 'X') && IsDigitIn(s[j + 2], 16)
  }

  /** Magnitude of the digits found by `ScanNumber`. */
  function ScannedMagnitude(s: string, sc: Scan): nat
    requires sc.digitsAt <= |s|
  {
    var n := DigitRun(s[sc.digitsAt..], sc.radix);
    DigitsValue(s[sc.digitsAt..][..n], sc.radix)
  }

  /** `std::stoul(s, &idx, base)`: `None` when no digit is found
      (invalid_argument) or the magnitude exceeds `ULONG_MAX` (out_of_range).
      A leading `-` negates the result modulo 2^64, as `strtoul` does. */
  function StoUl(s: string, base: nat): (r: Option<Conversion>)
    requires base == 0 || 2 <= base <= 36
    ensures r.Some? ==> 0 <= r.value.value < TWO_64 && r.value.end <= |s|
    ensures r.Some? ==> 0 < r.value.end
  {
    var sc := ScanNumber(s, base);
    var n := DigitRun(s[sc.digitsAt..], sc.radix);
    var mag: int := ScannedMagnitude(s, sc);
    if n == 0 || mag >= TWO_64 then None
    else Some(Conversion(if sc.negative then Wrap64(-mag) else mag, sc.digitsAt + n))
  }

  const INT_MIN: int := -0x8000_0000
  const INT_MAX: int := 0x7FFF_FFFF

  /** `std::stoi(s, nullptr, 10)`: `None` when no digit is found or the value
      does not fit in `int`. */
  function StoI(s: string): (r: Option<int>)
    ensures r.Some? ==> INT_MIN <= r.value <= INT_MAX
  {
    var sc := ScanNumber(s, 10);
    var n := DigitRun(s[sc.digitsAt..], 10);
    var mag: int := ScannedMagnitude(s, sc);
    var v := if sc.negative then -mag else mag;
    if n == 0 || v < INT_MIN || v > INT_MAX then None else Some(v)
  }

  /** `atoi(s)`: the decimal prefix after white space and an optional sign,
      0 when there is none. (Overflow, undefined in C, is not modelled.) */
  function Atoi(s: string): int {
    var sc := ScanNumber(s, 10);
    var mag: int := ScannedMagnitude(s, sc);
    if sc.negative then -mag else mag
  }

  /** `s.find_first_not_of(c, from)`; `None` stands for `npos`. */
  function FindFirstNotOf(s: string, c: char, from: nat): (r: Option<nat>)
    ensures r.Some? ==> from <= r.value < |s| && s[r.value] != c
    ensures r.Some? ==> forall k :: from <= k < r.value ==> s[k] == c
    ensures r.None? ==> forall k :: from <= k < |s| ==> s[k] == c
    decreases |s| - from
  {
    if from >= |s| then None
    else if s[from] != c then Some(from)
    else FindFirstNotOf(s, c, from + 1)
  }

  /** `s.find(sub) != npos`. */
  predicate Contains(s: string, sub: string) {
    exists i :: 0 <= i <= |s| - |sub| && OccursAt(s, sub, i)
  }

  predicate OccursAt(s: string, sub: string, i: int) {
    0 <= i <= |s| - |sub| && s[i..i + |sub|] == sub
  }

  // ---------------------------------------------------------------------
  // Decimal rendering, used to state round trips of the conversions.

  function DigitChar(d: nat): char
    requires d < 10
  {
    ((d + '0' as int) as char)
  }

  /** Decimal digits of `n`, most significant first, without leading zeros. */
  function NatDigits(n: nat): (s: string)
    ensures |s| > 0
    ensures forall k :: 0 <= k < |s| ==> '0' <= s[k] <= '9'
  {
    if n < 10 then [DigitChar(n)] else NatDigits(n / 10) + [DigitChar(n % 10)]
  }

  /** Decimal rendering of an integer, with a leading `-` when negative. */
  function IntString(n: int): string {
    if n < 0 then "-" + NatDigits(-n) else NatDigits(n)
  }

  lemma {:induction false} NatDigitsValue(n: nat)
    ensures forall k :: 0 <= k < |NatDigits(n)| ==> IsDigitIn(NatDigits(n)[k], 10)
    ensures DigitsValue(NatDigits(n), 10) == n
  {
    var s := NatDigits(n);
    if n >= 10 {
      NatDigitsValue(n / 10);
      assert s[..|s| - 1] == NatDigits(n / 10);
    }
  }

  lemma DigitRunAll(s: string, base: nat)
    requires forall k :: 0 <= k < |s| ==> IsDigitIn(s[k], base)
    ensures DigitRun(s, base) == |s|
  {
    if DigitRun(s, base) < |s| {
      assert !IsDigitIn(s[DigitRun(s, base)], base);
    }
  }

  /** In base 10, the scan of a string that starts with a digit or a sign
      reads the sign and puts the digits right after it. */
  lemma ScanSigned(s: string)
    requires |s| > 0 && (s[0] == '-' || '0' <= s[0] <= '9')
    ensures ScanNumber(s, 10) == Scan(s[0] == '-', 10, if s[0] == '-' then 1 else 0)
  {
    assert !IsSpace(s[0]);
    assert SkipSpace(s, 0) == 0;
  }

  /** Scanning the decimal rendering of `n` finds exactly its digits. */
  lemma ScanIntString(n: int)
    ensures var s := IntString(n);
            var sc := ScanNumber(s, 10);
            && sc == Scan(n < 0, 10, if n < 0 then 1 else 0)
            && DigitRun(s[sc.digitsAt..], 10) == |s| - sc.digitsAt > 0
            && ScannedMagnitude(s, sc) == (if n < 0 then -n else n)
  {
    var s := IntString(n);
    var m: nat := if n < 0 then -n else n;
    var d := NatDigits(m);
    var at := if n < 0 then 1 else 0;
    assert s[at..] == d;
    assert s[0] == '-' || '0' <= s[0] <= '9';
    ScanSigned(s);
    NatDigitsValue(m);
    DigitRunAll(d, 10);
    assert d[..|d|] == d;
  }

  /** `std::stoi` reads back every `int` it is given in decimal. */
  lemma StoIRoundTrip(n: int)
    requires INT_MIN <= n <= INT_MAX
    ensures StoI(IntString(n)) == Some(n)
  {
    ScanIntString(n);
  }

  /** `atoi` reads back every integer given in decimal. */
  lemma AtoiRoundTrip(n: int)
    ensures Atoi(IntString(n)) == n
  {
    ScanIntString(n);
  }

  /** `std::stoul` in base 10 reads back every value below 2^64 and consumes
      the whole rendering. */
  lemma StoUlRoundTrip(n: nat)
    requires n < TWO_64
    ensures StoUl(IntString(n), 10) == Some(Conversion(n, |IntString(n)|))
  {
    ScanIntString(n);
    var s := IntString(n);
    assert ScanNumber(s, 10) == Scan(false, 10, 0);
    assert DigitRun(s[0..], 10) == |s|;
    assert ScannedMagnitude(s, Scan(false, 10, 0)) == n;
  }

  /** A run of digits followed by a character that is not one. */
  lemma {:induction false} DigitRunPrefix(d: string, rest: string, base: nat)
    requires forall k :: 0 <= k < |d| ==> IsDigitIn(d[k], base)
    requires rest == [] || !IsDigitIn(rest[0], base)
    ensures DigitRun(d + rest, base) == |d|
  {
    if |d| > 0 {
      assert (d + rest)[1..] == d[1..] + rest;
      DigitRunPrefix(d[1..], rest, base);
    }
  }

  /** Only 0 is rendered with a leading zero. */
  lemma {:induction false} NatDigitsLead(n: nat)
    ensures NatDigits(n)[0] == '0' ==> n == 0
  {
    if n >= 10 {
      assert NatDigits(n)[0] == NatDigits(n / 10)[0];
      NatDigitsLead(n / 10);
    }
  }

  /** `std::stoul` on a string whose scan finds no minus sign and a
      nonempty run of digits of value below 2^64. */
  lemma StoUlOfScan(s: string, base: nat, radix: nat, n: nat, v: nat)
    requires base == 0 || 2 <= base <= 36
    requires ScanNumber(s, base) == Scan(false, radix, 0)
    requires 0 < n && DigitRun(s, radix) == n
    requires DigitsValue(s[..n], radix) == v < TWO_64
    ensures StoUl(s, base) == Some(Conversion(v, n))
  {
    assert s[0..] == s;
  }

  /** `std::stoul` in base 10 or 0 reads back the decimal rendering of a
      value below 2^64 and stops at the blank after it. */
  lemma StoUlPrefix(n: nat, rest: string, base: nat)
    requires n < TWO_64 && (base == 10 || base == 0)
    requires rest == [] || rest[0] == ' '
    ensures StoUl(IntString(n) + rest, base) == Some(Conversion(n, |IntString(n)|))
  {
    var d := IntString(n);
    var s := d + rest;
    NatDigitsValue(n);
    assert s[0] == d[0] && !IsSpace(s[0]);
    assert SkipSpace(s, 0) == 0;
    var radix := if base == 0 && d[0] == '0' then 8 else 10;
    if radix == 8 {
      NatDigitsLead(n);
      assert d == "0";
    }
    assert !HexPrefixAt(s, 0);
    assert ScanNumber(s, base) == Scan(false, radix, 0);
    assert forall k :: 0 <= k < |d| ==> IsDigitIn(d[k], radix);
    DigitRunPrefix(d, rest, radix);
    assert s[..|d|] == d;
    assert DigitsValue(d, radix) == n;
    StoUlOfScan(s, base, radix, |d|, n);
  }

  /** A string with no digit after the optional white space and sign
      converts to 0 under `atoi` and fails under `std::stoi`. */
  lemma NoDigitsConversions(s: string)
    requires var sc := ScanNumber(s, 10); sc.digitsAt == |s| || !IsDigitIn(s[sc.digitsAt], 10)
    ensures Atoi(s) == 0
    ensures StoI(s) == None
  {
    var sc := ScanNumber(s, 10);
    assert DigitRun(s[sc.digitsAt..], 10) == 0;
    assert s[sc.digitsAt..][..0] == [];
  }
}
