/**
 * The string operations the trade service uses: ASCII case mapping (`str.lower`,
 * `str.upper`), the substring test (`needle in hay`), the decimal rendering of an
 * integer (`str(i)` inside an f-string) and the count of `%s` placeholders that
 * the database driver binds parameters to.
 */
module Text {

  predicate IsUpperAscii(c: char) { 'A' <= c <= 'Z' }

  predicate IsLowerAscii(c: char) { 'a' <= c <= 'z' }

  function LowerChar(c: char): char {
    if IsUpperAscii(c) then (c as int + 32) as char else c
  }

  function UpperChar(c: char): char {
    if IsLowerAscii(c) then (c as int - 32) as char else c
  }

  /** `s.lower()`, restricted to ASCII letters. */
  function Lower(s: string): (r: string)
    ensures |r| == |s|
    ensures forall i :: 0 <= i < |r| ==> !IsUpperAscii(r[i])
    ensures forall i :: 0 <= i < |r| && !IsUpperAscii(s[i]) ==> r[i] == s[i]
    ensures forall i :: 0 <= i < |r| && IsUpperAscii(s[i]) ==> r[i] as int == s[i] as int + 32
  {
    seq(|s|, i requires 0 <= i < |s| => LowerChar(s[i]))
  }

  /** `s.upper()`, restricted to ASCII letters. */
  function Upper(s: string): (r: string)
    ensures |r| == |s|
    ensures forall i :: 0 <= i < |r| ==> !IsLowerAscii(r[i])
    ensures forall i :: 0 <= i < |r| && !IsLowerAscii(s[i]) ==> r[i] == s[i]
    ensures forall i :: 0 <= i < |r| && IsLowerAscii(s[i]) ==> r[i] as int == s[i] as int - 32
  {
    seq(|s|, i requires 0 <= i < |s| => UpperChar(s[i]))
  }

  /** Lowering is idempotent: a lowered text has no upper-case letter left to lower. */
  lemma LowerIdempotent(s: string)
    ensures Lower(Lower(s)) == Lower(s)
  {
    var l := Lower(s);
    forall i | 0 <= i < |s| ensures Lower(l)[i] == l[i] {
      assert !IsUpperAscii(l[i]);
    }
  }

  /** Upper-casing first does not change what lowering produces. */
  lemma LowerOfUpper(s: string)
    ensures Lower(Upper(s)) == Lower(s)
  {
    var u := Upper(s);
    forall i | 0 <= i < |s| ensures Lower(u)[i] == Lower(s)[i] {
      assert u[i] == UpperChar(s[i]);
    }
  }

  /** `needle` sits in `hay` starting at position `k`. */
  predicate OccursAt(needle: string, hay: string, k: int) {
    0 <= k <= |hay| - |needle| && hay[k..k + |needle|] == needle
  }

  /** Python's `needle in hay` on strings: some window of `hay` equals `needle`. */
  function IsSubstring(needle: string, hay: string): (r: bool)
    ensures r <==> exists k :: OccursAt(needle, hay, k)
    decreases |hay|
  {
    if needle <= hay then
      assert OccursAt(needle, hay, 0);
      true
    else if |hay| == 0 then
      false
    else
      var rest := IsSubstring(needle, hay[1..]);
      OccursShift(needle, hay);
      assert OccursAt(needle, hay, 0) ==> needle <= hay;
      rest
  }

  /** Occurrences in `hay[1..]` are the occurrences in `hay` past its first position, shifted by one. */
  lemma OccursShift(needle: string, hay: string)
    requires |hay| > 0
    ensures forall k :: OccursAt(needle, hay[1..], k) ==> OccursAt(needle, hay, k + 1)
    ensures forall k :: OccursAt(needle, hay, k) && k >= 1 ==> OccursAt(needle, hay[1..], k - 1)
  {
    forall k | OccursAt(needle, hay[1..], k) ensures OccursAt(needle, hay, k + 1) {
      assert hay[1..][k..k + |needle|] == hay[k + 1..k + 1 + |needle|];
    }
    forall k | OccursAt(needle, hay, k) && k >= 1 ensures OccursAt(needle, hay[1..], k - 1) {
      assert hay[1..][k - 1..k - 1 + |needle|] == hay[k..k + |needle|];
    }
  }

  function DigitChar(d: nat): (c: char)
    requires d < 10
    ensures '0' <= c <= '9'
  {
    (48 + d) as char
  }

  predicate IsDigits(s: string) {
    forall i :: 0 <= i < |s| ==> '0' <= s[i] <= '9'
  }

  /** The decimal digits of `n`, most significant first, without leading zeros. */
  function NatDigits(n: nat): (s: string)
    ensures |s| >= 1 && IsDigits(s)
    ensures n > 0 ==> s[0] != '0'
    decreases n
  {
    if n < 10 then [DigitChar(n)] else NatDigits(n / 10) + [DigitChar(n % 10)]
  }

  /**
   * `str(i)` for a Python int: an optional minus sign, then decimal digits.
   * Reading the text back with `int` gives `i` again.
   */
  function IntToDecimal(i: int): (s: string)
    ensures |s| >= 1
    ensures forall k :: 0 <= k < |s| ==> s[k] == '-' || '0' <= s[k] <= '9'
    ensures (s[0] == '-' || '0' <= s[0] <= '9') && IsDigits(s[1..]) && ParseDecimal(s) == i
    ensures s[0] == '-' <==> i < 0
    ensures var digits := if i < 0 then s[1..] else s;
      |digits| >= 1 && (digits[0] == '0' ==> i == 0 && s == "0")
  {
    if i < 0 then
      var digits := NatDigits(-i);
      NatDigitsValue(-i);
      assert ("-" + digits)[1..] == digits;
      "-" + digits
    else
      NatDigitsValue(i);
      NatDigits(i)
  }

  /** The value of a string of decimal digits. */
  function DigitsValue(s: string): nat
    requires IsDigits(s)
  {
    if s == [] then 0 else DigitsValue(s[..|s| - 1]) * 10 + (s[|s| - 1] as int - 48)
  }

  /** `int(s)` for a string in the form `str` produces. */
  function ParseDecimal(s: string): int
    requires |s| >= 1 && (s[0] == '-' || '0' <= s[0] <= '9') && IsDigits(s[1..])
  {
    if s[0] == '-' then -(DigitsValue(s[1..]) as int) else DigitsValue(s)
  }

  lemma {:induction false} NatDigitsValue(n: nat)
    ensures DigitsValue(NatDigits(n)) == n
    decreases n
  {
    if n >= 10 {
      NatDigitsValue(n / 10);
      var s := NatDigits(n);
      assert s[..|s| - 1] == NatDigits(n / 10);
    }
  }

  /**
   * The number of `%s` placeholders in a query text: the positions where a
   * `%` is immediately followed by an `s`.
   */
  function Placeholders(s: string): nat
    decreases |s|
  {
    if |s| < 2 then 0 else (if s[0] == '%' && s[1] == 's' then 1 else 0) + Placeholders(s[1..])
  }

  /** A text in which no `%` is followed by `s` holds no placeholder. */
  lemma {:induction false} NoPlaceholders(s: string)
    requires forall i :: 0 <= i < |s| - 1 ==> !(s[i] == '%' && s[i + 1] == 's')
    ensures Placeholders(s) == 0
    decreases |s|
  {
    if |s| >= 2 {
      NoPlaceholders(s[1..]);
    }
  }

  /**
   * Placeholders add up over a concatenation as long as the second part does
   * not start with an `s` that could complete a `%` ending the first part.
   */
  lemma {:induction false} PlaceholdersAppend(a: string, b: string)
    requires b == [] || b[0] != 's'
    ensures Placeholders(a + b) == Placeholders(a) + Placeholders(b)
    decreases |a|
  {
    if |a| == 0 {
      assert a + b == b;
    } else if |a| == 1 {
      if |b| >= 1 {
        assert (a + b)[1..] == b;
      }
    } else {
      PlaceholdersAppend(a[1..], b);
      assert (a + b)[1..] == a[1..] + b;
    }
  }

  /** A clause made of placeholder-free text followed by `%s` holds exactly one placeholder. */
  lemma OnePlaceholder(prefix: string)
    requires '%' !in prefix
    ensures Placeholders(prefix + "%s") == 1
  {
    NoPlaceholders(prefix);
    PlaceholdersAppend(prefix, "%s");
  }

  /** An upper-cased text holds no placeholder: it has no lower-case `s`. */
  lemma UpperHasNoPlaceholders(s: string)
    ensures Placeholders(Upper(s)) == 0
  {
    NoPlaceholders(Upper(s));
  }
}
