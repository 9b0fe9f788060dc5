/**
 * The string operations the core relies on, over `seq<char>`: ASCII lower-casing,
 * prefixes, first-occurrence search (`str::find`), splitting on one character
 * (`str::split`), decimal formatting (`u64::to_string`) and parsing
 * (`str::parse::<uN>`), and the byte-wise order SQLite uses for TEXT.
 */
module Strings {
  import opened Wrappers

  // ---------------------------------------------------------------- case

  predicate IsUpper(c: char) { 'A' <= c <= 'Z' }

  function LowerChar(c: char): (d: char)
    ensures !IsUpper(d)
    ensures !IsUpper(c) ==> d == c
  {
    if IsUpper(c) then (c as int + 32) as char else c
  }

  /** Lower-cases every ASCII letter of `s` and leaves every other character alone. */
  function Lower(s: string): (r: string)
    ensures |r| == |s|
    ensures forall i :: 0 <= i < |r| ==> r[i] == LowerChar(s[i])
    ensures forall i :: 0 <= i < |r| ==> !IsUpper(r[i])
  {
    seq(|s|, i requires 0 <= i < |s| => LowerChar(s[i]))
  }

  // ---------------------------------------------------------------- search

  /** `s.starts_with(p)`. */
  predicate IsPrefix(p: string, s: string) {
    |p| <= |s| && s[..|p|] == p
  }

  /** `needle` occurs in `hay` starting at character `i`. */
  predicate OccursAt(needle: string, hay: string, i: nat) {
    i + |needle| <= |hay| && hay[i..i + |needle|] == needle
  }

  /**
   * `hay.find(needle)`: the start of the first occurrence of `needle` in `hay`
   * at or after `from`, or None.  The empty needle occurs at `from`.
   */
  function FindFrom(hay: string, needle: string, from: nat): (r: Option<nat>)
    requires from <= |hay|
    ensures r.Some? ==> from <= r.value && OccursAt(needle, hay, r.value)
    ensures r.Some? ==> forall j :: from <= j < r.value ==> !OccursAt(needle, hay, j)
    ensures r.None? ==> forall j :: from <= j <= |hay| ==> !OccursAt(needle, hay, j)
    decreases |hay| - from
  {
    if OccursAt(needle, hay, from) then Some(from)
    else if from + |needle| >= |hay| then None
    else FindFrom(hay, needle, from + 1)
  }

  function Find(hay: string, needle: string): (r: Option<nat>)
    ensures r.Some? ==> OccursAt(needle, hay, r.value)
    ensures r.Some? ==> forall j :: 0 <= j < r.value ==> !OccursAt(needle, hay, j)
    ensures r.None? ==> forall j :: 0 <= j <= |hay| ==> !OccursAt(needle, hay, j)
  {
    FindFrom(hay, needle, 0)
  }

  /** Index of the first `c` in `s`. */
  function IndexOf(s: string, c: char): (k: nat)
    requires c in s
    ensures k < |s| && s[k] == c && c !in s[..k]
  {
    if s[0] == c then 0
    else
      assert c in s[1..];
      var k := IndexOf(s[1..], c);
      assert s[..k + 1] == [s[0]] + s[1..][..k];
      k + 1
  }

  // ---------------------------------------------------------------- split

  /** The parts joined back with `sep` in between. */
  function Join(parts: seq<string>, sep: char): string
    requires |parts| >= 1
  {
    if |parts| == 1 then parts[0] else parts[0] + [sep] + Join(parts[1..], sep)
  }

  predicate NoneContains(parts: seq<string>, sep: char) {
    forall i :: 0 <= i < |parts| ==> sep !in parts[i]
  }

  /**
   * `s.split(sep)`: the maximal `sep`-free pieces between the separators, in
   * order, empty pieces included; there is always at least one piece.
   */
  function Split(s: string, sep: char): (parts: seq<string>)
    ensures |parts| >= 1
    ensures NoneContains(parts, sep)
    ensures Join(parts, sep) == s
    decreases |s|
  {
    if sep !in s then [s]
    else
      var k := IndexOf(s, sep);
      var rest := Split(s[k + 1..], sep);
      assert s == s[..k] + [sep] + s[k + 1..];
      [s[..k]] + rest
  }

  /** Splitting a join of separator-free parts gives the parts back. */
  lemma {:induction false} SplitOfJoin(parts: seq<string>, sep: char)
    requires |parts| >= 1 && NoneContains(parts, sep)
    ensures Split(Join(parts, sep), sep) == parts
    decreases |parts|
  {
    if |parts| > 1 {
      var s := Join(parts, sep);
      var tail := Join(parts[1..], sep);
      assert s == parts[0] + [sep] + tail;
      assert s[|parts[0]|] == sep;
      assert sep in s;
      assert s[..|parts[0]|] == parts[0];
      var k := IndexOf(s, sep);
      assert sep !in parts[0];
      assert k == |parts[0]|;
      assert s[k + 1..] == tail;
      SplitOfJoin(parts[1..], sep);
    }
  }

  /** Joining two lists of parts is joining each and putting a separator between. */
  lemma {:induction false} JoinConcat(p: seq<string>, q: seq<string>, sep: char)
    requires |p| >= 1 && |q| >= 1
    ensures Join(p + q, sep) == Join(p, sep) + [sep] + Join(q, sep)
    decreases |p|
  {
    if |p| > 1 {
      assert (p + q)[1..] == p[1..] + q;
      JoinConcat(p[1..], q, sep);
    } else {
      assert (p + q)[1..] == q;
    }
  }

  /** Splitting at one separator more splits each side on its own. */
  lemma {:induction false} SplitConcat(a: string, b: string, sep: char)
    ensures Split(a + [sep] + b, sep) == Split(a, sep) + Split(b, sep)
  {
    var p, q := Split(a, sep), Split(b, sep);
    JoinConcat(p, q, sep);
    assert NoneContains(p + q, sep) by {
      forall i | 0 <= i < |p + q| ensures sep !in (p + q)[i] {
        if i < |p| { assert (p + q)[i] == p[i]; } else { assert (p + q)[i] == q[i - |p|]; }
      }
    }
    SplitOfJoin(p + q, sep);
  }

  /** The split of `a + [sep] + b` when neither side holds `sep`. */
  lemma SplitTwo(a: string, b: string, sep: char)
    requires sep !in a && sep !in b
    ensures Split(a + [sep] + b, sep) == [a, b]
  {
    assert Join([a, b], sep) == a + [sep] + b by {
      assert [a, b][1..] == [b];
    }
    SplitOfJoin([a, b], sep);
  }

  // ---------------------------------------------------------------- decimal

  predicate IsDigit(c: char) { '0' <= c <= '9' }

  predicate AllDigits(s: string) { forall i :: 0 <= i < |s| ==> IsDigit(s[i]) }

  function DigitChar(d: nat): (c: char)
    requires d < 10
    ensures IsDigit(c)
  {
    ('0' as int + d) as char
  }

  /** The number a run of decimal digits stands for, most significant first. */
  function DecimalValue(s: string): nat
    requires AllDigits(s)
  {
    if s == [] then 0
    else DecimalValue(s[..|s| - 1]) * 10 + (s[|s| - 1] as int - '0' as int)
  }

  /** `n.to_string()`: the shortest decimal spelling of `n`. */
  function NatToString(n: nat): (s: string)
    ensures |s| >= 1 && AllDigits(s)
    ensures DecimalValue(s) == n
    ensures |s| > 1 ==> s[0] != '0'
  {
    if n < 10 then [DigitChar(n)]
    else
      var s := NatToString(n / 10) + [DigitChar(n % 10)];
      assert s[..|s| - 1] == NatToString(n / 10);
      s
  }

  /**
   * Rust's `str::parse` for an unsigned type whose values are below `bound`:
   * an optional leading `+`, then one or more ASCII digits; anything else,
   * including the empty string, `+` alone, a `-` sign and a value that does not
   * fit, is an error.
   */
  function ParseUnsigned(s: string, bound: nat): (r: Option<nat>)
    ensures r.Some? ==> r.value < bound
    ensures r.Some? ==> |s| >= 1 && (IsDigit(s[0]) || s[0] == '+')
  {
    var digits := if |s| >= 1 && s[0] == '+' then s[1..] else s;
    if digits == [] || !AllDigits(digits) then None
    else if DecimalValue(digits) < bound then Some(DecimalValue(digits))
    else None
  }

  /** Every number below the bound survives formatting and parsing. */
  lemma {:induction false} ParseFormat(n: nat, bound: nat)
    ensures ParseUnsigned(NatToString(n), bound) == (if n < bound then Some(n) else None)
  {
    var s := NatToString(n);
    assert s[0] != '+' by { assert IsDigit(s[0]); }
  }

  /** `k` zero digits. */
  function Zeros(k: nat): (z: string)
    ensures |z| == k && AllDigits(z)
    ensures forall i :: 0 <= i < k ==> z[i] == '0'
  {
    seq(k, _ => '0')
  }

  /** Leading zeros do not change the value of a run of digits. */
  lemma {:induction false} LeadingZerosValue(k: nat, t: string)
    requires AllDigits(t)
    ensures AllDigits(Zeros(k) + t)
    ensures DecimalValue(Zeros(k) + t) == DecimalValue(t)
    decreases |t|
  {
    var z := Zeros(k);
    var s := z + t;
    assert AllDigits(s) by {
      forall i | 0 <= i < |s| ensures IsDigit(s[i]) {
        if i < k { assert s[i] == z[i]; } else { assert s[i] == t[i - k]; }
      }
    }
    if t == [] {
      assert s == z;
      ZerosValue(k);
    } else {
      var t' := t[..|t| - 1];
      assert s[..|s| - 1] == z + t';
      assert s[|s| - 1] == t[|t| - 1];
      LeadingZerosValue(k, t');
    }
  }

  /** A run of zeros stands for 0. */
  lemma {:induction false} ZerosValue(k: nat)
    ensures DecimalValue(Zeros(k)) == 0
  {
    if k > 0 {
      assert Zeros(k)[..k - 1] == Zeros(k - 1);
      ZerosValue(k - 1);
    }
  }

  /** A run of digits that does not start with `0` stands for a positive number. */
  lemma {:induction false} LeadingNonZeroPositive(d: string)
    requires |d| >= 1 && AllDigits(d) && d[0] != '0'
    ensures DecimalValue(d) > 0
    decreases |d|
  {
    if |d| > 1 {
      LeadingNonZeroPositive(d[..|d| - 1]);
    }
  }

  /** The shortest spelling of a number is the only spelling without a leading zero. */
  lemma {:induction false} CanonicalSpelling(d: string)
    requires |d| >= 1 && AllDigits(d) && (|d| > 1 ==> d[0] != '0')
    ensures NatToString(DecimalValue(d)) == d
    decreases |d|
  {
    var c := d[|d| - 1];
    var digit := c as int - '0' as int;
    assert DigitChar(digit) == c;
    if |d| == 1 {
      assert d == [c];
    } else {
      var d' := d[..|d| - 1];
      LeadingNonZeroPositive(d');
      CanonicalSpelling(d');
      var n := DecimalValue(d);
      assert n == DecimalValue(d') * 10 + digit;
      assert n / 10 == DecimalValue(d') && n % 10 == digit;
      assert d == d' + [c];
    }
  }

  lemma ZerosConcat(a: nat, b: nat, t: string)
    ensures Zeros(a) + (Zeros(b) + t) == Zeros(a + b) + t
  {
    assert Zeros(a) + Zeros(b) == Zeros(a + b);
  }

  /** Every run of digits is some zeros followed by the shortest spelling of its value. */
  lemma {:induction false} DigitsAreZerosThenCanonical(d: string)
    requires |d| >= 1 && AllDigits(d)
    ensures |NatToString(DecimalValue(d))| <= |d|
    ensures d == Zeros(|d| - |NatToString(DecimalValue(d))|) + NatToString(DecimalValue(d))
    decreases |d|
  {
    if |d| == 1 || d[0] != '0' {
      CanonicalSpelling(d);
      assert d == Zeros(0) + d;
    } else {
      var rest := d[1..];
      DigitsAreZerosThenCanonical(rest);
      LeadingZerosValue(1, rest);
      var c := NatToString(DecimalValue(rest));
      var k := |rest| - |c|;
      assert d == Zeros(1) + rest;
      ZerosConcat(1, k, c);
    }
  }

  /** What an accepted string's digits are: the string without its `+`. */
  lemma ParsedDigits(s: string, bound: nat)
    requires ParseUnsigned(s, bound).Some?
    ensures var digits := if |s| >= 1 && s[0] == '+' then s[1..] else s;
      |digits| >= 1 && AllDigits(digits) && DecimalValue(digits) == ParseUnsigned(s, bound).value
  {
  }

  /** Every accepted string is an optional `+`, leading zeros and the shortest spelling. */
  lemma ParsedIsSpelling(s: string, bound: nat, n: nat)
    requires ParseUnsigned(s, bound) == Some(n)
    ensures n < bound
    ensures exists k: nat :: s == Zeros(k) + NatToString(n) || s == "+" + Zeros(k) + NatToString(n)
  {
    var plus := |s| >= 1 && s[0] == '+';
    var digits := if plus then s[1..] else s;
    ParsedDigits(s, bound);
    DigitsAreZerosThenCanonical(digits);
    var k := |digits| - |NatToString(n)|;
    var body := Zeros(k) + NatToString(n);
    assert digits == body;
    if plus {
      assert s == "+" + body;
      assert "+" + body == "+" + Zeros(k) + NatToString(n);
    }
  }

  /** Every such spelling of a value below the bound is accepted. */
  lemma SpellingIsParsed(s: string, bound: nat, n: nat, k: nat)
    requires n < bound
    requires s == Zeros(k) + NatToString(n) || s == "+" + Zeros(k) + NatToString(n)
    ensures ParseUnsigned(s, bound) == Some(n)
  {
    var body := Zeros(k) + NatToString(n);
    LeadingZerosValue(k, NatToString(n));
    assert |body| >= 1 && IsDigit(body[0]);
    var digits := if |s| >= 1 && s[0] == '+' then s[1..] else s;
    if s == body {
      assert s[0] != '+';
      assert digits == body;
    } else {
      assert s[1..] == body;
      assert digits == body;
    }
  }

  /**
   * Exactly the spellings `str::parse` accepts: an optional `+`, any number of
   * leading zeros, then the shortest decimal spelling of a value below the bound.
   */
  lemma ParseUnsignedSpellings(s: string, bound: nat, n: nat)
    ensures ParseUnsigned(s, bound) == Some(n) <==>
      n < bound && exists k: nat :: s == Zeros(k) + NatToString(n) || s == "+" + Zeros(k) + NatToString(n)
  {
    if ParseUnsigned(s, bound) == Some(n) {
      ParsedIsSpelling(s, bound, n);
    }
    if n < bound && exists k: nat :: s == Zeros(k) + NatToString(n) || s == "+" + Zeros(k) + NatToString(n) {
      var k: nat :| s == Zeros(k) + NatToString(n) || s == "+" + Zeros(k) + NatToString(n);
      SpellingIsParsed(s, bound, n, k);
    }
  }

  /** A leading minus sign is rejected: the parsed types are unsigned. */
  lemma {:induction false} ParseRejectsSigns(s: string, bound: nat)
    requires |s| >= 1 && s[0] == '-'
    ensures ParseUnsigned(s, bound) == None
  {
    assert !IsDigit(s[0]);
  }

  // ---------------------------------------------------------------- order

  /** Strict lexicographic order by character code (SQLite's BINARY collation). */
  predicate StrLt(a: string, b: string) {
    if |a| == 0 then |b| > 0
    else if |b| == 0 then false
    else if a[0] < b[0] then true
    else if a[0] == b[0] then StrLt(a[1..], b[1..])
    else false
  }

  lemma {:induction false} StrLtIrreflexive(a: string)
    ensures !StrLt(a, a)
  {
    if |a| > 0 { StrLtIrreflexive(a[1..]); }
  }

  lemma {:induction false} StrLtTransitive(a: string, b: string, c: string)
    requires StrLt(a, b) && StrLt(b, c)
    ensures StrLt(a, c)
  {
    if |a| > 0 && |b| > 0 && |c| > 0 && a[0] == b[0] && b[0] == c[0] {
      StrLtTransitive(a[1..], b[1..], c[1..]);
    }
  }

  /** Any two different strings are ordered one way or the other. */
  lemma {:induction false} StrLtTotal(a: string, b: string)
    requires a != b
    ensures StrLt(a, b) || StrLt(b, a)
  {
    if |a| > 0 && |b| > 0 && a[0] == b[0] {
      assert a == [a[0]] + a[1..] && b == [b[0]] + b[1..];
      StrLtTotal(a[1..], b[1..]);
    }
  }

  lemma {:induction false} StrLtAsymmetric(a: string, b: string)
    requires StrLt(a, b)
    ensures !StrLt(b, a)
  {
    if |a| > 0 && |b| > 0 && a[0] == b[0] {
      StrLtAsymmetric(a[1..], b[1..]);
    }
  }
}
