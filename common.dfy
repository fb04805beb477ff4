/** Small value types and string helpers shared by the modules of this model:
    an Option type, integer bounds, and the few functions of Go's `strings` and
    `unicode` packages that the modelled code calls. */
module Common {

  datatype Option<+T> = None | Some(value: T)

  function Min(a: int, b: int): int { if a <= b then a else b }

  function Max(a: int, b: int): int { if a >= b then a else b }

  /** The largest Go `int` (64-bit). */
  const MaxInt: int := 0x7fff_ffff_ffff_ffff

  /** The smallest Go `int64`. */
  const MinInt: int := -0x8000_0000_0000_0000

  /** `time.Second`, as a `time.Duration` in nanoseconds. */
  const Second: int := 1_000_000_000

  predicate IsDigit(c: char) { '0' <= c <= '9' }

  predicate AllDigits(s: string)
  {
    forall i | 0 <= i < |s| :: IsDigit(s[i])
  }

  /** The value of a string of decimal digits. */
  function DigitsValue(s: string): nat
    requires AllDigits(s)
  {
    if s == [] then 0 else 10 * DigitsValue(s[..|s| - 1]) + (s[|s| - 1] as int - '0' as int)
  }

  /** The text after the optional sign `strconv.ParseInt` accepts in front
      of the digits. */
  function Unsigned(s: string): (digits: string)
    ensures s != [] && (s[0] == '+' || s[0] == '-') ==> s == [s[0]] + digits
    ensures s == [] || (s[0] != '+' && s[0] != '-') ==> digits == s
  {
    if s != [] && (s[0] == '+' || s[0] == '-') then s[1..] else s
  }

  /** The value of digits after an optional sign, negated after a "-". */
  function SignedValue(s: string): int
    requires s != [] && AllDigits(Unsigned(s))
  {
    var magnitude: int := DigitsValue(Unsigned(s));
    if s[0] == '-' then -magnitude else magnitude
  }

  /** `strconv.ParseInt(s, 10, 64)`: an optional sign, then one or more
      decimal digits whose value fits a 64-bit integer; `None` for every
      input the Go function answers with an error. Leading zeros and a
      leading "+" are accepted. */
  function ParseInt(s: string): (r: Option<int>)
    ensures r.Some? <==>
              && s != [] && Unsigned(s) != [] && AllDigits(Unsigned(s))
              && MinInt <= SignedValue(s) <= MaxInt
    ensures r.Some? ==> r.value == SignedValue(s)
    ensures r.Some? ==> MinInt <= r.value <= MaxInt
  {
    if s == [] || Unsigned(s) == [] || !AllDigits(Unsigned(s)) then None
    else if MinInt <= SignedValue(s) <= MaxInt then Some(SignedValue(s))
    else None
  }

  /** Leading zeros and a "+" sign are read; a sign alone and a trailing
      non-digit are errors. */
  lemma ParseIntExamples()
    ensures ParseInt("007") == Some(7)
    ensures ParseInt("+5") == Some(5)
    ensures ParseInt("-") == None
    ensures ParseInt("1x") == None
  {
    assert Unsigned("007") == "007" && DigitsValue("007") == 7 by {
      assert "007"[..2] == "00" && "00"[..1] == "0" && "0"[..0] == "";
    }
    assert Unsigned("+5") == "5" && DigitsValue("5") == 5 by {
      assert "5"[..0] == "";
    }
    assert !AllDigits(Unsigned("1x")) by {
      assert Unsigned("1x")[1] == 'x';
    }
  }

  /** The decimal digits of `n`, as `strconv.FormatInt` writes them. */
  function Decimal(n: nat): (s: string)
    ensures s != [] && AllDigits(s)
  {
    if n < 10 then [('0' as int + n) as char]
    else Decimal(n / 10) + [('0' as int + n % 10) as char]
  }

  lemma {:induction false} DecimalValue(n: nat)
    ensures DigitsValue(Decimal(n)) == n
  {
    if n >= 10 {
      DecimalValue(n / 10);
      var s := Decimal(n);
      assert s[..|s| - 1] == Decimal(n / 10);
    }
  }

  /** `ParseInt` reads back every 64-bit integer as `strconv.FormatInt` writes it. */
  lemma ParseFormatted(n: int)
    requires MinInt <= n <= MaxInt
    ensures ParseInt(if n < 0 then "-" + Decimal(-n) else Decimal(n)) == Some(n)
  {
    if n < 0 {
      ParseNegative(-n);
    } else {
      DecimalValue(n);
    }
  }

  lemma ParseNegative(m: nat)
    requires 0 < m <= -MinInt
    ensures ParseInt("-" + Decimal(m)) == Some(0 - m as int)
  {
    DecimalValue(m);
    var s := "-" + Decimal(m);
    assert s[0] == '-' && s[1..] == Decimal(m);
  }

  /** `strings.HasPrefix`. */
  predicate HasPrefix(s: string, prefix: string)
  {
    |prefix| <= |s| && s[..|prefix|] == prefix
  }

  /** `strings.TrimPrefix`: drops `prefix` once when `s` starts with it. */
  function TrimPrefix(s: string, prefix: string): (r: string)
    ensures HasPrefix(s, prefix) ==> s == prefix + r
    ensures !HasPrefix(s, prefix) ==> r == s
  {
    if HasPrefix(s, prefix) then s[|prefix|..] else s
  }

  /** Lower-casing of one character; only the ASCII letters are mapped. */
  function LowerChar(c: char): char
  {
    if 'A' <= c <= 'Z' then (c as int + 32) as char else c
  }

  predicate IsUpper(c: char) { 'A' <= c <= 'Z' }

  /** `strings.ToLower`, restricted to ASCII case mapping. */
  function ToLower(s: string): (r: string)
    ensures |r| == |s|
    ensures forall i | 0 <= i < |s| :: r[i] == LowerChar(s[i])
  {
    if s == [] then [] else [LowerChar(s[0])] + ToLower(s[1..])
  }

  /** `unicode.IsSpace`: the Unicode White_Space code points. */
  predicate IsSpace(c: char)
  {
    c == '\t' || c == '\n' || c == '\U{000B}' || c == '\U{000C}' || c == '\r' || c == ' '
    || c == '\U{0085}' || c == '\U{00A0}' || c == '\U{1680}'
    || ('\U{2000}' <= c <= '\U{200A}')
    || c == '\U{2028}' || c == '\U{2029}' || c == '\U{202F}' || c == '\U{205F}' || c == '\U{3000}'
  }

  /** `strings.TrimSpace(s) == ""`: every character of `s` is white space. */
  predicate AllSpace(s: string)
  {
    forall i | 0 <= i < |s| :: IsSpace(s[i])
  }

  /** True when `sub` occurs in `s` starting at position `i`. */
  predicate OccursAt(s: string, sub: string, i: int)
  {
    0 <= i && i + |sub| <= |s| && s[i..i + |sub|] == sub
  }

  /** `strings.Index`: the first position where `sub` occurs, or -1. */
  function IndexOf(s: string, sub: string): (r: int)
    ensures -1 <= r <= |s|
    ensures r >= 0 ==> OccursAt(s, sub, r)
    ensures r >= 0 ==> forall j | 0 <= j < r :: !OccursAt(s, sub, j)
    ensures r == -1 ==> forall j | 0 <= j <= |s| :: !OccursAt(s, sub, j)
  {
    IndexFrom(s, sub, 0)
  }

  function IndexFrom(s: string, sub: string, from: nat): (r: int)
    requires from <= |s|
    ensures r == -1 || from <= r <= |s|
    ensures r >= 0 ==> OccursAt(s, sub, r)
    ensures r >= 0 ==> forall j | from <= j < r :: !OccursAt(s, sub, j)
    ensures r == -1 ==> forall j | from <= j <= |s| :: !OccursAt(s, sub, j)
    decreases |s| - from
  {
    if OccursAt(s, sub, from) then from
    else if from == |s| then -1
    else IndexFrom(s, sub, from + 1)
  }

  /** `strings.Index` for a single character: the first position of `c`, or -1. */
  function FirstIndexOf(s: string, c: char): (r: int)
    ensures -1 <= r < |s|
    ensures r >= 0 ==> s[r] == c && forall j | 0 <= j < r :: s[j] != c
    ensures r == -1 ==> forall j | 0 <= j < |s| :: s[j] != c
  {
    if s == [] then -1
    else if s[0] == c then 0
    else var r := FirstIndexOf(s[1..], c); if r < 0 then -1 else r + 1
  }

  /** `strings.LastIndex` for a single character: the last position of `c`, or -1. */
  function LastIndexOf(s: string, c: char): (r: int)
    ensures -1 <= r < |s|
    ensures r >= 0 ==> s[r] == c && forall j | r < j < |s| :: s[j] != c
    ensures r == -1 ==> forall j | 0 <= j < |s| :: s[j] != c
  {
    if s == [] then -1
    else if s[|s| - 1] == c then |s| - 1
    else LastIndexOf(s[..|s| - 1], c)
  }

  /** `strings.Cut`: the text before and after the first `sep`, and whether it was found;
      when it is not found the whole text is `before` and `after` is empty. */
  function Cut(s: string, sep: string): (r: (string, string, bool))
    ensures r.2 ==> s == r.0 + sep + r.1
    ensures r.2 ==> forall j | 0 <= j < |r.0| :: !OccursAt(s, sep, j)
    ensures !r.2 ==> r.0 == s && r.1 == [] && forall j | 0 <= j <= |s| :: !OccursAt(s, sep, j)
  {
    var i := IndexOf(s, sep);
    if i < 0 then (s, [], false) else (s[..i], s[i + |sep|..], true)
  }

  /** A non-empty sequence is its prefix followed by its last element. */
  lemma SplitLast<T>(s: seq<T>)
    requires s != []
    ensures s == s[..|s| - 1] + [s[|s| - 1]]
  {
  }

  /** Taking one more element of `s`. */
  lemma TakeSnoc<T>(s: seq<T>, j: nat)
    requires j < |s|
    ensures s[..j + 1] == s[..j] + [s[j]]
  {
  }
}
