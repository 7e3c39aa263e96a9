/** The text operations of the source's library that the log parser uses. */
module Text {
  import opened Common

  /** Unicode white space. */
  predicate IsSpace(c: char) {
    c == ' ' || c == '\t' || c == '\n' || c == '\r' || c == '\U{0B}' || c == '\U{0C}' || c == '\U{85}' || c == '\U{A0}'
    || c == '\U{1680}' || '\U{2000}' <= c <= '\U{200A}' || c == '\U{2028}' || c == '\U{2029}' || c == '\U{202F}'
    || c == '\U{205F}' || c == '\U{3000}'
  }

  predicate NoSpace(s: string) { forall c | c in s :: !IsSpace(c) }

  function TrimStart(s: string): string {
    if s != [] && IsSpace(s[0]) then TrimStart(s[1..]) else s
  }

  function TrimEnd(s: string): string {
    if s != [] && IsSpace(s[|s| - 1]) then TrimEnd(s[..|s| - 1]) else s
  }

  function Trim(s: string): string { TrimEnd(TrimStart(s)) }

  /** No white space at either end. */
  predicate Trimmed(s: string) { s != [] ==> !IsSpace(s[0]) && !IsSpace(s[|s| - 1]) }

  /** Drops blanks only, not other white space. */
  function TrimBlanks(s: string): string {
    if s != [] && s[0] == ' ' then TrimBlanks(s[1..]) else s
  }

  /** The position of the first `c`, if there is one. */
  function Index(s: string, c: char): (r: Option<nat>)
    ensures r.Some? ==> r.value < |s|
  {
    if s == [] then None
    else if s[0] == c then Some(0)
    else match Index(s[1..], c) case Some(i) => Some(i + 1) case None => None
  }

  function Word(s: string): (w: string)
    ensures |w| <= |s|
  {
    if s == [] || IsSpace(s[0]) then [] else [s[0]] + Word(s[1..])
  }

  /** The words between white space. */
  function Fields(s: string): seq<string>
    decreases |s|
  {
    var t := TrimStart(s);
    TrimStartShorter(s);
    if t == [] then [] else [Word(t)] + Fields(t[|Word(t)|..])
  }

  lemma TrimStartShorter(s: string)
    ensures |TrimStart(s)| <= |s|
    ensures TrimStart(s) != [] ==> Word(TrimStart(s)) != []
  {
  }

  function Digit(d: nat): char
    requires d < 10
  {
    '0' + d as char
  }

  function Decimal(n: nat): string {
    if n < 10 then [Digit(n)] else Decimal(n / 10) + [Digit(n % 10)]
  }

  predicate IsDigit(c: char) { '0' <= c <= '9' }

  function Value(s: string): int {
    if s == [] then 0 else Value(s[..|s| - 1]) * 10 + (s[|s| - 1] as int - '0' as int)
  }

  const MAX_INT64: int := 0x7FFF_FFFF_FFFF_FFFF

  /** The library's decimal parser: an optional sign, then digits, within 64 bits. */
  function ParseInt(s: string): Option<int> {
    var signed := s != [] && (s[0] == '-' || s[0] == '+');
    var digits := if signed then s[1..] else s;
    if digits == [] || exists c :: c in digits && !IsDigit(c) then None
    else
      var v := if signed && s[0] == '-' then -Value(digits) else Value(digits);
      if -MAX_INT64 - 1 <= v <= MAX_INT64 then Some(v) else None
  }

  // ---- facts ----

  lemma {:induction false} TrimmedStays(s: string)
    ensures Trim(s) == s <==> Trimmed(s)
  {
    if s != [] && IsSpace(s[0]) {
      TrimStartShorter(s[1..]);
      TrimEndShorter(TrimStart(s));
    } else if s != [] && IsSpace(s[|s| - 1]) {
      TrimEndShorter(s[..|s| - 1]);
    }
  }

  lemma {:induction false} TrimEndShorter(s: string)
    ensures |TrimEnd(s)| <= |s|
  {
    if s != [] && IsSpace(s[|s| - 1]) {
      TrimEndShorter(s[..|s| - 1]);
    }
  }

  lemma {:induction false} IndexAfter(a: string, c: char, rest: string)
    requires c !in a
    ensures Index(a + [c] + rest, c) == Some(|a|)
  {
    if a == [] {
      assert a + [c] + rest == [c] + rest;
    } else {
      IndexAfter(a[1..], c, rest);
      assert (a + [c] + rest)[1..] == a[1..] + [c] + rest;
      assert a[0] in a;
    }
  }

  lemma {:induction false} WordBefore(w: string, c: char, rest: string)
    requires NoSpace(w) && IsSpace(c)
    ensures Word(w + [c] + rest) == w && Word(w) == w
  {
    if w == [] {
      assert w + [c] + rest == [c] + rest;
    } else {
      assert w[0] in w;
      WordBefore(w[1..], c, rest);
      assert (w + [c] + rest)[1..] == w[1..] + [c] + rest;
    }
  }

  lemma FieldsStep(w: string, rest: string)
    requires w != [] && NoSpace(w)
    ensures Fields(w + [' '] + rest) == [w] + Fields([' '] + rest)
    ensures Fields(w) == [w]
  {
    assert w[0] in w;
    WordBefore(w, ' ', rest);
    var s := w + [' '] + rest;
    assert s[0] == w[0] && TrimStart(s) == s && s[|w|..] == [' '] + rest;
    assert TrimStart(w) == w && w[|w|..] == [];
    assert Fields([]) == [];
  }

  lemma FieldsBlank(rest: string)
    ensures Fields([' '] + rest) == Fields(rest)
  {
    assert ([' '] + rest)[1..] == rest;
  }

  lemma {:induction false} DecimalIsValue(n: nat)
    ensures Value(Decimal(n)) == n && Decimal(n) != []
    ensures forall c | c in Decimal(n) :: IsDigit(c)
  {
    if n < 10 {
      assert Value([]) == 0;
      assert [Digit(n)][..0] == [];
    } else {
      DecimalIsValue(n / 10);
      assert (Decimal(n / 10) + [Digit(n % 10)])[..|Decimal(n)| - 1] == Decimal(n / 10);
    }
  }

  lemma DigitsParse(d: string)
    requires d != [] && forall c | c in d :: IsDigit(c)
    requires 0 <= Value(d) <= MAX_INT64
    ensures ParseInt(d) == Some(Value(d))
  {
    assert d[0] in d;
  }

  lemma DigitsAreText(d: string)
    requires d != [] && forall c | c in d :: IsDigit(c)
    ensures NoSpace(d) && Trim(d) == d && '"' !in d
  {
    assert d[0] in d && d[|d| - 1] in d;
    TrimmedStays(d);
  }

  lemma DecimalParses(n: nat)
    requires n <= MAX_INT64
    ensures ParseInt(Decimal(n)) == Some(n)
    ensures NoSpace(Decimal(n)) && Trim(Decimal(n)) == Decimal(n) && '"' !in Decimal(n)
  {
    DecimalIsValue(n);
    DigitsParse(Decimal(n));
    DigitsAreText(Decimal(n));
  }
}
