/** Decimal text: canonical uint64s, the zero-padded sequence key of platform/observation_columns.go, and
    comma-separated counter lists. */
module Codec {
  import opened Bounded
  import opened Ordering

  function DigitChar(d: nat): char
    requires d < 10
  {
    '0' + d as char
  }

  predicate IsDigit(c: char) {
    '0' <= c <= '9'
  }

  function DigitValue(c: char): nat
    requires IsDigit(c)
  {
    (c - '0') as nat
  }

  /** strconv.FormatUint in base ten. */
  function Decimal(n: nat): string {
    if n < 10 then [DigitChar(n)] else Decimal(n / 10) + [DigitChar(n % 10)]
  }

  predicate AllDigits(s: string) {
    forall i | 0 <= i < |s| :: IsDigit(s[i])
  }

  function Value(s: string): nat
    requires AllDigits(s)
  {
    if s == [] then 0 else Value(s[..|s| - 1]) * 10 + DigitValue(s[|s| - 1])
  }

  /** strconv.ParseUint in base ten and 64 bits. */
  function ParseUint(s: string): Option<U64> {
    if s == [] || !AllDigits(s) || Value(s) > MAX_UINT64 then None else Some(Value(s))
  }

  /** Accepts decimal digits with no sign and no leading zero. */
  function ParseCanonical(s: string): Option<U64> {
    if s == [] || !IsDigit(s[0]) || (|s| > 1 && s[0] == '0') then None else ParseUint(s)
  }

  predicate Canonical(s: string) {
    s != [] && AllDigits(s) && (|s| > 1 ==> s[0] != '0')
  }

  lemma {:induction false} DecimalDigits(n: nat)
    ensures Canonical(Decimal(n)) && Value(Decimal(n)) == n && (n > 0 ==> Decimal(n)[0] != '0')
  {
    if n >= 10 {
      DecimalDigits(n / 10);
      var init, last := Decimal(n / 10), DigitChar(n % 10);
      assert (init + [last])[..|init|] == init;
    }
  }

  lemma {:induction false} CanonicalPositive(s: string)
    requires Canonical(s) && s[0] != '0'
    ensures Value(s) > 0
  {
    if |s| > 1 {
      CanonicalPositive(s[..|s| - 1]);
    }
  }

  lemma {:induction false} CanonicalIsDecimal(s: string)
    requires Canonical(s)
    ensures s == Decimal(Value(s))
  {
    var init, last := s[..|s| - 1], s[|s| - 1];
    assert s == init + [last];
    if |s| > 1 {
      CanonicalIsDecimal(init);
      CanonicalPositive(init);
      assert Value(s) / 10 == Value(init) && Value(s) % 10 == DigitValue(last);
    }
  }

  /** Printing then parsing returns the number. */
  lemma ParsePrints(n: U64)
    ensures ParseCanonical(Decimal(n)) == Some(n)
  {
    DecimalDigits(n);
  }

  /** Parsing then printing returns the text: nothing else is accepted for the number. */
  lemma PrintParses(s: string)
    ensures ParseCanonical(s).Some? ==> s == Decimal(ParseCanonical(s).value)
  {
    if ParseCanonical(s).Some? {
      CanonicalIsDecimal(s);
    }
  }

  // ---- The sequence key ---------------------------------------------------------------------------------------

  const SEQUENCE_DIGITS: nat := 20

  function Zeros(n: nat): string {
    if n == 0 then "" else ['0'] + Zeros(n - 1)
  }

  function Pad(s: string, width: nat): string {
    if |s| < width then Zeros(width - |s|) + s else s
  }

  /** The stored key: decimal text zero-padded to twenty digits. */
  function SequenceKey(n: U64): string {
    Pad(Decimal(n), SEQUENCE_DIGITS)
  }

  /** Reads a key back, refusing what SequenceKey would not write, and zero. */
  function ParseSequenceKey(s: string): Option<U64> {
    match ParseUint(s)
    case None => None
    case Some(v) => if SequenceKey(v) != s || v == 0 then None else Some(v)
  }

  function Pow10(k: nat): nat {
    if k == 0 then 1 else 10 * Pow10(k - 1)
  }

  /** The k low decimal digits of n, most significant first. */
  function Fixed(n: nat, k: nat): string {
    if k == 0 then "" else Fixed(n / 10, k - 1) + [DigitChar(n % 10)]
  }

  lemma {:induction false} FixedZero(k: nat)
    ensures Fixed(0, k) == Zeros(k)
  {
    if k > 0 {
      FixedZero(k - 1);
      ZerosSnoc(k - 1);
    }
  }

  lemma {:induction false} ZerosSnoc(k: nat)
    ensures Zeros(k) + ['0'] == Zeros(k + 1) && |Zeros(k)| == k
  {
    if k > 0 {
      ZerosSnoc(k - 1);
      assert Zeros(k) + ['0'] == ['0'] + (Zeros(k - 1) + ['0']);
    }
  }

  lemma {:induction false} PaddedIsFixed(n: nat, k: nat)
    requires n < Pow10(k) && k > 0
    ensures |Decimal(n)| <= k && Pad(Decimal(n), k) == Fixed(n, k)
  {
    ZerosSnoc(k - 1);
    if n < 10 {
      FixedZero(k - 1);
      assert Fixed(n, k) == Zeros(k - 1) + [DigitChar(n)];
    } else {
      assert k > 1;
      PaddedIsFixed(n / 10, k - 1);
      var init, last := Decimal(n / 10), [DigitChar(n % 10)];
      assert Zeros(k - 1 - |init|) + (init + last) == (Zeros(k - 1 - |init|) + init) + last;
    }
  }

  lemma TwentyDigitsFit()
    ensures MAX_UINT64 < Pow10(SEQUENCE_DIGITS)
  {
    assert Pow10(5) == 100_000;
    assert Pow10(10) == 10_000_000_000;
    assert Pow10(15) == 1_000_000_000_000_000;
    assert Pow10(20) == 100_000_000_000_000_000_000;
  }

  lemma {:induction false} FixedLength(n: nat, k: nat)
    ensures |Fixed(n, k)| == k
  {
    if k > 0 {
      FixedLength(n / 10, k - 1);
    }
  }

  lemma {:induction false} LessAppend(a: string, b: string, x: char, y: char)
    requires |a| == |b|
    ensures Less(a + [x], b + [y]) <==> Less(a, b) || (a == b && x < y)
  {
    if a == [] {
      assert Less([x], [y]) <==> x < y by {
        assert [x][1..] == [] && [y][1..] == [];
      }
      assert a + [x] == [x] && b + [y] == [y];
    } else {
      assert (a + [x])[1..] == a[1..] + [x] && (b + [y])[1..] == b[1..] + [y];
      LessAppend(a[1..], b[1..], x, y);
      assert a == b <==> a[0] == b[0] && a[1..] == b[1..] by {
        assert a == [a[0]] + a[1..] && b == [b[0]] + b[1..];
      }
      LessIrreflexive(a);
    }
  }

  lemma {:induction false} FixedOrder(n: nat, m: nat, k: nat)
    requires n < Pow10(k) && m < Pow10(k)
    ensures Less(Fixed(n, k), Fixed(m, k)) <==> n < m
    ensures Fixed(n, k) == Fixed(m, k) <==> n == m
  {
    if k > 0 {
      FixedOrder(n / 10, m / 10, k - 1);
      FixedLength(n / 10, k - 1);
      FixedLength(m / 10, k - 1);
      var a, b := Fixed(n / 10, k - 1), Fixed(m / 10, k - 1);
      var x, y := DigitChar(n % 10), DigitChar(m % 10);
      LessAppend(a, b, x, y);
      assert a + [x] == b + [y] <==> a == b && x == y by {
        if a + [x] == b + [y] {
          assert a == (a + [x])[..|a|] && b == (b + [y])[..|b|];
          assert (a + [x])[|a|] == x && (b + [y])[|b|] == y;
        }
      }
    }
  }

  /** Byte order on stored keys is numeric order on sequences, and each sequence has one key. */
  lemma KeyOrderIsNumericOrder(n: U64, m: U64)
    ensures Less(SequenceKey(n), SequenceKey(m)) <==> n < m
    ensures SequenceKey(n) == SequenceKey(m) <==> n == m
    ensures |SequenceKey(n)| == SEQUENCE_DIGITS
  {
    TwentyDigitsFit();
    PaddedIsFixed(n, SEQUENCE_DIGITS);
    PaddedIsFixed(m, SEQUENCE_DIGITS);
    FixedOrder(n, m, SEQUENCE_DIGITS);
    FixedLength(n, SEQUENCE_DIGITS);
  }

  lemma {:induction false} FixedValue(n: nat, k: nat)
    requires n < Pow10(k)
    ensures AllDigits(Fixed(n, k)) && Value(Fixed(n, k)) == n
  {
    if k > 0 {
      FixedValue(n / 10, k - 1);
      var init := Fixed(n / 10, k - 1);
      assert (init + [DigitChar(n % 10)])[..|init|] == init;
    }
  }

  /** Every positive sequence is read back from its key, and a key that reads back is the key of what it reads as. */
  lemma KeyRoundTrip(n: U64, s: string)
    ensures n >= 1 ==> ParseSequenceKey(SequenceKey(n)) == Some(n)
    ensures ParseSequenceKey(s) == Some(n) ==> n >= 1 && s == SequenceKey(n)
  {
    TwentyDigitsFit();
    PaddedIsFixed(n, SEQUENCE_DIGITS);
    FixedValue(n, SEQUENCE_DIGITS);
    FixedLength(n, SEQUENCE_DIGITS);
  }

  // ---- Counter lists ------------------------------------------------------------------------------------------

  function Join(xs: seq<U64>): string {
    if xs == [] then ""
    else if |xs| == 1 then Decimal(xs[0])
    else Decimal(xs[0]) + "," + Join(xs[1..])
  }

  /** The index of the first comma, or the length of the text. */
  function CommaAt(s: string): (i: nat)
    ensures i <= |s| && ',' !in s[..i] && (i < |s| ==> s[i] == ',')
  {
    if s == [] || s[0] == ',' then 0
    else
      assert forall i | 0 <= i < |s| :: s[..i + 1] == [s[0]] + s[1..][..i];
      1 + CommaAt(s[1..])
  }

  /** strings.Cut around the first comma: the field before it, the text after it, and whether there was one. */
  function Cut(s: string): (string, string, bool) {
    var i := CommaAt(s);
    if i < |s| then (s[..i], s[i + 1..], true) else (s, "", false)
  }

  /** Exactly k canonical counters, comma separated. */
  function Split(text: string, k: nat): Option<seq<U64>>
    decreases k
  {
    if k == 0 then Some([])
    else
      var (field, tail, more) := Cut(text);
      if more != (k > 1) then None
      else
        match ParseCanonical(field)
        case None => None
        case Some(v) =>
          match Split(tail, k - 1)
          case None => None
          case Some(rest) => Some([v] + rest)
  }

  lemma {:induction false} DecimalHasNoComma(n: nat)
    ensures ',' !in Decimal(n)
  {
    if n >= 10 {
      DecimalHasNoComma(n / 10);
    }
  }

  lemma {:induction false} CommaAfter(a: string, b: string)
    requires ',' !in a
    ensures CommaAt(a + "," + b) == |a| && CommaAt(a) == |a|
  {
    if a != [] {
      assert a[0] in a && forall c | c in a[1..] :: c in a;
      CommaAfter(a[1..], b);
      assert (a + "," + b)[1..] == a[1..] + "," + b;
    }
  }

  lemma CutAtComma(a: string, b: string)
    requires ',' !in a
    ensures Cut(a + "," + b) == (a, b, true) && Cut(a) == (a, "", false)
  {
    CommaAfter(a, b);
    var s := a + "," + b;
    assert s[..|a|] == a && s[|a| + 1..] == b;
  }

  /** Splitting what Join wrote returns the counters. */
  lemma {:induction false} SplitJoins(xs: seq<U64>)
    requires xs != []
    ensures Split(Join(xs), |xs|) == Some(xs)
  {
    DecimalHasNoComma(xs[0]);
    ParsePrints(xs[0]);
    if |xs| == 1 {
      CutAtComma(Decimal(xs[0]), "");
      assert Split("", 0) == Some([]);
      assert [xs[0]] + [] == xs;
    } else {
      CutAtComma(Decimal(xs[0]), Join(xs[1..]));
      SplitJoins(xs[1..]);
      assert [xs[0]] + xs[1..] == xs;
    }
  }

  /** Joining what Split accepted returns the text. */
  lemma {:induction false} JoinSplits(text: string, k: nat)
    requires k > 0 && Split(text, k).Some?
    ensures |Split(text, k).value| == k && Join(Split(text, k).value) == text
  {
    var (field, tail, more) := Cut(text);
    PrintParses(field);
    var rest := Split(tail, k - 1).value;
    var xs := Split(text, k).value;
    assert xs[0] == ParseCanonical(field).value && xs[1..] == rest;
    if k > 1 {
      JoinSplits(tail, k - 1);
      assert text == field + "," + tail;
    }
  }

  /** Appends each counter to a buffer, a comma between. */
  method EncodeCounters(counters: seq<U64>) returns (text: string)
    ensures text == Join(counters)
  {
    text := "";
    for i := 0 to |counters|
      invariant text == Join(counters[..i])
    {
      JoinSnoc(counters[..i], counters[i]);
      assert counters[..i + 1] == counters[..i] + [counters[i]];
      if i > 0 {
        text := text + ",";
      }
      text := text + Decimal(counters[i]);
    }
    assert counters[..|counters|] == counters;
  }

  lemma {:induction false} JoinSnoc(xs: seq<U64>, x: U64)
    ensures Join(xs + [x]) == Join(xs) + (if xs == [] then "" else ",") + Decimal(x)
  {
    if |xs| == 0 {
      assert xs + [x] == [x];
    } else {
      assert (xs + [x])[1..] == xs[1..] + [x];
      JoinSnoc(xs[1..], x);
    }
  }

  /** Walks the text field by field and refuses a wrong number of fields or a field that is not canonical. */
  method DecodeCounters(text: string, count: nat) returns (r: Option<seq<U64>>)
    ensures r == Split(text, count)
  {
    var values: seq<U64> := [];
    var rest := text;
    assert forall t: seq<U64> :: [] + t == t;
    for i := 0 to count
      invariant |values| == i
      invariant Split(text, count) == match Split(rest, count - i) case None => None case Some(tail) => Some(values + tail)
    {
      var (field, tail, more) := Cut(rest);
      if more != (i < count - 1) {
        return None;
      }
      var v := ParseCanonical(field);
      if v.None? {
        return None;
      }
      assert forall t: seq<U64> :: values + ([v.value] + t) == (values + [v.value]) + t;
      values := values + [v.value];
      rest := tail;
    }
    assert values + [] == values;
    return Some(values);
  }
}
