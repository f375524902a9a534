/** Reading the disk-cache-hit count back out of Bazel's "N processes: X disk cache hit, …" line. */
module Summary {
  import opened Wrappers

  const PHRASE := "disk cache hit"
  const TWO63: int := 0x8000_0000_0000_0000
  const TWO64: int := 0x1_0000_0000_0000_0000

  /** What a signed 64-bit integer makes of `x`. */
  function Wrap(x: int): (r: int)
    ensures -TWO63 <= r < TWO63
    ensures -TWO63 <= x < TWO63 ==> r == x
  {
    (x + TWO63) % TWO64 - TWO63
  }

  predicate IsDigit(c: char) {
    '0' <= c <= '9'
  }

  predicate AllDigits(s: string) {
    forall i | 0 <= i < |s| :: IsDigit(s[i])
  }

  function DigitValue(c: char): (d: int)
    requires IsDigit(c)
    ensures 0 <= d <= 9
  {
    c as int - '0' as int
  }

  function DigitChar(d: int): (c: char)
    requires 0 <= d <= 9
    ensures IsDigit(c) && DigitValue(c) == d
  {
    ('0' as int + d) as char
  }

  /** The number a digit string denotes, without any bound. */
  function Value(digits: string): nat
    requires AllDigits(digits)
  {
    if digits == "" then 0 else Value(digits[..|digits| - 1]) * 10 + DigitValue(digits[|digits| - 1])
  }

  function Decimal(n: nat): (s: string)
    ensures s != "" && AllDigits(s)
  {
    (if n < 10 then "" else Decimal(n / 10)) + [DigitChar(n % 10)]
  }

  lemma {:induction false} DecimalDenotes(n: nat)
    ensures Value(Decimal(n)) == n
  {
    var s := Decimal(n);
    assert s[..|s| - 1] == if n < 10 then "" else Decimal(n / 10);
    if n >= 10 {
      DecimalDenotes(n / 10);
    }
  }

  predicate OccursAt(line: string, i: int) {
    0 <= i <= |line| && PHRASE <= line[i..]
  }

  predicate FirstAt(line: string, i: int) {
    OccursAt(line, i) && forall j | 0 <= j < i :: !OccursAt(line, j)
  }

  predicate Occurs(line: string) {
    exists i | 0 <= i <= |line| :: OccursAt(line, i)
  }

  function IndexFrom(line: string, from: nat): (r: Option<nat>)
    requires from <= |line|
    requires forall j | 0 <= j < from :: !OccursAt(line, j)
    ensures r.Some? ==> r.value <= |line| && FirstAt(line, r.value)
    ensures r.None? ==> !Occurs(line)
    decreases |line| - from
  {
    if OccursAt(line, from) then Some(from)
    else if from == |line| then None
    else IndexFrom(line, from + 1)
  }

  /** How much of `s` is left when the trailing characters satisfying `p` are cut off. */
  function CutRight(s: string, p: char -> bool): (n: nat)
    ensures n <= |s|
    ensures forall i | n <= i < |s| :: p(s[i])
    ensures n > 0 ==> !p(s[n - 1])
  {
    if s == "" || !p(s[|s| - 1]) then |s| else CutRight(s[..|s| - 1], p)
  }

  function TrimSpaces(s: string): string {
    s[..CutRight(s, c => c == ' ')]
  }

  /** The digits that end `s`. */
  function TrailingDigits(s: string): (d: string)
    ensures AllDigits(d)
  {
    s[CutRight(s, IsDigit)..]
  }

  /** What the parser returns; None is its false. */
  function Parse(line: string): Option<int> {
    match IndexFrom(line, 0)
    case None => None
    case Some(i) =>
      var digits := TrailingDigits(TrimSpaces(line[..i]));
      if digits == "" then None else Some(Wrap(Value(digits)))
  }

  /** One multiply-and-add on wrapped integers stays the wrapped value. */
  lemma WrapAppends(x: int, d: int)
    ensures Wrap(Wrap(x) * 10 + d) == Wrap(x * 10 + d)
  {
    var q := (x + TWO63) / TWO64;
    assert Wrap(x) == x - q * TWO64;
    WrapIsPeriodic(x * 10 + d, -10 * q);
  }

  lemma WrapIsPeriodic(x: int, k: int)
    ensures Wrap(x + k * TWO64) == Wrap(x)
  {
    var a := x + TWO63;
    var b := a + k * TWO64;
    assert b - (a / TWO64 + k) * TWO64 == a % TWO64;
    QuotientIsUnique(b, a / TWO64 + k, a % TWO64);
  }

  lemma QuotientIsUnique(b: int, q: int, r: int)
    requires b == q * TWO64 + r && 0 <= r < TWO64
    ensures b % TWO64 == r
  {
  }

  /** Reading one more digit on wrapped integers gives the wrapped value. */
  lemma AppendingDigit(digits: string, i: nat)
    requires i < |digits| && AllDigits(digits)
    ensures Wrap(Value(digits[..i + 1])) == Wrap(Wrap(Value(digits[..i])) * 10 + DigitValue(digits[i]))
  {
    assert digits[..i + 1][..i] == digits[..i];
    WrapAppends(Value(digits[..i]), DigitValue(digits[i]));
  }

  lemma NoDigitsYet(digits: string)
    ensures AllDigits(digits[..0]) && Wrap(Value(digits[..0])) == 0
  {
  }

  method ParseSummaryDiskHits(line: string) returns (n: int, ok: bool)
    ensures ok <==> Parse(line).Some?
    ensures n == if ok then Parse(line).value else 0
  {
    hide Wrap, OccursAt, FirstAt, Occurs, Value, DigitValue;
    var idx := IndexFrom(line, 0);
    if idx.None? {
      return 0, false;
    }
    var prefix := TrimSpaces(line[..idx.value]);
    var j := |prefix|;
    while j > 0 && IsDigit(prefix[j - 1])
      invariant 0 <= j <= |prefix|
      invariant AllDigits(prefix[j..])
    {
      j := j - 1;
    }
    CutRightAt(prefix, j, IsDigit);
    var digits := prefix[j..];
    if digits == "" {
      return 0, false;
    }
    n := 0;
    NoDigitsYet(digits);
    for i := 0 to |digits|
      invariant n == Wrap(Value(digits[..i]))
    {
      AppendingDigit(digits, i);
      n := Wrap(n * 10 + DigitValue(digits[i]));
    }
    assert digits[..|digits|] == digits;
    return n, true;
  }

  function Spaces(k: nat): string {
    seq(k, i => ' ')
  }

  predicate EndsInDigit(s: string) {
    s != "" && IsDigit(s[|s| - 1])
  }

  function Line(prefix: string, digits: string, k: nat, suffix: string): string {
    prefix + digits + Spaces(k) + PHRASE + suffix
  }

  lemma PhraseFirstOccursWhereWritten(prefix: string, digits: string, k: nat, suffix: string)
    requires !Occurs(prefix) && digits != "" && AllDigits(digits)
    ensures FirstAt(Line(prefix, digits, k, suffix), |prefix| + |digits| + k)
  {
    var line := Line(prefix, digits, k, suffix);
    var at := |prefix| + |digits| + k;
    assert line[at..] == PHRASE + suffix;
    forall i | 0 <= i < at
      ensures !OccursAt(line, i)
    {
      if i + |PHRASE| <= |prefix| {
        assert line[i..][..|PHRASE|] == prefix[i..][..|PHRASE|];
        assert !OccursAt(prefix, i);
      } else if i < |prefix| {
        assert line[i..][|prefix| - i] == digits[0];
        assert IsDigit(digits[0]);
      } else if i < |prefix| + |digits| {
        assert line[i..][0] == digits[i - |prefix|];
      } else {
        assert line[i..][0] == ' ';
      }
    }
  }

  lemma {:induction false} CutRightAt(s: string, n: nat, p: char -> bool)
    requires n <= |s| && (forall i | n <= i < |s| :: p(s[i])) && (n > 0 ==> !p(s[n - 1]))
    ensures CutRight(s, p) == n
  {
    if n < |s| {
      CutRightAt(s[..|s| - 1], n, p);
    }
  }

  /** Whatever surrounds them, the digits before the first phrase are what is read. */
  lemma ParseReadsTheDigits(prefix: string, digits: string, k: nat, suffix: string)
    requires !Occurs(prefix) && !EndsInDigit(prefix) && digits != "" && AllDigits(digits)
    ensures Parse(Line(prefix, digits, k, suffix)) == Some(Wrap(Value(digits)))
  {
    hide Wrap, Value, OccursAt, Occurs;
    var line := Line(prefix, digits, k, suffix);
    var at := |prefix| + |digits| + k;
    PhraseFirstOccursWhereWritten(prefix, digits, k, suffix);
    FirstIsFound(line, at);
    var head := line[..at];
    assert head == prefix + digits + Spaces(k);
    assert head[|prefix| + |digits| - 1] == digits[|digits| - 1];
    CutRightAt(head, |prefix| + |digits|, c => c == ' ');
    var trimmed := TrimSpaces(head);
    assert trimmed == prefix + digits;
    CutRightAt(trimmed, |prefix|, IsDigit);
    assert TrailingDigits(trimmed) == digits;
  }

  /** The parser inverts decimal printing of exactly the counts that fit a signed 64-bit integer. */
  lemma ParseInvertsPrinting(prefix: string, n: nat, k: nat, suffix: string)
    requires !Occurs(prefix) && !EndsInDigit(prefix)
    ensures Parse(Line(prefix, Decimal(n), k, suffix)) == Some(n) <==> n < TWO63
  {
    ParseReadsTheDigits(prefix, Decimal(n), k, suffix);
    DecimalDenotes(n);
  }

  /** A number is returned exactly when a digit stands before the first phrase with only spaces in between. */
  lemma {:induction false} ParsesExactlyAfterADigit(line: string)
    ensures Parse(line).Some? <==>
      exists i, j | 0 <= j < i <= |line| :: FirstAt(line, i) && IsDigit(line[j]) && forall m | j < m < i :: line[m] == ' '
  {
    match IndexFrom(line, 0)
    case None =>
      assert forall i | 0 <= i <= |line| :: !OccursAt(line, i);
    case Some(at) =>
      var head := line[..at];
      var n := CutRight(head, c => c == ' ');
      var trimmed := TrimSpaces(head);
      var c := CutRight(trimmed, IsDigit);
      if c < n {
        assert IsDigit(trimmed[n - 1]);
        assert FirstAt(line, at) && IsDigit(line[n - 1]) && forall m | n - 1 < m < at :: line[m] == ' ';
      } else {
        assert c == n;
        forall i, j | 0 <= j < i <= |line| && FirstAt(line, i) && IsDigit(line[j])
          ensures exists m | j < m < i :: line[m] != ' '
        {
          FirstIsUnique(line, i, at);
          assert j < n;
          assert line[n - 1] != ' ' && !IsDigit(line[n - 1]);
          assert j < n - 1 < i;
        }
      }
  }

  lemma FirstIsFound(line: string, at: int)
    requires FirstAt(line, at)
    ensures IndexFrom(line, 0) == Some(at)
  {
    assert OccursAt(line, at);
    FirstIsUnique(line, at, IndexFrom(line, 0).value);
  }

  lemma FirstIsUnique(line: string, i: int, j: int)
    requires FirstAt(line, i) && FirstAt(line, j)
    ensures i == j
  {
    assert i < j ==> !OccursAt(line, i);
    assert j < i ==> !OccursAt(line, j);
  }
}
