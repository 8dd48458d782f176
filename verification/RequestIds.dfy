/** The request ids of bench/kv_scaling/measure.py: decimal fields joined by dashes. */
module RequestIds {

  function Digit(d: nat): char
    requires d < 10
  {
    "0123456789"[d]
  }

  function Decimal(n: nat): (s: string)
    ensures s != [] && forall i :: 0 <= i < |s| ==> '0' <= s[i] <= '9'
  {
    if n < 10 then [Digit(n)] else Decimal(n / 10) + [Digit(n % 10)]
  }

  /** `str` of an integer. */
  function Decimals(n: int): string {
    if n < 0 then "-" + Decimal(-n) else Decimal(n)
  }

  lemma DigitInjective(a: nat, b: nat)
    requires a < 10 && b < 10 && Digit(a) == Digit(b)
    ensures a == b
  {}

  lemma {:induction false} DecimalLength(n: nat)
    ensures n >= 10 ==> |Decimal(n)| >= 2
    ensures n < 10 ==> |Decimal(n)| == 1
  {}

  lemma {:induction false} DecimalInjective(a: nat, b: nat)
    requires Decimal(a) == Decimal(b)
    ensures a == b
  {
    DecimalLength(a);
    DecimalLength(b);
    var s, t := Decimal(a), Decimal(b);
    assert s[|s| - 1] == t[|t| - 1] && s[..|s| - 1] == t[..|t| - 1];
    if a >= 10 {
      assert s[..|s| - 1] == Decimal(a / 10) && t[..|t| - 1] == Decimal(b / 10);
      DecimalInjective(a / 10, b / 10);
      DigitInjective(a % 10, b % 10);
    } else {
      DigitInjective(a, b);
    }
  }

  ghost predicate AllDigits(s: string) {
    forall i :: 0 <= i < |s| ==> '0' <= s[i] <= '9'
  }

  /** Position `n` holds the first character of `w` that is not a digit. */
  ghost predicate FirstNonDigit(w: string, n: nat) {
    n < |w| && AllDigits(w[..n]) && !('0' <= w[n] <= '9')
  }

  lemma FirstNonDigitUnique(w: string, m: nat, n: nat)
    requires FirstNonDigit(w, m) && FirstNonDigit(w, n)
    ensures m == n
  {
    assert forall i :: 0 <= i < m ==> w[i] == w[..m][i];
    assert forall i :: 0 <= i < n ==> w[i] == w[..n][i];
  }

  /** A run of digits ends where the first other character stands. */
  lemma DigitsSplit(s: string, t: string, u: string, v: string)
    requires AllDigits(s) && AllDigits(t)
    requires u != [] && v != [] && !('0' <= u[0] <= '9') && !('0' <= v[0] <= '9')
    requires s + u == t + v
    ensures s == t && u == v
  {
    var w := s + u;
    assert w[..|s|] == s && w[|s|..] == u && w[..|t|] == t && w[|t|..] == v;
    FirstNonDigitUnique(w, |s|, |t|);
  }

  /** `f"{campaign}-s{seq_len}-b{batch_size}-n{i}-r{k}"`. */
  function RequestId(campaign: string, seqLen: int, batch: int, sample: nat, k: nat): string {
    campaign + ("-s" + (Decimals(seqLen) + ("-b" + (Decimals(batch) + ("-n" + (Decimal(sample) + ("-r" + Decimal(k))))))))
  }

  lemma SamePrefix(p: string, s: string, t: string)
    requires p + s == p + t
    ensures s == t
  {
    assert s == (p + s)[|p|..] && t == (p + t)[|p|..];
  }

  /** Ids of different cells, samples or positions never collide. */
  lemma RequestIdInjective(campaign: string, seqLen: nat, batch: nat, i: nat, k: nat,
                           seqLen': nat, batch': nat, i': nat, k': nat)
    requires RequestId(campaign, seqLen, batch, i, k) == RequestId(campaign, seqLen', batch', i', k')
    ensures seqLen == seqLen' && batch == batch' && i == i' && k == k'
  {
    var r, r' := "-r" + Decimal(k), "-r" + Decimal(k');
    var n, n' := "-n" + (Decimal(i) + r), "-n" + (Decimal(i') + r');
    var b, b' := "-b" + (Decimal(batch) + n), "-b" + (Decimal(batch') + n');
    SamePrefix(campaign, "-s" + (Decimal(seqLen) + b), "-s" + (Decimal(seqLen') + b'));
    SamePrefix("-s", Decimal(seqLen) + b, Decimal(seqLen') + b');
    DigitsSplit(Decimal(seqLen), Decimal(seqLen'), b, b');
    SamePrefix("-b", Decimal(batch) + n, Decimal(batch') + n');
    DigitsSplit(Decimal(batch), Decimal(batch'), n, n');
    SamePrefix("-n", Decimal(i) + r, Decimal(i') + r');
    DigitsSplit(Decimal(i), Decimal(i'), r, r');
    SamePrefix("-r", Decimal(k), Decimal(k'));
    DecimalInjective(seqLen, seqLen');
    DecimalInjective(batch, batch');
    DecimalInjective(i, i');
    DecimalInjective(k, k');
  }
}
