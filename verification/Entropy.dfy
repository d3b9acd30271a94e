/** The integer entropy estimate of the compression heuristic: it never exceeds 100 and
    nothing overflows on the way. */
module Entropy {
  import opened Words

  const BUCKET_SIZE := 256
  const MAX_SAMPLE_SIZE := 8192

  // ----- logarithms -----

  /** ilog2 */
  function Ilog2(n: nat): nat
    requires n > 0
  {
    if n == 1 then 0 else 1 + Ilog2(n / 2)
  }

  lemma {:induction false} Ilog2Bounds(n: nat)
    requires n > 0
    ensures Pow2(Ilog2(n)) <= n < Pow2(Ilog2(n) + 1)
  {
    if n > 1 {
      Ilog2Bounds(n / 2);
    }
  }

  function Fourth(n: int): int {
    n * n * n * n
  }

  /** ilog2_w: four times the logarithm, rounded down. */
  function Ilog2W(n: nat): nat
    requires n > 0
  {
    FourthPositive(n);
    Ilog2(Fourth(n))
  }

  lemma FourthPositive(n: nat)
    ensures n > 0 ==> Fourth(n) > 0
  {
    if n > 0 {
      assert n * n > 0;
      assert n * n * n > 0;
    }
  }

  lemma MulMono(a: nat, b: nat, c: nat, d: nat)
    requires a <= b && c <= d
    ensures a * c <= b * d
  {
    assert a * c <= b * c;
    assert b * c <= b * d;
  }

  lemma FourthMono(a: nat, b: nat)
    requires a <= b
    ensures Fourth(a) <= Fourth(b)
  {
    MulMono(a, b, a, b);
    MulMono(a * a, b * b, a, b);
    MulMono(a * a * a, b * b * b, a, b);
  }

  lemma FourthOfProduct(a: int, b: int)
    ensures Fourth(a * b) == Fourth(a) * Fourth(b)
  {
    var x, y := a * a, b * b;
    assert (a * b) * (a * b) == x * y;
    assert (a * b) * (a * b) * (a * b) == (x * a) * (y * b) by {
      assert (x * y) * (a * b) == (x * a) * (y * b);
    }
    assert (x * a) * (y * b) * (a * b) == (x * a * a) * (y * b * b);
  }

  // ----- the tangent line: (6 + e)^4 <= 6^4 * 2^e -----

  /** For e >= 0: one step multiplies the right side by 2 and the left by at most (7/6)^4. */
  lemma {:induction false} Tangent(e: nat)
    ensures Fourth(6 + e) <= 1296 * Pow2(e)
  {
    if e > 0 {
      Tangent(e - 1);
      TangentStep(5 + e);
    }
  }

  lemma TangentStep(x: nat)
    requires x >= 6
    ensures Fourth(x + 1) <= 2 * Fourth(x)
  {
    var a, b := x * x, (x + 1) * (x + 1);
    assert b == a + 2 * x + 1;
    assert a >= 6 * x;
    // b / a <= 49 / 36
    assert 36 * b <= 49 * a;
    MulMono(36 * b, 49 * a, 36 * b, 49 * a);
    assert 1296 * (b * b) <= 2401 * (a * a);
    assert Fourth(x) == a * a by { assert a * x * x == a * a; }
    assert Fourth(x + 1) == b * b by { assert b * (x + 1) * (x + 1) == b * b; }
  }

  /** For e < 0, written with m == -e. */
  lemma TangentBelow(m: nat)
    requires m <= 6
    ensures Fourth(6 - m) * Pow2(m) <= 1296
  {
    assert Pow2(0) == 1 && Pow2(1) == 2 && Pow2(2) == 4 && Pow2(3) == 8;
    assert Pow2(4) == 16 && Pow2(5) == 32 && Pow2(6) == 64;
    assert Fourth(6) == 1296 && Fourth(5) == 625 && Fourth(4) == 256 && Fourth(3) == 81 && Fourth(2) == 16
        && Fourth(1) == 1;
    if m == 0 {
    } else if m == 1 {
    } else if m == 2 {
    } else if m == 3 {
    } else if m == 4 {
    } else if m == 5 {
    }
  }

  /** Both halves of the line at once, with x == 6 + (d - 33). */
  lemma TangentScaled(d: nat)
    requires d >= 27
    ensures Fourth(d - 27) * Pow2(33) <= 1296 * Pow2(d)
  {
    hide Pow2, Fourth;
    var f := Fourth(d - 27);
    if d >= 33 {
      Tangent(d - 33);
      Pow2Add(d - 33, 33);
      Scale(f, 1296 * Pow2(d - 33), Pow2(33));
      assert 1296 * Pow2(d - 33) * Pow2(33) == 1296 * Pow2(d);
    } else {
      TangentBelow(33 - d);
      Pow2Add(33 - d, d);
      Scale(f * Pow2(33 - d), 1296, Pow2(d));
      assert f * Pow2(33 - d) * Pow2(d) == f * (Pow2(33 - d) * Pow2(d));
    }
  }

  lemma Scale(a: int, b: int, c: nat)
    requires a <= b
    ensures a * c <= b * c
  {
  }

  // ----- one term of the sum -----

  /** The step from the logarithms: with x == d - 27, 256 * p * x < 6 * s. */
  lemma FourthPowers(p: nat, s: nat, b: nat, d: nat)
    requires 0 < p && Fourth(p) < Pow2(b + 1) && Pow2(b + d) <= Fourth(s) && d > 27
    ensures 256 * p * (d - 27) < 6 * s
  {
    hide Pow2, Fourth;
    var x := d - 27;
    var f, g := Fourth(p), Fourth(x);
    TangentScaled(d);
    FourthPositive(x);
    FourthPositive(p);
    Pow2Add(b + 1, d);
    Pow2Add(b + d, 1);
    // g * f * 2^33 < 1296 * 2^(b + d + 1)
    ProductBelow(f, Pow2(b + 1), g * Pow2(33), 1296 * Pow2(d));
    assert Pow2(b + 1) * (1296 * Pow2(d)) == 1296 * (Pow2(b + 1) * Pow2(d));
    Powers();
    assert f * (g * 0x2_0000_0000) == 2 * (0x1_0000_0000 * (f * g));
    assert 0x1_0000_0000 * (f * g) < 1296 * Fourth(s);
    // Fourth(256 * p * x) == 2^32 * f * g
    FourthOfProduct(256 * p, x);
    FourthOfProduct(256, p);
    FourthOfProduct(6, s);
    Constants();
    assert Fourth(256 * p * x) == 0x1_0000_0000 * (f * g);
    if 6 * s <= 256 * p * x {
      FourthMono(6 * s, 256 * p * x);
    }
  }

  lemma ProductBelow(f: nat, f': nat, g: nat, g': nat)
    requires f < f' && 0 < g <= g'
    ensures f * g < f' * g'
  {
    assert f * g < f' * g;
    assert f' * g <= f' * g';
  }

  lemma Powers()
    ensures Pow2(33) == 0x2_0000_0000 && Pow2(1) == 2 && Pow2(53) == 0x20_0000_0000_0000
  {
    SmallPowers();
    hide Pow2;
    Pow2Add(5, 5);
    Pow2Add(10, 1);
    Pow2Add(11, 11);
    Pow2Add(22, 11);
    Pow2Add(10, 10);
    Pow2Add(33, 20);
  }

  lemma SmallPowers()
    ensures Pow2(1) == 2 && Pow2(5) == 32
  {
    assert Pow2(2) == 4 && Pow2(3) == 8 && Pow2(4) == 16;
  }

  lemma Constants()
    ensures Fourth(256) == 0x1_0000_0000 && Fourth(6) == 1296
  {
  }

  lemma LogBounds(p: nat, s: nat)
    requires 0 < p <= s
    ensures Ilog2W(p) <= Ilog2W(s)
    ensures Fourth(p) < Pow2(Ilog2W(p) + 1) && Pow2(Ilog2W(s)) <= Fourth(s)
  {
    hide Pow2, Fourth;
    FourthPositive(p);
    FourthPositive(s);
    FourthMono(p, s);
    Ilog2Bounds(Fourth(p));
    Ilog2Bounds(Fourth(s));
    if Ilog2W(s) < Ilog2W(p) {
      Pow2Mono(Ilog2W(s) + 1, Ilog2W(p));
    }
  }

  /** What a bucket with count p adds to the entropy sum. */
  function Term(p: nat, s: nat): int
    requires p > 0 && s > 0
  {
    p * (Ilog2W(s) - Ilog2W(p))
  }

  lemma TermBound(p: nat, s: nat)
    requires 0 < p <= s
    ensures Ilog2W(p) <= Ilog2W(s)
    ensures 0 <= Term(p, s) && 256 * Term(p, s) < 6 * s + 6912 * p
  {
    hide Pow2, Fourth, Ilog2W;
    LogBounds(p, s);
    var b, d := Ilog2W(p), Ilog2W(s) - Ilog2W(p);
    Scale(0, d, p);
    if d > 27 {
      FourthPowers(p, s, b, d);
      Distribute(p, d);
    } else {
      Scale(d, 27, p);
    }
  }

  lemma Distribute(p: nat, d: nat)
    ensures 256 * p * (d - 27) == 256 * (p * d) - 6912 * p
  {
  }

  // ----- the sum -----

  function SumTo(counts: seq<nat>, k: nat): nat
    requires k <= |counts|
  {
    if k == 0 then 0 else SumTo(counts, k - 1) + counts[k - 1]
  }

  function EntropySum(counts: seq<nat>, s: nat, k: nat): int
    requires s > 0 && k <= |counts| && forall i :: 0 <= i < k ==> counts[i] > 0
  {
    if k == 0 then 0
    else EntropySum(counts, s, k - 1) + Term(counts[k - 1], s)
  }

  lemma {:induction false} SumMono(counts: seq<nat>, j: nat, k: nat)
    requires j <= k <= |counts|
    ensures SumTo(counts, j) <= SumTo(counts, k)
    ensures forall i :: j <= i < k ==> counts[i] <= SumTo(counts, k)
  {
    if j < k {
      SumMono(counts, j, k - 1);
    }
  }

  /** The bound on the entropy sum, scaled by 256. */
  function Limit(s: nat, k: nat, total: nat): nat {
    6 * s * k + 6912 * total
  }

  lemma {:induction false} SumBound(counts: seq<nat>, s: nat, k: nat)
    requires s > 0 && k <= |counts| && SumTo(counts, k) <= s && forall i :: 0 <= i < k ==> counts[i] > 0
    ensures 0 <= 256 * EntropySum(counts, s, k) <= Limit(s, k, SumTo(counts, k))
  {
    hide Ilog2W, EntropySum, Term, Limit;
    if k == 0 {
      NoEntropy(counts, s);
    } else {
      SumMono(counts, k - 1, k);
      SumBound(counts, s, k - 1);
      EntropyUnfold(counts, s, k - 1);
      TermBound(counts[k - 1], s);
      BoundStep(EntropySum(counts, s, k - 1), Term(counts[k - 1], s), SumTo(counts, k - 1), counts[k - 1], s, k);
    }
  }

  lemma BoundStep(e: int, term: int, before: nat, p: nat, s: nat, k: nat)
    requires k > 0 && 256 * e <= Limit(s, k - 1, before) && 256 * term < 6 * s + 6912 * p
    ensures 256 * (e + term) <= Limit(s, k, before + p)
  {
    assert 6 * s * k == 6 * s * (k - 1) + 6 * s;
  }

  /** The rounding of the logarithms adds less than one unit to an entropy of at most 32. */
  lemma EntropyBelow33(counts: seq<nat>, s: nat, k: nat)
    requires s > 0 && k <= |counts| && k <= BUCKET_SIZE && SumTo(counts, k) <= s
    requires forall i :: 0 <= i < k ==> counts[i] > 0
    ensures 0 <= EntropySum(counts, s, k) < 33 * s
  {
    hide Ilog2W, EntropySum, Term, Limit;
    if k == 0 {
      NoEntropy(counts, s);
    } else {
      SumMono(counts, k - 1, k);
      SumBound(counts, s, k - 1);
      EntropyUnfold(counts, s, k - 1);
      TermBound(counts[k - 1], s);
      Below33(EntropySum(counts, s, k - 1), Term(counts[k - 1], s), SumTo(counts, k - 1), counts[k - 1], s, k);
    }
  }

  lemma Below33(e: int, term: int, before: nat, p: nat, s: nat, k: nat)
    requires 0 < k <= 256 && 0 <= 256 * e <= Limit(s, k - 1, before)
    requires 0 <= term && 256 * term < 6 * s + 6912 * p && before + p <= s
    ensures 0 <= e + term < 33 * s
  {
    var x := s * (k - 1);
    assert 6 * s * (k - 1) == 6 * x;
    Scale(k - 1, 255, s);
    assert x == (k - 1) * s;
  }

  lemma EntropyUnfold(counts: seq<nat>, s: nat, i: nat)
    requires s > 0 && i < |counts| && forall j :: 0 <= j <= i ==> counts[j] > 0
    ensures EntropySum(counts, s, i + 1) == EntropySum(counts, s, i) + Term(counts[i], s)
  {
    hide Term;
  }

  lemma NoEntropy(counts: seq<nat>, s: nat)
    requires s > 0
    ensures EntropySum(counts, s, 0) == 0
  {
  }

  // ----- the estimate -----

  ghost function Counts(bucket: array<Word32>): seq<nat>
    reads bucket
  {
    seq(bucket.Length, i requires 0 <= i < bucket.Length reads bucket => bucket[i] as nat)
  }

  /** ilog2_w on machine words: the fourth power fits in 64 bits. */
  method Ilog2Word(n: Word32) returns (r: Word32)
    requires 0 < n as int <= MAX_SAMPLE_SIZE
    ensures r as int == Ilog2W(n as int) <= 52
  {
    PowersFit(n as int);
    var m: Word64 := n as Word64;
    var square: Word64 := m * m;
    var cube: Word64 := square * m;
    var fourth: Word64 := cube * m;
    r := Ilog2(fourth as nat) as Word32;
  }

  lemma PowersFit(n: nat)
    requires 0 < n <= MAX_SAMPLE_SIZE
    ensures n * n <= 0x400_0000 && n * n * n <= 0x80_0000_0000 && 0 < Fourth(n) <= 0x10_0000_0000_0000
    ensures Ilog2W(n) <= 52
  {
    MulMono(n, 8192, n, 8192);
    MulMono(n * n, 0x400_0000, n, 8192);
    MulMono(n * n * n, 0x80_0000_0000, n, 8192);
    FourthPositive(n);
    Ilog2Bounds(Fourth(n));
    Powers();
    if Ilog2W(n) > 52 {
      Pow2Mono(53, Ilog2W(n));
    }
  }

  /** Where the loop ends: at the first empty bucket. */
  function Stop(counts: seq<nat>, k: nat): (n: nat)
    requires k <= |counts| && forall i :: 0 <= i < k ==> counts[i] > 0
    ensures k <= n <= |counts| && forall i :: 0 <= i < n ==> counts[i] > 0
    decreases |counts| - k
  {
    if k < |counts| && counts[k] > 0 then Stop(counts, k + 1) else k
  }

  /** The entropy of one byte value in 256, in the units of ilog2_w. */
  function EntropyMax(): nat {
    8 * Ilog2W(2)
  }

  lemma EntropyMaxIs()
    ensures EntropyMax() == 32
  {
    assert Ilog2(16) == 1 + Ilog2(8) && Ilog2(8) == 1 + Ilog2(4) && Ilog2(4) == 1 + Ilog2(2)
        && Ilog2(2) == 1 + Ilog2(1);
  }

  function Percent(sum: int, s: nat): int
    requires s > 0
  {
    EntropyMaxIs();
    sum / s * 100 / EntropyMax()
  }

  /** shannon_entropy, in 32-bit arithmetic: a percentage, whatever the counts are.  The
      first n buckets are those in front of the first empty one; base and logs are the
      logarithms of the fourth powers of the sample size and of their counts, and sums are
      the sums of count times difference of the logarithms. */
  method ShannonEntropy(bucket: array<Word32>, sampleSize: Word32)
      returns (r: Word32, ghost n: nat, ghost base: nat, ghost logs: seq<nat>, ghost sums: seq<int>)
    requires bucket.Length == BUCKET_SIZE && SumTo(Counts(bucket), BUCKET_SIZE) == sampleSize as nat
    requires 0 < sampleSize as int <= MAX_SAMPLE_SIZE
    ensures r <= 100
    ensures var c, s := Counts(bucket), sampleSize as nat; r as int == Percent(EntropySum(c, s, Stop(c, 0)), s)
    ensures n <= BUCKET_SIZE && (forall i :: 0 <= i < n ==> bucket[i] > 0) && (n < BUCKET_SIZE ==> bucket[n] == 0)
    ensures var s := sampleSize as nat; Pow2(base) <= s * s * s * s < 2 * Pow2(base)
    ensures |logs| == n
    ensures forall i :: 0 <= i < n
                ==> var c := bucket[i] as nat; Pow2(logs[i]) <= c * c * c * c < 2 * Pow2(logs[i])
    ensures |sums| == n + 1 && sums[0] == 0
    ensures forall i :: 0 <= i < n
                ==> sums[i + 1] == sums[i] + bucket[i] as int * (base - logs[i])
    ensures var q := sums[n] / sampleSize as int; 0 <= sums[n] && 32 * r as int <= 100 * q < 32 * (r as int + 1)
  {
    hide Ilog2W, EntropySum, SumTo, Stop, Percent, Pow2;
    ghost var counts, s := Counts(bucket), sampleSize as nat;
    r := Estimate(bucket, sampleSize);
    n := Stop(counts, 0);
    assert forall i :: 0 <= i < n ==> bucket[i] as nat == counts[i];
    base, logs, sums := EntropyMeans(counts, s, n, r as int);
  }

  /** The body of shannon_entropy. */
  method Estimate(bucket: array<Word32>, sampleSize: Word32) returns (r: Word32)
    requires bucket.Length == BUCKET_SIZE && SumTo(Counts(bucket), BUCKET_SIZE) == sampleSize as nat
    requires 0 < sampleSize as int <= MAX_SAMPLE_SIZE
    ensures var c, s := Counts(bucket), sampleSize as nat;
            && r <= 100 && 0 <= EntropySum(c, s, Stop(c, 0)) && r as int == Percent(EntropySum(c, s, Stop(c, 0)), s)
            && (Stop(c, 0) < BUCKET_SIZE ==> bucket[Stop(c, 0)] == 0)
  {
    hide Ilog2W, EntropySum, SumTo, Stop, Percent, Term;
    ghost var counts, s := Counts(bucket), sampleSize as nat;
    EntropyMaxIs();
    var two := Ilog2Word(2);
    var entropyMax := 8 * two;
    var szBase := Ilog2Word(sampleSize);
    var sum: Word32 := 0;
    var i := 0;
    NoEntropy(counts, s);
    while i < bucket.Length && bucket[i] > 0
      invariant 0 <= i <= BUCKET_SIZE && forall j :: 0 <= j < i ==> counts[j] > 0
      invariant Stop(counts, 0) == Stop(counts, i)
      invariant sum as int == EntropySum(counts, s, i)
    {
      ghost var term := EntropyStep(counts, s, i);
      var p := bucket[i];
      var pBase := Ilog2Word(p);
      assert (p * (szBase - pBase)) as int == term by {
        assert p as int * (szBase - pBase) as int == term;
      }
      sum := sum + p * (szBase - pBase);
      i := i + 1;
    }
    SumMono(counts, i, BUCKET_SIZE);
    EntropyBelow33(counts, s, i);
    StopsHere(counts, i);
    r := ToPercent(sum, sampleSize, entropyMax);
  }

  /** The estimate without its functions. */
  lemma EntropyMeans(counts: seq<nat>, s: nat, n: nat, r: int) returns (base: nat, logs: seq<nat>, sums: seq<int>)
    requires s > 0 && n <= |counts| && forall i :: 0 <= i < n ==> counts[i] > 0
    requires 0 <= EntropySum(counts, s, n) && r == Percent(EntropySum(counts, s, n), s)
    ensures Pow2(base) <= s * s * s * s < 2 * Pow2(base)
    ensures |logs| == n
    ensures forall i :: 0 <= i < n
                ==> var c := counts[i]; Pow2(logs[i]) <= c * c * c * c < 2 * Pow2(logs[i])
    ensures |sums| == n + 1 && sums[0] == 0
    ensures forall i :: 0 <= i < n
                ==> sums[i + 1] == sums[i] + counts[i] * (base - logs[i])
    ensures sums[n] == EntropySum(counts, s, n)
    ensures var q := sums[n] / s; 32 * r <= 100 * q < 32 * (r + 1)
  {
    hide Ilog2W, EntropySum, Pow2;
    base := Ilog2W(s);
    logs := seq(n, i requires 0 <= i < n => Ilog2W(counts[i]));
    sums := seq(n + 1, i requires 0 <= i <= n => EntropySum(counts, s, i));
    LogMeans(s);
    NoEntropy(counts, s);
    forall i | 0 <= i < n
      ensures var c := counts[i]; Pow2(logs[i]) <= c * c * c * c < 2 * Pow2(logs[i])
      ensures sums[i + 1] == sums[i] + counts[i] * (base - logs[i])
    {
      LogMeans(counts[i]);
      EntropyUnfold(counts, s, i);
    }
    EntropyMaxIs();
  }

  lemma LogMeans(n: nat)
    requires n > 0
    ensures Pow2(Ilog2W(n)) <= n * n * n * n < 2 * Pow2(Ilog2W(n))
  {
    FourthPositive(n);
    Ilog2Bounds(Fourth(n));
  }

  method ToPercent(sum: Word32, sampleSize: Word32, entropyMax: Word32) returns (r: Word32)
    requires 0 < sampleSize && sum as int < 33 * sampleSize as int && entropyMax as int == EntropyMax()
    ensures r <= 100 && r as int == Percent(sum as int, sampleSize as int)
  {
    EntropyMaxIs();
    Quotient(sum as int, sampleSize as int);
    r := sum / sampleSize;
    r := r * 100 / entropyMax;
  }

  lemma Quotient(a: nat, s: nat)
    requires s > 0 && a < 33 * s
    ensures 0 <= a / s <= 32
  {
  }

  lemma StopsHere(counts: seq<nat>, i: nat)
    requires i <= |counts| && (forall j :: 0 <= j < i ==> counts[j] > 0) && (i < |counts| ==> counts[i] == 0)
    ensures Stop(counts, i) == i
  {
  }

  lemma EntropyStep(counts: seq<nat>, s: nat, i: nat) returns (term: int)
    requires 0 < s <= MAX_SAMPLE_SIZE && |counts| == BUCKET_SIZE && SumTo(counts, BUCKET_SIZE) == s
    requires i < |counts| && forall j :: 0 <= j <= i ==> counts[j] > 0
    ensures counts[i] <= s && Ilog2W(counts[i]) <= Ilog2W(s)
    ensures term == counts[i] * (Ilog2W(s) - Ilog2W(counts[i]))
    ensures EntropySum(counts, s, i + 1) == EntropySum(counts, s, i) + term && 0 <= EntropySum(counts, s, i)
    ensures 0 <= term && EntropySum(counts, s, i + 1) < 33 * MAX_SAMPLE_SIZE
    ensures Stop(counts, i) == Stop(counts, i + 1)
  {
    hide Ilog2W, SumTo, EntropySum;
    EntropyUnfold(counts, s, i);
    SumMono(counts, i, BUCKET_SIZE);
    SumMono(counts, i + 1, BUCKET_SIZE);
    EntropyBelow33(counts, s, i);
    EntropyBelow33(counts, s, i + 1);
    LogBounds(counts[i], s);
    Scale(0, Ilog2W(s) - Ilog2W(counts[i]), counts[i]);
    term := counts[i] * (Ilog2W(s) - Ilog2W(counts[i]));
  }

  /** The bound is met: 256 equal counts of 32 give exactly 100. */
  lemma UniformIsHundred(counts: seq<nat>)
    requires |counts| == BUCKET_SIZE && forall i :: 0 <= i < BUCKET_SIZE ==> counts[i] == 32
    ensures Percent(EntropySum(counts, MAX_SAMPLE_SIZE, BUCKET_SIZE), MAX_SAMPLE_SIZE) == 100
  {
    hide EntropySum, Ilog2W, Ilog2;
    EntropyMaxIs();
    UniformSum(counts, BUCKET_SIZE);
    LogsOfPowers();
  }

  lemma {:induction false} UniformSum(counts: seq<nat>, k: nat)
    requires k <= |counts| && forall i :: 0 <= i < k ==> counts[i] == 32
    ensures EntropySum(counts, MAX_SAMPLE_SIZE, k) == k * (32 * (Ilog2W(MAX_SAMPLE_SIZE) - Ilog2W(32)))
  {
    hide Ilog2W;
    if k > 0 {
      UniformSum(counts, k - 1);
    }
  }

  lemma {:induction false} LogOfPower(k: nat)
    ensures Ilog2(Pow2(k)) == k
  {
    if k > 0 {
      LogOfPower(k - 1);
    }
  }

  lemma LogsOfPowers()
    ensures Ilog2W(MAX_SAMPLE_SIZE) == 52 && Ilog2W(32) == 20
  {
    hide Ilog2, Pow2;
    LogOfPower(52);
    LogOfPower(20);
    SmallPowers();
    Pow2Add(5, 5);
    Pow2Add(10, 10);
    Pow2Add(20, 20);
    Pow2Add(40, 10);
    Pow2Add(50, 1);
    Pow2Add(51, 1);
  }
}
