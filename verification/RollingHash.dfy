/** The rolling window hashes that index duplicate seeds. */
module RollingHash {

  const BASE := 0x100000001B3
  const MODULUS := 0x1_0000_0000_0000_0000_0000_0000_0000_0000

  function Power(base: int, exponent: nat): int {
    if exponent == 0 then 1 else base * Power(base, exponent - 1)
  }

  /** The polynomial with the records as coefficients, the first one highest. */
  function Polynomial(records: seq<int>): int {
    if records == [] then 0
    else Polynomial(records[..|records| - 1]) * BASE + records[|records| - 1]
  }

  /** The hash of one window, computed from scratch. */
  function Digest(window: seq<int>): (d: nat)
    ensures d < MODULUS
  {
    Polynomial(window) % MODULUS
  }

  /** Multiples of the modulus do not matter. */
  lemma {:induction false} Reduce(x: int, k: int, m: int)
    requires m > 0
    ensures (x + k * m) % m == x % m
    decreases if k < 0 then -k else k
  {
    if k > 0 {
      Reduce(x, k - 1, m);
      assert x + k * m == (x + (k - 1) * m) + m;
      assert ((x + (k - 1) * m) + m) % m == (x + (k - 1) * m) % m by { ReduceOnce(x + (k - 1) * m, m); }
    } else if k < 0 {
      Reduce(x, k + 1, m);
      assert x + (k + 1) * m == (x + k * m) + m;
      assert ((x + k * m) + m) % m == (x + k * m) % m by { ReduceOnce(x + k * m, m); }
    }
  }

  lemma ReduceOnce(x: int, m: int)
    requires m > 0
    ensures (x + m) % m == x % m
  {
    var q, r := x / m, x % m;
    assert x == q * m + r;
    assert x + m == (q + 1) * m + r;
    Euclid(x + m, q + 1, r, m);
  }

  /** Quotient and remainder are unique. */
  lemma Euclid(x: int, q: int, r: int, m: int)
    requires m > 0 && 0 <= r < m && x == q * m + r
    ensures x % m == r
  {
    var q', r' := x / m, x % m;
    assert x == q' * m + r' && 0 <= r' < m;
    assert (q - q') * m == r' - r;
    assert q - q' >= 1 ==> (q - q') * m >= m;
    assert q - q' <= -1 ==> (q - q') * m <= -m;
  }

  /** Taking a reduced factor and a reduced value gives the same rolling update. */
  lemma ReducedUpdate(value: int, factor: int, outgoing: int, incoming: int, m: int)
    requires m > 0
    ensures ((value % m - outgoing * (factor % m)) * BASE + incoming) % m
            == ((value - outgoing * factor) * BASE + incoming) % m
  {
    var a, b := value / m, factor / m;
    var v, f := value % m, factor % m;
    assert value == v + a * m && factor == f + b * m;
    var k := (a - outgoing * b) * BASE;
    var reduced := (v - outgoing * f) * BASE + incoming;
    calc {
      (value - outgoing * factor) * BASE + incoming;
      (v + a * m - outgoing * (f + b * m)) * BASE + incoming;
      { assert outgoing * (f + b * m) == outgoing * f + outgoing * b * m; }
      (v - outgoing * f + (a * m - outgoing * b * m)) * BASE + incoming;
      { assert a * m - outgoing * b * m == (a - outgoing * b) * m; }
      (v - outgoing * f) * BASE + (a - outgoing * b) * m * BASE + incoming;
      { assert (a - outgoing * b) * m * BASE == k * m; }
      reduced + k * m;
    }
    Reduce(reduced, k, m);
  }

  /** The leading record carries the highest power. */
  lemma {:induction false} LeadingTerm(records: seq<int>)
    requires records != []
    ensures Polynomial(records) == records[0] * Power(BASE, |records| - 1) + Polynomial(records[1..])
  {
    var n := |records|;
    if n == 1 {
      assert records[..0] == [] && records[1..] == [];
    } else {
      var init := records[..n - 1];
      LeadingTerm(init);
      assert init[1..] == records[1..][..n - 2];
      assert Power(BASE, n - 1) == BASE * Power(BASE, n - 2);
      calc {
        Polynomial(records);
        (records[0] * Power(BASE, n - 2) + Polynomial(init[1..])) * BASE + records[n - 1];
        records[0] * Power(BASE, n - 2) * BASE + (Polynomial(init[1..]) * BASE + records[n - 1]);
        { assert records[0] * Power(BASE, n - 2) * BASE == records[0] * (BASE * Power(BASE, n - 2)); }
        records[0] * Power(BASE, n - 1) + (Polynomial(init[1..]) * BASE + records[n - 1]);
        records[0] * Power(BASE, n - 1) + Polynomial(records[1..]);
      }
    }
  }

  /** The weight of a record with `n` records behind it: a power of 2^40 + 435. */
  function Weight(n: nat): int {
    if n == 0 then 1 else 1099511628211 * Weight(n - 1)
  }

  function WeightedSum(records: seq<int>): int {
    if records == [] then 0 else records[0] * Weight(|records| - 1) + WeightedSum(records[1..])
  }

  lemma {:induction false} WeightIsPower(n: nat)
    ensures Weight(n) == Power(BASE, n)
  {
    if n > 0 {
      WeightIsPower(n - 1);
    }
  }

  lemma {:induction false} PolynomialIsSum(records: seq<int>)
    ensures Polynomial(records) == WeightedSum(records)
  {
    if records != [] {
      LeadingTerm(records);
      WeightIsPower(|records| - 1);
      PolynomialIsSum(records[1..]);
    }
  }

  /** The hash of a window is its weighted sum, in the least 128 bits. */
  lemma DigestMeans(window: seq<int>)
    ensures Digest(window) == WeightedSum(window) % (0x1_0000_0000_0000_0000 * 0x1_0000_0000_0000_0000)
  {
    PolynomialIsSum(window);
  }

  /** Dropping the first record and appending one, in terms of the polynomial. */
  lemma SlideWindow(records: seq<int>, position: nat, size: nat)
    requires size > 0 && position + size < |records|
    ensures Polynomial(records[position + 1..position + 1 + size]) ==
      (Polynomial(records[position..position + size]) - records[position] * Power(BASE, size - 1)) * BASE
      + records[position + size]
  {
    var window := records[position..position + size];
    var next := records[position + 1..position + 1 + size];
    LeadingTerm(window);
    assert next[..size - 1] == window[1..];
  }

  /** One masked update turns the hash of a window into that of the next window. */
  lemma RollForward(records: seq<int>, position: nat, size: nat)
    requires size > 0 && position + size < |records|
    ensures ((Digest(records[position..position + size]) - records[position] * (Power(BASE, size - 1) % MODULUS)) * BASE
             + records[position + size]) % MODULUS
            == Digest(records[position + 1..position + 1 + size])
  {
    var window := records[position..position + size];
    ReducedUpdate(Polynomial(window), Power(BASE, size - 1), records[position], records[position + size], MODULUS);
    SlideWindow(records, position, size);
  }

  /** Hashing with a reduction at every step loses nothing. */
  lemma AppendRecord(records: seq<int>, n: nat)
    requires n < |records|
    ensures (Digest(records[..n]) * BASE + records[n]) % MODULUS == Digest(records[..n + 1])
  {
    assert records[..n + 1][..n] == records[..n];
    ReducedUpdate(Polynomial(records[..n]), 0, 0, records[n], MODULUS);
  }

  datatype WindowHashes = InvalidWindowSize | Hashes(digests: seq<nat>)

  /** The digest of every window in order, each obtained from the one before in constant time. */
  method ComputeWindowHashes(records: seq<int>, windowSize: int) returns (result: WindowHashes)
    ensures result.InvalidWindowSize? <==> windowSize <= 0
    ensures windowSize > 0 ==>
      && |result.digests| == (if |records| < windowSize then 0 else |records| - windowSize + 1)
      && forall p | 0 <= p < |result.digests| :: result.digests[p] == Digest(records[p..p + windowSize])
  {
    if windowSize <= 0 {
      return InvalidWindowSize;
    }
    if |records| < windowSize {
      return Hashes([]);
    }
    var highFactor := Power(BASE, windowSize - 1) % MODULUS;
    var rolling := 0;
    for position := 0 to windowSize
      invariant rolling == Digest(records[..position])
    {
      AppendRecord(records, position);
      rolling := (rolling * BASE + records[position]) % MODULUS;
    }
    var digests := [rolling];
    for position := 0 to |records| - windowSize
      invariant |digests| == position + 1
      invariant rolling == Digest(records[position..position + windowSize])
      invariant forall p | 0 <= p <= position :: digests[p] == Digest(records[p..p + windowSize])
    {
      var outgoing, incoming := records[position], records[position + windowSize];
      RollForward(records, position, windowSize);
      rolling := ((rolling - outgoing * highFactor) * BASE + incoming) % MODULUS;
      digests := digests + [rolling];
    }
    return Hashes(digests);
  }
}
