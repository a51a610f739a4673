/**
 * Row-major index arithmetic shared by the byte-buffer and point-list
 * layouts: an index q * k + r with r < k determines q and r.
 */
module IndexArithmetic {

  lemma Gap(q: int, q': int, k: nat)
    requires q < q'
    ensures q * k + k <= q' * k
  {
    assert q' * k == q * k + k + (q' - q - 1) * k;
  }

  /** A quotient and remainder by k are unique. */
  lemma {:induction false} UniqueSplit(k: nat, q: nat, r: nat, q': nat, r': nat)
    requires r < k && r' < k && q * k + r == q' * k + r'
    ensures q == q' && r == r'
  {
    if q < q' {
      Gap(q, q', k);
      assert false;
    } else if q' < q {
      Gap(q', q, k);
      assert false;
    }
  }

  /** Below q * k + r with r < k lie at most (q + 1) * k indices. */
  lemma {:induction false} SplitBound(k: nat, q: nat, r: nat, rows: nat)
    requires r < k && q < rows
    ensures q * k + r < rows * k
  {
    Gap(q, rows, k);
  }

  /** Euclidean division recovers q and r from q * k + r. */
  lemma {:induction false} SplitRecovered(k: nat, q: nat, r: nat)
    requires r < k
    ensures (q * k + r) / k == q && (q * k + r) % k == r
  {
    var n := q * k + r;
    assert n == (n / k) * k + n % k;
    UniqueSplit(k, n / k, n % k, q, r);
  }

  lemma MulMono(a: int, b: int, k: nat)
    requires a <= b
    ensures a * k <= b * k
  {
    assert b * k == a * k + (b - a) * k;
  }

  /** An index below rows * k splits into a quotient below rows and a remainder below k. */
  lemma {:induction false} SplitOf(n: nat, k: nat, rows: nat)
    requires n < rows * k
    ensures k > 0 && n / k < rows && n % k < k && (n / k) * k + n % k == n
  {
    if k == 0 {
      assert false;
    }
    if n / k >= rows {
      MulMono(rows, n / k, k);
      assert false;
    }
  }
}
