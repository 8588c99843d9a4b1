/** The order of a nested `for a in as: for b in bs:` loop, used both for
    the capture tasks (panels, then timestamps: services/grafana.py:165-171)
    and for the merge visits (folders, then manifests: main.py:112-113). */
module Order {

  /** The pairs (outer index, inner index) in loop order. */
  function Grid(n: nat, m: nat): (r: seq<(nat, nat)>)
    decreases n
    ensures |r| == n * m
  {
    if n == 0 then []
    else Grid(n - 1, m) + seq(m, j requires 0 <= j < m => (n - 1, j))
  }

  /** Outer-major order: the pair (i, j) sits at position `i * m + j`. */
  lemma {:induction false} GridOrder(n: nat, m: nat, i: nat, j: nat)
    requires i < n && j < m
    ensures i * m + j < n * m
    ensures Grid(n, m)[i * m + j] == (i, j)
    decreases n
  {
    assert (n - 1) * m == n * m - m;
    if i < n - 1 {
      GridOrder(n - 1, m, i, j);
      assert i * m + j < (n - 1) * m;
    } else {
      assert i * m == (n - 1) * m;
    }
  }

  /** Every pair of the grid is in range. */
  lemma {:induction false} GridBounds(n: nat, m: nat)
    ensures forall k | 0 <= k < |Grid(n, m)| :: Grid(n, m)[k].0 < n && Grid(n, m)[k].1 < m
    decreases n
  {
    if n > 0 {
      GridBounds(n - 1, m);
      var g := Grid(n, m);
      var left := Grid(n - 1, m);
      assert forall k | 0 <= k < |left| :: g[k] == left[k];
    }
  }

  /** Position `k` of the grid holds `(k / m, k % m)`. */
  lemma GridAt(n: nat, m: nat, k: nat)
    requires k < |Grid(n, m)|
    ensures m > 0 && Grid(n, m)[k] == (k / m, k % m)
  {
    assert m > 0;
    var i := k / m;
    var j := k % m;
    assert k == i * m + j;
    QuotientBelow(k, m, n);
    GridOrder(n, m, i, j);
  }

  lemma QuotientBelow(k: nat, m: nat, n: nat)
    requires m > 0 && k < n * m
    ensures k / m < n
  {
  }

  /** Distinct positions hold distinct pairs. */
  lemma GridInjective(n: nat, m: nat, i: nat, j: nat)
    requires i < |Grid(n, m)| && j < |Grid(n, m)|
    ensures Grid(n, m)[i] == Grid(n, m)[j] ==> i == j
  {
    GridAt(n, m, i);
    GridAt(n, m, j);
  }

  /** The first row of the grid is its first `m` positions: `(0, k)` sits
      at position `k`. */
  lemma GridFirstRow(n: nat, m: nat, k: nat)
    requires k < |Grid(n, m)|
    ensures Grid(n, m)[k].0 == 0 <==> k < m
    ensures k < m ==> Grid(n, m)[k] == (0, k)
  {
    GridAt(n, m, k);
    if k < m {
      assert k / m == 0 && k % m == k;
    } else {
      assert k / m >= 1;
    }
  }
}
