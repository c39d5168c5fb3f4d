/** The distances between cities. */
module Floyd {
  // The in-place closure of the road matrix, where 0 off the diagonal means that there is no road, against shortest
  // walks.

  import opened Delivery
  import Turns

  // ---------------------------------------------------------------- walks

  /** Lengths of the direct roads, none negative; 0 where there is none. */
  ghost predicate Roads(w: seq<seq<int>>) {
    && Square(w, |w|)
    && (forall i, j | 0 <= i < |w| && 0 <= j < |w| :: w[i][j] >= 0)
  }

  /** A sequence of cities along roads, all stops but the two ends numbered below k. */
  ghost predicate Walk(w: seq<seq<int>>, k: nat, i: nat, j: nat, p: seq<nat>)
    requires Roads(w)
  {
    && |p| >= 2 && p[0] == i && p[|p| - 1] == j
    && (forall t | 0 <= t < |p| :: p[t] < |w|)
    && (forall t | 0 <= t < |p| - 1 :: w[p[t]][p[t + 1]] > 0)
    && (forall t | 0 < t < |p| - 1 :: p[t] < k)
  }

  ghost function Length(w: seq<seq<int>>, p: seq<nat>): int
    requires Roads(w) && forall t | 0 <= t < |p| :: p[t] < |w|
  {
    if |p| < 2 then 0 else w[p[0]][p[1]] + Length(w, p[1..])
  }

  /** d is the length of a shortest walk with stops below k, or 0 when there is none. */
  ghost predicate Shortest(w: seq<seq<int>>, k: nat, i: nat, j: nat, d: int)
    requires Roads(w)
  {
    && d >= 0
    && (d > 0 ==> exists p :: Walk(w, k, i, j, p) && Length(w, p) == d)
    && (forall p | Walk(w, k, i, j, p) :: 0 < d <= Length(w, p))
  }

  lemma {:induction false} LengthPositive(w: seq<seq<int>>, k: nat, i: nat, j: nat, p: seq<nat>)
    requires Roads(w) && Walk(w, k, i, j, p)
    ensures Length(w, p) > 0
    decreases |p|
  {
    if |p| > 2 {
      LengthPositive(w, k, p[1], j, p[1..]);
    }
  }

  lemma {:induction false} LengthSplit(w: seq<seq<int>>, p: seq<nat>, t: nat)
    requires Roads(w) && (forall s | 0 <= s < |p| :: p[s] < |w|) && t < |p|
    ensures Length(w, p) == Length(w, p[..t + 1]) + Length(w, p[t..])
    decreases t
  {
    if t > 0 {
      LengthSplit(w, p[1..], t - 1);
      assert p[1..][..t] == p[..t + 1][1..];
      assert p[1..][t - 1..] == p[t..];
    } else {
      assert p[0..] == p;
    }
  }

  /** Two walks that meet make one. */
  lemma Join(w: seq<seq<int>>, k: nat, i: nat, m: nat, j: nat, p: seq<nat>, q: seq<nat>)
    requires Roads(w) && Walk(w, k, i, m, p) && Walk(w, k, m, j, q) && m < k
    ensures Walk(w, k, i, j, p + q[1..]) && Length(w, p + q[1..]) == Length(w, p) + Length(w, q)
  {
    var r := p + q[1..];
    var t := |p| - 1;
    assert r[..t + 1] == p;
    assert r[t..] == q;
    JoinPasses(w, k, i, m, j, p, q);
    LengthSplit(w, r, t);
  }

  lemma JoinPasses(w: seq<seq<int>>, k: nat, i: nat, m: nat, j: nat, p: seq<nat>, q: seq<nat>)
    requires Roads(w) && Walk(w, k, i, m, p) && Walk(w, k, m, j, q) && m < k
    ensures Walk(w, k, i, j, p + q[1..])
  {
    var r := p + q[1..];
    var t := |p| - 1;
    forall s | 0 <= s < |r| - 1 ensures w[r[s]][r[s + 1]] > 0 {
      if s >= t { assert r[s] == q[s - t] && r[s + 1] == q[s + 1 - t]; }
    }
    forall s | 0 < s < |r| - 1 ensures r[s] < k {
      if s >= t { assert r[s] == q[s - t]; }
    }
  }

  lemma {:induction false} FirstVisit(p: seq<nat>, k: nat, from: nat) returns (t: nat)
    requires exists s :: from <= s < |p| - 1 && p[s] == k
    ensures from <= t < |p| - 1 && p[t] == k && forall s | from <= s < t :: p[s] != k
    decreases |p| - from
  {
    if p[from] == k { t := from; } else { t := FirstVisit(p, k, from + 1); }
  }

  // ---------------------------------------------------------------- one round

  function Relax(d: seq<seq<int>>, k: nat, i: nat, j: nat): int
    requires Square(d, |d|) && k < |d| && i < |d| && j < |d|
  {
    var detour := if d[i][k] != 0 && d[k][j] != 0 then d[i][k] + d[k][j] else 0;
    if detour != 0 && i != j && (d[i][j] == 0 || detour < d[i][j]) then detour else d[i][j]
  }

  /** d holds the shortest lengths with stops below k; its diagonal is the one it started with. */
  ghost predicate Closed(w: seq<seq<int>>, k: nat, d: seq<seq<int>>)
    requires Roads(w)
  {
    && Square(d, |w|)
    && (forall i | 0 <= i < |w| :: d[i][i] == w[i][i])
    && (forall i, j | 0 <= i < |w| && 0 <= j < |w| && i != j :: Shortest(w, k, i, j, d[i][j]))
  }

  lemma NoStops(w: seq<seq<int>>, i: nat, j: nat, p: seq<nat>)
    requires Roads(w) && Walk(w, 0, i, j, p)
    ensures |p| == 2 || p[1] < 0
  {
  }

  /** The roads themselves are the shortest walks without stops. */
  lemma RoadsAreClosed(w: seq<seq<int>>)
    requires Roads(w)
    ensures Closed(w, 0, w)
  {
    forall i: nat, j: nat | i < |w| && j < |w| && i != j ensures Shortest(w, 0, i, j, w[i][j]) {
      if w[i][j] > 0 {
        assert Walk(w, 0, i, j, [i, j]) && Length(w, [i, j]) == w[i][j] + Length(w, [i, j][1..]);
      }
      forall p | Walk(w, 0, i, j, p) ensures 0 < w[i][j] <= Length(w, p) {
        NoStops(w, i, j, p);
        assert p == [i, j];
        assert Length(w, p) == w[i][j] + Length(w, p[1..]);
      }
    }
  }

  /** Row k and column k do not change in round k, so working in place is harmless. */
  lemma RoundKeepsCross(d: seq<seq<int>>, k: nat, i: nat)
    requires Square(d, |d|) && k < |d| && i < |d| && d[k][k] >= 0 && d[i][k] >= 0 && d[k][i] >= 0
    ensures Relax(d, k, i, k) == d[i][k] && Relax(d, k, k, i) == d[k][i]
  {
  }

  lemma WalkUpTo(w: seq<seq<int>>, k: nat, i: nat, j: nat, p: seq<nat>, t: nat)
    requires Roads(w) && k < |w| && Walk(w, k + 1, i, j, p)
    requires 1 <= t < |p| - 1 && p[t] == k && forall s | 1 <= s < t :: p[s] != k
    ensures Walk(w, k, i, k, p[..t + 1])
  {
    var q := p[..t + 1];
    forall s | 0 < s < |q| - 1 ensures q[s] < k {
      assert p[s] < k + 1;
    }
  }

  lemma WalkFrom(w: seq<seq<int>>, k: nat, i: nat, j: nat, p: seq<nat>, t: nat)
    requires Roads(w) && Walk(w, k, i, j, p) && t < |p| - 1
    ensures Walk(w, k, p[t], j, p[t..])
  {
    var q := p[t..];
    forall s | 0 <= s < |q| - 1 ensures w[q[s]][q[s + 1]] > 0 {
      var r := t + s;
      assert w[p[r]][p[r + 1]] > 0;
    }
  }

  /** A walk that stops at k falls into one that does not, up to the first visit, and a rest. */
  lemma SplitAtFirstVisit(w: seq<seq<int>>, k: nat, i: nat, j: nat, p: seq<nat>, t: nat)
    requires Roads(w) && k < |w| && Walk(w, k + 1, i, j, p)
    requires 1 <= t < |p| - 1 && p[t] == k && forall s | 1 <= s < t :: p[s] != k
    ensures Walk(w, k, i, k, p[..t + 1]) && Walk(w, k + 1, k, j, p[t..])
    ensures Length(w, p) == Length(w, p[..t + 1]) + Length(w, p[t..])
    ensures Length(w, p[..t + 1]) > 0 && Length(w, p[t..]) > 0
  {
    WalkUpTo(w, k, i, j, p, t);
    WalkFrom(w, k + 1, i, j, p, t);
    LengthSplit(w, p, t);
    LengthPositive(w, k, i, k, p[..t + 1]);
    LengthPositive(w, k + 1, k, j, p[t..]);
  }

  lemma AtMostShortest(w: seq<seq<int>>, k: nat, d: seq<seq<int>>, i: nat, j: nat, p: seq<nat>)
    requires Roads(w) && Closed(w, k, d) && i < |w| && j < |w| && i != j && Walk(w, k, i, j, p)
    ensures 0 < d[i][j] <= Length(w, p)
  {
    assert Shortest(w, k, i, j, d[i][j]);
  }

  lemma ClosedNonNegative(w: seq<seq<int>>, k: nat, d: seq<seq<int>>, i: nat, j: nat)
    requires Roads(w) && Closed(w, k, d) && i < |w| && j < |w|
    ensures d[i][j] >= 0
  {
    if i != j { assert Shortest(w, k, i, j, d[i][j]); }
  }

  /** No walk with stops up to k is shorter than the relaxed value, and if there is one the value is not 0. */
  lemma {:induction false} RelaxIsLow(w: seq<seq<int>>, k: nat, d: seq<seq<int>>, i: nat, j: nat, p: seq<nat>)
    requires Roads(w) && k < |w| && Closed(w, k, d) && i < |w| && j < |w| && i != j && Walk(w, k + 1, i, j, p)
    ensures 0 < Relax(d, k, i, j) <= Length(w, p)
    decreases |p|
  {
    ClosedNonNegative(w, k, d, i, j);
    ClosedNonNegative(w, k, d, i, k);
    ClosedNonNegative(w, k, d, k, j);
    RelaxLow(d, k, i, j);
    if exists t :: 1 <= t < |p| - 1 && p[t] == k {
      var t := FirstVisit(p, k, 1);
      SplitAtFirstVisit(w, k, i, j, p, t);
      if i != k { AtMostShortest(w, k, d, i, k, p[..t + 1]); }
      if j != k {
        RelaxIsLow(w, k, d, k, j, p[t..]);
        RoundKeepsCross(d, k, j);
      }
    } else {
      AtMostShortest(w, k, d, i, j, p);
    }
  }

  lemma RelaxLow(d: seq<seq<int>>, k: nat, i: nat, j: nat)
    requires Square(d, |d|) && k < |d| && i < |d| && j < |d| && i != j
    requires d[i][k] >= 0 && d[k][j] >= 0 && d[i][j] >= 0
    ensures Relax(d, k, i, j) >= 0
    ensures d[i][j] > 0 ==> 0 < Relax(d, k, i, j) <= d[i][j]
    ensures d[i][k] > 0 && d[k][j] > 0 ==> 0 < Relax(d, k, i, j) <= d[i][k] + d[k][j]
  {
  }

  lemma Wider(w: seq<seq<int>>, k: nat, i: nat, j: nat, p: seq<nat>)
    requires Roads(w) && Walk(w, k, i, j, p)
    ensures Walk(w, k + 1, i, j, p)
  {
  }

  /** Some walk with stops up to k has the relaxed length. */
  lemma RelaxIsReached(w: seq<seq<int>>, k: nat, d: seq<seq<int>>, i: nat, j: nat)
    requires Roads(w) && k < |w| && Closed(w, k, d) && i < |w| && j < |w| && i != j
    ensures Relax(d, k, i, j) >= 0
    ensures Relax(d, k, i, j) > 0 ==> exists p :: Walk(w, k + 1, i, j, p) && Length(w, p) == Relax(d, k, i, j)
  {
    assert Shortest(w, k, i, j, d[i][j]);
    if i != k && j != k {
      assert Shortest(w, k, i, k, d[i][k]) && Shortest(w, k, k, j, d[k][j]);
    }
    if Relax(d, k, i, j) == d[i][j] {
      if d[i][j] > 0 {
        var p :| Walk(w, k, i, j, p) && Length(w, p) == d[i][j];
        Wider(w, k, i, j, p);
      }
    } else {
      var p :| Walk(w, k, i, k, p) && Length(w, p) == d[i][k];
      var q :| Walk(w, k, k, j, q) && Length(w, q) == d[k][j];
      Detour(w, k, i, j, p, q);
    }
  }

  lemma Detour(w: seq<seq<int>>, k: nat, i: nat, j: nat, p: seq<nat>, q: seq<nat>)
    requires Roads(w) && Walk(w, k, i, k, p) && Walk(w, k, k, j, q)
    ensures Walk(w, k + 1, i, j, p + q[1..]) && Length(w, p + q[1..]) == Length(w, p) + Length(w, q)
  {
    Wider(w, k, i, k, p);
    Wider(w, k, k, j, q);
    Join(w, k + 1, i, k, j, p, q);
  }

  /** One relaxed entry is the shortest length with one more city allowed as a stop. */
  lemma RelaxIsShortest(w: seq<seq<int>>, k: nat, d: seq<seq<int>>, i: nat, j: nat, next: nat)
    requires Roads(w) && k < |w| && Closed(w, k, d) && i < |w| && j < |w| && i != j && next == k + 1
    ensures Shortest(w, next, i, j, Relax(d, k, i, j))
  {
    RelaxIsReached(w, k, d, i, j);
    forall p | Walk(w, next, i, j, p) ensures 0 < Relax(d, k, i, j) <= Length(w, p) {
      RelaxIsLow(w, k, d, i, j, p);
    }
  }

  lemma RoundCloses(w: seq<seq<int>>, k: nat, d: seq<seq<int>>, d': seq<seq<int>>)
    requires Roads(w) && k < |w| && Closed(w, k, d) && Square(d', |w|)
    requires forall i, j | 0 <= i < |w| && 0 <= j < |w| :: d'[i][j] == Relax(d, k, i, j)
    ensures Closed(w, k + 1, d')
  {
    forall i: nat, j: nat | i < |w| && j < |w| && i != j ensures Shortest(w, k + 1, i, j, d'[i][j]) {
      RelaxIsShortest(w, k, d, i, j, k + 1);
      assert d'[i][j] == Relax(d, k, i, j);
    }
    forall i: nat | i < |w| ensures d'[i][i] == w[i][i] {
      assert d'[i][i] == Relax(d, k, i, i);
    }
  }

  // ---------------------------------------------------------------- in place

  ghost function View(m: array2<int>): (r: seq<seq<int>>)
    requires m.Length0 == m.Length1
    reads m
    ensures Square(r, m.Length0)
    ensures forall i, j | 0 <= i < m.Length0 && 0 <= j < m.Length0 :: r[i][j] == m[i, j]
  {
    seq(m.Length0, i requires 0 <= i < m.Length0 reads m =>
      seq(m.Length0, j requires 0 <= j < m.Length0 reads m => m[i, j]))
  }

  /** Within round k: the entries before (i, j), row by row, are relaxed, the others are as before the round. */
  ghost predicate Partly(d: seq<seq<int>>, k: nat, i: nat, j: nat, m: array2<int>)
    requires Square(d, |d|) && k < |d| == m.Length0 == m.Length1
    reads m
  {
    forall a, b | 0 <= a < |d| && 0 <= b < |d| ::
      m[a, b] == if a < i || (a == i && b < j) then Relax(d, k, a, b) else d[a][b]
  }

  /** The body of the loops, on any numbers.  For distances so far it relaxes the entry as if the round were not
      done in place. */
  method RelaxEntry(matrix: array2<int>, k: nat, i: nat, j: nat, ghost w: seq<seq<int>>, ghost d: seq<seq<int>>)
    requires matrix.Length0 == matrix.Length1 == |w| && i < |w| && j < |w| && k < |w|
    modifies matrix
    ensures forall a, b | 0 <= a < |w| && 0 <= b < |w| && (a != i || b != j) :: matrix[a, b] == old(matrix[a, b])
    ensures Roads(w) && Closed(w, k, d) && old(Partly(d, k, i, j, matrix)) ==> matrix[i, j] == Relax(d, k, i, j)
  {
    ghost var sound := Roads(w) && Closed(w, k, d) && Partly(d, k, i, j, matrix);
    if sound {
      CrossIsOld(w, d, k, i, j, matrix);
    }
    var aux2 := 0;
    var aux1 := matrix[i, j];
    if matrix[i, k] != 0 && matrix[k, j] != 0 {
      aux2 := matrix[i, k] + matrix[k, j];
      assert sound ==> 0 < aux2 <= 2 * Cap(w);
    }
    if aux2 != 0 && i != j && (aux1 == 0 || aux2 < aux1) {
      matrix[i, j] := aux2;
    }
  }

  /** The three entries the body reads are those from before the round. */
  lemma CrossIsOld(w: seq<seq<int>>, d: seq<seq<int>>, k: nat, i: nat, j: nat, matrix: array2<int>)
    requires matrix.Length0 == matrix.Length1 == |w| && i < |w| && j < |w| && k < |w|
    requires Roads(w) && Closed(w, k, d) && Partly(d, k, i, j, matrix)
    ensures matrix[i, j] == d[i][j] && matrix[i, k] == d[i][k] && matrix[k, j] == d[k][j]
    ensures d[i][k] != 0 && d[k][j] != 0 ==> 0 < d[i][k] + d[k][j] <= 2 * Cap(w)
  {
    RoundKeepsCross(d, k, i);
    RoundKeepsCross(d, k, j);
    if d[i][k] != 0 && d[k][j] != 0 {
      SumIsSmall(w, k, d, i, j);
    }
  }

  lemma RoundEnds(w: seq<seq<int>>, k: nat, d: seq<seq<int>>, matrix: array2<int>)
    requires matrix.Length0 == matrix.Length1 == |w| && k < |w|
    requires Roads(w) && Closed(w, k, d) && Partly(d, k, |w|, 0, matrix)
    ensures Closed(w, k + 1, View(matrix))
  {
    RoundCloses(w, k, d, View(matrix));
  }

  /** The matrix of roads becomes the matrix of distances; a matrix with a negative number becomes something. */
  method FloydMatrix(matrix: array2<int>)
    requires matrix.Length0 == matrix.Length1
    modifies matrix
    ensures Roads(old(View(matrix))) ==> Closed(old(View(matrix)), matrix.Length0, View(matrix))
  {
    var n := matrix.Length0;
    ghost var w := View(matrix);
    if Roads(w) {
      RoadsAreClosed(w);
    }
    var k := 0;
    while k < n
      invariant 0 <= k <= n
      invariant Roads(w) ==> Closed(w, k, View(matrix))
    {
      ghost var d := View(matrix);
      var i := 0;
      while i < n
        invariant 0 <= i <= n
        invariant Roads(w) ==> Partly(d, k, i, 0, matrix)
      {
        var j := 0;
        while j < n
          invariant 0 <= j <= n
          invariant Roads(w) ==> Partly(d, k, i, j, matrix)
        {
          RelaxEntry(matrix, k, i, j, w, d);
          j := j + 1;
        }
        i := i + 1;
      }
      if Roads(w) {
        RoundEnds(w, k, d, matrix);
      }
      k := k + 1;
    }
  }

  // ---------------------------------------------------------------- what the distances mean

  /** The distances are determined by the roads. */
  lemma ShortestIsUnique(w: seq<seq<int>>, k: nat, i: nat, j: nat, d: int, e: int)
    requires Roads(w) && Shortest(w, k, i, j, d) && Shortest(w, k, i, j, e)
    ensures d == e
  {
    if d > 0 {
      var p :| Walk(w, k, i, j, p) && Length(w, p) == d;
    }
    if e > 0 {
      var p :| Walk(w, k, i, j, p) && Length(w, p) == e;
    }
  }

  ghost function Reverse(p: seq<nat>): (r: seq<nat>)
    ensures |r| == |p| && forall t | 0 <= t < |p| :: r[t] == p[|p| - 1 - t]
  {
    seq(|p|, t requires 0 <= t < |p| => p[|p| - 1 - t])
  }

  ghost predicate BothWays(w: seq<seq<int>>)
    requires Roads(w)
  {
    forall i, j | 0 <= i < |w| && 0 <= j < |w| :: w[i][j] == w[j][i]
  }

  lemma {:induction false} ReverseLength(w: seq<seq<int>>, p: seq<nat>)
    requires Roads(w) && BothWays(w) && (forall t | 0 <= t < |p| :: p[t] < |w|)
    ensures forall t | 0 <= t < |p| :: Reverse(p)[t] < |w|
    ensures Length(w, Reverse(p)) == Length(w, p)
    decreases |p|
  {
    if |p| >= 2 {
      var r := Reverse(p);
      var n := |p| - 1;
      ReverseLength(w, p[1..]);
      assert r[..n] == Reverse(p[1..]);
      assert r[n - 1..] == [p[1], p[0]];
      LengthSplit(w, r, n - 1);
      assert Length(w, [p[1], p[0]]) == w[p[1]][p[0]] + Length(w, [p[1], p[0]][1..]);
    }
  }

  /** With roads that go both ways the distances are symmetric. */
  lemma DistancesSymmetric(w: seq<seq<int>>, d: seq<seq<int>>, i: nat, j: nat)
    requires Roads(w) && BothWays(w) && Closed(w, |w|, d) && i < |w| && j < |w|
    ensures d[i][j] == d[j][i]
  {
    if i != j {
      assert Shortest(w, |w|, i, j, d[i][j]) && Shortest(w, |w|, j, i, d[j][i]);
      NotLonger(w, d, i, j);
      NotLonger(w, d, j, i);
    }
  }

  lemma NotLonger(w: seq<seq<int>>, d: seq<seq<int>>, i: nat, j: nat)
    requires Roads(w) && BothWays(w) && Closed(w, |w|, d) && i < |w| && j < |w| && i != j
    ensures d[i][j] > 0 ==> 0 < d[j][i] <= d[i][j]
  {
    assert Shortest(w, |w|, i, j, d[i][j]) && Shortest(w, |w|, j, i, d[j][i]);
    if d[i][j] > 0 {
      var p :| Walk(w, |w|, i, j, p) && Length(w, p) == d[i][j];
      ReverseLength(w, p);
      var r := Reverse(p);
      forall t | 0 <= t < |r| - 1 ensures w[r[t]][r[t + 1]] > 0 {
        var s := |p| - 2 - t;
        assert w[p[s]][p[s + 1]] > 0;
      }
      assert Walk(w, |w|, j, i, r);
    }
  }

  /** A detour is never shorter. */
  lemma DistancesTriangle(w: seq<seq<int>>, d: seq<seq<int>>, i: nat, m: nat, j: nat)
    requires Roads(w) && Closed(w, |w|, d) && i < |w| && m < |w| && j < |w| && i != m && m != j && i != j
    requires d[i][m] > 0 && d[m][j] > 0
    ensures 0 < d[i][j] <= d[i][m] + d[m][j]
  {
    assert Shortest(w, |w|, i, m, d[i][m]) && Shortest(w, |w|, m, j, d[m][j]) && Shortest(w, |w|, i, j, d[i][j]);
    var p :| Walk(w, |w|, i, m, p) && Length(w, p) == d[i][m];
    var q :| Walk(w, |w|, m, j, q) && Length(w, q) == d[m][j];
    Join(w, |w|, i, m, j, p, q);
  }

  // ---------------------------------------------------------------- no overflow

  ghost function RowMax(r: seq<int>): (x: nat)
    ensures forall i | 0 <= i < |r| :: r[i] <= x
  {
    if r == [] then 0 else
      var x := RowMax(r[1..]);
      assert forall i | 0 < i < |r| :: r[i] == r[1..][i - 1];
      if r[0] > x then r[0] else x
  }

  /** The longest road. */
  ghost function Longest(w: seq<seq<int>>): (x: nat)
    ensures forall i, j | 0 <= i < |w| && 0 <= j < |w[i]| :: w[i][j] <= x
  {
    if w == [] then 0 else
      var x, y := Longest(w[1..]), RowMax(w[0]);
      assert forall i | 0 < i < |w| :: w[i] == w[1..][i - 1];
      if y > x then y else x
  }

  lemma OneMore(n: nat, x: nat)
    requires n > 0
    ensures n * x == x + (n - 1) * x
  {
  }

  lemma RoadAtMost(w: seq<seq<int>>, i: nat, j: nat)
    requires Roads(w) && i < |w| && j < |w|
    ensures 0 <= w[i][j] <= Longest(w)
  {
  }

  lemma {:induction false} LengthBound(w: seq<seq<int>>, p: seq<nat>, roads: nat)
    requires Roads(w) && roads == |p| - 1 && forall t | 0 <= t < |p| :: p[t] < |w|
    ensures Length(w, p) <= roads * Longest(w)
    decreases roads
  {
    if roads > 0 {
      LengthBound(w, p[1..], roads - 1);
      RoadAtMost(w, p[0], p[1]);
      OneMore(roads, Longest(w));
    }
  }

  ghost predicate NoRepeats(p: seq<nat>) {
    forall s, t | 0 <= s < t < |p| :: p[s] != p[t]
  }

  /** p without its stops after s up to t. */
  ghost function Cut(p: seq<nat>, s: nat, t: nat): seq<nat>
    requires s < t < |p|
  {
    p[..s + 1] + p[t + 1..]
  }

  lemma CutIsShorter(w: seq<seq<int>>, k: nat, i: nat, j: nat, p: seq<nat>, s: nat, t: nat)
    requires Roads(w) && Walk(w, k, i, j, p) && s < t < |p| && p[s] == p[t]
    ensures forall r | 0 <= r < |Cut(p, s, t)| :: Cut(p, s, t)[r] < |w|
    ensures Length(w, Cut(p, s, t)) < Length(w, p)
  {
    CutPieces(p, s, t);
    CutStops(w, p, s, t);
    LengthSplit(w, p, t);
    LengthSplit(w, p[..t + 1], s);
    LengthSplit(w, Cut(p, s, t), s);
    LoopPositive(w, k, i, j, p, s, t);
  }

  lemma CutPieces(p: seq<nat>, s: nat, t: nat)
    requires s < t < |p| && p[s] == p[t]
    ensures Cut(p, s, t)[..s + 1] == p[..s + 1] && Cut(p, s, t)[s..] == p[t..]
    ensures p[..t + 1][..s + 1] == p[..s + 1] && p[..t + 1][s..] == p[s..t + 1]
  {
  }

  lemma CutStops(w: seq<seq<int>>, p: seq<nat>, s: nat, t: nat)
    requires s < t < |p| && forall r | 0 <= r < |p| :: p[r] < |w|
    ensures forall r | 0 <= r < |Cut(p, s, t)| :: Cut(p, s, t)[r] < |w|
  {
  }

  lemma LoopPositive(w: seq<seq<int>>, k: nat, i: nat, j: nat, p: seq<nat>, s: nat, t: nat)
    requires Roads(w) && Walk(w, k, i, j, p) && s < t < |p| && p[s] == p[t]
    ensures Length(w, p[s..t + 1]) > 0
  {
    assert Walk(w, |w|, p[s], p[s], p[s..t + 1]);
    LengthPositive(w, |w|, p[s], p[s], p[s..t + 1]);
  }

  /** A shortest walk visits no city twice: the loop could be cut out. */
  lemma ShortestNoRepeats(w: seq<seq<int>>, k: nat, i: nat, j: nat, p: seq<nat>)
    requires Roads(w) && i != j && Walk(w, k, i, j, p) && Shortest(w, k, i, j, Length(w, p))
    ensures NoRepeats(p)
  {
    forall s: nat, t: nat | s < t < |p| ensures p[s] != p[t] {
      if p[s] == p[t] {
        CutIsShorter(w, k, i, j, p, s, t);
        CutWalk(w, k, i, j, p, s, t);
      }
    }
  }

  lemma CutWalk(w: seq<seq<int>>, k: nat, i: nat, j: nat, p: seq<nat>, s: nat, t: nat)
    requires Roads(w) && i != j && Walk(w, k, i, j, p) && s < t < |p| && p[s] == p[t]
    ensures Walk(w, k, i, j, Cut(p, s, t))
  {
    var q := Cut(p, s, t);
    assert s == 0 ==> t < |p| - 1;
    forall r | 0 <= r < |q| - 1 ensures w[q[r]][q[r + 1]] > 0 {
      if r == s { assert q[r + 1] == p[t + 1]; }
      else if r > s { assert q[r] == p[r + t - s] && q[r + 1] == p[r + 1 + t - s]; }
    }
    forall r | 0 < r < |q| - 1 ensures q[r] < k {
      if r > s { assert q[r] == p[r + t - s]; }
    }
  }

  ghost function Without(p: seq<nat>, v: nat): (r: seq<nat>)
    requires NoRepeats(p)
    ensures NoRepeats(r) && |r| >= |p| - 1
    ensures forall x | x in r :: x in p && x != v
  {
    if p == [] then [] else if p[0] == v then p[1..]
    else
      var r := Without(p[1..], v);
      assert forall x | x in r :: x in p[1..];
      assert p[0] !in p[1..];
      [p[0]] + r
  }

  lemma NothingBelowZero(p: seq<nat>)
    ensures p == [] || (p[0] in p && p[0] >= 0)
  {
  }

  lemma {:induction false} DistinctIsShort(p: seq<nat>, n: nat)
    requires NoRepeats(p) && forall x | x in p :: x < n
    ensures |p| <= n
    decreases n
  {
    if n > 0 {
      DistinctIsShort(Without(p, n - 1), n - 1);
    } else {
      NothingBelowZero(p);
    }
  }

  /** As many roads of the longest kind as there are cities. */
  ghost function Cap(w: seq<seq<int>>): int {
    |w| * Longest(w)
  }

  lemma WithinCap(w: seq<seq<int>>, p: seq<nat>)
    requires Roads(w) && p != [] && NoRepeats(p) && forall t | 0 <= t < |p| :: p[t] < |w|
    ensures Length(w, p) <= Cap(w)
  {
    DistinctIsShort(p, |w|);
    LengthBound(w, p, |p| - 1);
    MulMonotone(|p| - 1, |w|, Longest(w));
  }

  lemma MulMonotone(a: nat, b: nat, c: nat)
    requires a <= b
    ensures a * c <= b * c
  {
  }

  /** No distance, in any round, exceeds n times the longest road. */
  lemma ShortestIsSmall(w: seq<seq<int>>, k: nat, i: nat, j: nat, d: int)
    requires Roads(w) && i < |w| && j < |w| && i != j && Shortest(w, k, i, j, d)
    ensures 0 <= d <= Cap(w)
  {
    if d > 0 {
      var p :| Walk(w, k, i, j, p) && Length(w, p) == d;
      ShortestNoRepeats(w, k, i, j, p);
      WithinCap(w, p);
    } else {
      MulMonotone(0, |w|, Longest(w));
    }
  }

  /** So the sums formed on the way stay below 2 n times the longest road. */
  lemma SumIsSmall(w: seq<seq<int>>, k: nat, d: seq<seq<int>>, i: nat, j: nat)
    requires Roads(w) && k < |w| && Closed(w, k, d) && i < |w| && j < |w| && d[i][k] != 0 && d[k][j] != 0
    ensures 0 < d[i][k] + d[k][j] <= 2 * Cap(w)
  {
    EntryIsSmall(w, k, d, i, k);
    EntryIsSmall(w, k, d, k, j);
  }

  lemma EntryIsSmall(w: seq<seq<int>>, k: nat, d: seq<seq<int>>, i: nat, j: nat)
    requires Roads(w) && Closed(w, k, d) && i < |w| && j < |w|
    ensures 0 <= d[i][j] <= Cap(w)
  {
    if i != j {
      assert Shortest(w, k, i, j, d[i][j]);
      ShortestIsSmall(w, k, i, j, d[i][j]);
    } else {
      MulMonotone(1, |w|, Longest(w));
    }
  }

  /** A distance between different cities is positive exactly when a walk connects them; none overflows. */
  lemma DistancesAreRoutes(w: seq<seq<int>>, d: seq<seq<int>>, i: nat, j: nat)
    requires Roads(w) && Closed(w, |w|, d) && i < |w| && j < |w|
    ensures 0 <= d[i][j] <= Cap(w)
    ensures i != j ==> (d[i][j] > 0 <==> exists p :: Walk(w, |w|, i, j, p))
    ensures d[i][i] == w[i][i]
  {
    EntryIsSmall(w, |w|, d, i, j);
    if i != j {
      assert Shortest(w, |w|, i, j, d[i][j]);
    }
  }

  /** The matrix the parser leaves behind is one the simulation can run with. */
  lemma DistancesSuitTurns(w: seq<seq<int>>, d: seq<seq<int>>)
    requires Roads(w) && Closed(w, |w|, d)
    ensures Cap(w) >= 0 && Turns.Routes(d, |w|, Cap(w))
  {
    MulMonotone(0, |w|, Longest(w));
    forall i: nat, j: nat | i < |w| && j < |w| ensures 0 <= d[i][j] <= Cap(w) {
      EntryIsSmall(w, |w|, d, i, j);
    }
  }
}
