/** nonbijective_vl, build_matrix and find_matrix_vl (voiceleading.py:147-230):
    a voice leading that may double notes, found by a dynamic program over the
    matrix of circular distances between the target notes (rows) and the source
    notes (columns), followed by a walk back from the bottom-right cell.
    The module globals theMatrix, outputMatrix, globalSource and globalTarget,
    which build_matrix writes and find_matrix_vl reads, are passed explicitly. */
module NonBijective {

  import opened Wrappers
  import opened PitchClass
  import opened Seqs

  /** A cell of the matrices: `row` indexes the target, `col` the source. */
  datatype Cell = Cell(row: int, col: int)

  /** One entry `[source note, target note]` of a voice leading. */
  datatype Link = Link(source: int, target: int)

  /** What nonbijective_vl returns: `(cur_size, cur_vl)`. */
  datatype NonBijectiveVl = NonBijectiveVl(size: int, links: seq<Link>)

  function Min3(a: int, b: int, c: int): (m: int)
    ensures m <= a && m <= b && m <= c
    ensures m == a || m == b || m == c
  {
    Min(Min(a, b), c)
  }

  /** A rectangular matrix of weights with at least one row; theMatrix as a value. */
  predicate IsMatrix(w: seq<seq<int>>)
  {
    |w| > 0 && |w[0]| > 0 && forall r :: 0 <= r < |w| ==> |w[r]| == |w[0]|
  }

  /** One row of theMatrix: the distances from target note `t` to every source note. */
  function Row(src: seq<int>, t: int): (row: seq<int>)
    ensures |row| == |src|
  {
    seq(|src|, c requires 0 <= c < |src| => CircularDistance(t, src[c]))
  }

  /** theMatrix of build_matrix: `distance_func(target_item, source_item)`, one
      row per target note, built row by row as the loop of build_matrix does. */
  function Weights(src: seq<int>, tgt: seq<int>): (w: seq<seq<int>>)
    requires |src| > 0 && |tgt| > 0
    ensures IsMatrix(w) && |w| == |tgt| && |w[0]| == |src|
  {
    if |tgt| == 1 then [Row(src, tgt[0])]
    else Weights(src, tgt[..|tgt| - 1]) + [Row(src, tgt[|tgt| - 1])]
  }

  lemma {:induction false} WeightsAreDistances(src: seq<int>, tgt: seq<int>)
    requires |src| > 0 && |tgt| > 0
    ensures forall r, c :: 0 <= r < |tgt| && 0 <= c < |src| ==> Weights(src, tgt)[r][c] == CircularDistance(tgt[r], src[c])
  {
    if |tgt| > 1 {
      WeightsAreDistances(src, tgt[..|tgt| - 1]);
    }
  }

  /** outputMatrix[r][c] once build_matrix is done: the row 0 and column 0
      prefix sums, and elsewhere the cell's weight plus the least of the
      left, upper and upper-left neighbours. */
  function Cum(w: seq<seq<int>>, r: int, c: int): int
    requires IsMatrix(w) && 0 <= r < |w| && 0 <= c < |w[0]|
    decreases r + c
  {
    if r == 0 && c == 0 then w[0][0]
    else if r == 0 then Cum(w, 0, c - 1) + w[0][c]
    else if c == 0 then Cum(w, r - 1, 0) + w[r][0]
    else w[r][c] + Min3(Cum(w, r, c - 1), Cum(w, r - 1, c), Cum(w, r - 1, c - 1))
  }

  /** Every weight of the matrix is at least zero, as distances are. */
  predicate NonNegative(w: seq<seq<int>>)
    requires IsMatrix(w)
  {
    forall r, c :: 0 <= r < |w| && 0 <= c < |w[0]| ==> w[r][c] >= 0
  }

  lemma WeightsNonNegative(src: seq<int>, tgt: seq<int>)
    requires |src| > 0 && |tgt| > 0
    ensures NonNegative(Weights(src, tgt))
  {
    WeightsAreDistances(src, tgt);
  }

  /** With non-negative weights, a cumulative cost is at least the cell's own
      weight: what the cell adds to the cheapest way of reaching it is never negative. */
  lemma {:induction false} CumAtLeastWeight(w: seq<seq<int>>, r: int, c: int)
    requires IsMatrix(w) && NonNegative(w) && 0 <= r < |w| && 0 <= c < |w[0]|
    ensures 0 <= w[r][c] <= Cum(w, r, c)
    decreases r + c
  {
    if r == 0 && c == 0 {
    } else if r == 0 {
      CumAtLeastWeight(w, 0, c - 1);
    } else if c == 0 {
      CumAtLeastWeight(w, r - 1, 0);
    } else {
      CumAtLeastWeight(w, r, c - 1);
      CumAtLeastWeight(w, r - 1, c);
      CumAtLeastWeight(w, r - 1, c - 1);
    }
  }

  /** b follows a on a path through the matrix: one step right, down or diagonally down-right. */
  predicate Adjacent(a: Cell, b: Cell)
  {
    && a != b
    && (b.row == a.row || b.row == a.row + 1)
    && (b.col == a.col || b.col == a.col + 1)
  }

  /** A path that starts in the top-left cell and only ever moves right, down or diagonally. */
  predicate Monotone(p: seq<Cell>)
  {
    && |p| > 0
    && p[0] == Cell(0, 0)
    && forall k :: 0 < k < |p| ==> Adjacent(p[k - 1], p[k])
  }

  predicate InBounds(w: seq<seq<int>>, p: seq<Cell>)
    requires IsMatrix(w)
  {
    forall k :: 0 <= k < |p| ==> 0 <= p[k].row < |w| && 0 <= p[k].col < |w[0]|
  }

  /** The sum of the weights of the cells of a path. */
  function PathCost(w: seq<seq<int>>, p: seq<Cell>): int
    requires IsMatrix(w) && InBounds(w, p)
  {
    if p == [] then 0
    else PathCost(w, p[..|p| - 1]) + w[p[|p| - 1].row][p[|p| - 1].col]
  }

  /** One step of a path adds at least the cumulative cost's increase. */
  lemma CumStep(w: seq<seq<int>>, a: Cell, b: Cell)
    requires IsMatrix(w) && Adjacent(a, b)
    requires 0 <= a.row < |w| && 0 <= a.col < |w[0]| && 0 <= b.row < |w| && 0 <= b.col < |w[0]|
    ensures Cum(w, b.row, b.col) <= Cum(w, a.row, a.col) + w[b.row][b.col]
  {
  }

  /** outputMatrix[r][c] is the least cost of any monotone path from the top-left cell to (r, c). */
  lemma {:induction false} CumIsLeast(w: seq<seq<int>>, p: seq<Cell>)
    requires IsMatrix(w) && Monotone(p) && InBounds(w, p)
    ensures Cum(w, p[|p| - 1].row, p[|p| - 1].col) <= PathCost(w, p)
  {
    var q := p[..|p| - 1];
    if q == [] {
      assert p == [Cell(0, 0)];
    } else {
      assert Monotone(q);
      CumIsLeast(w, q);
      CumStep(w, q[|q| - 1], p[|p| - 1]);
    }
  }

  /** The cell find_matrix_vl steps back to from (r, c), as evidently intended:
      the upper-left neighbour unless the upper one is strictly cheaper, and the
      left one if it is strictly cheaper still. */
  function Back(w: seq<seq<int>>, r: int, c: int): (b: Cell)
    requires IsMatrix(w) && 0 <= r < |w| && 0 <= c < |w[0]| && (r > 0 || c > 0)
    ensures Adjacent(b, Cell(r, c)) && 0 <= b.row && 0 <= b.col
    ensures Cum(w, r, c) == w[r][c] + Cum(w, b.row, b.col)
  {
    if r > 0 && c > 0 then
      var diag, up, left := Cum(w, r - 1, c - 1), Cum(w, r - 1, c), Cum(w, r, c - 1);
      var (cell, best) := if up < diag then (Cell(r - 1, c), up) else (Cell(r - 1, c - 1), diag);
      if left < best then Cell(r, c - 1) else cell
    else if r > 0 then Cell(r - 1, 0)
    else Cell(0, c - 1)
  }

  /** The step of find_matrix_vl as written: when the left neighbour wins it
      sets only `new_i = i`, keeping whatever column the earlier tests chose. */
  function StepAsWritten(w: seq<seq<int>>, r: int, c: int): (b: Cell)
    requires IsMatrix(w) && 0 <= r < |w| && 0 <= c < |w[0]| && (r > 0 || c > 0)
    ensures b != Back(w, r, c) ==> b == Cell(r, c)
  {
    if r > 0 && c > 0 then
      var diag, up, left := Cum(w, r - 1, c - 1), Cum(w, r - 1, c), Cum(w, r, c - 1);
      var (cell, best) := if up < diag then (Cell(r - 1, c), up) else (Cell(r - 1, c - 1), diag);
      if left < best then Cell(r, cell.col) else cell
    else if r > 0 then Cell(r - 1, 0)
    else Cell(0, c - 1)
  }

  /** The cells find_matrix_vl visits, from the top-left cell to (r, c). */
  function Trace(w: seq<seq<int>>, r: int, c: int): (p: seq<Cell>)
    requires IsMatrix(w) && 0 <= r < |w| && 0 <= c < |w[0]|
    ensures |p| > 0 && p[0] == Cell(0, 0) && p[|p| - 1] == Cell(r, c)
    ensures InBounds(w, p)
    decreases r + c
  {
    if r == 0 && c == 0 then [Cell(0, 0)]
    else
      var b := Back(w, r, c);
      Trace(w, b.row, b.col) + [Cell(r, c)]
  }

  /** The walk back is a monotone path and its cost is outputMatrix[r][c], the least possible. */
  lemma {:induction false} TraceIsLeastPath(w: seq<seq<int>>, r: int, c: int)
    requires IsMatrix(w) && 0 <= r < |w| && 0 <= c < |w[0]|
    ensures Monotone(Trace(w, r, c))
    ensures PathCost(w, Trace(w, r, c)) == Cum(w, r, c)
    decreases r + c
  {
    var p := Trace(w, r, c);
    if r == 0 && c == 0 {
      assert p[..0] == [];
    } else {
      var b := Back(w, r, c);
      TraceIsLeastPath(w, b.row, b.col);
      var q := Trace(w, b.row, b.col);
      assert p == q + [Cell(r, c)] && p[..|p| - 1] == q;
    }
  }

  /** The pairs `[globalSource[j], globalTarget[i]]` of the cells of a path. */
  function Links(src: seq<int>, tgt: seq<int>, p: seq<Cell>): (vl: seq<Link>)
    requires forall k :: 0 <= k < |p| ==> 0 <= p[k].row < |tgt| && 0 <= p[k].col < |src|
    ensures |vl| == |p|
    ensures forall k :: 0 <= k < |p| ==> vl[k] == Link(src[p[k].col], tgt[p[k].row])
  {
    seq(|p|, k requires 0 <= k < |p| => Link(src[p[k].col], tgt[p[k].row]))
  }

  /** The size of a voice leading: the circular distance each link covers, summed. */
  function LinkCost(vl: seq<Link>): int
  {
    if vl == [] then 0 else LinkCost(vl[..|vl| - 1]) + CircularDistance(vl[|vl| - 1].target, vl[|vl| - 1].source)
  }

  lemma {:induction false} PathCostIsLinkCost(src: seq<int>, tgt: seq<int>, p: seq<Cell>)
    requires |src| > 0 && |tgt| > 0 && InBounds(Weights(src, tgt), p)
    ensures PathCost(Weights(src, tgt), p) == LinkCost(Links(src, tgt, p))
  {
    if p != [] {
      var q := p[..|p| - 1];
      PathCostIsLinkCost(src, tgt, q);
      WeightsAreDistances(src, tgt);
      assert Links(src, tgt, p)[..|p| - 1] == Links(src, tgt, q);
    }
  }

  function RowsOf(p: seq<Cell>): set<int>
  {
    set k | 0 <= k < |p| :: p[k].row
  }

  function ColsOf(p: seq<Cell>): set<int>
  {
    set k | 0 <= k < |p| :: p[k].col
  }

  /** A monotone path visits every row and every column up to the cell it ends in. */
  lemma {:induction false} MonotoneCovers(p: seq<Cell>)
    requires Monotone(p)
    ensures forall r :: 0 <= r <= p[|p| - 1].row ==> r in RowsOf(p)
    ensures forall c :: 0 <= c <= p[|p| - 1].col ==> c in ColsOf(p)
  {
    var n := |p| - 1;
    if n > 0 {
      var q := p[..n];
      assert Monotone(q);
      MonotoneCovers(q);
      assert Adjacent(q[n - 1], p[n]);
      forall r | 0 <= r <= p[n].row ensures r in RowsOf(p) {
        if r == p[n].row {
          assert p[n].row in RowsOf(p);
        } else {
          assert r in RowsOf(q);
          var k :| 0 <= k < n && q[k].row == r;
          assert p[k].row in RowsOf(p);
        }
      }
      forall c | 0 <= c <= p[n].col ensures c in ColsOf(p) {
        if c == p[n].col {
          assert p[n].col in ColsOf(p);
        } else {
          assert c in ColsOf(q);
          var k :| 0 <= k < n && q[k].col == c;
          assert p[k].col in ColsOf(p);
        }
      }
    } else {
      assert p[0].row in RowsOf(p) && p[0].col in ColsOf(p);
    }
  }

  /** build_matrix with `pcs` left at its default: both chords are closed by
      repeating their first note, theMatrix holds the circular distances and
      outputMatrix the cumulative costs. The result is the cumulative cost of the
      bottom-right cell minus that cell's own distance. */
  method BuildMatrix(source: seq<int>, target: seq<int>)
    returns (cost: int, m: array2<int>, d: array2<int>, src: seq<int>, tgt: seq<int>)
    requires |source| > 0 && |target| > 0
    ensures src == source + [source[0]] && tgt == target + [target[0]]
    ensures fresh(m) && fresh(d)
    ensures m.Length0 == |tgt| && m.Length1 == |src| && d.Length0 == |tgt| && d.Length1 == |src|
    ensures forall r, c :: 0 <= r < |tgt| && 0 <= c < |src| ==> m[r, c] == Weights(src, tgt)[r][c]
    ensures forall r, c {:trigger d[r, c]} :: 0 <= r < |tgt| && 0 <= c < |src| ==> d[r, c] == Cum(Weights(src, tgt), r, c)
    ensures cost == Cum(Weights(src, tgt), |target|, |source|) - Weights(src, tgt)[|target|][|source|]
    ensures cost >= 0
  {
    src := source + [source[0]];
    tgt := target + [target[0]];
    ghost var w := Weights(src, tgt);
    m := DistanceMatrix(src, tgt);
    d := CopyMatrix(m);
    AccumulateEdges(d, w);
    for r := 1 to |tgt|
      modifies d
      invariant forall r', c {:trigger d[r', c]} :: 0 <= r' < r && 0 <= c < |src| ==> d[r', c] == Cum(w, r', c)
      invariant forall r' {:trigger d[r', 0]} :: r <= r' < |tgt| ==> d[r', 0] == Cum(w, r', 0)
      invariant forall r', c :: r <= r' < |tgt| && 0 < c < |src| ==> d[r', c] == w[r'][c]
    {
      AccumulateRow(d, w, r);
    }
    cost := d[|target|, |source|] - m[|target|, |source|];
    WeightsNonNegative(src, tgt);
    CumAtLeastWeight(w, |target|, |source|);
  }

  /** theMatrix: `distance_func(target_item, source_item)` for every pair. */
  method DistanceMatrix(src: seq<int>, tgt: seq<int>) returns (m: array2<int>)
    requires |src| > 0 && |tgt| > 0
    ensures fresh(m) && m.Length0 == |tgt| && m.Length1 == |src|
    ensures forall r, c :: 0 <= r < |tgt| && 0 <= c < |src| ==> m[r, c] == Weights(src, tgt)[r][c]
  {
    m := new int[|tgt|, |src|];
    for r := 0 to |tgt|
      invariant forall r', c :: 0 <= r' < r && 0 <= c < |src| ==> m[r', c] == CircularDistance(tgt[r'], src[c])
    {
      for c := 0 to |src|
        invariant forall r', c' :: 0 <= r' < r && 0 <= c' < |src| ==> m[r', c'] == CircularDistance(tgt[r'], src[c'])
        invariant forall c' :: 0 <= c' < c ==> m[r, c'] == CircularDistance(tgt[r], src[c'])
      {
        m[r, c] := Min((tgt[r] - src[c]) % Modulus, (src[c] - tgt[r]) % Modulus);
      }
    }
    WeightsAreDistances(src, tgt);
  }

  /** `[x[:] for x in theMatrix]`. */
  method CopyMatrix(m: array2<int>) returns (d: array2<int>)
    ensures fresh(d) && d.Length0 == m.Length0 && d.Length1 == m.Length1
    ensures forall r, c :: 0 <= r < m.Length0 && 0 <= c < m.Length1 ==> d[r, c] == m[r, c]
  {
    d := new int[m.Length0, m.Length1];
    for r := 0 to m.Length0
      invariant forall r', c :: 0 <= r' < r && 0 <= c < m.Length1 ==> d[r', c] == m[r', c]
    {
      for c := 0 to m.Length1
        invariant forall r', c' :: 0 <= r' < r && 0 <= c' < m.Length1 ==> d[r', c'] == m[r', c']
        invariant forall c' :: 0 <= c' < c ==> d[r, c'] == m[r, c']
      {
        d[r, c] := m[r, c];
      }
    }
  }

  /** The first two accumulation loops: running sums along row 0 and column 0. */
  method AccumulateEdges(d: array2<int>, ghost w: seq<seq<int>>)
    requires IsMatrix(w) && d.Length0 == |w| && d.Length1 == |w[0]|
    requires forall r, c :: 0 <= r < |w| && 0 <= c < |w[0]| ==> d[r, c] == w[r][c]
    modifies d
    ensures forall c {:trigger d[0, c]} :: 0 <= c < |w[0]| ==> d[0, c] == Cum(w, 0, c)
    ensures forall r {:trigger d[r, 0]} :: 0 <= r < |w| ==> d[r, 0] == Cum(w, r, 0)
    ensures forall r, c :: 0 < r < |w| && 0 < c < |w[0]| ==> d[r, c] == w[r][c]
  {
    AccumulateFirstRow(d, w);
    AccumulateFirstColumn(d, w);
  }

  /** The first accumulation loop: running sums along row 0. */
  method AccumulateFirstRow(d: array2<int>, ghost w: seq<seq<int>>)
    requires IsMatrix(w) && d.Length0 == |w| && d.Length1 == |w[0]|
    requires forall c :: 0 <= c < |w[0]| ==> d[0, c] == w[0][c]
    modifies d
    ensures forall c {:trigger d[0, c]} :: 0 <= c < |w[0]| ==> d[0, c] == Cum(w, 0, c)
    ensures forall r, c :: 0 < r < |w| && 0 <= c < |w[0]| ==> d[r, c] == old(d[r, c])
  {
    for c := 1 to d.Length1
      invariant forall c' {:trigger d[0, c']} :: 0 <= c' < c ==> d[0, c'] == Cum(w, 0, c')
      invariant forall c' :: c <= c' < |w[0]| ==> d[0, c'] == w[0][c']
      invariant forall r, c' :: 0 < r < |w| && 0 <= c' < |w[0]| ==> d[r, c'] == old(d[r, c'])
    {
      var previous := d[0, c - 1];
      assert previous == Cum(w, 0, c - 1);
      var cell := d[0, c] + previous;
      assert cell == Cum(w, 0, c);
      d[0, c] := cell;
    }
  }

  /** The second accumulation loop: running sums along column 0. */
  method AccumulateFirstColumn(d: array2<int>, ghost w: seq<seq<int>>)
    requires IsMatrix(w) && d.Length0 == |w| && d.Length1 == |w[0]|
    requires d[0, 0] == Cum(w, 0, 0)
    requires forall r :: 0 < r < |w| ==> d[r, 0] == w[r][0]
    modifies d
    ensures forall r {:trigger d[r, 0]} :: 0 <= r < |w| ==> d[r, 0] == Cum(w, r, 0)
    ensures forall r, c :: 0 <= r < |w| && 0 < c < |w[0]| ==> d[r, c] == old(d[r, c])
  {
    for r := 1 to d.Length0
      invariant forall r' {:trigger d[r', 0]} :: 0 <= r' < r ==> d[r', 0] == Cum(w, r', 0)
      invariant forall r' :: r <= r' < |w| ==> d[r', 0] == w[r'][0]
      invariant forall r', c :: 0 <= r' < |w| && 0 < c < |w[0]| ==> d[r', c] == old(d[r', c])
    {
      var previous := d[r - 1, 0];
      assert previous == Cum(w, r - 1, 0);
      var cell := d[r, 0] + previous;
      assert cell == Cum(w, r, 0);
      d[r, 0] := cell;
    }
  }

  /** One pass of the inner loop of the third accumulation loop: every cell of
      row r but the first gets the least of its left, upper and upper-left
      neighbours added. */
  method AccumulateRow(d: array2<int>, ghost w: seq<seq<int>>, r: int)
    requires IsMatrix(w) && d.Length0 == |w| && d.Length1 == |w[0]| && 0 < r < |w|
    requires forall r', c {:trigger d[r', c]} :: 0 <= r' < r && 0 <= c < |w[0]| ==> d[r', c] == Cum(w, r', c)
    requires d[r, 0] == Cum(w, r, 0)
    requires forall c :: 0 < c < |w[0]| ==> d[r, c] == w[r][c]
    modifies d
    ensures forall c {:trigger d[r, c]} :: 0 <= c < |w[0]| ==> d[r, c] == Cum(w, r, c)
    ensures forall r', c :: 0 <= r' < |w| && r' != r && 0 <= c < |w[0]| ==> d[r', c] == old(d[r', c])
  {
    for c := 1 to d.Length1
      invariant forall c' {:trigger d[r, c']} :: 0 <= c' < c ==> d[r, c'] == Cum(w, r, c')
      invariant forall c' :: c <= c' < |w[0]| ==> d[r, c'] == w[r][c']
      invariant forall r', c' :: 0 <= r' < |w| && r' != r && 0 <= c' < |w[0]| ==> d[r', c'] == old(d[r', c'])
    {
      var left, up, diagonal := d[r, c - 1], d[r - 1, c], d[r - 1, c - 1];
      assert left == Cum(w, r, c - 1);
      assert up == Cum(w, r - 1, c) && diagonal == Cum(w, r - 1, c - 1);
      var cell := d[r, c] + Min3(left, up, diagonal);
      assert cell == Cum(w, r, c);
      d[r, c] := cell;
    }
  }

  lemma ReverseCons<T>(x: T, s: seq<T>)
    ensures Reverse([x] + s) == Reverse(s) + [x]
  {
    assert ([x] + s)[1..] == s;
  }

  lemma ReverseTwice<T>(s: seq<T>)
    ensures Reverse(Reverse(s)) == s
  {
  }

  /** The body of find_matrix_vl's loop, as evidently intended: the cell to step back to. */
  method StepBack(d: array2<int>, ghost w: seq<seq<int>>, i: int, j: int) returns (newI: int, newJ: int)
    requires IsMatrix(w) && d.Length0 == |w| && d.Length1 == |w[0]|
    requires 0 <= i < |w| && 0 <= j < |w[0]| && (i > 0 || j > 0)
    requires forall r, c {:trigger d[r, c]} :: 0 <= r < |w| && 0 <= c < |w[0]| ==> d[r, c] == Cum(w, r, c)
    ensures Cell(newI, newJ) == Back(w, i, j)
  {
    newI, newJ := i, j;
    if i > 0 && j > 0 {
      newI, newJ := i - 1, j - 1;
      var myMin := d[i - 1, j - 1];
      if d[i - 1, j] < myMin {
        myMin := d[i - 1, j];
        newJ := j;
      }
      if d[i, j - 1] < myMin {
        myMin := d[i, j - 1];
        newI, newJ := i, j - 1;
      }
    } else if i > 0 {
      newI := i - 1;
    } else {
      newJ := j - 1;
    }
  }

  /** What one step back does to the walk recorded so far. */
  lemma WalkStep(w: seq<seq<int>>, src: seq<int>, tgt: seq<int>, i: int, j: int, rest: seq<Cell>)
    requires IsMatrix(w) && |w| == |tgt| && |w[0]| == |src|
    requires 0 <= i < |tgt| && 0 <= j < |src| && (i > 0 || j > 0)
    requires InBounds(w, [Cell(i, j)] + rest)
    ensures var b := Back(w, i, j);
      && Trace(w, i, j) + rest == Trace(w, b.row, b.col) + ([Cell(i, j)] + rest)
      && InBounds(w, [b] + ([Cell(i, j)] + rest))
      && Reverse(Links(src, tgt, [b] + ([Cell(i, j)] + rest)))
         == Reverse(Links(src, tgt, [Cell(i, j)] + rest)) + [Link(src[b.col], tgt[b.row])]
  {
    var b := Back(w, i, j);
    var walked := [Cell(i, j)] + rest;
    assert Links(src, tgt, [b] + walked) == [Link(src[b.col], tgt[b.row])] + Links(src, tgt, walked);
    ReverseCons(Link(src[b.col], tgt[b.row]), Links(src, tgt, walked));
  }

  /** find_matrix_vl as evidently intended (the left move goes to column j - 1):
      the links of the walk back from the bottom-right cell, in forward order.
      `d` is outputMatrix and `w` the theMatrix it was accumulated from. */
  method FindMatrixVL(d: array2<int>, src: seq<int>, tgt: seq<int>, ghost w: seq<seq<int>>) returns (vl: seq<Link>)
    requires IsMatrix(w) && |w| == |tgt| && |w[0]| == |src| && d.Length0 == |tgt| && d.Length1 == |src|
    requires forall r, c {:trigger d[r, c]} :: 0 <= r < |tgt| && 0 <= c < |src| ==> d[r, c] == Cum(w, r, c)
    ensures vl == Links(src, tgt, Trace(w, |tgt| - 1, |src| - 1))
  {
    var theVl: seq<Link> := [];
    var i := d.Length0 - 1;
    var j := d.Length1 - 1;
    theVl := theVl + [Link(src[j], tgt[i])];
    ghost var rest: seq<Cell> := [];
    ghost var whole := Trace(w, i, j);
    assert Links(src, tgt, [Cell(i, j)]) == [Link(src[j], tgt[i])];
    while i > 0 || j > 0
      invariant 0 <= i < |tgt| && 0 <= j < |src|
      invariant whole == Trace(w, i, j) + rest
      invariant InBounds(w, [Cell(i, j)] + rest)
      invariant theVl == Reverse(Links(src, tgt, [Cell(i, j)] + rest))
      decreases i + j
    {
      var newI, newJ := StepBack(d, w, i, j);
      WalkStep(w, src, tgt, i, j, rest);
      rest := [Cell(i, j)] + rest;
      i, j := newI, newJ;
      theVl := theVl + [Link(src[j], tgt[i])];
    }
    assert [Cell(i, j)] + rest == whole;
    ReverseTwice(Links(src, tgt, whole));
    vl := Reverse(theVl);
  }

  /** `s + [s[0]]`: a chord closed by repeating its first note. */
  function Closed(s: seq<int>): (r: seq<int>)
    requires |s| > 0
    ensures |r| == |s| + 1 && r[|s|] == s[0]
    ensures forall k :: 0 <= k < |s| ==> r[k] == s[k]
  {
    s + [s[0]]
  }

  /** `target[i:] + target[:i]`: the i-th inversion of a chord. */
  function RotatedLeft(t: seq<int>, i: int): (r: seq<int>)
    requires 0 <= i <= |t|
    ensures |r| == |t|
  {
    t[i..] + t[..i]
  }

  /** The inversions are exactly the rotations that leave every element in place modulo the length. */
  lemma RotatedLeftMembers(t: seq<int>, i: int)
    requires 0 <= i < |t|
    ensures forall b :: b in RotatedLeft(t, i) <==> b in t
    ensures RotatedLeft(t, i)[0] == t[i]
  {
    assert t == t[..i] + t[i..];
  }

  /** `cur_vl[:-1]`. */
  function DropLast<T>(s: seq<T>): (r: seq<T>)
    ensures |s| > 0 ==> r == s[..|s| - 1]
    ensures |s| == 0 ==> r == []
  {
    if s == [] then [] else s[..|s| - 1]
  }

  /** theMatrix of round x of nonbijective_vl. */
  function RotationWeights(src: seq<int>, tgt: seq<int>, x: int): (w: seq<seq<int>>)
    requires |src| > 0 && 0 <= x < |tgt|
    ensures IsMatrix(w) && |w| == |tgt| + 1 && |w[0]| == |src| + 1
  {
    Weights(Closed(src), Closed(RotatedLeft(tgt, x)))
  }

  /** What build_matrix returns in round x. */
  function RotationCost(src: seq<int>, tgt: seq<int>, x: int): int
    requires |src| > 0 && 0 <= x < |tgt|
  {
    var w := RotationWeights(src, tgt, x);
    Cum(w, |tgt|, |src|) - w[|tgt|][|src|]
  }

  /** What find_matrix_vl returns after round x. */
  function RotationLinks(src: seq<int>, tgt: seq<int>, x: int): seq<Link>
    requires |src| > 0 && 0 <= x < |tgt|
  {
    Links(Closed(src), Closed(RotatedLeft(tgt, x)), Trace(RotationWeights(src, tgt, x), |tgt|, |src|))
  }

  /** `sorted(list(set(x % _MODULUS for x in xs)))`. */
  function Pcs(xs: seq<int>): (pcs: seq<int>)
    ensures |pcs| == 0 <==> |xs| == 0
    ensures forall a :: a in pcs ==> 0 <= a < Modulus
  {
    var pcs := SortedDistinct(PitchClasses(xs));
    if |xs| > 0 then
      assert PitchClasses(xs)[0] in pcs;
      pcs
    else pcs
  }

  /** The build_matrix cost of every round, in round order. */
  function RotationCosts(src: seq<int>, tgt: seq<int>): (costs: seq<int>)
    requires |src| > 0
    ensures |costs| == |tgt|
  {
    seq(|tgt|, x requires 0 <= x < |tgt| => RotationCost(src, tgt, x))
  }

  /** One round of nonbijective_vl's loop up to the cost test: build the
      matrices for the i-th inversion of the target. */
  method BuildRound(src: seq<int>, tgt: seq<int>, i: int)
    returns (newSize: int, d: array2<int>, closedSource: seq<int>, closedTarget: seq<int>)
    requires |src| > 0 && 0 <= i < |tgt|
    ensures newSize == RotationCosts(src, tgt)[i]
    ensures closedSource == Closed(src) && closedTarget == Closed(RotatedLeft(tgt, i))
    ensures fresh(d) && d.Length0 == |tgt| + 1 && d.Length1 == |src| + 1
    ensures forall r, c {:trigger d[r, c]} :: 0 <= r <= |tgt| && 0 <= c <= |src| ==> d[r, c] == Cum(RotationWeights(src, tgt, i), r, c)
  {
    var tempTarget := tgt[i..] + tgt[..i];
    var m;
    newSize, m, d, closedSource, closedTarget := BuildMatrix(src, tempTarget);
  }

  /** `cur_vl = find_matrix_vl()` on the matrices of round i. */
  method RoundLinks(src: seq<int>, tgt: seq<int>, i: int, d: array2<int>, closedSource: seq<int>, closedTarget: seq<int>)
    returns (vl: seq<Link>)
    requires |src| > 0 && 0 <= i < |tgt|
    requires closedSource == Closed(src) && closedTarget == Closed(RotatedLeft(tgt, i))
    requires d.Length0 == |tgt| + 1 && d.Length1 == |src| + 1
    requires forall r, c {:trigger d[r, c]} :: 0 <= r <= |tgt| && 0 <= c <= |src| ==> d[r, c] == Cum(RotationWeights(src, tgt, i), r, c)
    ensures vl == RotationLinks(src, tgt, i)
  {
    ghost var w := RotationWeights(src, tgt, i);
    assert |closedTarget| - 1 == |tgt| && |closedSource| - 1 == |src|;
    vl := FindMatrixVL(d, closedSource, closedTarget, w);
    assert vl == Links(closedSource, closedTarget, Trace(w, |tgt|, |src|));
  }

  /** The loop of nonbijective_vl over the inversions of the target. */
  method ChooseRotation(src: seq<int>, tgt: seq<int>) returns (curSize: int, curVl: seq<Link>)
    requires |src| > 0 && |tgt| > 0
    ensures curSize <= VeryLargeNumber
    ensures forall x :: 0 <= x < |tgt| ==> curSize <= RotationCosts(src, tgt)[x]
    ensures curSize == VeryLargeNumber ==> curVl == []
    ensures curSize < VeryLargeNumber ==>
      exists x :: 0 <= x < |tgt| && RotationCosts(src, tgt)[x] == curSize
        && curVl == RotationLinks(src, tgt, x)
        && forall y :: 0 <= y < x ==> RotationCosts(src, tgt)[y] > curSize
  {
    curVl := [];
    curSize := VeryLargeNumber;
    ghost var bestRound := -1;
    ghost var costs: seq<int> := [];
    for i := 0 to |tgt|
      invariant |costs| == i && forall y :: 0 <= y < i ==> costs[y] == RotationCosts(src, tgt)[y]
      invariant curSize <= VeryLargeNumber
      invariant forall y :: 0 <= y < i ==> curSize <= costs[y]
      invariant curSize == VeryLargeNumber ==> curVl == [] && bestRound == -1
      invariant curSize < VeryLargeNumber ==>
        && 0 <= bestRound < i
        && costs[bestRound] == curSize
        && curVl == RotationLinks(src, tgt, bestRound)
        && forall y :: 0 <= y < bestRound ==> costs[y] > curSize
    {
      var newSize, d, closedSource, closedTarget := BuildRound(src, tgt, i);
      costs := costs + [newSize];
      if newSize < curSize {
        curSize := newSize;
        curVl := RoundLinks(src, tgt, i, d, closedSource, closedTarget);
        bestRound := i;
      }
    }
  }

  /** nonbijective_vl. With `pcs` set, both chords are reduced to sorted sets of
      pitch classes and every inversion of the target is tried; the first one of
      least build_matrix cost is kept, with its walk back minus the closing link.
      With `pcs` unset, the function hands build_matrix the empty `temp_target`
      without passing `pcs=False` on, so build_matrix indexes an empty list. */
  method NonBijectiveVL(source: seq<int>, target: seq<int>, pcs: bool) returns (r: Result<NonBijectiveVl>)
    ensures !pcs ==> r == Err(IndexError)
    ensures pcs && |target| == 0 ==> r == Ok(NonBijectiveVl(VeryLargeNumber, []))
    ensures pcs && |target| > 0 && |source| == 0 ==> r == Err(IndexError)
    ensures pcs && |target| > 0 && |source| > 0 ==>
      var src, tgt := Pcs(source), Pcs(target);
      && r.Ok?
      && r.value.size <= VeryLargeNumber
      && (forall x :: 0 <= x < |tgt| ==> r.value.size <= RotationCosts(src, tgt)[x])
      && (r.value.size == VeryLargeNumber ==> r.value.links == [])
      && (r.value.size < VeryLargeNumber ==>
            exists x :: 0 <= x < |tgt| && RotationCosts(src, tgt)[x] == r.value.size
              && r.value.links == DropLast(RotationLinks(src, tgt, x))
              && forall y :: 0 <= y < x ==> RotationCosts(src, tgt)[y] > r.value.size)
  {
    if !pcs {
      return Err(IndexError);
    }
    var src := SortedDistinct(PitchClasses(source));
    var tgt := SortedDistinct(PitchClasses(target));
    assert src == Pcs(source) && tgt == Pcs(target);
    if |tgt| == 0 {
      return Ok(NonBijectiveVl(VeryLargeNumber, []));
    }
    if |src| == 0 {
      return Err(IndexError);
    }
    var curSize, curVl := ChooseRotation(src, tgt);
    r := Ok(NonBijectiveVl(curSize, DropLast(curVl)));
  }

  /** The voice leading of round x before `[:-1]` starts and ends with the
      lowest source pitch class paired with the inversion's first note (the
      closing link repeats the opening one), and once the closing link is
      dropped its size is exactly the round's build_matrix cost. */
  lemma RotationLinksShape(src: seq<int>, tgt: seq<int>, x: int)
    requires |src| > 0 && 0 <= x < |tgt|
    ensures var vl := RotationLinks(src, tgt, x);
      && |vl| >= 2
      && vl[0] == Link(src[0], tgt[x])
      && vl[|vl| - 1] == Link(src[0], tgt[x])
      && LinkCost(DropLast(vl)) == RotationCost(src, tgt, x)
  {
    var w := RotationWeights(src, tgt, x);
    var s2, t2 := Closed(src), Closed(RotatedLeft(tgt, x));
    var trace := Trace(w, |tgt|, |src|);
    var n := |trace|;
    TraceIsLeastPath(w, |tgt|, |src|);
    RotatedLeftMembers(tgt, x);
    var vl := Links(s2, t2, trace);
    var q := trace[..n - 1];
    assert DropLast(vl) == Links(s2, t2, q);
    PathCostIsLinkCost(s2, t2, q);
  }

  /** Every pitch class of either chord takes part in the voice leading of round
      x, the closing link dropped, and every link joins a source pitch class to a
      target pitch class. */
  lemma RotationLinksCover(src: seq<int>, tgt: seq<int>, x: int)
    requires |src| > 0 && 0 <= x < |tgt|
    ensures var kept := DropLast(RotationLinks(src, tgt, x));
      && (forall a :: a in src ==> exists l :: l in kept && l.source == a)
      && (forall b :: b in tgt ==> exists l :: l in kept && l.target == b)
      && (forall l :: l in kept ==> l.source in src && l.target in tgt)
  {
    var w := RotationWeights(src, tgt, x);
    var s2, t2 := Closed(src), Closed(RotatedLeft(tgt, x));
    var trace := Trace(w, |tgt|, |src|);
    var n := |trace|;
    TraceIsLeastPath(w, |tgt|, |src|);
    MonotoneCovers(trace);
    RotatedLeftMembers(tgt, x);
    var vl := Links(s2, t2, trace);
    var kept := DropLast(vl);
    assert |kept| == n - 1;
    forall a | a in src ensures exists l :: l in kept && l.source == a {
      var c :| 0 <= c < |src| && src[c] == a;
      assert c in ColsOf(trace);
      var k :| 0 <= k < n && trace[k].col == c;
      assert k != n - 1;
      assert kept[k] == vl[k];
    }
    forall b | b in tgt ensures exists l :: l in kept && l.target == b {
      assert b in RotatedLeft(tgt, x);
      var r :| 0 <= r < |tgt| && RotatedLeft(tgt, x)[r] == b;
      assert r in RowsOf(trace);
      var k :| 0 <= k < n && trace[k].row == r;
      assert k != n - 1;
      assert kept[k] == vl[k];
    }
    forall l | l in kept ensures l.source in src && l.target in tgt {
      var k :| 0 <= k < |kept| && kept[k] == l;
      assert l == vl[k];
      var cell := trace[k];
      assert s2[cell.col] in src;
      assert t2[cell.row] in RotatedLeft(tgt, x);
    }
  }

  /** No voice leading that walks both closed chords in order, from their first
      notes to their repeated first notes, is smaller than the round's cost. */
  lemma RotationCostIsLeast(src: seq<int>, tgt: seq<int>, x: int, p: seq<Cell>)
    requires |src| > 0 && 0 <= x < |tgt|
    requires Monotone(p) && InBounds(RotationWeights(src, tgt, x), p)
    requires p[|p| - 1] == Cell(|tgt|, |src|)
    ensures RotationCost(src, tgt, x) <= LinkCost(DropLast(Links(Closed(src), Closed(RotatedLeft(tgt, x)), p)))
  {
    var w := RotationWeights(src, tgt, x);
    var s2, t2 := Closed(src), Closed(RotatedLeft(tgt, x));
    CumIsLeast(w, p);
    var q := p[..|p| - 1];
    assert DropLast(Links(s2, t2, p)) == Links(s2, t2, q);
    PathCostIsLinkCost(s2, t2, q);
  }

  /** The as-written step keeps the pointer where it is exactly when, at an
      inner cell, the upper neighbour beats the diagonal one and the left
      neighbour beats the upper one. The loop condition then stays true and
      nothing changes again, so find_matrix_vl never returns. */
  lemma StepAsWrittenStalls(w: seq<seq<int>>, r: int, c: int)
    requires IsMatrix(w) && 0 <= r < |w| && 0 <= c < |w[0]| && (r > 0 || c > 0)
    ensures StepAsWritten(w, r, c) == Cell(r, c) <==>
      r > 0 && c > 0 && Cum(w, r, c - 1) < Cum(w, r - 1, c) < Cum(w, r - 1, c - 1)
  {
  }

  /** nonbijective_vl([0, 1, 2], [3, 8]), first round: the closed chords are
      [0, 1, 2, 0] and [3, 8, 3], outputMatrix is
      [[3, 5, 6, 9], [7, 8, 11, 10], [10, 9, 9, 12]], and the walk back stalls in
      the cell (2, 3), where it has just started. */
  lemma FindMatrixVLAsWrittenStalls()
    ensures Closed([0, 1, 2]) == [0, 1, 2, 0] && Closed(RotatedLeft([3, 8], 0)) == [3, 8, 3]
    ensures StepAsWritten(RotationWeights([0, 1, 2], [3, 8], 0), 2, 3) == Cell(2, 3)
  {
    var w := RotationWeights([0, 1, 2], [3, 8], 0);
    assert RotatedLeft([3, 8], 0) == [3, 8];
    WeightsAreDistances([0, 1, 2, 0], [3, 8, 3]);
    assert w[0][0] == 3 && w[0][1] == 2 && w[0][2] == 1 && w[0][3] == 3;
    assert w[1][0] == 4 && w[1][1] == 5 && w[1][2] == 6 && w[1][3] == 4;
    assert w[2][0] == 3 && w[2][1] == 2 && w[2][2] == 1;
    assert Cum(w, 0, 0) == 3 && Cum(w, 0, 1) == 5 && Cum(w, 0, 2) == 6 && Cum(w, 0, 3) == 9;
    assert Cum(w, 1, 0) == 7 && Cum(w, 2, 0) == 10;
    assert Cum(w, 1, 1) == 8;
    assert Cum(w, 1, 2) == 11;
    assert Cum(w, 1, 3) == 10;
    assert Cum(w, 2, 1) == 9;
    assert Cum(w, 2, 2) == 9;
    StepAsWrittenStalls(w, 2, 3);
  }
}
