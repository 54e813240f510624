/** Exact Viterbi decoding of a linear-chain label model (viterbi.py).

    Scores are reals: the floating-point `-inf` sentinels of the source are
    replaced by an index sentinel (-1 means "no candidate seen yet"). */
module Viterbi {

  /** A two-dimensional numpy array: its shape and its rows. */
  datatype Grid = Grid(rows: nat, cols: nat, cells: seq<seq<real>>)
  {
    /** numpy arrays are rectangular: `rows` rows of `cols` entries each. */
    predicate Valid()
    {
      |cells| == rows && forall r :: 0 <= r < rows ==> |cells[r]| == cols
    }
  }

  /** The two ways `run_viterbi` fails: one of its shape assertions, or an
      index error on an empty sentence or an empty label set. */
  datatype Error = ShapeMismatch | EmptyInput

  datatype Result<T> = Ok(value: T) | Err(error: Error)

  /** What `run_viterbi` returns: the best score and the label sequence. */
  datatype Decoded = Decoded(score: real, path: seq<int>)

  // ---------------------------------------------------------------------------
  // Shapes

  /** The four shape assertions of `run_viterbi`, with L = len(start_scores). */
  predicate ShapesAgree(E: Grid, T: Grid, S: seq<real>, Z: seq<real>)
  {
    |Z| == |S| && T.rows == |S| && T.cols == |S| && E.cols == |S|
  }

  /** Inputs on which the forward pass runs: shapes agree, N >= 1 and L >= 1. */
  predicate Shaped(E: Grid, T: Grid, S: seq<real>)
  {
    E.Valid() && T.Valid() && T.rows == |S| && T.cols == |S| && E.cols == |S|
    && E.rows >= 1 && |S| >= 1
  }

  /** Every entry of `y` is one of the labels 0 .. L-1. */
  predicate InRange(y: seq<int>, L: nat)
  {
    forall k :: 0 <= k < |y| ==> 0 <= y[k] < L
  }

  /** `y` is a label sequence of length `n` over the labels 0 .. L-1. */
  predicate IsLabeling(y: seq<int>, n: nat, L: nat)
  {
    |y| == n && InRange(y, L)
  }

  // ---------------------------------------------------------------------------
  // First maximum

  /** `k` indexes a maximum of `s`, and no earlier index reaches it: the
      outcome of a left-to-right scan that only moves on a strict `>`. */
  predicate IsFirstMax(s: seq<real>, k: int)
  {
    0 <= k < |s|
    && (forall i :: 0 <= i < |s| ==> s[i] <= s[k])
    && (forall i :: 0 <= i < k ==> s[i] < s[k])
  }

  /** The first index of a maximum of a non-empty sequence. */
  function ArgMax(s: seq<real>): (k: nat)
    requires |s| > 0
    ensures k < |s|
  {
    if |s| == 1 then 0
    else
      var k' := ArgMax(s[..|s| - 1]);
      if s[|s| - 1] > s[k'] then |s| - 1 else k'
  }

  /** The scan finds the first maximum: ties keep the earlier index. */
  lemma {:induction false} ArgMaxIsFirstMax(s: seq<real>)
    requires |s| > 0
    ensures IsFirstMax(s, ArgMax(s))
  {
    if |s| > 1 {
      var init := s[..|s| - 1];
      ArgMaxIsFirstMax(init);
      assert forall i :: 0 <= i < |init| ==> init[i] == s[i];
    }
  }

  /** A sequence has exactly one first maximum. */
  lemma FirstMaxUnique(s: seq<real>, k: int, k': int)
    requires IsFirstMax(s, k) && IsFirstMax(s, k')
    ensures k == k'
  {
    assert s[k] <= s[k'] <= s[k];
    assert !(k < k') && !(k' < k);
  }

  // ---------------------------------------------------------------------------
  // The dynamic program, as functions of the inputs

  /** Scores of every predecessor label `i` for current label `c`:
      path score of `i` at the previous position plus T[i][c]. */
  function Candidates(prev: seq<real>, T: Grid, c: nat): (r: seq<real>)
    requires T.Valid() && |prev| == T.rows && c < T.cols
    ensures |r| == |prev|
    ensures forall i :: 0 <= i < |prev| ==> r[i] == prev[i] + T.cells[i][c]
  {
    seq(|prev|, i requires 0 <= i < |prev| => prev[i] + T.cells[i][c])
  }

  /** Row 0 of the tables: emission plus start score, and no back-pointer. */
  predicate FirstRow(E: Grid, S: seq<real>, row: seq<real>, bp: seq<int>)
    requires E.Valid() && E.rows >= 1 && E.cols == |S|
  {
    |row| == |S| && |bp| == |S|
    && forall j :: 0 <= j < |S| ==> row[j] == E.cells[0][j] + S[j] && bp[j] == -1
  }

  /** Row t >= 1 of the tables: each cell takes the first best predecessor
      in the previous row `prev`, and adds its own emission score. */
  predicate NextRow(E: Grid, T: Grid, t: nat, prev: seq<real>, row: seq<real>, bp: seq<int>)
    requires E.Valid() && T.Valid() && t < E.rows && T.rows == T.cols == E.cols
  {
    |prev| == T.rows && |row| == T.rows && |bp| == T.rows
    && forall j :: 0 <= j < T.rows ==>
         IsFirstMax(Candidates(prev, T, j), bp[j])
         && row[j] == Candidates(prev, T, j)[bp[j]] + E.cells[t][j]
  }

  /** V and B are the first |V| rows of the score matrix (before the end
      scores are added) and of the back-pointer matrix. */
  predicate IsTable(E: Grid, T: Grid, S: seq<real>, V: seq<seq<real>>, B: seq<seq<int>>)
    requires Shaped(E, T, S)
  {
    |V| == |B| && 1 <= |V| <= E.rows
    && (forall t :: 0 <= t < |V| ==> |V[t]| == |S|)
    && (forall t :: 0 <= t < |B| ==> |B[t]| == |S|)
    && FirstRow(E, S, V[0], B[0])
    && forall t :: 1 <= t < |V| ==> RowFollows(E, T, S, V, B, t)
  }

  /** Row `t` of the tables follows from row `t - 1`. */
  predicate RowFollows(E: Grid, T: Grid, S: seq<real>, V: seq<seq<real>>, B: seq<seq<int>>, t: nat)
    requires Shaped(E, T, S) && 1 <= t < |V| <= E.rows && |B| == |V|
  {
    NextRow(E, T, t, V[t - 1], V[t], B[t])
  }

  /** The first best predecessor of every label, given the previous row. */
  function StepPointers(T: Grid, prev: seq<real>): (bp: seq<int>)
    requires T.Valid() && |prev| == T.rows == T.cols
    ensures |bp| == T.rows
  {
    seq(T.rows, j requires 0 <= j < T.rows => ArgMax(Candidates(prev, T, j)))
  }

  /** The next score row: best predecessor score plus the emission score. */
  function StepScores(E: Grid, T: Grid, t: nat, prev: seq<real>): (row: seq<real>)
    requires E.Valid() && T.Valid() && t < E.rows && T.rows == T.cols == E.cols && |prev| == T.rows
    ensures |row| == T.rows
  {
    var bp := StepPointers(T, prev);
    seq(T.rows, j requires 0 <= j < T.rows => Candidates(prev, T, j)[bp[j]] + E.cells[t][j])
  }

  lemma StepIsNextRow(E: Grid, T: Grid, t: nat, prev: seq<real>)
    requires E.Valid() && T.Valid() && t < E.rows && T.rows == T.cols == E.cols && |prev| == T.rows
    ensures NextRow(E, T, t, prev, StepScores(E, T, t, prev), StepPointers(T, prev))
  {
    forall j | 0 <= j < T.rows
      ensures IsFirstMax(Candidates(prev, T, j), StepPointers(T, prev)[j])
    {
      ArgMaxIsFirstMax(Candidates(prev, T, j));
    }
  }

  /** Row 0 of both tables. */
  function InitialTables(E: Grid, T: Grid, S: seq<real>): (tables: (seq<seq<real>>, seq<seq<int>>))
    requires Shaped(E, T, S)
  {
    ([seq(|S|, j requires 0 <= j < |S| => E.cells[0][j] + S[j])], [seq(|S|, j => -1)])
  }

  /** The tables with one more row, computed from their last score row. */
  function Extend(E: Grid, T: Grid, S: seq<real>, V: seq<seq<real>>, B: seq<seq<int>>)
    : (tables: (seq<seq<real>>, seq<seq<int>>))
    requires Shaped(E, T, S) && 1 <= |V| < E.rows && |V[|V| - 1]| == |S|
  {
    var t := |V|;
    (V + [StepScores(E, T, t, V[t - 1])], B + [StepPointers(T, V[t - 1])])
  }

  lemma ExtendTable(E: Grid, T: Grid, S: seq<real>, V: seq<seq<real>>, B: seq<seq<int>>,
                    row: seq<real>, bp: seq<int>)
    requires Shaped(E, T, S) && IsTable(E, T, S, V, B) && |V| < E.rows
    requires NextRow(E, T, |V|, V[|V| - 1], row, bp)
    ensures IsTable(E, T, S, V + [row], B + [bp])
  {
    var V', B' := V + [row], B + [bp];
    forall t | 1 <= t < |V'|
      ensures RowFollows(E, T, S, V', B', t)
    {
      if t < |V| {
        assert RowFollows(E, T, S, V, B, t);
        assert B'[t] == B[t] && V'[t] == V[t] && V'[t - 1] == V[t - 1];
      }
    }
  }

  /** The score and back-pointer rows 0 .. t, built one row at a time. */
  function Forward(E: Grid, T: Grid, S: seq<real>, t: nat): (tables: (seq<seq<real>>, seq<seq<int>>))
    requires Shaped(E, T, S) && t < E.rows
    ensures |tables.0| == |tables.1| == t + 1 && forall r :: 0 <= r <= t ==> |tables.0[r]| == |S|
    decreases t
  {
    if t == 0 then InitialTables(E, T, S)
    else
      var tables := Forward(E, T, S, t - 1);
      Extend(E, T, S, tables.0, tables.1)
  }

  /** The whole score and back-pointer tables of a sentence. */
  function Tables(E: Grid, T: Grid, S: seq<real>): (tables: (seq<seq<real>>, seq<seq<int>>))
    requires Shaped(E, T, S)
    ensures |tables.0| == |tables.1| == E.rows && forall r :: 0 <= r < E.rows ==> |tables.0[r]| == |S|
  {
    Forward(E, T, S, E.rows - 1)
  }

  /** Each row built by `Forward` follows from the one before it. */
  lemma {:induction false} ForwardIsTable(E: Grid, T: Grid, S: seq<real>, t: nat)
    requires Shaped(E, T, S) && t < E.rows
    ensures IsTable(E, T, S, Forward(E, T, S, t).0, Forward(E, T, S, t).1)
  {
    if t == 0 {
      var (V, B) := InitialTables(E, T, S);
      assert FirstRow(E, S, V[0], B[0]);
    } else {
      var (V, B) := Forward(E, T, S, t - 1);
      var row, bp := StepScores(E, T, t, V[t - 1]), StepPointers(T, V[t - 1]);
      assert Forward(E, T, S, t) == (V + [row], B + [bp]);
      ForwardIsTable(E, T, S, t - 1);
      StepIsNextRow(E, T, t, V[t - 1]);
      ExtendTable(E, T, S, V, B, row, bp);
    }
  }

  lemma TablesAreTables(E: Grid, T: Grid, S: seq<real>)
    requires Shaped(E, T, S)
    ensures IsTable(E, T, S, Tables(E, T, S).0, Tables(E, T, S).1)
  {
    ForwardIsTable(E, T, S, E.rows - 1);
  }

  /** The end scores added to the last score row `last`. */
  function EndRow(last: seq<real>, Z: seq<real>): (row: seq<real>)
    requires |last| == |Z|
    ensures |row| == |Z| && forall j :: 0 <= j < |Z| ==> row[j] == last[j] + Z[j]
  {
    seq(|Z|, j requires 0 <= j < |Z| => last[j] + Z[j])
  }

  /** The last row of the score matrix once the end scores are added. */
  function Final(E: Grid, T: Grid, S: seq<real>, Z: seq<real>): (row: seq<real>)
    requires Shaped(E, T, S) && |Z| == |S|
    ensures |row| == |S|
    ensures forall j :: 0 <= j < |S| ==> row[j] == Tables(E, T, S).0[E.rows - 1][j] + Z[j]
  {
    EndRow(Tables(E, T, S).0[E.rows - 1], Z)
  }

  /** The cell equations alone: row 0 is emission plus start score, and
      every later cell is its back-pointer's cell plus transition plus
      emission. */
  predicate Attained(E: Grid, T: Grid, S: seq<real>, V: seq<seq<real>>, B: seq<seq<int>>)
    requires Shaped(E, T, S)
  {
    |V| == |B| && 1 <= |V| <= E.rows
    && (forall t :: 0 <= t < |V| ==> |V[t]| == |S|)
    && (forall t :: 0 <= t < |B| ==> |B[t]| == |S|)
    && (forall j :: 0 <= j < |S| ==> V[0][j] == E.cells[0][j] + S[j])
    && forall t :: 1 <= t < |V| ==> RowAttained(E, T, S, V, B, t)
  }

  /** Every cell of row `t` is its back-pointer's cell plus transition plus
      emission. */
  predicate RowAttained(E: Grid, T: Grid, S: seq<real>, V: seq<seq<real>>, B: seq<seq<int>>, t: nat)
    requires Shaped(E, T, S) && 1 <= t < |V| <= E.rows && |B| == |V|
    requires |V[t - 1]| == |V[t]| == |B[t]| == |S|
  {
    forall j :: 0 <= j < |S| ==>
      0 <= B[t][j] < |S| && V[t][j] == V[t - 1][B[t][j]] + T.cells[B[t][j]][j] + E.cells[t][j]
  }

  lemma TableAttained(E: Grid, T: Grid, S: seq<real>, V: seq<seq<real>>, B: seq<seq<int>>)
    requires Shaped(E, T, S) && IsTable(E, T, S, V, B)
    ensures Attained(E, T, S, V, B)
  {
    forall t | 1 <= t < |V|
      ensures RowAttained(E, T, S, V, B, t)
    {
      assert RowFollows(E, T, S, V, B, t);
    }
    assert FirstRow(E, S, V[0], B[0]);
  }

  /** No way into a cell of row `t` scores more than the cell. */
  predicate RowDominates(E: Grid, T: Grid, t: nat, prev: seq<real>, row: seq<real>)
    requires T.Valid() && T.rows == T.cols == |prev| == |row| && t < E.rows && E.Valid() && E.cols == |row|
  {
    forall i, j :: 0 <= i < |prev| && 0 <= j < |row| ==> prev[i] + T.cells[i][j] + E.cells[t][j] <= row[j]
  }

  /** The inequalities alone: row 0 is emission plus start score, and no
      predecessor leads into any later cell with a higher score. */
  predicate Dominated(E: Grid, T: Grid, S: seq<real>, V: seq<seq<real>>)
    requires Shaped(E, T, S)
  {
    1 <= |V| <= E.rows
    && (forall t :: 0 <= t < |V| ==> |V[t]| == |S|)
    && (forall j :: 0 <= j < |S| ==> V[0][j] == E.cells[0][j] + S[j])
    && forall t :: 1 <= t < |V| ==> StepDominated(E, T, S, V, t)
  }

  /** No predecessor leads into a cell of row `t` with a higher score. */
  predicate StepDominated(E: Grid, T: Grid, S: seq<real>, V: seq<seq<real>>, t: nat)
    requires Shaped(E, T, S) && 1 <= t < |V| <= E.rows && |V[t - 1]| == |V[t]| == |S|
  {
    RowDominates(E, T, t, V[t - 1], V[t])
  }

  lemma TableDominated(E: Grid, T: Grid, S: seq<real>, V: seq<seq<real>>, B: seq<seq<int>>)
    requires Shaped(E, T, S) && IsTable(E, T, S, V, B)
    ensures Dominated(E, T, S, V)
  {
    forall t | 1 <= t < |V|
      ensures StepDominated(E, T, S, V, t)
    {
      assert RowFollows(E, T, S, V, B, t);
      forall i, j | 0 <= i < |S| && 0 <= j < |S|
        ensures V[t - 1][i] + T.cells[i][j] + E.cells[t][j] <= V[t][j]
      {
        var cand := Candidates(V[t - 1], T, j);
        assert cand[i] <= cand[B[t][j]];
      }
    }
    assert FirstRow(E, S, V[0], B[0]);
  }

  /** Every back-pointer outside row 0 names a label. */
  predicate PointersInRange(B: seq<seq<int>>, L: nat)
  {
    forall s :: 1 <= s < |B| ==> |B[s]| == L && forall k :: 0 <= k < L ==> 0 <= B[s][k] < L
  }

  lemma TablePointersInRange(E: Grid, T: Grid, S: seq<real>, V: seq<seq<real>>, B: seq<seq<int>>)
    requires Shaped(E, T, S) && IsTable(E, T, S, V, B)
    ensures PointersInRange(B, |S|)
  {
    forall s, k | 1 <= s < |B| && 0 <= k < |S|
      ensures |B[s]| == |S| && 0 <= B[s][k] < |S|
    {
      assert RowFollows(E, T, S, V, B, s);
      assert IsFirstMax(Candidates(V[s - 1], T, k), B[s][k]);
    }
  }

  /** The labels at positions 0 .. t reached by following the back-pointers
      of B from label `j` at position `t`. */
  function BackTrace(B: seq<seq<int>>, t: nat, j: int): (p: seq<int>)
    ensures |p| == t + 1 && p[t] == j
    decreases t
  {
    if t == 0 then [j]
    else BackTrace(B, t - 1, Ptr(B, t, j)) + [j]
  }

  /** `B[t][j]`, read as 0 off the table. */
  function Ptr(B: seq<seq<int>>, t: int, j: int): (b: int)
    ensures 0 <= t < |B| && 0 <= j < |B[t]| ==> b == B[t][j]
  {
    if 0 <= t < |B| && 0 <= j < |B[t]| then B[t][j] else 0
  }

  /** On a table whose pointers are labels, the back-traced sequence is a
      labeling, and each label is the back-pointer of the one after it. */
  lemma {:induction false} BackTraceFollows(B: seq<seq<int>>, L: nat, t: nat, j: int)
    requires t < |B| && 0 <= j < L && PointersInRange(B, L)
    ensures var p := BackTrace(B, t, j);
      IsLabeling(p, t + 1, L)
      && forall s {:trigger B[s][p[s]]} :: 1 <= s <= t ==> p[s - 1] == B[s][p[s]]
  {
    if t > 0 {
      var b := B[t][j];
      var p' := BackTrace(B, t - 1, b);
      BackTraceFollows(B, L, t - 1, b);
      assert BackTrace(B, t, j) == p' + [j];
    }
  }

  /** What `run_viterbi` computes, as a function of its four inputs. */
  function Decode(E: Grid, T: Grid, S: seq<real>, Z: seq<real>): (r: Result<Decoded>)
    requires E.Valid() && T.Valid()
    ensures r == Err(ShapeMismatch) <==> !ShapesAgree(E, T, S, Z)
    ensures r == Err(EmptyInput) <==> ShapesAgree(E, T, S, Z) && (E.rows == 0 || |S| == 0)
  {
    if !ShapesAgree(E, T, S, Z) then Err(ShapeMismatch)
    else if E.rows == 0 || |S| == 0 then Err(EmptyInput)
    else Ok(Best(E, T, S, Z))
  }

  /** The decoding of well-shaped, non-empty inputs: the first best final
      label, its total score, and the labels its back-pointers lead to. */
  function Best(E: Grid, T: Grid, S: seq<real>, Z: seq<real>): Decoded
    requires Shaped(E, T, S) && |Z| == |S|
  {
    var (V, B) := Tables(E, T, S);
    var fin := Final(E, T, S, Z);
    var last := ArgMax(fin);
    Decoded(fin[last], BackTrace(B, E.rows - 1, last))
  }

  // ---------------------------------------------------------------------------
  // The brute-force scorer of the self-test

  /** `s[k]`, read as 0.0 off the end; every score below reads in range
      when the label sequence is a labeling of the inputs' shapes. */
  function At(s: seq<real>, k: int): (x: real)
    ensures 0 <= k < |s| ==> x == s[k]
  {
    if 0 <= k < |s| then s[k] else 0.0
  }

  /** `G[r][c]`, read as 0.0 off the grid. */
  function Cell(G: Grid, r: int, c: int): (x: real)
    ensures 0 <= r < |G.cells| && 0 <= c < |G.cells[r]| ==> x == G.cells[r][c]
  {
    if 0 <= r < |G.cells| then At(G.cells[r], c) else 0.0
  }

  /** The running `score` of the self-test after the start score and the
      first `n` (transition, emission) steps for label sequence `y`. */
  function ScoreUpTo(E: Grid, T: Grid, S: seq<real>, y: seq<int>, n: nat): real
    requires n < |y|
    decreases n
  {
    if n == 0 then At(S, y[0])
    else ScoreUpTo(E, T, S, y, n - 1) + Cell(T, y[n - 1], y[n]) + Cell(E, n - 1, y[n - 1])
  }

  /** Score of the prefix y[..k+1]: start, transitions and emissions. */
  function PrefixScore(E: Grid, T: Grid, S: seq<real>, y: seq<int>, k: nat): real
    requires k < |y|
  {
    ScoreUpTo(E, T, S, y, k) + Cell(E, k, y[k])
  }

  /** Total score of a label sequence: start + emissions + transitions + end. */
  function SeqScore(E: Grid, T: Grid, S: seq<real>, Z: seq<real>, y: seq<int>): real
    requires |y| >= 1
  {
    PrefixScore(E, T, S, y, |y| - 1) + At(Z, y[|y| - 1])
  }

  /** The running score depends only on the labels it has read. */
  lemma {:induction false} ScoreUpToPrefix(E: Grid, T: Grid, S: seq<real>, y: seq<int>, z: seq<int>, n: nat)
    requires n < |y| && n < |z|
    requires forall k :: 0 <= k <= n ==> y[k] == z[k]
    ensures ScoreUpTo(E, T, S, y, n) == ScoreUpTo(E, T, S, z, n)
  {
    if n > 0 {
      ScoreUpToPrefix(E, T, S, y, z, n - 1);
    }
  }

  // ---------------------------------------------------------------------------
  // Correctness of the dynamic program

  /** No prefix beats the score-matrix cell of its last label. */
  lemma {:induction false} PrefixBound(E: Grid, T: Grid, S: seq<real>, V: seq<seq<real>>,
                                       y: seq<int>, k: nat)
    requires Shaped(E, T, S) && Dominated(E, T, S, V)
    requires |y| <= E.rows && k < |y| && k < |V|
    requires InRange(y, |S|)
    ensures PrefixScore(E, T, S, y, k) <= V[k][y[k]]
  {
    if k > 0 {
      PrefixBound(E, T, S, V, y, k - 1);
      var i, j := y[k - 1], y[k];
      var before, here := ScoreUpTo(E, T, S, y, k - 1), ScoreUpTo(E, T, S, y, k);
      var into := V[k - 1][i] + T.cells[i][j] + E.cells[k][j];
      assert StepDominated(E, T, S, V, k);
      assert into <= V[k][j];
      assert before + E.cells[k - 1][i] <= V[k - 1][i];
      assert here == before + T.cells[i][j] + E.cells[k - 1][i];
    }
  }

  /** The back-traced prefix attains the score-matrix cell it starts from. */
  lemma {:induction false} BackTraceAttains(E: Grid, T: Grid, S: seq<real>, V: seq<seq<real>>, B: seq<seq<int>>,
                                            t: nat, j: nat)
    requires Shaped(E, T, S) && Attained(E, T, S, V, B) && PointersInRange(B, |S|)
    requires t < |V| && j < |S|
    ensures PrefixScore(E, T, S, BackTrace(B, t, j), t) == V[t][j]
  {
    var p := BackTrace(B, t, j);
    if t > 0 {
      var b := B[t][j];
      var p' := BackTrace(B, t - 1, b);
      assert p == p' + [j];
      BackTraceAttains(E, T, S, V, B, t - 1, b);
      ScoreUpToPrefix(E, T, S, p, p', t - 1);
      assert p[t - 1] == b && p[t] == j;
      assert RowAttained(E, T, S, V, B, t);
      assert V[t][j] == V[t - 1][b] + T.cells[b][j] + E.cells[t][j];
      assert ScoreUpTo(E, T, S, p, t) == ScoreUpTo(E, T, S, p, t - 1) + T.cells[b][j] + E.cells[t - 1][b];
      assert PrefixScore(E, T, S, p, t) == V[t][j];
    } else {
      assert PrefixScore(E, T, S, p, t) == V[t][j];
    }
  }

  /** A sequence that obeys every back-pointer is the back-traced one. */
  lemma {:induction false} BackTraceUnique(B: seq<seq<int>>, L: nat, t: nat, j: int, p: seq<int>)
    requires t < |B| && 0 <= j < L && PointersInRange(B, L)
    requires IsLabeling(p, t + 1, L) && p[t] == j
    requires forall s :: 1 <= s <= t ==> p[s - 1] == B[s][p[s]]
    ensures p == BackTrace(B, t, j)
  {
    if t > 0 {
      BackTraceUnique(B, L, t - 1, p[t - 1], p[..t]);
      assert p == p[..t] + [j];
    }
  }

  /** A label sequence scores at most the final-row total of its last label,
      hence at most the best final-row total. */
  lemma LabelingBounded(E: Grid, T: Grid, S: seq<real>, Z: seq<real>, V: seq<seq<real>>,
                        fin: seq<real>, last: nat, y: seq<int>)
    requires Shaped(E, T, S) && |Z| == |S| && Dominated(E, T, S, V) && |V| == E.rows
    requires |fin| == |S| && IsFirstMax(fin, last)
    requires forall k :: 0 <= k < |S| ==> fin[k] == V[E.rows - 1][k] + Z[k]
    requires IsLabeling(y, E.rows, |S|)
    ensures SeqScore(E, T, S, Z, y) <= fin[last]
  {
    var n := E.rows - 1;
    PrefixBound(E, T, S, V, y, n);
    assert fin[y[n]] <= fin[last];
  }

  /** No label sequence scores above the best cell of the final row. */
  lemma EveryLabelingBounded(E: Grid, T: Grid, S: seq<real>, Z: seq<real>, V: seq<seq<real>>,
                             fin: seq<real>, last: nat)
    requires Shaped(E, T, S) && |Z| == |S| && Dominated(E, T, S, V) && |V| == E.rows
    requires |fin| == |S| && IsFirstMax(fin, last)
    requires forall k :: 0 <= k < |S| ==> fin[k] == V[E.rows - 1][k] + Z[k]
    ensures forall y :: IsLabeling(y, E.rows, |S|) ==> SeqScore(E, T, S, Z, y) <= fin[last]
  {
    forall y | IsLabeling(y, E.rows, |S|)
      ensures SeqScore(E, T, S, Z, y) <= fin[last]
    {
      LabelingBounded(E, T, S, Z, V, fin, last, y);
    }
  }

  /** The decoded score is the score of the decoded path, and no label
      sequence of the same length scores higher: what the brute-force
      comparison of the self-test checks. */
  lemma DecodeOptimal(E: Grid, T: Grid, S: seq<real>, Z: seq<real>)
    requires E.Valid() && T.Valid() && Decode(E, T, S, Z).Ok?
    ensures var d := Decode(E, T, S, Z).value;
      IsLabeling(d.path, E.rows, |S|)
      && SeqScore(E, T, S, Z, d.path) == d.score
      && forall y :: IsLabeling(y, E.rows, |S|) ==> SeqScore(E, T, S, Z, y) <= d.score
  {
    var N := E.rows;
    var (V, B) := Tables(E, T, S);
    TablesAreTables(E, T, S);
    var fin := Final(E, T, S, Z);
    var last := ArgMax(fin);
    ArgMaxIsFirstMax(fin);
    TablePointersInRange(E, T, S, V, B);
    TableAttained(E, T, S, V, B);
    TableDominated(E, T, S, V, B);
    BackTraceFollows(B, |S|, N - 1, last);
    BackTraceAttains(E, T, S, V, B, N - 1, last);
    EveryLabelingBounded(E, T, S, Z, V, fin, last);
  }

  /** Ties go to the lower label: the last label is the first maximiser of
      the final row and the score is that maximum; each earlier label is the
      first best predecessor of the label after it. */
  lemma DecodeTieBreak(E: Grid, T: Grid, S: seq<real>, Z: seq<real>)
    requires E.Valid() && T.Valid() && Decode(E, T, S, Z).Ok?
    ensures var d := Decode(E, T, S, Z).value; var N := E.rows; var V := Tables(E, T, S).0;
      IsLabeling(d.path, N, |S|)
      && IsFirstMax(Final(E, T, S, Z), d.path[N - 1])
      && d.score == Final(E, T, S, Z)[d.path[N - 1]]
      && forall t :: 1 <= t < N ==> IsFirstMax(Candidates(V[t - 1], T, d.path[t]), d.path[t - 1])
  {
    var N := E.rows;
    var (V, B) := Tables(E, T, S);
    TablesAreTables(E, T, S);
    var d := Decode(E, T, S, Z).value;
    var fin := Final(E, T, S, Z);
    ArgMaxIsFirstMax(fin);
    TablePointersInRange(E, T, S, V, B);
    BackTraceFollows(B, |S|, N - 1, ArgMax(fin));
    forall t | 1 <= t < N
      ensures IsFirstMax(Candidates(V[t - 1], T, d.path[t]), d.path[t - 1])
    {
      assert RowFollows(E, T, S, V, B, t);
    }
  }

  /** A one-token sentence: no transition is taken, and the single label is
      the first maximiser of emission + start + end. */
  lemma SingleToken(E: Grid, T: Grid, S: seq<real>, Z: seq<real>)
    requires E.Valid() && T.Valid() && ShapesAgree(E, T, S, Z)
    requires E.rows == 1 && |S| >= 1
    ensures var scores := seq(|S|, l requires 0 <= l < |S| => E.cells[0][l] + S[l] + Z[l]);
      var k := ArgMax(scores);
      Decode(E, T, S, Z) == Ok(Decoded(scores[k], [k]))
  {
    var scores := seq(|S|, l requires 0 <= l < |S| => E.cells[0][l] + S[l] + Z[l]);
    assert Final(E, T, S, Z) == scores;
  }

  // ---------------------------------------------------------------------------
  // The imperative decoder

  /** `getMaxScore`: scans the predecessors of cell (r, c) and keeps the
      first one with the highest path score plus transition score. */
  method GetMaxScore(pathScores: array2<real>, T: Grid, emissionScore: real, r: nat, c: nat, L: nat)
    returns (maxCellScore: real, maxIdx: int)
    requires T.Valid() && L <= T.rows && c < T.cols
    requires 1 <= r < pathScores.Length0 && L <= pathScores.Length1 && L >= 1
    ensures 0 <= maxIdx < L
    ensures forall i :: 0 <= i < L ==>
      pathScores[r - 1, i] + T.cells[i][c] <= pathScores[r - 1, maxIdx] + T.cells[maxIdx][c]
    ensures forall i :: 0 <= i < maxIdx ==>
      pathScores[r - 1, i] + T.cells[i][c] < pathScores[r - 1, maxIdx] + T.cells[maxIdx][c]
    ensures maxCellScore == pathScores[r - 1, maxIdx] + T.cells[maxIdx][c] + emissionScore
  {
    var maxScore: real := 0.0;  // meaningful once maxIdx != -1; -inf before
    maxIdx := -1;
    for i := 0 to L
      invariant i == 0 <==> maxIdx == -1
      invariant -1 <= maxIdx < i
      invariant maxIdx >= 0 ==> maxScore == pathScores[r - 1, maxIdx] + T.cells[maxIdx][c]
      invariant forall k :: 0 <= k < i ==> pathScores[r - 1, k] + T.cells[k][c] <= maxScore
      invariant forall k :: 0 <= k < maxIdx ==> pathScores[r - 1, k] + T.cells[k][c] < maxScore
    {
      var score := pathScores[r - 1, i] + T.cells[i][c];
      if maxIdx == -1 || score > maxScore {
        maxScore := score;
        maxIdx := i;
      }
    }
    maxCellScore := maxScore + emissionScore;
  }

  /** Every back-pointer below row 0 of the array names a label, and row 0
      holds the -1 that ends the walk. */
  predicate PointerArray(m: array2<int>)
    reads m
  {
    m.Length0 >= 1
    && (forall j :: 0 <= j < m.Length1 ==> m[0, j] == -1)
    && forall i, j :: 1 <= i < m.Length0 && 0 <= j < m.Length1 ==> 0 <= m[i, j] < m.Length1
  }

  /** The labels met when following back-pointers from label `j` of row `i`
      down to row 0, nearest first. */
  ghost function Walk(m: array2<int>, i: nat, j: int): (p: seq<int>)
    reads m
    requires PointerArray(m) && i < m.Length0 && 0 <= j < m.Length1
    ensures |p| == i && forall k :: 0 <= k < i ==> 0 <= p[k] < m.Length1
    decreases i
  {
    if i == 0 then [] else [m[i, j]] + Walk(m, i - 1, m[i, j])
  }

  /** `getMaxScoringPath`: follows back-pointers from label `start` in the
      last row until it meets the -1 of row 0, collecting each predecessor. */
  method GetMaxScoringPath(pathMatrix: array2<int>, start: int) returns (path: seq<int>)
    requires PointerArray(pathMatrix) && 0 <= start < pathMatrix.Length1
    ensures path == Walk(pathMatrix, pathMatrix.Length0 - 1, start)
  {
    path := [];
    var i := pathMatrix.Length0 - 1;
    var j := start;
    while pathMatrix[i, j] != -1 && i > -1
      invariant 0 <= i < pathMatrix.Length0 && 0 <= j < pathMatrix.Length1
      invariant path + Walk(pathMatrix, i, j) == Walk(pathMatrix, pathMatrix.Length0 - 1, start)
      decreases i
    {
      assert Walk(pathMatrix, i, j) == [pathMatrix[i, j]] + Walk(pathMatrix, i - 1, pathMatrix[i, j]);
      path := path + [pathMatrix[i, j]];
      j := pathMatrix[i, j];
      i := i - 1;
    }
    assert i == 0;
  }

  /** Reading the walk backwards and appending its starting label gives the
      back-traced sequence of the tables the array holds. */
  lemma {:induction false} WalkIsBackTrace(m: array2<int>, B: seq<seq<int>>, t: nat, j: nat)
    requires PointerArray(m) && PointersInRange(B, m.Length1)
    requires t < m.Length0 <= |B| && j < m.Length1
    requires forall i, k :: 1 <= i < m.Length0 && 0 <= k < m.Length1 ==> m[i, k] == B[i][k]
    ensures Reversed(Walk(m, t, j)) + [j] == BackTrace(B, t, j)
  {
    if t > 0 {
      var b := m[t, j];
      var w := Walk(m, t - 1, b);
      WalkIsBackTrace(m, B, t - 1, b);
      assert Walk(m, t, j) == [b] + w;
      assert Reversed([b] + w) == Reversed(w) + [b];
    }
  }

  /** Python's `s[::-1]`. */
  function Reversed(s: seq<int>): (r: seq<int>)
    ensures |r| == |s| && forall k :: 0 <= k < |s| ==> r[k] == s[|s| - 1 - k]
  {
    seq(|s|, k requires 0 <= k < |s| => s[|s| - 1 - k])
  }

  /** One pass of the outer forward loop of `run_viterbi`: fills row `i` of
      both tables from row `i - 1` of the score table, one `getMaxScore`
      call per label, and leaves every other row as it was. */
  method ForwardRow(E: Grid, T: Grid, S: seq<real>, ghost V: seq<seq<real>>, ghost B: seq<seq<int>>,
                    scoreMatrix: array2<real>, pathMatrix: array2<int>, i: nat, ghost prev: seq<real>)
    requires Shaped(E, T, S) && IsTable(E, T, S, V, B) && |V| == E.rows
    requires scoreMatrix.Length0 == pathMatrix.Length0 == E.rows
    requires scoreMatrix.Length1 == pathMatrix.Length1 == |S|
    requires 1 <= i < E.rows && prev == V[i - 1]
    requires forall k :: 0 <= k < |S| ==> scoreMatrix[i - 1, k] == prev[k]
    modifies scoreMatrix, pathMatrix
    ensures forall t, k :: 0 <= t < E.rows && t != i && 0 <= k < |S| ==>
      scoreMatrix[t, k] == old(scoreMatrix[t, k]) && pathMatrix[t, k] == old(pathMatrix[t, k])
    ensures forall k :: 0 <= k < |S| ==> scoreMatrix[i, k] == V[i][k] && pathMatrix[i, k] == B[i][k]
  {
    var L := |S|;
    assert RowFollows(E, T, S, V, B, i);
    for j := 0 to L
      invariant forall t, k :: 0 <= t < E.rows && t != i && 0 <= k < L ==>
        scoreMatrix[t, k] == old(scoreMatrix[t, k]) && pathMatrix[t, k] == old(pathMatrix[t, k])
      invariant forall k :: 0 <= k < j ==> scoreMatrix[i, k] == V[i][k] && pathMatrix[i, k] == B[i][k]
    {
      var cell, idx := GetMaxScore(scoreMatrix, T, E.cells[i][j], i, j, L);
      ghost var cand := Candidates(V[i - 1], T, j);
      assert IsFirstMax(cand, idx);
      FirstMaxUnique(cand, idx, B[i][j]);
      scoreMatrix[i, j], pathMatrix[i, j] := cell, idx;
    }
  }

  /** The last lines of `run_viterbi`: walk the back-pointers from the best
      final label, reverse the walk and append that label. */
  method BackTrack(pathMatrix: array2<int>, start: nat, ghost B: seq<seq<int>>) returns (path: seq<int>)
    requires PointerArray(pathMatrix) && PointersInRange(B, pathMatrix.Length1)
    requires pathMatrix.Length0 <= |B| && start < pathMatrix.Length1
    requires forall i, k :: 1 <= i < pathMatrix.Length0 && 0 <= k < pathMatrix.Length1 ==> pathMatrix[i, k] == B[i][k]
    ensures path == BackTrace(B, pathMatrix.Length0 - 1, start)
  {
    var back := GetMaxScoringPath(pathMatrix, start);
    path := Reversed(back) + [start];
    WalkIsBackTrace(pathMatrix, B, pathMatrix.Length0 - 1, start);
  }

  /** The allocation and the two table-filling loops of `run_viterbi`: row 0
      from the start scores, then each later row by `ForwardRow`. */
  method FillTables(E: Grid, T: Grid, S: seq<real>)
    returns (scoreMatrix: array2<real>, pathMatrix: array2<int>, ghost V: seq<seq<real>>, ghost B: seq<seq<int>>)
    requires Shaped(E, T, S)
    ensures fresh(scoreMatrix) && fresh(pathMatrix) && (V, B) == Tables(E, T, S)
    ensures scoreMatrix.Length0 == pathMatrix.Length0 == |V| == |B| == E.rows
    ensures scoreMatrix.Length1 == pathMatrix.Length1 == |S|
    ensures forall t :: 0 <= t < E.rows ==> |V[t]| == |S|
    ensures forall t, j :: 0 <= t < E.rows && 0 <= j < |S| ==> scoreMatrix[t, j] == V[t][j]
    ensures PointerArray(pathMatrix) && PointersInRange(B, |S|)
    ensures forall t, j :: 1 <= t < E.rows && 0 <= j < |S| ==> pathMatrix[t, j] == B[t][j]
  {
    var L, N := |S|, E.rows;
    pathMatrix := new int[N, L]((_, _) => -1);
    scoreMatrix := new real[N, L]((_, _) => 0.0);
    V, B := Tables(E, T, S).0, Tables(E, T, S).1;
    TablesAreTables(E, T, S);
    assert FirstRow(E, S, V[0], B[0]);
    for i := 0 to L
      modifies scoreMatrix
      invariant forall j :: 0 <= j < i ==> scoreMatrix[0, j] == V[0][j]
    {
      scoreMatrix[0, i] := E.cells[0][i] + S[i];
    }

    for i := 1 to N
      modifies scoreMatrix, pathMatrix
      invariant forall t, j :: 0 <= t < i && 0 <= j < L ==> scoreMatrix[t, j] == V[t][j]
      invariant forall t, j :: 0 <= t < i && 0 <= j < L ==> pathMatrix[t, j] == B[t][j]
    {
      ForwardRow(E, T, S, V, B, scoreMatrix, pathMatrix, i, V[i - 1]);
    }
    TablePointersInRange(E, T, S, V, B);
  }

  /** The termination loop of `run_viterbi`: adds the end scores to row `r`
      and keeps the first label whose total is strictly the best so far. */
  method AddEndScores(scoreMatrix: array2<real>, r: nat, Z: seq<real>, ghost last: seq<real>)
    returns (startScore: real, startIdx: nat)
    requires r < scoreMatrix.Length0 && scoreMatrix.Length1 == |Z| == |last| >= 1
    requires forall j :: 0 <= j < |Z| ==> scoreMatrix[r, j] == last[j]
    modifies scoreMatrix
    ensures startIdx == ArgMax(EndRow(last, Z)) && startScore == EndRow(last, Z)[startIdx]
    ensures forall j :: 0 <= j < |Z| ==> scoreMatrix[r, j] == last[j] + Z[j]
    ensures forall t, j :: 0 <= t < scoreMatrix.Length0 && t != r && 0 <= j < |Z| ==>
      scoreMatrix[t, j] == old(scoreMatrix[t, j])
  {
    var L := |Z|;
    ghost var fin := EndRow(last, Z);
    startScore := 0.0;  // meaningful once a label has been seen; -inf before
    var best := -1;
    for i := 0 to L
      invariant forall j :: 0 <= j < i ==> scoreMatrix[r, j] == fin[j]
      invariant forall j :: i <= j < L ==> scoreMatrix[r, j] == last[j]
      invariant i == 0 <==> best == -1
      invariant i > 0 ==> best == ArgMax(fin[..i]) && startScore == fin[best]
      invariant forall t, j :: 0 <= t < scoreMatrix.Length0 && t != r && 0 <= j < L ==>
        scoreMatrix[t, j] == old(scoreMatrix[t, j])
    {
      scoreMatrix[r, i] := scoreMatrix[r, i] + Z[i];
      assert fin[..i + 1][..i] == fin[..i];
      if best == -1 || scoreMatrix[r, i] > startScore {
        startScore := scoreMatrix[r, i];
        best := i;
      }
    }
    assert fin[..L] == fin;
    startIdx := best;
  }

  /** The end of `run_viterbi` once the tables are filled: the termination
      loop, then the walk back from the best final label. */
  method Terminate(scoreMatrix: array2<real>, pathMatrix: array2<int>, Z: seq<real>,
                   ghost V: seq<seq<real>>, ghost B: seq<seq<int>>)
    returns (d: Decoded)
    requires 1 <= scoreMatrix.Length0 == pathMatrix.Length0 == |V| == |B|
    requires scoreMatrix.Length1 == pathMatrix.Length1 == |Z| >= 1
    requires forall t :: 0 <= t < |V| ==> |V[t]| == |Z|
    requires PointerArray(pathMatrix) && PointersInRange(B, |Z|)
    requires forall t, j :: 0 <= t < |V| && 0 <= j < |Z| ==> scoreMatrix[t, j] == V[t][j]
    requires forall t, j :: 1 <= t < |V| && 0 <= j < |Z| ==> pathMatrix[t, j] == B[t][j]
    modifies scoreMatrix
    ensures var fin := EndRow(V[|V| - 1], Z);
      d == Decoded(fin[ArgMax(fin)], BackTrace(B, |V| - 1, ArgMax(fin)))
    ensures forall j :: 0 <= j < |Z| ==> scoreMatrix[|V| - 1, j] == V[|V| - 1][j] + Z[j]
    ensures forall t, j :: 0 <= t < |V| - 1 && 0 <= j < |Z| ==> scoreMatrix[t, j] == V[t][j]
  {
    var startScore, startIdx := AddEndScores(scoreMatrix, scoreMatrix.Length0 - 1, Z, V[|V| - 1]);
    var path := BackTrack(pathMatrix, startIdx, B);
    d := Decoded(startScore, path);
  }

  /** `run_viterbi` once its shape assertions have passed on a non-empty
      sentence and label set. */
  method DecodeChecked(E: Grid, T: Grid, S: seq<real>, Z: seq<real>) returns (d: Decoded)
    requires Shaped(E, T, S) && |Z| == |S|
    ensures d == Best(E, T, S, Z)
  {
    var scoreMatrix, pathMatrix, V, B := FillTables(E, T, S);
    d := Terminate(scoreMatrix, pathMatrix, Z, V, B);
  }

  /** `run_viterbi`: checks the shapes, fills the score and back-pointer
      tables row by row, adds the end scores, picks the first best final
      label and walks the back-pointers. */
  method RunViterbi(E: Grid, T: Grid, S: seq<real>, Z: seq<real>) returns (r: Result<Decoded>)
    requires E.Valid() && T.Valid()
    ensures r == Decode(E, T, S, Z)
    ensures r.Ok? ==> |r.value.path| == E.rows
  {
    var L := |S|;
    if !(|Z| == L && T.rows == L && T.cols == L && E.cols == L) {
      return Err(ShapeMismatch);
    }
    var N := E.rows;
    if N == 0 || L == 0 {
      return Err(EmptyInput);
    }
    var d := DecodeChecked(E, T, S, Z);
    r := Ok(d);
  }

  // ---------------------------------------------------------------------------
  // The brute-force self-test

  /** Every label sequence of length n over 0 .. L-1, in the order of
      `itertools.product(range(L), repeat=n)`. */
  function Labelings(n: nat, L: nat): seq<seq<int>>
    decreases n
  {
    if n == 0 then [[]] else PrependEach(0, L, Labelings(n - 1, L))
  }

  /** [l] + t for each t in tails, for l = from .. L-1 in turn. */
  function PrependEach(from: nat, L: nat, tails: seq<seq<int>>): seq<seq<int>>
    decreases L - from
  {
    if from >= L then []
    else seq(|tails|, k requires 0 <= k < |tails| => [from] + tails[k]) + PrependEach(from + 1, L, tails)
  }

  lemma {:induction false} PrependEachMembers(from: nat, L: nat, tails: seq<seq<int>>, y: seq<int>)
    ensures y in PrependEach(from, L, tails) <==> |y| > 0 && from <= y[0] < L && y[1..] in tails
    decreases L - from
  {
    if from < L {
      var head := seq(|tails|, k requires 0 <= k < |tails| => [from] + tails[k]);
      PrependEachMembers(from + 1, L, tails, y);
      if y in head {
        var k :| 0 <= k < |tails| && head[k] == y;
        assert y[1..] == tails[k];
      }
      if |y| > 0 && y[0] == from && y[1..] in tails {
        var k :| 0 <= k < |tails| && tails[k] == y[1..];
        assert head[k] == y;
      }
    }
  }

  /** The enumeration holds exactly the label sequences of length n. */
  lemma {:induction false} LabelingsComplete(n: nat, L: nat, y: seq<int>)
    ensures y in Labelings(n, L) <==> IsLabeling(y, n, L)
    decreases n
  {
    if n > 0 {
      PrependEachMembers(0, L, Labelings(n - 1, L), y);
      if |y| > 0 {
        LabelingsComplete(n - 1, L, y[1..]);
        if IsLabeling(y[1..], n - 1, L) && |y| == n && 0 <= y[0] < L {
          forall k | 0 <= k < n ensures 0 <= y[k] < L {
            if k > 0 { assert y[k] == y[1..][k - 1]; }
          }
        }
      }
    }
  }

  /** The self-test's scoring loop for one label sequence. */
  method ScoreSequence(E: Grid, T: Grid, S: seq<real>, Z: seq<real>, y: seq<int>) returns (score: real)
    requires Shaped(E, T, S) && |Z| == |S| && IsLabeling(y, E.rows, |S|)
    ensures score == SeqScore(E, T, S, Z, y)
  {
    var N := E.rows;
    score := 0.0;
    score := score + S[y[0]];
    for i := 0 to N - 1
      invariant score == ScoreUpTo(E, T, S, y, i)
    {
      score := score + T.cells[y[i]][y[i + 1]];
      score := score + E.cells[i][y[i]];
    }
    score := score + E.cells[N - 1][y[N - 1]];
    score := score + Z[y[N - 1]];
  }

  /** The self-test's search loop over the candidate sequences `all`: the
      first one of highest score. */
  method SearchAll(E: Grid, T: Grid, S: seq<real>, Z: seq<real>, all: seq<seq<int>>) returns (bestS: real, bestY: seq<int>)
    requires Shaped(E, T, S) && |Z| == |S| && |all| > 0
    requires forall y :: y in all ==> |y| == E.rows && InRange(y, |S|)
    ensures bestY in all && bestS == SeqScore(E, T, S, Z, bestY)
    ensures forall y :: y in all ==> SeqScore(E, T, S, Z, y) <= bestS
  {
    bestS, bestY := 0.0, [];  // bestY == [] stands for best_s == -inf
    for m := 0 to |all|
      invariant m == 0 <==> bestY == []
      invariant m > 0 ==> bestY in all && bestS == SeqScore(E, T, S, Z, bestY)
      invariant forall k :: 0 <= k < m ==> SeqScore(E, T, S, Z, all[k]) <= bestS
    {
      var score := ScoreSequence(E, T, S, Z, all[m]);
      if bestY == [] || score > bestS {
        bestS, bestY := score, all[m];
      }
    }
  }

  /** The self-test's exhaustive search: the first best of all L^N
      label sequences. */
  method BruteForce(E: Grid, T: Grid, S: seq<real>, Z: seq<real>) returns (bestS: real, bestY: seq<int>)
    requires Shaped(E, T, S) && |Z| == |S|
    ensures IsLabeling(bestY, E.rows, |S|) && bestS == SeqScore(E, T, S, Z, bestY)
    ensures forall y :: IsLabeling(y, E.rows, |S|) ==> SeqScore(E, T, S, Z, y) <= bestS
  {
    var N, L := E.rows, |S|;
    var all := Labelings(N, L);
    forall y | y in all
      ensures |y| == N && InRange(y, L)
    {
      LabelingsComplete(N, L, y);
    }
    var y0 := seq(N, k => 0);
    LabelingsComplete(N, L, y0);
    bestS, bestY := SearchAll(E, T, S, Z, all);
    forall y | IsLabeling(y, N, L)
      ensures SeqScore(E, T, S, Z, y) <= bestS
    {
      LabelingsComplete(N, L, y);
    }
  }

  /** The self-test's cross-check: the Viterbi score equals the best score
      found by exhaustive search. */
  lemma {:induction false} ViterbiMatchesBruteForce(E: Grid, T: Grid, S: seq<real>, Z: seq<real>, bestS: real, bestY: seq<int>)
    requires Shaped(E, T, S) && |Z| == |S|
    requires IsLabeling(bestY, E.rows, |S|) && bestS == SeqScore(E, T, S, Z, bestY)
    requires forall y :: IsLabeling(y, E.rows, |S|) ==> SeqScore(E, T, S, Z, y) <= bestS
    ensures Decode(E, T, S, Z).Ok? && Decode(E, T, S, Z).value.score == bestS
  {
    DecodeOptimal(E, T, S, Z);
  }
}
