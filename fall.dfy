/**
 * Phase 3 of a generation: the fall sweep. It visits rows `rows - 2` down to 0, each left to right,
 * and reads and writes the same board, so a step sees the moves of the steps before it.
 */
module Fall {
  import opened Cells
  import opened Grids

  /** A square the sweep visits, as (row, column). */
  type Pos = (nat, nat)

  /** The sweep visits only squares that have a square below them. */
  predicate ValidPos(p: Pos, rows: nat, cols: nat) {
    p.0 + 1 < rows && p.1 < cols
  }

  predicate ValidOrder(s: seq<Pos>, rows: nat, cols: nat) {
    forall p :: p in s ==> ValidPos(p, rows, cols)
  }

  /** Visiting `p` may change square (i, j) only when (i, j) is `p` itself or the square below it. */
  predicate Writes(p: Pos, i: nat, j: nat) {
    p.1 == j && (p.0 == i || p.0 + 1 == i)
  }

  /**
   * The sweep's step at `p`: a falling block moves into an empty square below it, leaving its
   * square empty and unstable but with its label; a falling block over anything else comes to rest.
   */
  function FallAt(g: Grid, rows: nat, cols: nat, p: Pos): (r: Grid)
    requires Shape(g, rows, cols) && ValidPos(p, rows, cols)
    ensures Shape(r, rows, cols)
    ensures forall i, j :: 0 <= i < rows && 0 <= j < cols && !Writes(p, i, j) ==> r[i][j] == g[i][j]
    ensures forall i, j :: 0 <= i < rows && 0 <= j < cols && r[i][j].kind == Green ==> r[i][j] == g[i][j]
    ensures forall i, j :: 0 <= i < rows && 0 <= j < cols && g[i][j].kind == Green ==> r[i][j] == g[i][j]
  {
    var i, j := p.0, p.1;
    var cell := g[i][j];
    if Falling(cell) then
      if g[i + 1][j].kind == Empty then
        var moved := g[i + 1 := g[i + 1][j := cell.(stable := false)]];
        moved[i := moved[i][j := moved[i][j].(kind := Empty, stable := false)]]
      else
        g[i := g[i][j := cell.(stable := true)]]
    else
      g
  }

  /** The steps at the positions of `s`, in order, each on the board the previous one left. */
  function Run(g: Grid, rows: nat, cols: nat, s: seq<Pos>): (r: Grid)
    requires Shape(g, rows, cols) && ValidOrder(s, rows, cols)
    ensures Shape(r, rows, cols)
    decreases |s|
  {
    if |s| == 0 then g
    else
      assert ValidOrder(s[..|s| - 1], rows, cols) by {
        forall p | p in s[..|s| - 1] ensures ValidPos(p, rows, cols) {
          var k :| 0 <= k < |s| - 1 && s[..|s| - 1][k] == p;
          assert s[k] == p;
        }
      }
      FallAt(Run(g, rows, cols, s[..|s| - 1]), rows, cols, s[|s| - 1])
  }

  /** Row i, left to right. */
  function RowOrder(i: nat, cols: nat): (s: seq<Pos>) {
    seq(cols, j requires 0 <= j < cols => (i, j))
  }

  /** Rows hi - 1 down to lo, each left to right: the order of the sweep's nested loops. */
  function Band(hi: nat, lo: nat, cols: nat): (s: seq<Pos>)
    requires lo <= hi
    ensures forall p :: p in s ==> lo <= p.0 < hi && p.1 < cols
    decreases hi - lo
  {
    if lo == hi then [] else Band(hi, lo + 1, cols) + RowOrder(lo, cols)
  }

  /** The whole sweep: rows `rows - 2` down to 0. */
  function Sweep(g: Grid, rows: nat, cols: nat): (r: Grid)
    requires rows >= 1 && Shape(g, rows, cols)
    ensures Shape(r, rows, cols)
  {
    Run(g, rows, cols, Band(rows - 1, 0, cols))
  }

  // ---------------------------------------------------------------------------------------------
  // The visiting order

  /** `p` is visited before `q`: it is lower down, or on the same row and further left. */
  predicate Before(p: Pos, q: Pos) {
    p.0 > q.0 || (p.0 == q.0 && p.1 < q.1)
  }

  predicate Sorted(s: seq<Pos>) {
    forall a, b :: 0 <= a < b < |s| ==> Before(s[a], s[b])
  }

  /** The sweep order visits every square with a square below it, each once, bottom-up and left to right. */
  lemma {:induction false} BandOrder(hi: nat, lo: nat, cols: nat)
    requires lo <= hi
    ensures Sorted(Band(hi, lo, cols))
    ensures forall i: nat, j: nat :: lo <= i < hi && j < cols ==> (i, j) in Band(hi, lo, cols)
    decreases hi - lo
  {
    if lo < hi {
      BandOrder(hi, lo + 1, cols);
      var a, b := Band(hi, lo + 1, cols), RowOrder(lo, cols);
      var s := Band(hi, lo, cols);
      assert s == a + b;
      forall x, y | 0 <= x < y < |s|
        ensures Before(s[x], s[y])
      {
        if y < |a| {
          assert s[x] == a[x] && s[y] == a[y];
        } else if x >= |a| {
          assert s[x] == b[x - |a|] && s[y] == b[y - |a|];
        } else {
          assert s[x] == a[x] && a[x] in a;
          assert s[y] == b[y - |a|];
        }
      }
      forall i: nat, j: nat | lo <= i < hi && j < cols
        ensures (i, j) in s
      {
        if i == lo {
          assert b[j] == (i, j);
          assert s[|a| + j] == (i, j);
        } else {
          assert (i, j) in a;
        }
      }
    }
  }

  /** A visited position divides a sorted order into what comes before it and what comes after it. */
  lemma SplitSorted(s: seq<Pos>, p: Pos) returns (front: seq<Pos>, back: seq<Pos>)
    requires Sorted(s) && p in s
    ensures s == front + [p] + back
    ensures forall q :: q in front ==> Before(q, p)
    ensures forall q :: q in back ==> Before(p, q)
    ensures Sorted(back)
  {
    var k :| 0 <= k < |s| && s[k] == p;
    front, back := s[..k], s[k + 1..];
    assert s == front + [p] + back;
    forall q | q in front
      ensures Before(q, p)
    {
      var a :| 0 <= a < |front| && front[a] == q;
      assert s[a] == q;
    }
    forall q | q in back
      ensures Before(p, q)
    {
      var a :| 0 <= a < |back| && back[a] == q;
      assert s[k + 1 + a] == q;
    }
    forall x, y | 0 <= x < y < |back|
      ensures Before(back[x], back[y])
    {
      assert back[x] == s[k + 1 + x] && back[y] == s[k + 1 + y];
    }
  }

  /** Where (i, j) falls in the sweep order. */
  lemma SplitSweep(rows: nat, cols: nat, i: nat, j: nat) returns (front: seq<Pos>, back: seq<Pos>)
    requires i + 1 < rows && j < cols
    ensures Band(rows - 1, 0, cols) == front + [(i, j)] + back
    ensures forall q :: q in front ==> Before(q, (i, j))
    ensures forall q :: q in back ==> Before((i, j), q)
    ensures Sorted(back)
  {
    BandOrder(rows - 1, 0, cols);
    front, back := SplitSorted(Band(rows - 1, 0, cols), (i, j));
  }

  // ---------------------------------------------------------------------------------------------
  // Running a list of steps

  /** Running two lists one after the other is running their concatenation. */
  lemma {:induction false} RunAppend(g: Grid, rows: nat, cols: nat, a: seq<Pos>, b: seq<Pos>)
    requires Shape(g, rows, cols) && ValidOrder(a, rows, cols) && ValidOrder(b, rows, cols)
    ensures ValidOrder(a + b, rows, cols)
    ensures Run(g, rows, cols, a + b) == Run(Run(g, rows, cols, a), rows, cols, b)
    decreases |b|
  {
    if |b| > 0 {
      var b' := b[..|b| - 1];
      assert ValidOrder(b', rows, cols) by {
        forall p | p in b' ensures ValidPos(p, rows, cols) {
          var k :| 0 <= k < |b'| && b'[k] == p;
          assert b[k] == p;
        }
      }
      RunAppend(g, rows, cols, a, b');
      assert (a + b)[..|a + b| - 1] == a + b';
      assert (a + b)[|a + b| - 1] == b[|b| - 1];
    } else {
      assert a + b == a;
    }
  }

  /** Running a single step. */
  lemma RunOne(g: Grid, rows: nat, cols: nat, p: Pos)
    requires Shape(g, rows, cols) && ValidPos(p, rows, cols)
    ensures Run(g, rows, cols, [p]) == FallAt(g, rows, cols, p)
  {
    assert [p][..0] == [];
  }

  /** The board around (i, j) in the order it is visited: before the step there, the step, after it. */
  lemma RunAround(g: Grid, rows: nat, cols: nat, front: seq<Pos>, p: Pos, back: seq<Pos>)
    requires Shape(g, rows, cols) && ValidOrder(front + [p] + back, rows, cols)
    ensures ValidOrder(front, rows, cols) && ValidPos(p, rows, cols) && ValidOrder(back, rows, cols)
    ensures Run(g, rows, cols, front + [p] + back) ==
      Run(FallAt(Run(g, rows, cols, front), rows, cols, p), rows, cols, back)
  {
    var s := front + [p] + back;
    assert ValidOrder(front, rows, cols) by {
      forall q | q in front ensures ValidPos(q, rows, cols) { assert q in s; }
    }
    assert ValidOrder(back, rows, cols) by {
      forall q | q in back ensures ValidPos(q, rows, cols) { assert q in s; }
    }
    assert p in s;
    RunAppend(g, rows, cols, front + [p], back);
    RunAppend(g, rows, cols, front, [p]);
    RunOne(Run(g, rows, cols, front), rows, cols, p);
  }

  /** A square that no step of the list may write keeps its value. */
  lemma {:induction false} RunFrame(g: Grid, rows: nat, cols: nat, s: seq<Pos>, i: nat, j: nat)
    requires Shape(g, rows, cols) && ValidOrder(s, rows, cols) && i < rows && j < cols
    requires forall p :: p in s ==> !Writes(p, i, j)
    ensures Run(g, rows, cols, s)[i][j] == g[i][j]
    decreases |s|
  {
    if |s| > 0 {
      var s' := s[..|s| - 1];
      assert forall p :: p in s' ==> p in s;
      RunFrame(g, rows, cols, s', i, j);
      assert s[|s| - 1] in s;
    }
  }

  /** An empty square stays as it is unless the square above it is visited. */
  lemma {:induction false} RunKeepsEmpty(g: Grid, rows: nat, cols: nat, s: seq<Pos>, i: nat, j: nat)
    requires Shape(g, rows, cols) && ValidOrder(s, rows, cols) && i < rows && j < cols
    requires g[i][j].kind == Empty
    requires forall p :: p in s ==> !(p.1 == j && p.0 + 1 == i)
    ensures Run(g, rows, cols, s)[i][j] == g[i][j]
    decreases |s|
  {
    if |s| > 0 {
      var s' := s[..|s| - 1];
      assert forall p :: p in s' ==> p in s;
      RunKeepsEmpty(g, rows, cols, s', i, j);
      assert s[|s| - 1] in s;
    }
  }

  /** The cells the sweep can never change: occupied, and at rest or on the bottom row. */
  predicate Anchored(g: Grid, rows: nat, i: nat, j: nat)
    requires i < |g| && j < |g[i]|
  {
    g[i][j].kind != Empty && (!Falling(g[i][j]) || i == rows - 1)
  }

  /** Every anchored square of `a` is unchanged in `b`. */
  predicate KeepsAnchored(a: Grid, b: Grid, rows: nat, cols: nat)
    requires Shape(a, rows, cols) && Shape(b, rows, cols)
  {
    forall i, j :: 0 <= i < rows && 0 <= j < cols && Anchored(a, rows, i, j) ==> b[i][j] == a[i][j]
  }

  /** A single step leaves every anchored square alone. */
  lemma FallAtKeepsAnchored(g: Grid, rows: nat, cols: nat, p: Pos)
    requires Shape(g, rows, cols) && ValidPos(p, rows, cols)
    ensures KeepsAnchored(g, FallAt(g, rows, cols, p), rows, cols)
  {
  }

  /** Anchored squares survive any list of steps unchanged. */
  lemma {:induction false} RunKeepsAnchored(g: Grid, rows: nat, cols: nat, s: seq<Pos>)
    requires Shape(g, rows, cols) && ValidOrder(s, rows, cols)
    ensures KeepsAnchored(g, Run(g, rows, cols, s), rows, cols)
    decreases |s|
  {
    if |s| > 0 {
      var s' := s[..|s| - 1];
      assert forall p :: p in s' ==> p in s;
      RunKeepsAnchored(g, rows, cols, s');
      assert s[|s| - 1] in s;
      FallAtKeepsAnchored(Run(g, rows, cols, s'), rows, cols, s[|s| - 1]);
    }
  }

  /** A green square after any list of steps was there, unchanged, before them. */
  lemma {:induction false} RunGreenUnchanged(g: Grid, rows: nat, cols: nat, s: seq<Pos>)
    requires Shape(g, rows, cols) && ValidOrder(s, rows, cols)
    ensures var r := Run(g, rows, cols, s);
      forall i, j :: 0 <= i < rows && 0 <= j < cols && r[i][j].kind == Green ==> r[i][j] == g[i][j]
    decreases |s|
  {
    if |s| > 0 {
      var s' := s[..|s| - 1];
      assert forall p :: p in s' ==> p in s;
      RunGreenUnchanged(g, rows, cols, s');
    }
  }

  /** Moving a block into the empty square below it keeps the count. */
  lemma MoveKeepsCount(g: Grid, rows: nat, cols: nat, i: nat, j: nat)
    requires Shape(g, rows, cols) && i + 1 < rows && j < cols
    requires IsBlock(g[i][j].kind) && g[i + 1][j].kind == Empty
    ensures var moved: Grid := g[i + 1 := g[i + 1][j := g[i][j].(stable := false)]];
      CountBlocks(moved[i := moved[i][j := moved[i][j].(kind := Empty, stable := false)]]) == CountBlocks(g)
  {
    var cell := g[i][j];
    var below := g[i + 1][j := cell.(stable := false)];
    var moved: Grid := g[i + 1 := below];
    CountRowUpdate(g[i + 1], j, cell.(stable := false));
    CountBlocksUpdate(g, i + 1, below);
    assert moved[i] == g[i];
    var emptied := moved[i][j].(kind := Empty, stable := false);
    CountRowUpdate(moved[i], j, emptied);
    CountBlocksUpdate(moved, i, moved[i][j := emptied]);
  }

  /** A step moves or settles blocks but never creates or destroys one. */
  lemma FallAtKeepsCount(g: Grid, rows: nat, cols: nat, p: Pos)
    requires Shape(g, rows, cols) && ValidPos(p, rows, cols)
    ensures CountBlocks(FallAt(g, rows, cols, p)) == CountBlocks(g)
  {
    var i, j := p.0, p.1;
    var cell := g[i][j];
    if Falling(cell) {
      if g[i + 1][j].kind == Empty {
        MoveKeepsCount(g, rows, cols, i, j);
      } else {
        CountRowUpdate(g[i], j, cell.(stable := true));
        CountBlocksUpdate(g, i, g[i][j := cell.(stable := true)]);
      }
    }
  }

  lemma {:induction false} RunKeepsCount(g: Grid, rows: nat, cols: nat, s: seq<Pos>)
    requires Shape(g, rows, cols) && ValidOrder(s, rows, cols)
    ensures CountBlocks(Run(g, rows, cols, s)) == CountBlocks(g)
    decreases |s|
  {
    if |s| > 0 {
      var s' := s[..|s| - 1];
      assert forall p :: p in s' ==> p in s;
      RunKeepsCount(g, rows, cols, s');
      assert s[|s| - 1] in s;
      FallAtKeepsCount(Run(g, rows, cols, s'), rows, cols, s[|s| - 1]);
    }
  }

  // ---------------------------------------------------------------------------------------------
  // What the whole sweep does

  /** The sweep never changes the number of blue and red blocks. */
  lemma SweepKeepsCount(g: Grid, rows: nat, cols: nat)
    requires rows >= 1 && Shape(g, rows, cols)
    ensures CountBlocks(Sweep(g, rows, cols)) == CountBlocks(g)
  {
    RunKeepsCount(g, rows, cols, Band(rows - 1, 0, cols));
  }

  /**
   * Green squares, blocks at rest, and every occupied square of the bottom row (falling or not:
   * the sweep never visits that row) are left exactly as they were.
   */
  lemma SweepKeepsAnchored(g: Grid, rows: nat, cols: nat)
    requires rows >= 1 && Shape(g, rows, cols)
    ensures KeepsAnchored(g, Sweep(g, rows, cols), rows, cols)
  {
    RunKeepsAnchored(g, rows, cols, Band(rows - 1, 0, cols));
  }

  /** The sweep writes no green square. */
  lemma SweepGreenUnchanged(g: Grid, rows: nat, cols: nat)
    requires rows >= 1 && Shape(g, rows, cols)
    ensures var r := Sweep(g, rows, cols);
      forall i, j :: 0 <= i < rows && 0 <= j < cols && r[i][j].kind == Green ==> r[i][j] == g[i][j]
  {
    RunGreenUnchanged(g, rows, cols, Band(rows - 1, 0, cols));
  }

  /** A falling block resting on an anchored square comes to rest where it is. */
  lemma SweepStabilises(g: Grid, rows: nat, cols: nat, i: nat, j: nat)
    requires Shape(g, rows, cols) && i + 1 < rows && j < cols
    requires Falling(g[i][j]) && Anchored(g, rows, i + 1, j)
    ensures Sweep(g, rows, cols)[i][j] == g[i][j].(stable := true)
  {
    var front, back := SplitSweep(rows, cols, i, j);
    RunAround(g, rows, cols, front, (i, j), back);
    var h0 := Run(g, rows, cols, front);
    RunFrame(g, rows, cols, front, i, j);
    RunKeepsAnchored(g, rows, cols, front);
    assert h0[i + 1][j] == g[i + 1][j];
    var h1 := FallAt(h0, rows, cols, (i, j));
    assert h1[i][j] == g[i][j].(stable := true);
    RunKeepsAnchored(h1, rows, cols, back);
  }

  /** A falling block over an empty square moves down into it, unchanged, label and all. */
  lemma SweepFalls(g: Grid, rows: nat, cols: nat, i: nat, j: nat)
    requires Shape(g, rows, cols) && i + 1 < rows && j < cols
    requires Falling(g[i][j]) && g[i + 1][j].kind == Empty
    ensures Sweep(g, rows, cols)[i + 1][j] == g[i][j]
  {
    var front, back := SplitSweep(rows, cols, i, j);
    RunAround(g, rows, cols, front, (i, j), back);
    var h0 := Run(g, rows, cols, front);
    RunFrame(g, rows, cols, front, i, j);
    RunKeepsEmpty(g, rows, cols, front, i + 1, j);
    var h1 := FallAt(h0, rows, cols, (i, j));
    assert h1[i + 1][j] == g[i][j];
    RunFrame(h1, rows, cols, back, i + 1, j);
  }

  /** What square (i, j) may hold after the step at (i, j) itself. */
  lemma FallAtHere(h: Grid, rows: nat, cols: nat, i: nat, j: nat)
    requires Shape(h, rows, cols) && i + 1 < rows && j < cols
    ensures var c := FallAt(h, rows, cols, (i, j))[i][j];
      c == h[i][j] || c == h[i][j].(stable := true) || c.kind == Empty
  {
  }

  /** What square (i, j) may hold after the step at the square above it. */
  lemma FallAtAbove(h: Grid, rows: nat, cols: nat, i: nat, j: nat)
    requires Shape(h, rows, cols) && 0 < i < rows && j < cols
    ensures var c := FallAt(h, rows, cols, (i - 1, j))[i][j];
      c == h[i][j] || (Falling(h[i - 1][j]) && c == h[i - 1][j])
  {
  }

  /** A block on the swept board stood on that square, possibly now at rest, or directly above it. */
  predicate FromHereOrAbove(g: Grid, i: nat, j: nat, c: Cell)
    requires i < |g| && j < |g[i]| && (i > 0 ==> j < |g[i - 1]|)
  {
    c == g[i][j] || c == g[i][j].(stable := true) || (i > 0 && c == g[i - 1][j])
  }

  /** Square (i, j) of a row the sweep visits, below the top row. */
  lemma SweepInterior(g: Grid, rows: nat, cols: nat, i: nat, j: nat)
    requires Shape(g, rows, cols) && 0 < i && i + 1 < rows && j < cols
    ensures var c := Sweep(g, rows, cols)[i][j]; c.kind == Empty || FromHereOrAbove(g, i, j, c)
  {
    var front, back := SplitSweep(rows, cols, i, j);
    RunAround(g, rows, cols, front, (i, j), back);
    RunFrame(g, rows, cols, front, i, j);
    RunFrame(g, rows, cols, front, i - 1, j);
    var h1 := FallAt(Run(g, rows, cols, front), rows, cols, (i, j));
    FallAtHere(Run(g, rows, cols, front), rows, cols, i, j);
    assert h1[i - 1][j] == g[i - 1][j];
    assert (i - 1, j) in back by {
      BandOrder(rows - 1, 0, cols);
      assert (i - 1, j) in Band(rows - 1, 0, cols);
    }
    var mid, rest := SplitSorted(back, (i - 1, j));
    RunAround(h1, rows, cols, mid, (i - 1, j), rest);
    assert forall q :: q in mid ==> q in back;
    RunFrame(h1, rows, cols, mid, i, j);
    RunFrame(h1, rows, cols, mid, i - 1, j);
    var h3 := FallAt(Run(h1, rows, cols, mid), rows, cols, (i - 1, j));
    FallAtAbove(Run(h1, rows, cols, mid), rows, cols, i, j);
    RunFrame(h3, rows, cols, rest, i, j);
  }

  /** Square (0, j) of the top row, when the sweep visits it. */
  lemma SweepTop(g: Grid, rows: nat, cols: nat, j: nat)
    requires Shape(g, rows, cols) && 1 < rows && j < cols
    ensures var c := Sweep(g, rows, cols)[0][j]; c.kind == Empty || FromHereOrAbove(g, 0, j, c)
  {
    var front, back := SplitSweep(rows, cols, 0, j);
    RunAround(g, rows, cols, front, (0, j), back);
    RunFrame(g, rows, cols, front, 0, j);
    var h1 := FallAt(Run(g, rows, cols, front), rows, cols, (0, j));
    FallAtHere(Run(g, rows, cols, front), rows, cols, 0, j);
    RunFrame(h1, rows, cols, back, 0, j);
  }

  /**
   * Square (rows - 1, j) of the bottom row, which the sweep never visits: it keeps its old cell,
   * never brought to rest, unless the falling block from directly above drops into it.
   */
  lemma SweepBottom(g: Grid, rows: nat, cols: nat, j: nat)
    requires Shape(g, rows, cols) && 1 < rows && j < cols
    ensures var c := Sweep(g, rows, cols)[rows - 1][j];
      c == g[rows - 1][j] || (Falling(g[rows - 2][j]) && c == g[rows - 2][j])
  {
    var i := rows - 1;
    var front, back := SplitSweep(rows, cols, i - 1, j);
    RunAround(g, rows, cols, front, (i - 1, j), back);
    RunFrame(g, rows, cols, front, i, j);
    RunFrame(g, rows, cols, front, i - 1, j);
    var h1 := FallAt(Run(g, rows, cols, front), rows, cols, (i - 1, j));
    FallAtAbove(Run(g, rows, cols, front), rows, cols, i, j);
    RunFrame(h1, rows, cols, back, i, j);
  }

  /**
   * No block moves more than one row: a block on the swept board is the block that stood on that
   * square (perhaps now at rest) or the falling block from directly above it.
   */
  lemma SweepDropsAtMostOneRow(g: Grid, rows: nat, cols: nat, i: nat, j: nat)
    requires rows >= 1 && Shape(g, rows, cols) && i < rows && j < cols
    requires IsBlock(Sweep(g, rows, cols)[i][j].kind)
    ensures var c := Sweep(g, rows, cols)[i][j];
      c == g[i][j] || c == g[i][j].(stable := true) || (i > 0 && c == g[i - 1][j])
  {
    if rows == 1 {
      assert Band(rows - 1, 0, cols) == [];
    } else if i + 1 == rows {
      SweepBottom(g, rows, cols, j);
    } else if i == 0 {
      SweepTop(g, rows, cols, j);
    } else {
      SweepInterior(g, rows, cols, i, j);
    }
  }

  // ---------------------------------------------------------------------------------------------
  // The loop

  /** Extending the sweep order by one square of the current row adds one step to the fold. */
  lemma RunStep(g: Grid, rows: nat, cols: nat, done: seq<Pos>, i: nat, j: nat)
    requires Shape(g, rows, cols) && i + 1 < rows && j < cols
    requires ValidOrder(done + RowOrder(i, cols)[..j], rows, cols)
    ensures ValidOrder(done + RowOrder(i, cols)[..j + 1], rows, cols)
    ensures Run(g, rows, cols, done + RowOrder(i, cols)[..j + 1]) ==
      FallAt(Run(g, rows, cols, done + RowOrder(i, cols)[..j]), rows, cols, (i, j))
  {
    var s := done + RowOrder(i, cols)[..j + 1];
    assert s == done + RowOrder(i, cols)[..j] + [(i, j)];
    assert s[..|s| - 1] == done + RowOrder(i, cols)[..j];
  }

  /** The sweep order down to row i is the order down to row i + 1 followed by row i. */
  lemma BandRow(rows: nat, cols: nat, i: nat)
    requires i + 1 < rows
    ensures ValidOrder(Band(rows - 1, i + 1, cols) + RowOrder(i, cols)[..0], rows, cols)
    ensures Band(rows - 1, i + 1, cols) + RowOrder(i, cols)[..0] == Band(rows - 1, i + 1, cols)
    ensures Band(rows - 1, i, cols) == Band(rows - 1, i + 1, cols) + RowOrder(i, cols)[..cols]
  {
    assert Band(rows - 1, i + 1, cols) + RowOrder(i, cols)[..0] == Band(rows - 1, i + 1, cols);
    assert RowOrder(i, cols)[..cols] == RowOrder(i, cols);
  }

  /** The body of the sweep's inner loop at (i, j), with the source's always-true guard `i < rows - 1`. */
  method FallStep(g: Grid, rows: nat, cols: nat, i: nat, j: nat) returns (r: Grid)
    requires Shape(g, rows, cols) && i + 1 < rows && j < cols
    ensures r == FallAt(g, rows, cols, (i, j))
  {
    r := g;
    var cell := r[i][j];
    if IsBlock(cell.kind) && !cell.stable {
      if i < rows - 1 && r[i + 1][j].kind == Empty {
        r := r[i + 1 := r[i + 1][j := cell.(stable := false)]];
        r := r[i := r[i][j := r[i][j].(kind := Empty, stable := false)]];
      } else {
        r := r[i := r[i][j := cell.(stable := true)]];
      }
    }
  }

  /** The sweep's nested loops over one board: rows `rows - 2` down to 0, each left to right. */
  method FallPass(g: Grid, rows: nat, cols: nat) returns (r: Grid)
    requires rows >= 1 && Shape(g, rows, cols)
    ensures r == Sweep(g, rows, cols)
  {
    r := g;
    var i: int := rows - 2;
    while i >= 0
      invariant -1 <= i <= rows - 2
      invariant r == Run(g, rows, cols, Band(rows - 1, i + 1, cols))
    {
      ghost var done := Band(rows - 1, i + 1, cols);
      BandRow(rows, cols, i);
      for j := 0 to cols
        invariant ValidOrder(done + RowOrder(i, cols)[..j], rows, cols)
        invariant r == Run(g, rows, cols, done + RowOrder(i, cols)[..j])
      {
        RunStep(g, rows, cols, done, i, j);
        r := FallStep(r, rows, cols, i, j);
      }
      i := i - 1;
    }
  }
}
