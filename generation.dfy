/**
 * One generation of the simulation (`nextGeneration`): five phases applied to a copy of the board.
 * Each phase is a function on boards; the loop that computes it is a method proved equal to it.
 * Every `Math.random()` comparison is an entry of an `Oracle`, so each property holds for every outcome.
 */
module Generation {
  import opened Cells
  import opened Grids
  import opened Fall

  /**
   * The outcomes of the random draws of one generation: a gate per optional phase and a coin per
   * square that a gated phase visits.
   */
  datatype Oracle = Oracle(
    greenPass: bool,          // top-row green spawn is attempted
    greenAt: nat -> bool,     // column j spawns a green square
    spawnPass: bool,          // top-row block spawn is attempted
    spawnAt: nat -> bool,     // column j spawns a block
    blueAt: nat -> bool,      // that block is blue rather than red
    recolourPass: bool,       // the recolour scan is attempted
    flipAt: (nat, nat) -> bool) // a stable block at (i, j) flips colour

  /** No spawn and no recolour: only the floor rule and the fall sweep act. */
  predicate Silent(o: Oracle) {
    !o.greenPass && !o.spawnPass && !o.recolourPass
  }

  // ---------------------------------------------------------------------------------------------
  // Phase 1: green spawn on the top row

  function GreenSpawnCell(c: Cell, coin: bool): (r: Cell) {
    if coin && c.kind == Empty then c.(kind := Green, stable := true) else c
  }

  function SpawnGreen(g: Grid, rows: nat, cols: nat, o: Oracle): (r: Grid)
    requires rows >= 1 && Shape(g, rows, cols)
    ensures Shape(r, rows, cols)
  {
    if o.greenPass then
      g[0 := seq(cols, j requires 0 <= j < cols => GreenSpawnCell(g[0][j], o.greenAt(j)))]
    else g
  }

  // ---------------------------------------------------------------------------------------------
  // Phase 2: the floor stays green wherever the previous board had green

  function FloorCell(previous: Cell, c: Cell): (r: Cell) {
    if previous.kind == Green then c.(kind := Green, stable := true) else c
  }

  function EnforceFloor(previous: Grid, g: Grid, rows: nat, cols: nat): (r: Grid)
    requires rows >= 1 && Shape(previous, rows, cols) && Shape(g, rows, cols)
    ensures Shape(r, rows, cols)
  {
    g[rows - 1 := seq(cols, j requires 0 <= j < cols => FloorCell(previous[rows - 1][j], g[rows - 1][j]))]
  }

  // ---------------------------------------------------------------------------------------------
  // Phase 4: block spawn on the top row

  function SpawnCell(c: Cell, coin: bool, blue: bool): (r: Cell) {
    if coin && c.kind == Empty then c.(kind := if blue then Blue else Red, stable := false) else c
  }

  function SpawnBlocks(g: Grid, rows: nat, cols: nat, o: Oracle): (r: Grid)
    requires rows >= 1 && Shape(g, rows, cols)
    ensures Shape(r, rows, cols)
  {
    if o.spawnPass then
      g[0 := seq(cols, j requires 0 <= j < cols => SpawnCell(g[0][j], o.spawnAt(j), o.blueAt(j)))]
    else g
  }

  // ---------------------------------------------------------------------------------------------
  // Phase 5: stable blocks change colour

  function RecolourCell(c: Cell, coin: bool): (r: Cell) {
    if c.kind == Blue && c.stable && coin then c.(kind := Red)
    else if c.kind == Red && c.stable && coin then c.(kind := Blue)
    else c
  }

  function Recolour(g: Grid, rows: nat, cols: nat, o: Oracle): (r: Grid)
    requires Shape(g, rows, cols)
    ensures Shape(r, rows, cols)
  {
    if o.recolourPass then
      seq(rows, i requires 0 <= i < rows =>
        seq(cols, j requires 0 <= j < cols => RecolourCell(g[i][j], o.flipAt(i, j))))
    else g
  }

  // ---------------------------------------------------------------------------------------------
  // The generation

  /** The board after one generation: the five phases in the order of `nextGeneration`. */
  function Next(g: Grid, rows: nat, cols: nat, o: Oracle): (r: Grid)
    requires rows >= 1 && Shape(g, rows, cols)
    ensures Shape(r, rows, cols)
  {
    var spawned := SpawnGreen(g, rows, cols, o);
    var floored := EnforceFloor(g, spawned, rows, cols);
    var swept := Sweep(floored, rows, cols);
    var seeded := SpawnBlocks(swept, rows, cols, o);
    Recolour(seeded, rows, cols, o)
  }
  // ---------------------------------------------------------------------------------------------
  // What each phase may change

  /** Green spawn turns exactly the empty top-row squares whose gate and coin are set into stable green ones. */
  lemma SpawnGreenEffect(g: Grid, rows: nat, cols: nat, o: Oracle)
    requires rows >= 1 && Shape(g, rows, cols)
    ensures var r := SpawnGreen(g, rows, cols, o);
      forall i, j :: 0 <= i < rows && 0 <= j < cols ==>
        r[i][j] == if i == 0 && o.greenPass && o.greenAt(j) && g[i][j].kind == Empty
                   then g[i][j].(kind := Green, stable := true) else g[i][j]
  {
  }

  /** The floor rule only touches the bottom row, and there only under a previously green square. */
  lemma EnforceFloorEffect(previous: Grid, g: Grid, rows: nat, cols: nat)
    requires rows >= 1 && Shape(previous, rows, cols) && Shape(g, rows, cols)
    ensures var r := EnforceFloor(previous, g, rows, cols);
      forall i, j :: 0 <= i < rows && 0 <= j < cols ==>
        r[i][j] == if i == rows - 1 && previous[i][j].kind == Green then g[i][j].(kind := Green, stable := true) else g[i][j]
  {
  }

  /** Block spawn turns exactly the empty top-row squares whose gate and coin are set into falling blocks of the coin's colour. */
  lemma SpawnBlocksEffect(g: Grid, rows: nat, cols: nat, o: Oracle)
    requires rows >= 1 && Shape(g, rows, cols)
    ensures var r := SpawnBlocks(g, rows, cols, o);
      forall i, j :: 0 <= i < rows && 0 <= j < cols ==>
        r[i][j] == if i == 0 && o.spawnPass && o.spawnAt(j) && g[i][j].kind == Empty
                   then g[i][j].(kind := if o.blueAt(j) then Blue else Red, stable := false) else g[i][j]
  {
  }

  /** Recolouring flips exactly the stable blocks whose gate and coin are set, blue to red and red to blue. */
  lemma RecolourEffect(g: Grid, rows: nat, cols: nat, o: Oracle)
    requires Shape(g, rows, cols)
    ensures var r := Recolour(g, rows, cols, o);
      forall i, j :: 0 <= i < rows && 0 <= j < cols ==>
        r[i][j] == if o.recolourPass && o.flipAt(i, j) && g[i][j].stable && IsBlock(g[i][j].kind)
                   then g[i][j].(kind := if g[i][j].kind == Blue then Red else Blue) else g[i][j]
  {
    var r: Grid := Recolour(g, rows, cols, o);
    forall i, j | 0 <= i < rows && 0 <= j < cols
      ensures r[i][j] == if o.recolourPass && o.flipAt(i, j) && g[i][j].stable && IsBlock(g[i][j].kind)
                         then g[i][j].(kind := if g[i][j].kind == Blue then Red else Blue) else g[i][j]
    {
      if o.recolourPass {
        assert r[i][j] == RecolourCell(g[i][j], o.flipAt(i, j));
      }
    }
  }

  // ---------------------------------------------------------------------------------------------
  // Block counts, phase by phase

  lemma SpawnGreenKeepsCount(g: Grid, rows: nat, cols: nat, o: Oracle)
    requires rows >= 1 && Shape(g, rows, cols)
    ensures CountBlocks(SpawnGreen(g, rows, cols, o)) == CountBlocks(g)
  {
    var r := SpawnGreen(g, rows, cols, o);
    SpawnGreenEffect(g, rows, cols, o);
    CountBlocksMono(g, r, rows, cols);
    CountBlocksMono(r, g, rows, cols);
  }

  /** The floor rule keeps the count when every previously green floor square is still green. */
  lemma EnforceFloorKeepsCount(previous: Grid, g: Grid, rows: nat, cols: nat)
    requires rows >= 1 && Shape(previous, rows, cols) && Shape(g, rows, cols)
    requires forall i, j :: i == rows - 1 && 0 <= j < cols && previous[i][j].kind == Green ==> g[i][j].kind == Green
    ensures CountBlocks(EnforceFloor(previous, g, rows, cols)) == CountBlocks(g)
  {
    var r := EnforceFloor(previous, g, rows, cols);
    EnforceFloorEffect(previous, g, rows, cols);
    CountBlocksMono(g, r, rows, cols);
    CountBlocksMono(r, g, rows, cols);
  }

  lemma SpawnBlocksAddsCount(g: Grid, rows: nat, cols: nat, o: Oracle)
    requires rows >= 1 && Shape(g, rows, cols)
    ensures CountBlocks(SpawnBlocks(g, rows, cols, o)) >= CountBlocks(g)
  {
    SpawnBlocksEffect(g, rows, cols, o);
    CountBlocksMono(g, SpawnBlocks(g, rows, cols, o), rows, cols);
  }

  lemma RecolourKeepsCount(g: Grid, rows: nat, cols: nat, o: Oracle)
    requires Shape(g, rows, cols)
    ensures CountBlocks(Recolour(g, rows, cols, o)) == CountBlocks(g)
  {
    var r := Recolour(g, rows, cols, o);
    RecolourEffect(g, rows, cols, o);
    CountBlocksMono(g, r, rows, cols);
    CountBlocksMono(r, g, rows, cols);
  }

  // ---------------------------------------------------------------------------------------------
  // What a generation keeps

  /** Every square that was green before a generation is green after it. */
  lemma NextKeepsGreen(g: Grid, rows: nat, cols: nat, o: Oracle, i: nat, j: nat)
    requires rows >= 1 && Shape(g, rows, cols) && i < rows && j < cols
    requires g[i][j].kind == Green
    ensures Next(g, rows, cols, o)[i][j].kind == Green
  {
    var spawned := SpawnGreen(g, rows, cols, o);
    var floored := EnforceFloor(g, spawned, rows, cols);
    var swept := Sweep(floored, rows, cols);
    var seeded := SpawnBlocks(swept, rows, cols, o);
    SpawnGreenEffect(g, rows, cols, o);
    EnforceFloorEffect(g, spawned, rows, cols);
    assert floored[i][j].kind == Green;
    SweepKeepsAnchored(floored, rows, cols);
    assert swept[i][j] == floored[i][j];
    SpawnBlocksEffect(swept, rows, cols, o);
    RecolourEffect(seeded, rows, cols, o);
  }

  /** Under every previously green floor square the new floor square is green and stable. */
  lemma NextFloorGreen(g: Grid, rows: nat, cols: nat, o: Oracle, j: nat)
    requires rows >= 1 && Shape(g, rows, cols) && j < cols
    requires g[rows - 1][j].kind == Green
    ensures Next(g, rows, cols, o)[rows - 1][j].kind == Green
    ensures Next(g, rows, cols, o)[rows - 1][j].stable
  {
    var i := rows - 1;
    var spawned := SpawnGreen(g, rows, cols, o);
    var floored := EnforceFloor(g, spawned, rows, cols);
    var swept := Sweep(floored, rows, cols);
    var seeded := SpawnBlocks(swept, rows, cols, o);
    EnforceFloorEffect(g, spawned, rows, cols);
    assert floored[i][j].kind == Green && floored[i][j].stable;
    SweepKeepsAnchored(floored, rows, cols);
    SpawnBlocksEffect(swept, rows, cols, o);
    RecolourEffect(seeded, rows, cols, o);
  }

  /** If every green square is stable before a generation, the same holds after it. */
  lemma NextKeepsGreenStable(g: Grid, rows: nat, cols: nat, o: Oracle)
    requires rows >= 1 && Shape(g, rows, cols) && GreenStable(g)
    ensures GreenStable(Next(g, rows, cols, o))
  {
    var spawned := SpawnGreen(g, rows, cols, o);
    var floored := EnforceFloor(g, spawned, rows, cols);
    var swept := Sweep(floored, rows, cols);
    var seeded := SpawnBlocks(swept, rows, cols, o);
    SpawnGreenEffect(g, rows, cols, o);
    EnforceFloorEffect(g, spawned, rows, cols);
    assert GreenStable(floored);
    SweepGreenUnchanged(floored, rows, cols);
    assert GreenStable(swept);
    SpawnBlocksEffect(swept, rows, cols, o);
    assert GreenStable(seeded);
    RecolourEffect(seeded, rows, cols, o);
  }

  /** A generation never removes a blue or red block; without spawning it keeps their number. */
  lemma NextNeverLosesBlocks(g: Grid, rows: nat, cols: nat, o: Oracle)
    requires rows >= 1 && Shape(g, rows, cols)
    ensures CountBlocks(Next(g, rows, cols, o)) >= CountBlocks(g)
    ensures !o.spawnPass ==> CountBlocks(Next(g, rows, cols, o)) == CountBlocks(g)
  {
    var spawned := SpawnGreen(g, rows, cols, o);
    var floored := EnforceFloor(g, spawned, rows, cols);
    var swept := Sweep(floored, rows, cols);
    var seeded := SpawnBlocks(swept, rows, cols, o);
    SpawnGreenKeepsCount(g, rows, cols, o);
    SpawnGreenEffect(g, rows, cols, o);
    EnforceFloorKeepsCount(g, spawned, rows, cols);
    SweepKeepsCount(floored, rows, cols);
    SpawnBlocksAddsCount(swept, rows, cols, o);
    RecolourKeepsCount(seeded, rows, cols, o);
  }

  // ---------------------------------------------------------------------------------------------
  // A generation with spawning and recolouring switched off

  /** With every gate closed, a generation is the floor rule followed by the sweep. */
  lemma SilentNext(g: Grid, rows: nat, cols: nat, o: Oracle)
    requires rows >= 1 && Shape(g, rows, cols) && Silent(o)
    ensures Next(g, rows, cols, o) == Sweep(EnforceFloor(g, g, rows, cols), rows, cols)
  {
  }

  /** With the gates closed, a falling block over an empty square always moves down one row. */
  lemma SilentFalls(g: Grid, rows: nat, cols: nat, o: Oracle, i: nat, j: nat)
    requires Silent(o) && Shape(g, rows, cols) && i + 1 < rows && j < cols
    requires Falling(g[i][j]) && g[i + 1][j].kind == Empty
    ensures Next(g, rows, cols, o)[i + 1][j] == g[i][j]
  {
    SilentNext(g, rows, cols, o);
    var floored := EnforceFloor(g, g, rows, cols);
    EnforceFloorEffect(g, g, rows, cols);
    SweepFalls(floored, rows, cols, i, j);
  }

  /**
   * With the gates closed, a falling block over an occupied square that is at rest, or on the
   * bottom row, comes to rest where it is.
   */
  lemma SilentStabilises(g: Grid, rows: nat, cols: nat, o: Oracle, i: nat, j: nat)
    requires Silent(o) && Shape(g, rows, cols) && i + 1 < rows && j < cols
    requires Falling(g[i][j]) && g[i + 1][j].kind != Empty
    requires !Falling(g[i + 1][j]) || i + 1 == rows - 1
    ensures Next(g, rows, cols, o)[i][j] == g[i][j].(stable := true)
  {
    SilentNext(g, rows, cols, o);
    var floored := EnforceFloor(g, g, rows, cols);
    EnforceFloorEffect(g, g, rows, cols);
    SweepStabilises(floored, rows, cols, i, j);
  }

  /** Whatever the draws, a falling block on the bottom row is left exactly as it was, still falling. */
  lemma NextBottomNeverSettles(g: Grid, rows: nat, cols: nat, o: Oracle, j: nat)
    requires rows >= 1 && Shape(g, rows, cols) && j < cols
    requires Falling(g[rows - 1][j])
    ensures Next(g, rows, cols, o)[rows - 1][j] == g[rows - 1][j]
    ensures Falling(Next(g, rows, cols, o)[rows - 1][j])
  {
    var spawned := SpawnGreen(g, rows, cols, o);
    var floored := EnforceFloor(g, spawned, rows, cols);
    var swept := Sweep(floored, rows, cols);
    var seeded := SpawnBlocks(swept, rows, cols, o);
    SpawnGreenEffect(g, rows, cols, o);
    EnforceFloorEffect(g, spawned, rows, cols);
    assert floored[rows - 1][j] == g[rows - 1][j];
    SweepKeepsAnchored(floored, rows, cols);
    assert swept[rows - 1][j] == g[rows - 1][j];
    SpawnBlocksEffect(swept, rows, cols, o);
    RecolourEffect(seeded, rows, cols, o);
  }

  /** With the gates closed, a falling block on the bottom row stays there, still falling. */
  lemma SilentBottomNeverSettles(g: Grid, rows: nat, cols: nat, o: Oracle, j: nat)
    requires Silent(o) && rows >= 1 && Shape(g, rows, cols) && j < cols
    requires Falling(g[rows - 1][j])
    ensures Next(g, rows, cols, o)[rows - 1][j] == g[rows - 1][j]
    ensures Falling(Next(g, rows, cols, o)[rows - 1][j])
  {
    SilentNext(g, rows, cols, o);
    var floored := EnforceFloor(g, g, rows, cols);
    EnforceFloorEffect(g, g, rows, cols);
    SweepKeepsAnchored(floored, rows, cols);
  }

  // ---------------------------------------------------------------------------------------------
  // The loops of `nextGeneration`, one method per phase

  /** Phase 1: one gate, then one coin per top-row column. */
  method SpawnGreenPass(g: Grid, rows: nat, cols: nat, o: Oracle) returns (r: Grid)
    requires rows >= 1 && Shape(g, rows, cols)
    ensures r == SpawnGreen(g, rows, cols, o)
  {
    r := g;
    if o.greenPass {
      for j := 0 to cols
        invariant |r| == rows && |r[0]| == cols
        invariant forall k :: 1 <= k < rows ==> r[k] == g[k]
        invariant forall k :: 0 <= k < cols ==>
          r[0][k] == if k < j then GreenSpawnCell(g[0][k], o.greenAt(k)) else g[0][k]
      {
        if o.greenAt(j) && r[0][j].kind == Empty {
          r := r[0 := r[0][j := r[0][j].(kind := Green, stable := true)]];
        }
      }
      assert r[0] == SpawnGreen(g, rows, cols, o)[0];
    }
  }

  /** Phase 2: reads the previous board's floor and writes the new board's. */
  method FloorPass(previous: Grid, g: Grid, rows: nat, cols: nat) returns (r: Grid)
    requires rows >= 1 && Shape(previous, rows, cols) && Shape(g, rows, cols)
    ensures r == EnforceFloor(previous, g, rows, cols)
  {
    r := g;
    var b := rows - 1;
    for j := 0 to cols
      invariant |r| == rows && |r[b]| == cols
      invariant forall k :: 0 <= k < rows && k != b ==> r[k] == g[k]
      invariant forall k :: 0 <= k < cols ==>
        r[b][k] == if k < j then FloorCell(previous[b][k], g[b][k]) else g[b][k]
    {
      if previous[b][j].kind == Green {
        r := r[b := r[b][j := r[b][j].(kind := Green, stable := true)]];
      }
    }
    assert r[b] == EnforceFloor(previous, g, rows, cols)[b];
  }

  /** Phase 4: one gate, then per top-row column a spawn coin and, on a spawn, a colour coin. */
  method SpawnPass(g: Grid, rows: nat, cols: nat, o: Oracle) returns (r: Grid)
    requires rows >= 1 && Shape(g, rows, cols)
    ensures r == SpawnBlocks(g, rows, cols, o)
  {
    r := g;
    if o.spawnPass {
      for j := 0 to cols
        invariant |r| == rows && |r[0]| == cols
        invariant forall k :: 1 <= k < rows ==> r[k] == g[k]
        invariant forall k :: 0 <= k < cols ==>
          r[0][k] == if k < j then SpawnCell(g[0][k], o.spawnAt(k), o.blueAt(k)) else g[0][k]
      {
        if o.spawnAt(j) && r[0][j].kind == Empty {
          r := r[0 := r[0][j := r[0][j].(kind := if o.blueAt(j) then Blue else Red, stable := false)]];
        }
      }
      assert r[0] == SpawnBlocks(g, rows, cols, o)[0];
    }
  }

  /** Phase 5: one gate, then a scan of the whole board. */
  method RecolourPass(g: Grid, rows: nat, cols: nat, o: Oracle) returns (r: Grid)
    requires Shape(g, rows, cols)
    ensures r == Recolour(g, rows, cols, o)
  {
    r := g;
    if o.recolourPass {
      for i := 0 to rows
        invariant Shape(r, rows, cols)
        invariant forall k :: 0 <= k < i ==> r[k] == Recolour(g, rows, cols, o)[k]
        invariant forall k :: i <= k < rows ==> r[k] == g[k]
      {
        for j := 0 to cols
          invariant Shape(r, rows, cols)
          invariant forall k :: 0 <= k < i ==> r[k] == Recolour(g, rows, cols, o)[k]
          invariant forall k :: i < k < rows ==> r[k] == g[k]
          invariant forall l :: 0 <= l < cols ==>
            r[i][l] == if l < j then RecolourCell(g[i][l], o.flipAt(i, l)) else g[i][l]
        {
          if r[i][j].kind == Blue && r[i][j].stable && o.flipAt(i, j) {
            r := r[i := r[i][j := r[i][j].(kind := Red)]];
          } else if r[i][j].kind == Red && r[i][j].stable && o.flipAt(i, j) {
            r := r[i := r[i][j := r[i][j].(kind := Blue)]];
          }
        }
        assert r[i] == Recolour(g, rows, cols, o)[i];
      }
    }
  }
}
