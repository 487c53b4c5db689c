/** Positions, the uniform grid used to bucket mobs, the flat radius test,
    block centres and dimension tokens. Positions are real numbers; the
    floor division `int(v // cell)` of the source is `Floor(v / cell)`. */
module Geometry {
  import opened Text

  datatype Pos = Pos(x: real, y: real, z: real)

  /** A grid cell: the entity's dimension and its three cell coordinates. */
  datatype CellKey = CellKey(dim: string, cx: int, cy: int, cz: int)

  /** The block an entity stands in: `int(v // 1)` on each axis. */
  datatype Block = Block(x: int, y: int, z: int)

  function Floor(v: real): int {
    v.Floor
  }

  /** The non-positive cell size falls back to 4 blocks. */
  function EffectiveCell(cell: real): (c: real)
    ensures c > 0.0
    ensures cell > 0.0 ==> c == cell
  {
    if cell <= 0.0 then 4.0 else cell
  }

  /** `_cell_key_of` / `_cell_key_xyz`: the cell of a position in the
      dimension named `dim`. The dimension is keyed by its token, so an
      entity recorded under the dimension's own name and one summoned under
      its command token share their cells. */
  function CellKeyOf(dim: string, p: Pos, cell: real): CellKey {
    var c := EffectiveCell(cell);
    CellKey(DimToken(dim), Floor(p.x / c), Floor(p.y / c), Floor(p.z / c))
  }

  /** Offset -1, 0 or 1 of the i-th neighbour along one axis. */
  function Digit3(i: int, scale: int): int
    requires scale == 1 || scale == 3 || scale == 9
  {
    (i / scale) % 3 - 1
  }

  /** `_neighbor_cells`: the 27 cells around a cell, x offset outermost and
      z offset innermost, each offset running -1, 0, 1. */
  function NeighborCells(k: CellKey): (r: seq<CellKey>)
    ensures |r| == 27
    ensures forall i :: 0 <= i < 27 ==>
      r[i] == CellKey(k.dim, k.cx + Digit3(i, 9), k.cy + Digit3(i, 3), k.cz + Digit3(i, 1))
  {
    seq(27, i requires 0 <= i < 27 =>
      CellKey(k.dim, k.cx + Digit3(i, 9), k.cy + Digit3(i, 3), k.cz + Digit3(i, 1)))
  }

  predicate Adjacent(k: CellKey, c: CellKey) {
    c.dim == k.dim && -1 <= c.cx - k.cx <= 1 && -1 <= c.cy - k.cy <= 1 && -1 <= c.cz - k.cz <= 1
  }

  /** The neighbour list holds exactly the cells at offset at most one on
      every axis, the cell itself included. */
  lemma {:induction false} NeighborCellsExact(k: CellKey, c: CellKey)
    ensures c in NeighborCells(k) <==> Adjacent(k, c)
  {
    var r := NeighborCells(k);
    if Adjacent(k, c) {
      var i := (c.cx - k.cx + 1) * 9 + (c.cy - k.cy + 1) * 3 + (c.cz - k.cz + 1);
      assert Digit3(i, 9) == c.cx - k.cx;
      assert Digit3(i, 3) == c.cy - k.cy;
      assert Digit3(i, 1) == c.cz - k.cz;
      assert r[i] == c;
    }
    if c in r {
      var i :| 0 <= i < 27 && r[i] == c;
      assert -1 <= Digit3(i, 9) <= 1 && -1 <= Digit3(i, 3) <= 1 && -1 <= Digit3(i, 1) <= 1;
    }
  }

  function Abs(v: real): real {
    if v < 0.0 then -v else v
  }

  /** Squared horizontal distance. */
  function FlatD2(a: Pos, b: Pos): real {
    (a.x - b.x) * (a.x - b.x) + (a.z - b.z) * (a.z - b.z)
  }

  /** Squared distance on all three axes. */
  function D2(a: Pos, b: Pos): real {
    (a.x - b.x) * (a.x - b.x) + (a.y - b.y) * (a.y - b.y) + (a.z - b.z) * (a.z - b.z)
  }

  /** The vertical tolerance of the flat radius test. */
  const YTolerance: real := 1.25

  /** `_within_radius_flat`: at most 1.25 apart vertically and within the
      radius horizontally. */
  predicate WithinRadiusFlat(a: Pos, b: Pos, r2: real) {
    Abs(a.y - b.y) <= YTolerance && FlatD2(a, b) <= r2
  }

  /** Values at most `c` apart fall in the same or adjacent cells. */
  /** A quotient by a positive number is at most one when the dividend is at
      most the divisor. */
  lemma QuotientAtMostOne(n: real, c: real)
    requires c > 0.0 && n <= c
    ensures n / c <= 1.0
  {
    assert (n / c) * c == n;
  }

  /** Values at most `c` apart fall in the same or adjacent cells. */
  lemma {:induction false} FloorCloseValues(a: real, b: real, c: real)
    requires c > 0.0 && Abs(a - b) <= c
    ensures -1 <= Floor(a / c) - Floor(b / c) <= 1
  {
    assert a / c - b / c == (a - b) / c;
    assert b / c - a / c == (b - a) / c;
    QuotientAtMostOne(a - b, c);
    QuotientAtMostOne(b - a, c);
  }

  /** A square at most r*r means a magnitude at most r. */
  lemma SquareBound(d: real, r: real)
    requires r > 0.0 && d * d <= r * r
    ensures Abs(d) <= r
  {
  }

  /** With cells as wide as the radius and the radius at least the vertical
      tolerance, every entity that passes the flat radius test lies in one of
      the 27 cells scanned around the other: the grid loses no neighbour. */
  lemma {:induction false} NeighborCellsCover(dim: string, a: Pos, b: Pos, r: real)
    requires r >= YTolerance
    requires WithinRadiusFlat(a, b, r * r)
    ensures CellKeyOf(dim, b, r) in NeighborCells(CellKeyOf(dim, a, r))
  {
    assert (a.x - b.x) * (a.x - b.x) >= 0.0 && (a.z - b.z) * (a.z - b.z) >= 0.0;
    SquareBound(a.x - b.x, r);
    SquareBound(a.z - b.z, r);
    FloorCloseValues(b.x, a.x, r);
    FloorCloseValues(b.y, a.y, r);
    FloorCloseValues(b.z, a.z, r);
    NeighborCellsExact(CellKeyOf(dim, a, r), CellKeyOf(dim, b, r));
  }

  function BlockOf(p: Pos): Block {
    Block(Floor(p.x), Floor(p.y), Floor(p.z))
  }

  /** `_block_center`: the centre of the block containing the point. */
  function BlockCenter(p: Pos): (c: Pos)
    ensures BlockOf(c) == BlockOf(p)
    ensures Abs(c.x - p.x) <= 0.5 && Abs(c.y - p.y) <= 0.5 && Abs(c.z - p.z) <= 0.5
  {
    Pos(Floor(p.x) as real + 0.5, Floor(p.y) as real + 0.5, Floor(p.z) as real + 0.5)
  }

  /** The centre of a block given by its coordinates (`bx + 0.5` on each
      axis, as the pending drain summons): it lies in that block, so the
      pending key of the centre is the key it came from. */
  function CenterOf(b: Block): (c: Pos)
    ensures BlockOf(c) == b
    ensures forall p :: BlockOf(p) == b ==> c == BlockCenter(p)
  {
    Pos(b.x as real + 0.5, b.y as real + 0.5, b.z as real + 0.5)
  }

  /** Centring twice is centring once. */
  lemma BlockCenterIdempotent(p: Pos)
    ensures BlockCenter(BlockCenter(p)) == BlockCenter(p)
  {
  }

  const Nether: string := "the_nether"
  const End: string := "the_end"
  const Overworld: string := "overworld"

  /** `_dim_token`: the summon dimension for a dimension name. */
  function DimToken(name: string): (t: string)
    ensures t == Nether || t == End || t == Overworld
    ensures t == Nether <==> HasSubstring(Lower(name), "nether") || EndsWith(Lower(name), "1")
  {
    var low := Lower(name);
    if HasSubstring(low, "nether") || EndsWith(low, "1") then Nether
    else if HasSubstring(low, "end") || EndsWith(low, "2") then End
    else Overworld
  }

  lemma NetherToken()
    ensures DimToken(Nether) == Nether
  {
    LowerNoUpper(Nether);
    assert HasSubstring(Nether[4..], "nether");
  }

  lemma EndToken()
    ensures DimToken(End) == End
  {
    LowerNoUpper(End);
    MissingCharNoSubstring(End, "nether", 'r');
    assert HasSubstring(End[4..], "end");
  }

  /** "overworld" contains neither "nether" nor "end". */
  lemma OverworldLacks()
    ensures !HasSubstring(Overworld, "nether") && !HasSubstring(Overworld, "end")
  {
    MissingCharNoSubstring(Overworld, "nether", 't');
    MissingCharNoSubstring(Overworld, "end", 'n');
  }

  lemma OverworldToken()
    ensures DimToken(Overworld) == Overworld
  {
    LowerNoUpper(Overworld);
    assert Lower(Overworld) == Overworld;
    OverworldLacks();
    assert Overworld[|Overworld| - 1] == 'd';
    assert !EndsWith(Overworld, "1") && !EndsWith(Overworld, "2");
  }

  /** Every token names its own dimension. */
  lemma DimTokenIdempotent(name: string)
    ensures DimToken(DimToken(name)) == DimToken(name)
  {
    NetherToken();
    EndToken();
    OverworldToken();
  }
}
