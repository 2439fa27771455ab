/**
 * The static geometry of the butterfly swarm: the per-vertex attribute arrays
 * that the Butterflies constructor fills for a count×count grid of agents, and
 * the wing-rotation policy the vertex shader picks from each vertex's index.
 *
 * Every attribute array is a flat list of per-agent blocks. The agent visited
 * at loop position (x, y) owns block number x·count + y; its block holds six
 * vertices, each with a position (3 numbers), a vertex index (1 number), a
 * texture coordinate (2 numbers) and the agent's grid coordinate (2 numbers).
 * The numbers are 32-bit floats in the source and exact reals here.
 */
module ButterflyGeometry {
  import opened Vectors

  /** The wing template: vertices 0,1,2 form the left wing, 3,4,5 the right one. */
  const BflyVertices: seq<real> := [
    0.0, 0.0, 0.0,  -4.0, 0.0, 1.0,  -3.0, 0.0, -3.0,
    0.0, 0.0, 0.0,   3.0, 0.0, -3.0,  4.0, 0.0, 1.0
  ]

  const BflyUvs: seq<real> := [
    0.0, 0.0,  1.0, 0.0,  0.0, 1.0,
    0.0, 0.0,  0.0, 1.0,  1.0, 0.0
  ]

  /** Number of vertices per agent. */
  const WingVertexCount: nat := 6

  /** The four attribute arrays of the geometry, by their source names. */
  datatype Attribute = Vertices | VertIndices | Uvs | Posn

  /** How many numbers one agent contributes to an attribute array. */
  function BlockSize(a: Attribute): nat {
    match a
    case Vertices => |BflyVertices|
    case VertIndices => WingVertexCount
    case Uvs => |BflyUvs|
    case Posn => |BflyUvs|
  }

  /** The range every number of an attribute array lies in. */
  predicate InRange(a: Attribute, v: real) {
    match a
    case Vertices => -4.0 <= v <= 4.0
    case VertIndices => 0.0 <= v <= 5.0 && v.Floor as real == v
    case Uvs => v == 0.0 || v == 1.0
    case Posn => 0.0 <= v < 1.0
  }

  /** The grid coordinate pair of agent (x, y): slot 2k holds y/count, slot 2k+1 holds x/count. */
  function PosnBlock(count: nat, x: nat, y: nat): seq<real>
    requires x < count && y < count
  {
    seq(|BflyUvs|, idx => if idx % 2 == 1 then x as real / count as real else y as real / count as real)
  }

  /** Vertex j of agent (x, y) gets the coordinate pair (y/count, x/count). */
  lemma {:induction false} PosnPair(count: nat, x: nat, y: nat, j: nat)
    requires x < count && y < count && j < WingVertexCount
    ensures PosnBlock(count, x, y)[2 * j] == y as real / count as real
    ensures PosnBlock(count, x, y)[2 * j + 1] == x as real / count as real
  {
    assert (2 * j) % 2 == 0 && (2 * j + 1) % 2 == 1;
  }

  /** The vertex indices of one agent: 0, 1, ..., 5. */
  function IndexBlock(): seq<real> {
    seq(WingVertexCount, j => j as real)
  }

  /** What agent (x, y) contributes to attribute array a. */
  function Block(a: Attribute, count: nat, x: nat, y: nat): (b: seq<real>)
    requires x < count && y < count
    ensures |b| == BlockSize(a)
  {
    match a
    case Vertices => BflyVertices
    case VertIndices => IndexBlock()
    case Uvs => BflyUvs
    case Posn => PosnBlock(count, x, y)
  }

  /** Every number an agent contributes lies in its attribute's range. */
  lemma {:induction false} BlockInRange(a: Attribute, count: nat, x: nat, y: nat)
    requires x < count && y < count
    ensures forall k :: 0 <= k < BlockSize(a) ==> InRange(a, Block(a, count, x, y)[k])
  {
    if a == Posn {
      assert 0.0 <= x as real / count as real < 1.0;
      assert 0.0 <= y as real / count as real < 1.0;
    }
  }

  /** The blocks of agents (x, 0), ..., (x, cols - 1): one run of the inner loop. */
  function Row(a: Attribute, count: nat, x: nat, cols: nat): seq<real>
    requires x < count && cols <= count
    decreases cols
  {
    if cols == 0 then [] else Row(a, count, x, cols - 1) + Block(a, count, x, cols - 1)
  }

  /** The blocks of the first `rows` runs of the outer loop. */
  function Grid(a: Attribute, count: nat, rows: nat): seq<real>
    requires rows <= count
    decreases rows
  {
    if rows == 0 then [] else Grid(a, count, rows - 1) + Row(a, count, rows - 1, count)
  }

  /** The complete attribute array for a count×count grid. */
  function AttributeArray(a: Attribute, count: nat): seq<real> {
    Grid(a, count, count)
  }

  lemma {:induction false} RowLength(a: Attribute, count: nat, x: nat, cols: nat)
    requires x < count && cols <= count
    ensures |Row(a, count, x, cols)| == cols * BlockSize(a)
  {
    if cols > 0 {
      RowLength(a, count, x, cols - 1);
      MulDistributes(cols - 1, 1, BlockSize(a));
    }
  }

  lemma {:induction false} GridLength(a: Attribute, count: nat, rows: nat)
    requires rows <= count
    ensures |Grid(a, count, rows)| == rows * (count * BlockSize(a))
  {
    if rows > 0 {
      GridLength(a, count, rows - 1);
      RowLength(a, count, rows - 1, count);
      MulDistributes(rows - 1, 1, count * BlockSize(a));
    }
  }

  /** An earlier state of the inner loop is a prefix of a later one. */
  lemma {:induction false} RowPrefix(a: Attribute, count: nat, x: nat, y: nat, cols: nat)
    requires x < count && y <= cols <= count
    ensures |Row(a, count, x, y)| <= |Row(a, count, x, cols)|
    ensures Row(a, count, x, cols)[..|Row(a, count, x, y)|] == Row(a, count, x, y)
  {
    if y < cols {
      RowPrefix(a, count, x, y, cols - 1);
      var r := Row(a, count, x, cols - 1);
      assert Row(a, count, x, cols) == r + Block(a, count, x, cols - 1);
      assert (r + Block(a, count, x, cols - 1))[..|r|] == r;
    }
  }

  /** An earlier state of the outer loop is a prefix of a later one. */
  lemma {:induction false} GridPrefix(a: Attribute, count: nat, x: nat, rows: nat)
    requires x <= rows <= count
    ensures |Grid(a, count, x)| <= |Grid(a, count, rows)|
    ensures Grid(a, count, rows)[..|Grid(a, count, x)|] == Grid(a, count, x)
  {
    if x < rows {
      GridPrefix(a, count, x, rows - 1);
      var g := Grid(a, count, rows - 1);
      assert Grid(a, count, rows) == g + Row(a, count, rows - 1, count);
      assert (g + Row(a, count, rows - 1, count))[..|g|] == g;
    }
  }

  /** Within row x, agent y's block sits right after the y blocks pushed before it. */
  lemma {:induction false} RowBlockAt(a: Attribute, count: nat, x: nat, y: nat, i: nat)
    requires x < count && y < count && i < BlockSize(a)
    ensures var k := |Row(a, count, x, y)| + i;
      k < |Row(a, count, x, count)| && Row(a, count, x, count)[k] == Block(a, count, x, y)[i]
  {
    var r, b, row := Row(a, count, x, y), Block(a, count, x, y), Row(a, count, x, count);
    assert |r + b| <= |row| && row[..|r + b|] == r + b by {
      RowPrefix(a, count, x, y + 1, count);
      assert Row(a, count, x, y + 1) == r + b;
    }
    PrefixConcatAt(row, r, b, i);
  }

  /** Row x sits right after the x rows pushed before it. */
  lemma {:induction false} GridRowAt(a: Attribute, count: nat, x: nat, k: nat)
    requires x < count && k < |Row(a, count, x, count)|
    ensures |Grid(a, count, x)| + k < |AttributeArray(a, count)|
    ensures AttributeArray(a, count)[|Grid(a, count, x)| + k] == Row(a, count, x, count)[k]
  {
    var g, row, all := Grid(a, count, x), Row(a, count, x, count), AttributeArray(a, count);
    assert |g + row| <= |all| && all[..|g + row|] == g + row by {
      GridPrefix(a, count, x + 1, count);
      assert Grid(a, count, x + 1) == g + row;
    }
    PrefixConcatAt(all, g, row, k);
  }

  /**
   * Agent (x, y)'s block sits right after everything the loops pushed before
   * it: the x earlier rows and the y earlier blocks of row x.
   */
  lemma {:induction false} GridBlock(a: Attribute, count: nat, x: nat, y: nat, i: nat)
    requires x < count && y < count && i < BlockSize(a)
    ensures var k := |Grid(a, count, x)| + |Row(a, count, x, y)| + i;
      k < |AttributeArray(a, count)| && AttributeArray(a, count)[k] == Block(a, count, x, y)[i]
  {
    var j := |Row(a, count, x, y)| + i;
    var row := Row(a, count, x, count);
    assert j < |row| && row[j] == Block(a, count, x, y)[i] by {
      RowBlockAt(a, count, x, y, i);
    }
    assert |Grid(a, count, x)| + j < |AttributeArray(a, count)|
      && AttributeArray(a, count)[|Grid(a, count, x)| + j] == row[j] by {
      GridRowAt(a, count, x, j);
    }
  }

  /** If r + b is a prefix of s, then s holds b's elements right after |r|. */
  lemma {:induction false} PrefixConcatAt(s: seq<real>, r: seq<real>, b: seq<real>, i: nat)
    requires |r + b| <= |s| && s[..|r + b|] == r + b && i < |b|
    ensures |r| + i < |s| && s[|r| + i] == b[i]
  {
    assert s[..|r + b|][|r| + i] == s[|r| + i];
  }

  lemma {:induction false} MulMonotone(a: nat, b: nat, c: nat)
    requires a <= b
    ensures a * c <= b * c
  {
  }

  lemma {:induction false} MulDistributes(a: nat, b: nat, n: nat)
    ensures (a + b) * n == a * n + b * n
  {
  }

  lemma {:induction false} MulAssociates(a: nat, b: nat, c: nat)
    ensures (a * b) * c == a * (b * c)
  {
  }

  /** The block of agent (x, y) begins at x whole rows plus y blocks, and ends inside the array. */
  lemma {:induction false} BlockStart(count: nat, n: nat, x: nat, y: nat)
    requires x < count && y < count
    ensures (x * count + y) * n == x * (count * n) + y * n
    ensures (x * count + y + 1) * n <= count * (count * n)
  {
    MulDistributes(x * count, y, n);
    MulAssociates(x, count, n);
    MulDistributes(x * count + y, 1, n);
    MulMonotone(x * count + y + 1, count * count, n) by {
      MulMonotone(x, count - 1, count);
      MulDistributes(count - 1, 1, count);
    }
    MulAssociates(count, count, n);
  }

  /** Agent (x, y) owns block number x·count + y of every attribute array. */
  lemma {:induction false} GridAt(a: Attribute, count: nat, x: nat, y: nat, i: nat)
    requires x < count && y < count && i < BlockSize(a)
    ensures var k := (x * count + y) * BlockSize(a) + i;
      k < |AttributeArray(a, count)| && AttributeArray(a, count)[k] == Block(a, count, x, y)[i]
  {
    GridLength(a, count, x);
    RowLength(a, count, x, y);
    BlockStart(count, BlockSize(a), x, y);
    GridBlock(a, count, x, y, i);
  }

  /** Each attribute array holds count²·BlockSize numbers, and agent (x, y) owns block x·count + y. */
  lemma {:induction false} AgentBlock(a: Attribute, count: nat, x: nat, y: nat)
    requires x < count && y < count
    ensures |AttributeArray(a, count)| == count * (count * BlockSize(a))
    ensures var start := (x * count + y) * BlockSize(a);
      start + BlockSize(a) <= |AttributeArray(a, count)|
      && AttributeArray(a, count)[start..start + BlockSize(a)] == Block(a, count, x, y)
  {
    var n := BlockSize(a);
    GridLength(a, count, count);
    BlockStart(count, n, x, y);
    MulDistributes(x * count + y, 1, n);
    var start := (x * count + y) * n;
    forall i | 0 <= i < n ensures AttributeArray(a, count)[start + i] == Block(a, count, x, y)[i] {
      GridAt(a, count, x, y, i);
    }
    SliceOfIndices(AttributeArray(a, count), start, Block(a, count, x, y));
  }

  /** A run of b's elements starting at `start` is the slice of s there. */
  lemma {:induction false} SliceOfIndices(s: seq<real>, start: nat, b: seq<real>)
    requires start + |b| <= |s|
    requires forall i :: 0 <= i < |b| ==> s[start + i] == b[i]
    ensures s[start..start + |b|] == b
  {
    forall i | 0 <= i < |b| ensures s[start..start + |b|][i] == b[i] {
      assert s[start..start + |b|][i] == s[start + i];
    }
  }

  /** Appending two runs of in-range numbers gives a run of in-range numbers. */
  lemma {:induction false} AppendInRange(a: Attribute, r: seq<real>, b: seq<real>)
    requires forall k :: 0 <= k < |r| ==> InRange(a, r[k])
    requires forall k :: 0 <= k < |b| ==> InRange(a, b[k])
    ensures forall k :: 0 <= k < |r + b| ==> InRange(a, (r + b)[k])
  {
    forall k | 0 <= k < |r + b| ensures InRange(a, (r + b)[k]) {
      if k >= |r| { assert (r + b)[k] == b[k - |r|]; }
    }
  }

  lemma {:induction false} RowInRange(a: Attribute, count: nat, x: nat, cols: nat)
    requires x < count && cols <= count
    ensures forall k :: 0 <= k < |Row(a, count, x, cols)| ==> InRange(a, Row(a, count, x, cols)[k])
  {
    if cols > 0 {
      RowInRange(a, count, x, cols - 1);
      BlockInRange(a, count, x, cols - 1);
      AppendInRange(a, Row(a, count, x, cols - 1), Block(a, count, x, cols - 1));
    }
  }

  lemma {:induction false} GridInRange(a: Attribute, count: nat, rows: nat)
    requires rows <= count
    ensures forall k :: 0 <= k < |Grid(a, count, rows)| ==> InRange(a, Grid(a, count, rows)[k])
  {
    if rows > 0 {
      GridInRange(a, count, rows - 1);
      RowInRange(a, count, rows - 1, count);
      AppendInRange(a, Grid(a, count, rows - 1), Row(a, count, rows - 1, count));
    }
  }

  /**
   * Vertex positions lie in [-4, 4], every vidx is a whole number in 0..5,
   * texture coordinates are 0 or 1, and grid coordinates lie in [0, 1).
   */
  lemma {:induction false} AttributeValuesInRange(a: Attribute, count: nat)
    ensures forall k :: 0 <= k < |AttributeArray(a, count)| ==> InRange(a, AttributeArray(a, count)[k])
  {
    GridInRange(a, count, count);
  }

  /** The number of the first geometry vertex of agent (x, y). */
  function FirstVertex(count: nat, x: nat, y: nat): nat {
    (x * count + y) * WingVertexCount
  }

  /** Geometry vertex FirstVertex + j has vidx j. */
  lemma {:induction false} VertexIndexOf(count: nat, x: nat, y: nat, j: nat)
    requires x < count && y < count && j < WingVertexCount
    ensures var v := FirstVertex(count, x, y) + j;
      v < |AttributeArray(VertIndices, count)| && AttributeArray(VertIndices, count)[v] == j as real
  {
    GridAt(VertIndices, count, x, y, j);
  }

  /** Geometry vertex FirstVertex + j carries the grid coordinate (y/count, x/count). */
  lemma {:induction false} VertexPosnOf(count: nat, x: nat, y: nat, j: nat)
    requires x < count && y < count && j < WingVertexCount
    ensures var v := FirstVertex(count, x, y) + j;
      && 2 * v + 1 < |AttributeArray(Posn, count)|
      && AttributeArray(Posn, count)[2 * v] == y as real / count as real
      && AttributeArray(Posn, count)[2 * v + 1] == x as real / count as real
  {
    var b := x * count + y;
    assert 2 * (FirstVertex(count, x, y) + j) == b * BlockSize(Posn) + 2 * j;
    GridAt(Posn, count, x, y, 2 * j);
    GridAt(Posn, count, x, y, 2 * j + 1);
    PosnPair(count, x, y, j);
  }

  /** Geometry vertex FirstVertex + j carries template texture coordinate j. */
  lemma {:induction false} VertexUvOf(count: nat, x: nat, y: nat, j: nat)
    requires x < count && y < count && j < WingVertexCount
    ensures var v := FirstVertex(count, x, y) + j;
      && 2 * v + 1 < |AttributeArray(Uvs, count)|
      && AttributeArray(Uvs, count)[2 * v] == BflyUvs[2 * j]
      && AttributeArray(Uvs, count)[2 * v + 1] == BflyUvs[2 * j + 1]
  {
    var b := x * count + y;
    assert 2 * (FirstVertex(count, x, y) + j) == b * BlockSize(Uvs) + 2 * j;
    GridAt(Uvs, count, x, y, 2 * j);
    GridAt(Uvs, count, x, y, 2 * j + 1);
  }

  /** Geometry vertex FirstVertex + j sits at template position j. */
  lemma {:induction false} VertexPositionOf(count: nat, x: nat, y: nat, j: nat)
    requires x < count && y < count && j < WingVertexCount
    ensures var v := FirstVertex(count, x, y) + j;
      && 3 * v + 2 < |AttributeArray(Vertices, count)|
      && AttributeArray(Vertices, count)[3 * v] == BflyVertices[3 * j]
      && AttributeArray(Vertices, count)[3 * v + 1] == BflyVertices[3 * j + 1]
      && AttributeArray(Vertices, count)[3 * v + 2] == BflyVertices[3 * j + 2]
  {
    var b := x * count + y;
    assert 3 * (FirstVertex(count, x, y) + j) == b * BlockSize(Vertices) + 3 * j;
    GridAt(Vertices, count, x, y, 3 * j);
    GridAt(Vertices, count, x, y, 3 * j + 1);
    GridAt(Vertices, count, x, y, 3 * j + 2);
  }

  /**
   * One pass of the constructor's inner loop body: push agent (x, y)'s copy of
   * the wing template, its texture coordinates, its grid coordinate pairs and,
   * by a loop over the template's vertices, the vertex indices 0..5.
   */
  method PushAgent(count: nat, x: nat, y: nat,
                   vertices: seq<real>, vertIndices: seq<real>, uvs: seq<real>, positions: seq<real>)
    returns (vertices': seq<real>, vertIndices': seq<real>, uvs': seq<real>, positions': seq<real>)
    requires x < count && y < count
    ensures vertices' == vertices + Block(Vertices, count, x, y)
    ensures vertIndices' == vertIndices + Block(VertIndices, count, x, y)
    ensures uvs' == uvs + Block(Uvs, count, x, y)
    ensures positions' == positions + Block(Posn, count, x, y)
  {
    vertices' := vertices + BflyVertices;
    uvs' := uvs + BflyUvs;
    positions' := positions + seq(|BflyUvs|, idx => if idx % 2 == 1 then x as real / count as real else y as real / count as real);
    vertIndices' := vertIndices;
    var i := 0;
    ghost var pushed := 0;
    while i < |BflyVertices|
      invariant 0 <= i <= |BflyVertices| && i == 3 * pushed
      invariant vertIndices' == vertIndices + seq(pushed, j => j as real)
    {
      vertIndices' := vertIndices' + [(i / 3) as real];
      assert seq(pushed + 1, j => j as real) == seq(pushed, j => j as real) + [pushed as real];
      i, pushed := i + 3, pushed + 1;
    }
    assert seq(pushed, j => j as real) == IndexBlock();
  }

  /** Pushing agent (x, y)'s block after the first y blocks of row x gives the first y + 1. */
  lemma {:induction false} RowStep(count: nat, x: nat, y: nat,
                                   vertices: seq<real>, vertIndices: seq<real>, uvs: seq<real>, positions: seq<real>)
    requires x < count && y < count
    ensures vertices + Row(Vertices, count, x, y) + Block(Vertices, count, x, y) == vertices + Row(Vertices, count, x, y + 1)
    ensures vertIndices + Row(VertIndices, count, x, y) + Block(VertIndices, count, x, y) == vertIndices + Row(VertIndices, count, x, y + 1)
    ensures uvs + Row(Uvs, count, x, y) + Block(Uvs, count, x, y) == uvs + Row(Uvs, count, x, y + 1)
    ensures positions + Row(Posn, count, x, y) + Block(Posn, count, x, y) == positions + Row(Posn, count, x, y + 1)
  {
    AppendAssociates(vertices, Row(Vertices, count, x, y), Block(Vertices, count, x, y));
    AppendAssociates(vertIndices, Row(VertIndices, count, x, y), Block(VertIndices, count, x, y));
    AppendAssociates(uvs, Row(Uvs, count, x, y), Block(Uvs, count, x, y));
    AppendAssociates(positions, Row(Posn, count, x, y), Block(Posn, count, x, y));
  }

  lemma {:induction false} AppendAssociates(a: seq<real>, b: seq<real>, c: seq<real>)
    ensures a + b + c == a + (b + c)
  {
  }

  lemma {:induction false} GridStep(count: nat, x: nat)
    requires x < count
    ensures forall a :: Grid(a, count, x + 1) == Grid(a, count, x) + Row(a, count, x, count)
  {
  }

  /** One run of the constructor's inner loop: push the blocks of agents (x, 0), ..., (x, count - 1). */
  method PushRow(count: nat, x: nat,
                 vertices: seq<real>, vertIndices: seq<real>, uvs: seq<real>, positions: seq<real>)
    returns (vertices': seq<real>, vertIndices': seq<real>, uvs': seq<real>, positions': seq<real>)
    requires x < count
    ensures vertices' == vertices + Row(Vertices, count, x, count)
    ensures vertIndices' == vertIndices + Row(VertIndices, count, x, count)
    ensures uvs' == uvs + Row(Uvs, count, x, count)
    ensures positions' == positions + Row(Posn, count, x, count)
  {
    vertices', vertIndices', uvs', positions' := vertices, vertIndices, uvs, positions;
    var y := 0;
    while y < count
      invariant 0 <= y <= count
      invariant vertices' == vertices + Row(Vertices, count, x, y)
      invariant vertIndices' == vertIndices + Row(VertIndices, count, x, y)
      invariant uvs' == uvs + Row(Uvs, count, x, y)
      invariant positions' == positions + Row(Posn, count, x, y)
    {
      vertices', vertIndices', uvs', positions' := PushAgent(count, x, y, vertices', vertIndices', uvs', positions');
      RowStep(count, x, y, vertices, vertIndices, uvs, positions);
      y := y + 1;
    }
  }

  /**
   * The constructor's nested loops: for every x, then every y, push agent (x, y)'s
   * block onto each of the four attribute arrays.
   */
  method BuildAttributes(count: nat) returns (vertices: seq<real>, vertIndices: seq<real>, uvs: seq<real>, positions: seq<real>)
    ensures vertices == AttributeArray(Vertices, count)
    ensures vertIndices == AttributeArray(VertIndices, count)
    ensures uvs == AttributeArray(Uvs, count)
    ensures positions == AttributeArray(Posn, count)
  {
    vertices, vertIndices, uvs, positions := [], [], [], [];
    var x := 0;
    while x < count
      invariant 0 <= x <= count
      invariant vertices == Grid(Vertices, count, x)
      invariant vertIndices == Grid(VertIndices, count, x)
      invariant uvs == Grid(Uvs, count, x)
      invariant positions == Grid(Posn, count, x)
    {
      vertices, vertIndices, uvs, positions := PushRow(count, x, vertices, vertIndices, uvs, positions);
      GridStep(count, x);
      x := x + 1;
    }
  }

  // ---------------------------------------------------------------------------
  // Wing flapping in the vertex shader

  /** What the vertex shader does to a template vertex before orienting it. */
  datatype WingRotation = Untouched | RotateX(angle: real)

  /** The flap angle: global time plus the agent's first grid coordinate, times 15. */
  function FlapAngle(t: real, posnX: real): real {
    (t + posnX) * 15.0
  }

  /**
   * Agents in neighbouring grid columns (posn.x of y/count and (y+1)/count)
   * flap out of phase by 15/count at every moment.
   */
  lemma NeighbourColumnsOutOfPhase(t: real, y: nat, count: nat)
    requires count > 0
    ensures FlapAngle(t, (y + 1) as real / count as real) - FlapAngle(t, y as real / count as real)
         == 15.0 / count as real
  {
    var c := count as real;
    assert (y + 1) as real / c == y as real / c + 1.0 / c;
  }

  /** The shader's branch on vidx: +flap for 1 and 2, -flap for 4 and 5, nothing otherwise. */
  function WingPolicy(vidx: real, flap: real): (r: WingRotation)
    ensures r == Untouched <==> !(vidx == 1.0 || vidx == 2.0 || vidx == 4.0 || vidx == 5.0)
    ensures r.RotateX? && vidx < 3.0 ==> r.angle == flap
    ensures r.RotateX? && vidx > 3.0 ==> r.angle == -flap
  {
    if vidx == 1.0 || vidx == 2.0 then RotateX(flap)
    else if vidx == 4.0 || vidx == 5.0 then RotateX(-flap)
    else Untouched
  }

  function TemplateVertex(j: nat): Vec3
    requires j < WingVertexCount
  {
    Vec3(BflyVertices[3 * j], BflyVertices[3 * j + 1], BflyVertices[3 * j + 2])
  }

  /**
   * For every vertex of the geometry, the shader rotates vertices 1 and 2 of
   * agent (x, y) by (t + y/count)·15, vertices 4 and 5 by the opposite angle,
   * and leaves vertices 0 and 3 alone.
   */
  lemma {:induction false} WingRotationOfVertex(count: nat, x: nat, y: nat, j: nat, t: real)
    requires x < count && y < count && j < WingVertexCount
    ensures var v := FirstVertex(count, x, y) + j;
      var flap := (t + y as real / count as real) * 15.0;
      v < |AttributeArray(VertIndices, count)| && 2 * v < |AttributeArray(Posn, count)|
      && WingPolicy(AttributeArray(VertIndices, count)[v], FlapAngle(t, AttributeArray(Posn, count)[2 * v]))
         == if j == 1 || j == 2 then RotateX(flap) else if j == 4 || j == 5 then RotateX(-flap) else Untouched
  {
    VertexIndexOf(count, x, y, j);
    VertexPosnOf(count, x, y, j);
  }

  /** The vertices left unrotated are exactly the two at the wing root (the origin). */
  lemma {:induction false} UntouchedAtWingRoot(j: nat, flap: real)
    requires j < WingVertexCount
    ensures WingPolicy(j as real, flap) == Untouched <==> TemplateVertex(j) == Zero
  {
  }

  /**
   * The right wing mirrors the left one across the x = 0 plane (vertex 6 - j
   * mirrors vertex j) and flaps by the opposite angle.
   */
  lemma {:induction false} MirroredWingsFlapOpposite(j: nat, flap: real)
    requires j == 1 || j == 2
    ensures var m := TemplateVertex(6 - j);
      m == TemplateVertex(j).(x := -TemplateVertex(j).x)
      && WingPolicy((6 - j) as real, flap) == RotateX(-WingPolicy(j as real, flap).angle)
  {
  }
}
