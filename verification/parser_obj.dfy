/** The OBJ mesh loader (ParserOBJ.cpp). A file is read line by line:
    comment lines are skipped, `v `, `vn` and `vt` lines add a position, a
    normal or texture coordinates, and every line starting with `f` adds
    three corners, each a 1-based position/uv/normal triple turned 0-based
    by an unsigned 32-bit decrement. The corners are then resolved to
    vertices and de-duplicated through a table keyed by the vertex value.

    Reading numbers out of a line is left abstract: a `Tokenizer` supplies
    what `ParseVector3`, `ParseVector2` and the reads of `ParseIndices`
    produce. */
module ParserObj {
  import Vec2
  import Vec3
  import opened Vertices

  /** Unsigned 32-bit integers, as `uint32_t`. */
  const Limit32: int := 0x1_0000_0000
  type U32 = x: int | 0 <= x < 0x1_0000_0000

  /** `x++` on a `uint32_t`: wraps from 2^32 - 1 to 0. */
  function Inc32(x: U32): (r: U32)
    ensures x < Limit32 - 1 ==> r == x + 1
    ensures x == Limit32 - 1 ==> r == 0
  {
    (x + 1) % Limit32
  }

  /** `x--` on a `uint32_t`: wraps from 0 to 2^32 - 1. */
  function Dec32(x: U32): (r: U32)
    ensures 0 < x ==> r == x - 1
    ensures x == 0 ==> r == Limit32 - 1
  {
    (x - 1) % Limit32
  }

  /** Decrement and increment undo each other. */
  lemma IncDecInverse(x: U32)
    ensures Inc32(Dec32(x)) == x
    ensures Dec32(Inc32(x)) == x
  {
  }

  /** `IndexOBJ`: a corner's position, uv and normal indices. */
  datatype IndexObj = IndexObj(p: U32, t: U32, n: U32)

  /** The 0-based corner of a 1-based triple as read from the file. */
  function ToZeroBased(raw: IndexObj): (r: IndexObj)
    ensures Inc32(r.p) == raw.p && Inc32(r.t) == raw.t && Inc32(r.n) == raw.n
    ensures 0 < raw.p ==> r.p == raw.p - 1
    ensures raw.p == 0 ==> r.p == Limit32 - 1
  {
    IncDecInverse(raw.p);
    IncDecInverse(raw.t);
    IncDecInverse(raw.n);
    IndexObj(Dec32(raw.p), Dec32(raw.t), Dec32(raw.n))
  }

  /** The token readers: `vector3` and `vector2` stand for `ParseVector3` and
      `ParseVector2` applied to the rest of a line, and `corner(cursor, i)`
      for the i-th `p/t/n` triple `ParseIndices` reads from it. */
  datatype Tokenizer = Tokenizer(
    vector3: string -> Vec3.Vector3,
    vector2: string -> Vec2.Vector2,
    corner: (string, nat) -> IndexObj)

  /** The character at `i` of the line buffer: past the text comes the
      terminating NUL. */
  function CharAt(line: string, i: nat): char {
    if i < |line| then line[i] else '\0'
  }

  /** The rest of the line from `k` (`&line[k]`). */
  function From(line: string, k: nat): string {
    if k <= |line| then line[k..] else ""
  }

  /** What a line is, by its first two characters. */
  datatype LineKind = Comment | Position | Normal | Uv | Face | Other

  function Classify(line: string): (r: LineKind)
    ensures r == Comment <==> CharAt(line, 0) == '#'
    ensures r == Face <==> CharAt(line, 0) == 'f'
    ensures r == Position <==> CharAt(line, 0) == 'v' && CharAt(line, 1) == ' '
    ensures r == Normal <==> CharAt(line, 0) == 'v' && CharAt(line, 1) == 'n'
    ensures r == Uv <==> CharAt(line, 0) == 'v' && CharAt(line, 1) == 't'
  {
    var c0, c1 := CharAt(line, 0), CharAt(line, 1);
    if c0 == '#' then Comment
    else if c0 == 'v' then
      if c1 == ' ' then Position
      else if c1 == 'n' then Normal
      else if c1 == 't' then Uv
      else Other
    else if c0 == 'f' then Face
    else Other
  }

  /** What the first loop gathers, with the parser's corner counter
      `m_verticesNumber`. */
  datatype ObjData = ObjData(
    positions: seq<Vec3.Vector3>, normals: seq<Vec3.Vector3>, uvs: seq<Vec2.Vector2>,
    indices: seq<IndexObj>, counter: U32)

  const EmptyData: ObjData := ObjData([], [], [], [], 0)

  /** `ParseIndices`: exactly three corners, each made 0-based, and the
      counter bumped once per corner. */
  function ParseIndices(cursor: string, counter: U32, tk: Tokenizer): (r: (seq<IndexObj>, U32))
    ensures |r.0| == 3
    ensures forall i :: 0 <= i < 3 ==> r.0[i] == ToZeroBased(tk.corner(cursor, i))
    ensures r.1 == (counter + 3) % Limit32
  {
    ([ToZeroBased(tk.corner(cursor, 0)), ToZeroBased(tk.corner(cursor, 1)), ToZeroBased(tk.corner(cursor, 2))],
     Inc32(Inc32(Inc32(counter))))
  }

  /** One pass of the reading loop. */
  function ParseLine(d: ObjData, line: string, tk: Tokenizer): (r: ObjData)
    ensures Classify(line) in {Comment, Other} ==> r == d
    ensures Classify(line) == Position ==> r == d.(positions := d.positions + [tk.vector3(From(line, 2))])
    ensures Classify(line) == Normal ==> r == d.(normals := d.normals + [tk.vector3(From(line, 3))])
    ensures Classify(line) == Uv ==> r == d.(uvs := d.uvs + [tk.vector2(From(line, 3))])
    ensures Classify(line) == Face ==>
              r.positions == d.positions && r.normals == d.normals && r.uvs == d.uvs &&
              |r.indices| == |d.indices| + 3 && r.indices[..|d.indices|] == d.indices &&
              r.counter == (d.counter + 3) % Limit32
    ensures Classify(line) == Face ==> r.indices[|d.indices|..] == ParseIndices(From(line, 2), d.counter, tk).0
  {
    match Classify(line)
    case Comment => d
    case Position => d.(positions := d.positions + [tk.vector3(From(line, 2))])
    case Normal => d.(normals := d.normals + [tk.vector3(From(line, 3))])
    case Uv => d.(uvs := d.uvs + [tk.vector2(From(line, 3))])
    case Face =>
      var (corners, counter) := ParseIndices(From(line, 2), d.counter, tk);
      d.(indices := d.indices + corners, counter := counter)
    case Other => d
  }

  /** The reading loop over the first lines, from a fresh parser. Every
      face line gives three corners and three counts, so the counter is the
      number of corners, modulo 2^32. */
  function ParseLines(lines: seq<string>, tk: Tokenizer): (r: ObjData)
    ensures |r.indices| == 3 * FaceLines(lines)
    ensures r.counter == (3 * FaceLines(lines)) % Limit32
  {
    if |lines| == 0 then EmptyData
    else
      var init, line := lines[..|lines| - 1], lines[|lines| - 1];
      var d := ParseLines(init, tk);
      var added := if Classify(line) == Face then 3 else 0;
      LineCounts(d, line, tk);
      AddMod32(3 * FaceLines(init), added);
      assert FaceLines(lines) == FaceLines(init) + added / 3;
      ParseLine(d, line, tk)
  }

  /** What one line adds to the corners and the counter. */
  lemma LineCounts(d: ObjData, line: string, tk: Tokenizer)
    ensures |ParseLine(d, line, tk).indices| == |d.indices| + (if Classify(line) == Face then 3 else 0)
    ensures ParseLine(d, line, tk).counter == (d.counter + (if Classify(line) == Face then 3 else 0)) % Limit32
  {
  }

  /** Reducing modulo 2^32 before an addition changes nothing afterwards. */
  lemma AddMod32(a: int, b: int)
    ensures (a % Limit32 + b) % Limit32 == (a + b) % Limit32
  {
    var q := a / Limit32;
    assert a == q * Limit32 + a % Limit32;
    assert a % Limit32 + b == (a + b) - q * Limit32;
  }

  /** The number of face lines. */
  function FaceLines(lines: seq<string>): nat {
    if |lines| == 0 then 0
    else FaceLines(lines[..|lines| - 1]) + (if Classify(lines[|lines| - 1]) == Face then 1 else 0)
  }

  /** The parsed positions, normals and uvs, read off the lines directly. */
  function PositionsOf(lines: seq<string>, tk: Tokenizer): seq<Vec3.Vector3> {
    if |lines| == 0 then []
    else
      var line := lines[|lines| - 1];
      PositionsOf(lines[..|lines| - 1], tk) + (if Classify(line) == Position then [tk.vector3(From(line, 2))] else [])
  }

  function NormalsOf(lines: seq<string>, tk: Tokenizer): seq<Vec3.Vector3> {
    if |lines| == 0 then []
    else
      var line := lines[|lines| - 1];
      NormalsOf(lines[..|lines| - 1], tk) + (if Classify(line) == Normal then [tk.vector3(From(line, 3))] else [])
  }

  function UvsOf(lines: seq<string>, tk: Tokenizer): seq<Vec2.Vector2> {
    if |lines| == 0 then []
    else
      var line := lines[|lines| - 1];
      UvsOf(lines[..|lines| - 1], tk) + (if Classify(line) == Uv then [tk.vector2(From(line, 3))] else [])
  }

  /** The corners of the face lines, read off the lines directly: the three
      triples after `f `, each made 0-based. */
  function CornersOf(lines: seq<string>, tk: Tokenizer): seq<IndexObj> {
    if |lines| == 0 then []
    else
      var line := lines[|lines| - 1];
      var cursor := From(line, 2);
      CornersOf(lines[..|lines| - 1], tk) +
        (if Classify(line) == Face
         then [ToZeroBased(tk.corner(cursor, 0)), ToZeroBased(tk.corner(cursor, 1)), ToZeroBased(tk.corner(cursor, 2))]
         else [])
  }

  /** The reading loop collects the three corners of every face line, in
      file order. */
  lemma {:induction false} CornersInOrder(lines: seq<string>, tk: Tokenizer)
    ensures ParseLines(lines, tk).indices == CornersOf(lines, tk)
  {
    if |lines| > 0 {
      CornersInOrder(lines[..|lines| - 1], tk);
    }
  }

  /** The reading loop collects one position per `v ` line, one normal per
      `vn` line and one uv per `vt` line, in file order. */
  lemma {:induction false} ComponentsInOrder(lines: seq<string>, tk: Tokenizer)
    ensures ParseLines(lines, tk).positions == PositionsOf(lines, tk)
    ensures ParseLines(lines, tk).normals == NormalsOf(lines, tk)
    ensures ParseLines(lines, tk).uvs == UvsOf(lines, tk)
  {
    if |lines| > 0 {
      ComponentsInOrder(lines[..|lines| - 1], tk);
    }
  }

  /** A comment line, a line starting with `v` followed by anything but a
      space, `n` or `t`, and a line starting with neither `v` nor `f` add
      nothing. */
  lemma SkippedLines(lines: seq<string>, line: string, tk: Tokenizer)
    requires CharAt(line, 0) == '#'
          || (CharAt(line, 0) == 'v' && CharAt(line, 1) !in {' ', 'n', 't'})
          || (CharAt(line, 0) != 'v' && CharAt(line, 0) != 'f')
    ensures ParseLines(lines + [line], tk) == ParseLines(lines, tk)
  {
    assert (lines + [line])[..|lines|] == lines;
  }

  /** A corner whose three indices lie within the parsed lists. */
  predicate InRange(d: ObjData, c: IndexObj) {
    c.p < |d.positions| && c.t < |d.uvs| && c.n < |d.normals|
  }

  /** The corners the second loop visits: the first `counter` ones. The
      code does not check their indices; they must lie within the lists. */
  predicate Resolvable(d: ObjData) {
    d.counter <= |d.indices| && forall k :: 0 <= k < d.counter ==> InRange(d, d.indices[k])
  }

  /** The vertex of a corner. */
  function Resolve(d: ObjData, c: IndexObj): (r: Vertex)
    requires InRange(d, c)
    ensures r.pos == d.positions[c.p] && r.uv == d.uvs[c.t] && r.normal == d.normals[c.n]
  {
    Vertex(d.positions[c.p], d.uvs[c.t], d.normals[c.n])
  }

  function Corners(d: ObjData): (r: seq<Vertex>)
    requires Resolvable(d)
    ensures |r| == d.counter
    ensures forall k :: 0 <= k < d.counter ==> r[k] == Resolve(d, d.indices[k])
  {
    seq(d.counter, k requires 0 <= k < d.counter && Resolvable(d) => Resolve(d, d.indices[k]))
  }

  /** The state of the second loop: the table `m_HashMap`, the vertices, the
      output indices and the next new index. */
  datatype Dedup = Dedup(table: map<Vertex, nat>, vertices: seq<Vertex>, indices: seq<nat>, next: nat)

  const EmptyDedup: Dedup := Dedup(map[], [], [], 0)

  /** `m_HashMap[cur]`: the stored index, or 0 for a vertex not yet seen
      (the subscript inserts a zero entry). */
  function Lookup(table: map<Vertex, nat>, v: Vertex): nat {
    if v in table then table[v] else 0
  }

  /** One pass of the second loop, as written: a stored index of 0 counts as
      unseen, so the vertex stored at index 0 is appended again on its
      second appearance. */
  function Step(s: Dedup, cur: Vertex): (r: Dedup)
    ensures |r.indices| == |s.indices| + 1 && r.indices[..|s.indices|] == s.indices
    ensures cur in r.table && r.indices[|s.indices|] == r.table[cur]
    ensures r.table == s.table[cur := r.table[cur]]
    ensures Lookup(s.table, cur) == 0 ==> r.vertices == s.vertices + [cur] && r.table[cur] == s.next
    ensures Lookup(s.table, cur) != 0 ==> r.vertices == s.vertices && r.table == s.table
    ensures r.next - s.next == |r.vertices| - |s.vertices|
  {
    var stored := Lookup(s.table, cur);
    if stored == 0 then
      Dedup(s.table[cur := s.next], s.vertices + [cur], s.indices + [s.next], s.next + 1)
    else
      Dedup(s.table, s.vertices, s.indices + [stored], s.next)
  }

  /** The second loop over a sequence of corners. */
  function DedupAll(corners: seq<Vertex>): (r: Dedup)
    ensures |r.indices| == |corners|
    ensures r.next == |r.vertices| <= |corners|
  {
    if |corners| == 0 then EmptyDedup
    else Step(DedupAll(corners[..|corners| - 1]), corners[|corners| - 1])
  }

  /** Every output index points at its corner's vertex. */
  predicate Faithful(s: Dedup, corners: seq<Vertex>) {
    |s.indices| == |corners| &&
    forall k :: 0 <= k < |corners| ==> s.indices[k] < |s.vertices| && s.vertices[s.indices[k]] == corners[k]
  }

  /** No vertex but the first can appear twice. */
  predicate OnlyFirstRepeats(vertices: seq<Vertex>) {
    forall i, j :: 0 <= i < j < |vertices| && vertices[i] == vertices[j] ==> i == 0
  }

  /** No vertex appears twice. */
  predicate Distinct(vertices: seq<Vertex>) {
    forall i, j :: 0 <= i < j < |vertices| ==> vertices[i] != vertices[j]
  }

  /** What the as-written loop keeps: new vertices take consecutive indices,
      the table points at a copy of each key, every vertex past the first is
      the one its table entry points at, and the output is faithful. */
  predicate Valid(s: Dedup, corners: seq<Vertex>) {
    s.next == |s.vertices| &&
    Faithful(s, corners) &&
    (forall v :: v in s.table ==> 0 <= s.table[v] < |s.vertices| && s.vertices[s.table[v]] == v) &&
    (forall j :: 1 <= j < |s.vertices| ==> s.vertices[j] in s.table && s.table[s.vertices[j]] == j) &&
    (0 < |s.vertices| ==> s.vertices[0] in s.table)
  }

  lemma ValidOnlyFirstRepeats(s: Dedup, corners: seq<Vertex>)
    requires Valid(s, corners)
    ensures OnlyFirstRepeats(s.vertices)
  {
    forall i, j | 0 <= i < j < |s.vertices| && s.vertices[i] == s.vertices[j]
      ensures i == 0
    {
      assert s.table[s.vertices[j]] == j;
    }
  }

  /** One step keeps the invariant. */
  lemma StepValid(s: Dedup, corners: seq<Vertex>, cur: Vertex)
    requires Valid(s, corners)
    ensures Valid(Step(s, cur), corners + [cur])
  {
    var r := Step(s, cur);
    var all := corners + [cur];
    forall k | 0 <= k < |all|
      ensures r.indices[k] < |r.vertices| && r.vertices[r.indices[k]] == all[k]
    {
      if k < |corners| {
        assert r.indices[k] == s.indices[k];
        assert r.vertices[s.indices[k]] == s.vertices[s.indices[k]];
      }
    }
    if Lookup(s.table, cur) == 0 {
      forall j | 1 <= j < |r.vertices|
        ensures r.vertices[j] in r.table && r.table[r.vertices[j]] == j
      {
        if j < |s.vertices| {
          assert r.vertices[j] == s.vertices[j];
          assert s.vertices[j] != cur;
        }
      }
    }
  }

  /** The as-written loop is faithful, hands out consecutive indices and
      repeats no vertex but the first. */
  lemma {:induction false} DedupAllValid(corners: seq<Vertex>)
    ensures Valid(DedupAll(corners), corners)
    ensures OnlyFirstRepeats(DedupAll(corners).vertices)
  {
    if |corners| > 0 {
      DedupAllValid(corners[..|corners| - 1]);
      DedupAllExtends(corners);
    }
    ValidOnlyFirstRepeats(DedupAll(corners), corners);
  }

  lemma DedupAllExtends(corners: seq<Vertex>)
    requires |corners| > 0 && Valid(DedupAll(corners[..|corners| - 1]), corners[..|corners| - 1])
    ensures Valid(DedupAll(corners), corners)
  {
    var init, last := corners[..|corners| - 1], corners[|corners| - 1];
    SplitLast(corners);
    assert DedupAll(corners) == Step(DedupAll(init), last);
    StepValid(DedupAll(init), init, last);
  }

  /** A non-empty sequence is its prefix followed by its last element. */
  lemma SplitLast<T>(xs: seq<T>)
    requires |xs| > 0
    ensures xs[..|xs| - 1] + [xs[|xs| - 1]] == xs
  {
  }

  /** The as-written loop on corners a, b, a: the second a is stored at
      index 0, looks unseen and is appended again. */
  lemma FirstVertexDuplicated(a: Vertex, b: Vertex)
    requires a != b
    ensures DedupAll([a, b, a]).vertices == [a, b, a]
    ensures DedupAll([a, b, a]).indices == [0, 1, 2]
    ensures DedupFixedAll([a, b, a]).vertices == [a, b]
    ensures DedupFixedAll([a, b, a]).indices == [0, 1, 0]
  {
    assert [a, b, a][..2] == [a, b];
    assert [a, b][..1] == [a];
    assert [a][..0] == [];
    var one := Dedup(map[a := 0], [a], [0], 1);
    assert DedupAll([a]) == one && DedupFixedAll([a]) == one;
    assert DedupAll([a, b]) == Dedup(map[a := 0, b := 1], [a, b], [0, 1], 2);
    assert DedupFixedAll([a, b]) == Dedup(map[a := 0, b := 1], [a, b], [0, 1], 2);
  }

  /** One pass of the second loop with the evidently intended test: a
      vertex is new when the table has no entry for it. */
  function StepFixed(s: Dedup, cur: Vertex): (r: Dedup)
    ensures |r.indices| == |s.indices| + 1 && r.indices[..|s.indices|] == s.indices
    ensures cur in r.table && r.indices[|s.indices|] == r.table[cur]
    ensures r.table == s.table[cur := r.table[cur]]
    ensures cur !in s.table ==> r.vertices == s.vertices + [cur] && r.table[cur] == s.next
    ensures cur in s.table ==> r.vertices == s.vertices && r.table == s.table
    ensures r.next - s.next == |r.vertices| - |s.vertices|
  {
    if cur !in s.table then
      Dedup(s.table[cur := s.next], s.vertices + [cur], s.indices + [s.next], s.next + 1)
    else
      Dedup(s.table, s.vertices, s.indices + [s.table[cur]], s.next)
  }

  function DedupFixedAll(corners: seq<Vertex>): (r: Dedup)
    ensures |r.indices| == |corners|
    ensures r.next == |r.vertices| <= |corners|
  {
    if |corners| == 0 then EmptyDedup
    else StepFixed(DedupFixedAll(corners[..|corners| - 1]), corners[|corners| - 1])
  }

  /** What the corrected loop keeps: the table is exactly the vertices, each
      mapped to its position, and the output is faithful. */
  predicate ValidFixed(s: Dedup, corners: seq<Vertex>) {
    s.next == |s.vertices| &&
    Faithful(s, corners) &&
    (forall v :: v in s.table ==> 0 <= s.table[v] < |s.vertices| && s.vertices[s.table[v]] == v) &&
    (forall j :: 0 <= j < |s.vertices| ==> s.vertices[j] in s.table && s.table[s.vertices[j]] == j)
  }

  lemma StepFixedValid(s: Dedup, corners: seq<Vertex>, cur: Vertex)
    requires ValidFixed(s, corners)
    ensures ValidFixed(StepFixed(s, cur), corners + [cur])
  {
    var r := StepFixed(s, cur);
    var all := corners + [cur];
    forall k | 0 <= k < |all|
      ensures r.indices[k] < |r.vertices| && r.vertices[r.indices[k]] == all[k]
    {
      if k < |corners| {
        assert r.indices[k] == s.indices[k];
        assert r.vertices[s.indices[k]] == s.vertices[s.indices[k]];
      }
    }
    if cur !in s.table {
      forall j | 0 <= j < |r.vertices|
        ensures r.vertices[j] in r.table && r.table[r.vertices[j]] == j
      {
        if j < |s.vertices| {
          assert r.vertices[j] == s.vertices[j];
        }
      }
    }
  }

  /** The corrected loop is faithful and appends every distinct vertex
      exactly once: the vertices are the distinct corners. */
  lemma {:induction false} DedupFixedAllValid(corners: seq<Vertex>)
    ensures ValidFixed(DedupFixedAll(corners), corners)
    ensures Distinct(DedupFixedAll(corners).vertices)
    ensures forall v :: v in corners <==> v in DedupFixedAll(corners).vertices
  {
    if |corners| > 0 {
      DedupFixedAllValid(corners[..|corners| - 1]);
      DedupFixedAllExtends(corners);
    }
    var s := DedupFixedAll(corners);
    forall i, j | 0 <= i < j < |s.vertices|
      ensures s.vertices[i] != s.vertices[j]
    {
      assert s.table[s.vertices[i]] == i;
      assert s.table[s.vertices[j]] == j;
    }
    forall v
      ensures v in corners <==> v in s.vertices
    {
      if v in corners {
        var k :| 0 <= k < |corners| && corners[k] == v;
        assert s.vertices[s.indices[k]] == v;
      }
      if v in s.vertices {
        var j :| 0 <= j < |s.vertices| && s.vertices[j] == v;
        CornerOfVertex(corners, j);
      }
    }
  }

  lemma DedupFixedAllExtends(corners: seq<Vertex>)
    requires |corners| > 0 && ValidFixed(DedupFixedAll(corners[..|corners| - 1]), corners[..|corners| - 1])
    ensures ValidFixed(DedupFixedAll(corners), corners)
  {
    var init, last := corners[..|corners| - 1], corners[|corners| - 1];
    SplitLast(corners);
    assert DedupFixedAll(corners) == StepFixed(DedupFixedAll(init), last);
    StepFixedValid(DedupFixedAll(init), init, last);
  }

  /** Under the corrected loop, every vertex is some corner. */
  lemma {:induction false} CornerOfVertex(corners: seq<Vertex>, j: nat)
    requires j < |DedupFixedAll(corners).vertices|
    ensures DedupFixedAll(corners).vertices[j] in corners
  {
    var s := DedupFixedAll(corners);
    if |corners| > 0 {
      var init := corners[..|corners| - 1];
      var p := DedupFixedAll(init);
      if j < |p.vertices| {
        assert s.vertices[j] == p.vertices[j];
        CornerOfVertex(init, j);
        assert p.vertices[j] in init;
      } else {
        assert s.vertices[j] == corners[|corners| - 1];
      }
    }
  }

  /** What `ParseInputFile` returns: the corner count, the vertices and
      the indices into them. */
  datatype MeshData = MeshData(verticesCount: U32, vertices: seq<Vertex>, indices: seq<nat>)

  /** The reading loop of `ParseInputFile`. */
  method ReadLines(lines: seq<string>, tk: Tokenizer) returns (d: ObjData)
    ensures d == ParseLines(lines, tk)
    ensures |d.indices| == 3 * FaceLines(lines) && d.counter == |d.indices| % Limit32
  {
    d := EmptyData;
    var i := 0;
    while i < |lines|
      invariant 0 <= i <= |lines|
      invariant d == ParseLines(lines[..i], tk)
    {
      assert lines[..i + 1][..i] == lines[..i];
      d := ParseLine(d, lines[i], tk);
      i := i + 1;
    }
    assert lines[..|lines|] == lines;
  }

  /** The de-duplicating loop of `ParseInputFile`, as written, over the
      resolved corners. */
  method BuildVertices(corners: seq<Vertex>) returns (s: Dedup)
    ensures s == DedupAll(corners)
    ensures Faithful(s, corners) && OnlyFirstRepeats(s.vertices)
  {
    var table: map<Vertex, nat> := map[];
    var vertices: seq<Vertex> := [];
    var nIndices: seq<nat> := [];
    var index: nat := 0;
    var k := 0;
    while k < |corners|
      invariant k <= |corners|
      invariant Dedup(table, vertices, nIndices, index) == DedupAll(corners[..k])
    {
      var cur := corners[k];
      assert corners[..k + 1][..k] == corners[..k];
      var stored := if cur in table then table[cur] else 0;
      if stored == 0 {
        vertices := vertices + [cur];
        table := table[cur := index];
        nIndices := nIndices + [index];
        index := index + 1;
      } else {
        nIndices := nIndices + [stored];
      }
      k := k + 1;
    }
    assert corners[..|corners|] == corners;
    DedupAllValid(corners);
    s := Dedup(table, vertices, nIndices, index);
  }

  /** `ParseInputFile` on the lines of a file, with a fresh parser: the
      reading loop, then the resolving and de-duplicating loop over the
      first `m_verticesNumber` corners. */
  method ParseInputFile(lines: seq<string>, tk: Tokenizer) returns (mesh: MeshData)
    requires Resolvable(ParseLines(lines, tk))
    ensures mesh.verticesCount == ParseLines(lines, tk).counter
    ensures mesh.verticesCount == (3 * FaceLines(lines)) % Limit32
    ensures |mesh.indices| == mesh.verticesCount
    ensures forall k :: 0 <= k < |mesh.indices| ==>
              mesh.indices[k] < |mesh.vertices| &&
              mesh.vertices[mesh.indices[k]] == Resolve(ParseLines(lines, tk), ParseLines(lines, tk).indices[k])
    ensures OnlyFirstRepeats(mesh.vertices)
    ensures mesh.vertices == DedupAll(Corners(ParseLines(lines, tk))).vertices
  {
    var d := ReadLines(lines, tk);
    var corners := Corners(d);
    var s := BuildVertices(corners);
    mesh := MeshData(d.counter, s.vertices, s.indices);
  }

  /** The de-duplicating loop with the corrected test. */
  method BuildVerticesFixed(corners: seq<Vertex>) returns (s: Dedup)
    ensures s == DedupFixedAll(corners)
    ensures Faithful(s, corners) && Distinct(s.vertices)
  {
    var table: map<Vertex, nat> := map[];
    var vertices: seq<Vertex> := [];
    var nIndices: seq<nat> := [];
    var index: nat := 0;
    var k := 0;
    while k < |corners|
      invariant k <= |corners|
      invariant Dedup(table, vertices, nIndices, index) == DedupFixedAll(corners[..k])
    {
      var cur := corners[k];
      assert corners[..k + 1][..k] == corners[..k];
      if cur !in table {
        vertices := vertices + [cur];
        table := table[cur := index];
        nIndices := nIndices + [index];
        index := index + 1;
      } else {
        nIndices := nIndices + [table[cur]];
      }
      k := k + 1;
    }
    assert corners[..|corners|] == corners;
    DedupFixedAllValid(corners);
    s := Dedup(table, vertices, nIndices, index);
  }

  /** `ParseInputFile` with the corrected de-duplicating test: every
      distinct corner vertex is stored exactly once. */
  method ParseInputFileFixed(lines: seq<string>, tk: Tokenizer) returns (mesh: MeshData)
    requires Resolvable(ParseLines(lines, tk))
    ensures mesh.verticesCount == ParseLines(lines, tk).counter
    ensures mesh.verticesCount == (3 * FaceLines(lines)) % Limit32
    ensures |mesh.indices| == mesh.verticesCount
    ensures forall k :: 0 <= k < |mesh.indices| ==>
              mesh.indices[k] < |mesh.vertices| &&
              mesh.vertices[mesh.indices[k]] == Resolve(ParseLines(lines, tk), ParseLines(lines, tk).indices[k])
    ensures Distinct(mesh.vertices)
    ensures forall v :: v in mesh.vertices <==> v in Corners(ParseLines(lines, tk))
  {
    var d := ReadLines(lines, tk);
    var corners := Corners(d);
    var s := BuildVerticesFixed(corners);
    DedupFixedAllValid(corners);
    mesh := MeshData(d.counter, s.vertices, s.indices);
  }
}
