/** Cutting the volume's slab with a view-aligned plane (examples/eVolve/sliceClipping.cpp).
    The polygon has at most six corners; corner i is searched along a path of box edges
    from the front vertex to the back vertex, which a table lists. */
module SliceClipping {
  import opened MeshTypes
  import opened Spheres
  import Modelview

  // ---- The tables -------------------------------------------------------------------------

  /** Row by row: the slab's vertices from the front vertex to the back vertex. */
  function Sequence(front: nat): (r: seq<nat>)
    ensures |r| == 8
  {
    match front
    case 0 => [0, 1, 4, 2, 3, 5, 6, 7]
    case 1 => [1, 0, 3, 5, 4, 2, 7, 6]
    case 2 => [2, 0, 6, 3, 1, 4, 7, 5]
    case 3 => [3, 1, 2, 7, 5, 0, 6, 4]
    case 4 => [4, 0, 5, 6, 2, 1, 7, 3]
    case 5 => [5, 1, 7, 4, 0, 3, 6, 2]
    case 6 => [6, 2, 4, 7, 3, 0, 5, 1]
    case _ => [7, 3, 6, 5, 1, 2, 4, 0]
  }

  /** The edges that polygon corner n tries, from position V1(n)[e] to V2(n)[e] of the row. */
  function V1(n: nat): (r: seq<nat>)
    ensures |r| == 4
  {
    match n
    case 0 => [0, 1, 4, 4]
    case 1 => [1, 0, 1, 4]
    case 2 => [0, 2, 5, 5]
    case 3 => [2, 0, 2, 5]
    case 4 => [0, 3, 6, 6]
    case _ => [3, 0, 3, 6]
  }

  function V2(n: nat): (r: seq<nat>)
    ensures |r| == 4
  {
    match n
    case 0 => [1, 4, 7, 7]
    case 1 => [5, 1, 4, 7]
    case 2 => [2, 5, 7, 7]
    case 3 => [6, 2, 5, 7]
    case 4 => [3, 6, 7, 7]
    case _ => [4, 3, 6, 7]
  }

  /** The first column of nSequence: the vertex opposite to each vertex. */
  const opposite: seq<nat> := [7, 6, 5, 4, 3, 2, 1, 0]

  /** What a frame is drawn with: the slab from zs to ze, the view vector, the vertex nearest
      to the viewer. */
  datatype View = View(zs: real, ze: real, dir: V, front: nat)

  /** Vertex i of the slab: bits 0, 1 and 2 of i choose x, y and z. */
  function Corner(c: View, i: nat): V {
    Vec3(if Bit(i, 1) then 1.0 else -1.0, if Bit(i, 2) then 1.0 else -1.0, if Bit(i, 4) then c.ze else c.zs)
  }

  function Dist(c: View, i: nat): real { Dot(c.dir, Corner(c, i)) }

  /** The vertex at position k of the front vertex's row. */
  function Local(c: View, k: nat): nat {
    if k < 8 then Sequence(c.front)[k] else 0
  }

  /** Whether vertex i has bit b, worth 1, 2 or 4. */
  predicate Bit(i: nat, b: nat) {
    if b == 1 then i % 2 == 1 else if b == 2 then (i / 2) % 2 == 1 else i / 4 == 1
  }

  /** The neighbour of vertex i across bit b. */
  function Flip(i: nat, b: nat): nat {
    if Bit(i, b) && b <= i then i - b else i + b
  }

  /** The order in which a row changes the bits. */
  function Bits(front: nat): (nat, nat, nat) {
    match front
    case 0 => (1, 4, 2)
    case 1 => (1, 2, 4)
    case 2 => (2, 4, 1)
    case 3 => (2, 1, 4)
    case 4 => (4, 1, 2)
    case 5 => (4, 2, 1)
    case 6 => (4, 2, 1)
    case _ => (4, 1, 2)
  }

  lemma RowIs(c: View)
    requires c.front < 8
    ensures var f, (a, b, g) := c.front, Bits(c.front);
            && Local(c, 0) == f && Local(c, 1) == Flip(f, a) && Local(c, 2) == Flip(f, b) && Local(c, 3) == Flip(f, g)
            && Local(c, 4) == Flip(Flip(f, a), g) && Local(c, 5) == Flip(Flip(f, a), b) && Local(c, 6) == Flip(Flip(f, b), g)
            && Local(c, 7) == 7 - f == opposite[f]
  {
    var f := c.front;
    assert f == 0 || f == 1 || f == 2 || f == 3 || f == 4 || f == 5 || f == 6 || f == 7;
  }

  // ---- Distances along the row ------------------------------------------------------------

  /** What changing bit b of a vertex that has the front vertex's bit costs. */
  function Drop(c: View, b: nat): real {
    var step := if b == 1 then 2.0 * c.dir.x else if b == 2 then 2.0 * c.dir.y else c.dir.z * (c.ze - c.zs);
    if Bit(c.front, b) then step else -step
  }

  predicate IsBit(b: nat) { b == 1 || b == 2 || b == 4 }

  lemma FlipBits(i: nat, b: nat)
    requires i < 8 && IsBit(b)
    ensures Flip(i, b) < 8 && Flip(Flip(i, b), b) == i && Bit(Flip(i, b), b) == !Bit(i, b)
    ensures forall g :: IsBit(g) && g != b ==> Bit(Flip(i, b), g) == Bit(i, g)
  {
  }

  lemma FlipDist(c: View, i: nat, b: nat)
    requires i < 8 && IsBit(b)
    ensures Dist(c, Flip(i, b)) == if Bit(i, b) == Bit(c.front, b) then Dist(c, i) - Drop(c, b) else Dist(c, i) + Drop(c, b)
  {
    FlipBits(i, b);
    var j := Flip(i, b);
    var p, q := Corner(c, i), Corner(c, j);
    if b == 1 {
      assert p.y == q.y && p.z == q.z;
    } else if b == 2 {
      assert p.x == q.x && p.z == q.z;
    } else {
      assert p.x == q.x && p.y == q.y;
      assert c.dir.z * (c.ze - c.zs) == c.dir.z * c.ze - c.dir.z * c.zs;
    }
  }

  /** frontIndex is a vertex with the largest distance. */
  ghost predicate InFront(c: View) {
    c.front < 8 && forall i: nat :: i < 8 ==> Dist(c, i) <= Dist(c, c.front)
  }

  /** A slab and a view vector that are not degenerate. */
  predicate Proper(c: View) {
    c.zs < c.ze && c.dir != Vec3(0.0, 0.0, 0.0)
  }

  lemma DropsSink(c: View, b: nat)
    requires InFront(c) && IsBit(b)
    ensures Drop(c, b) >= 0.0
  {
    FlipBits(c.front, b);
    FlipDist(c, c.front, b);
  }

  /** The distance at position k of the row. */
  function Level(c: View, k: nat): real { Dist(c, Local(c, k)) }

  lemma TwoFlips(c: View, a: nat, g: nat)
    requires c.front < 8 && IsBit(a) && IsBit(g) && a != g
    ensures Dist(c, Flip(c.front, a)) == Dist(c, c.front) - Drop(c, a)
    ensures Dist(c, Flip(Flip(c.front, a), g)) == Dist(c, c.front) - Drop(c, a) - Drop(c, g)
  {
    FlipBits(c.front, a);
    FlipDist(c, c.front, a);
    FlipDist(c, Flip(c.front, a), g);
  }

  lemma ThreeFlips(c: View, a: nat, b: nat, g: nat)
    requires c.front < 8 && IsBit(a) && IsBit(b) && IsBit(g) && a != g && a != b && b != g
    ensures Dist(c, 7 - c.front) == Dist(c, c.front) - Drop(c, a) - Drop(c, b) - Drop(c, g)
  {
    var f := c.front;
    FlipBits(f, a);
    TwoFlips(c, a, g);
    FlipBits(Flip(f, a), g);
    FlipDist(c, Flip(Flip(f, a), g), b);
    Opposite(f, a, b, g);
  }

  lemma Opposite(f: nat, a: nat, b: nat, g: nat)
    requires f < 8 && IsBit(a) && IsBit(b) && IsBit(g) && a != g && a != b && b != g
    ensures Flip(Flip(Flip(f, a), g), b) == 7 - f
  {
    assert f == 0 || f == 1 || f == 2 || f == 3 || f == 4 || f == 5 || f == 6 || f == 7;
  }

  lemma BitsAre(f: nat)
    ensures var (a, b, g) := Bits(f); IsBit(a) && IsBit(b) && IsBit(g) && a != g && a != b && b != g
  {
  }

  /** Along the row the vertices lie lower and lower. */
  lemma Levels(c: View, p: real, q: real, r: real)
    requires c.front < 8 && p == Drop(c, Bits(c.front).0) && q == Drop(c, Bits(c.front).1) && r == Drop(c, Bits(c.front).2)
    ensures var top := Level(c, 0);
            && Level(c, 1) == top - p && Level(c, 2) == top - q && Level(c, 3) == top - r
            && Level(c, 4) == top - p - r && Level(c, 5) == top - p - q && Level(c, 6) == top - q - r
            && Level(c, 7) == top - p - q - r
  {
    var (a, b, g) := Bits(c.front);
    BitsAre(c.front);
    RowIs(c);
    TwoFlips(c, a, g);
    TwoFlips(c, a, b);
    TwoFlips(c, b, g);
    TwoFlips(c, g, a);
    ThreeFlips(c, a, b, g);
  }

  lemma Drops(c: View) returns (p: real, q: real, r: real)
    requires InFront(c)
    ensures p >= 0.0 && q >= 0.0 && r >= 0.0
    ensures var top := Level(c, 0);
            && Level(c, 1) == top - p && Level(c, 2) == top - q && Level(c, 3) == top - r
            && Level(c, 4) == top - p - r && Level(c, 5) == top - p - q && Level(c, 6) == top - q - r
            && Level(c, 7) == top - p - q - r
  {
    var (a, b, g) := Bits(c.front);
    BitsAre(c.front);
    DropsSink(c, a);
    DropsSink(c, b);
    DropsSink(c, g);
    p, q, r := Drop(c, a), Drop(c, b), Drop(c, g);
    Levels(c, p, q, r);
  }

  /** The slab has some depth along the view vector. */
  predicate Deep(c: View) { c.front < 8 && Dist(c, 7 - c.front) < Dist(c, c.front) }

  lemma ProperIsDeep(c: View)
    requires InFront(c) && Proper(c)
    ensures Deep(c)
  {
    DropsSink(c, 1);
    DropsSink(c, 2);
    DropsSink(c, 4);
    ThreeFlips(c, 1, 2, 4);
    var h := c.ze - c.zs;
    assert c.dir.z != 0.0 ==> c.dir.z * h != 0.0;
  }

  // ---- One edge ---------------------------------------------------------------------------

  function Lambda(c: View, i: nat, j: nat, d: real): real {
    var start, dir := Corner(c, i), Sub(Corner(c, j), Corner(c, i));
    var denom := Dot(dir, c.dir);
    if denom != 0.0 then (d - Dot(start, c.dir)) / denom else -1.0
  }

  predicate Hits(c: View, i: nat, j: nat, d: real) { 0.0 <= Lambda(c, i, j, d) <= 1.0 }

  /** The point of the edge from vertex i to vertex j on the plane. */
  function At(c: View, i: nat, j: nat, d: real): V {
    Add(Corner(c, i), Scale(Sub(Corner(c, j), Corner(c, i)), Lambda(c, i, j, d)))
  }

  lemma DotLinear(v: V, p: V, q: V, k: real)
    ensures Dot(Sub(q, p), v) == Dot(v, q) - Dot(v, p) && Dot(p, v) == Dot(v, p)
    ensures Dot(v, Add(p, Scale(Sub(q, p), k))) == Dot(v, p) + k * (Dot(v, q) - Dot(v, p))
  {
    var x, y, z := (q.x - p.x) * k, (q.y - p.y) * k, (q.z - p.z) * k;
    assert v.x * (p.x + x) == v.x * p.x + k * (v.x * q.x - v.x * p.x);
    assert v.y * (p.y + y) == v.y * p.y + k * (v.y * q.y - v.y * p.y);
    assert v.z * (p.z + z) == v.z * p.z + k * (v.z * q.z - v.z * p.z);
  }

  lemma QuotientIn(num: real, denom: real, k: real)
    requires denom < 0.0 && k == num / denom
    ensures k * denom == num && (0.0 <= k <= 1.0 <==> denom <= num <= 0.0)
  {
    assert k * denom == num;
    if k > 1.0 { assert (k - 1.0) * denom < 0.0; }
    if k < 0.0 { assert k * denom > 0.0; }
    if 0.0 <= k <= 1.0 { assert (1.0 - k) * denom <= 0.0; }
  }

  /** On an edge that does not rise, the test finds exactly the planes between its ends. */
  lemma HitsIff(c: View, i: nat, j: nat, d: real, high: real, low: real)
    requires high == Dist(c, i) && low == Dist(c, j) && low <= high
    ensures Hits(c, i, j, d) <==> low < high && low <= d <= high
    ensures Hits(c, i, j, d) ==> Dot(c.dir, At(c, i, j, d)) == d
  {
    var k := Lambda(c, i, j, d);
    DotLinear(c.dir, Corner(c, i), Corner(c, j), k);
    if low < high {
      QuotientIn(d - high, low - high, k);
    }
  }

  // ---- One polygon corner -----------------------------------------------------------------

  predicate Tried(c: View, n: nat, e: nat, d: real) {
    e < 4 && Hits(c, Local(c, V1(n)[e]), Local(c, V2(n)[e]), d)
  }

  /** The edge that polygon corner n ends with, or 4. */
  function FirstHit(c: View, n: nat, d: real): (e: nat)
    ensures e <= 4 && (e < 4 ==> Tried(c, n, e, d)) && forall k :: 0 <= k < e ==> !Tried(c, n, k, d)
  {
    if Tried(c, n, 0, d) then 0 else if Tried(c, n, 1, d) then 1
    else if Tried(c, n, 2, d) then 2 else if Tried(c, n, 3, d) then 3 else 4
  }

  /** SliceClipper::getPosition for a plane at distance d. */
  function Position(c: View, n: nat, d: real): V {
    var e := FirstHit(c, n, d);
    if e < 4 then At(c, Local(c, V1(n)[e]), Local(c, V2(n)[e]), d) else Vec3(0.0, 0.0, 0.0)
  }

  /** The distances of the row's vertices, as far as the search depends on them. */
  ghost predicate Falls(l: seq<real>, p: real, q: real, r: real) {
    && |l| == 8 && p >= 0.0 && q >= 0.0 && r >= 0.0 && p + q + r > 0.0
    && l[1] == l[0] - p && l[2] == l[0] - q && l[3] == l[0] - r
    && l[4] == l[0] - p - r && l[5] == l[0] - p - q && l[6] == l[0] - q - r
    && l[7] == l[0] - p - q - r
  }

  ghost predicate Falling(l: seq<real>) { exists p, q, r :: Falls(l, p, q, r) }

  lemma Row(c: View) returns (l: seq<real>)
    requires InFront(c) && Deep(c)
    ensures |l| == 8 && Falling(l) && (forall k :: 0 <= k < 8 ==> l[k] == Level(c, k))
    ensures l[0] == Dist(c, c.front) && l[7] == Dist(c, 7 - c.front)
  {
    var p, q, r := Drops(c);
    l := [Level(c, 0), Level(c, 1), Level(c, 2), Level(c, 3), Level(c, 4), Level(c, 5), Level(c, 6), Level(c, 7)];
    EndsOfRow(c);
    assert Falls(l, p, q, r);
  }

  lemma EndsOfRow(c: View)
    requires c.front < 8
    ensures Level(c, 0) == Dist(c, c.front) && Level(c, 7) == Dist(c, 7 - c.front)
  {
    RowIs(c);
  }

  /** The plane at d meets edge e of path n. */
  ghost predicate Meets(l: seq<real>, n: nat, e: nat, d: real) {
    && |l| == 8 && e < 4 && n < 6
    && l[Below(n, e)] <= d <= l[Above(n, e)] && l[Below(n, e)] < l[Above(n, e)]
  }

  function Above(n: nat, e: nat): (k: nat)
    ensures k < 8
  {
    if e < 4 then V1(n)[e] else 0
  }

  function Below(n: nat, e: nat): (k: nat)
    ensures k < 8
  {
    if e < 4 then V2(n)[e] else 0
  }

  lemma PathFalls(l: seq<real>, n: nat, e: nat)
    requires Falling(l) && |l| == 8 && n < 6 && e < 4
    ensures l[Below(n, e)] <= l[Above(n, e)]
  {
    var p, q, r :| Falls(l, p, q, r);
  }

  lemma TriedIff(c: View, l: seq<real>, n: nat, e: nat, d: real)
    requires |l| == 8 && Falling(l) && n < 6 && e < 4
    requires l[Above(n, e)] == Level(c, Above(n, e)) && l[Below(n, e)] == Level(c, Below(n, e))
    ensures Tried(c, n, e, d) <==> Meets(l, n, e, d)
  {
    PathFalls(l, n, e);
    HitsIff(c, Local(c, Above(n, e)), Local(c, Below(n, e)), d, l[Above(n, e)], l[Below(n, e)]);
  }

  /** Every plane between the back and the front vertex meets every path. */
  lemma PathMeets(l: seq<real>, n: nat, d: real) returns (e: nat)
    requires Falling(l) && |l| == 8 && n < 6 && l[7] <= d <= l[0]
    ensures e < 4 && Meets(l, n, e, d)
  {
    var p, q, r :| Falls(l, p, q, r);
    e := if Meets(l, n, 0, d) then 0 else if Meets(l, n, 1, d) then 1 else if Meets(l, n, 2, d) then 2 else 3;
  }

  lemma AlwaysHits(c: View, n: nat, d: real)
    requires InFront(c) && Proper(c) && n < 6 && Dist(c, 7 - c.front) <= d <= Dist(c, c.front)
    ensures FirstHit(c, n, d) < 4
  {
    ProperIsDeep(c);
    var l := Row(c);
    var e := PathMeets(l, n, d);
    TriedIff(c, l, n, e, d);
  }

  /** The tables only list edges of the box: the bit in which their ends differ. */
  function EdgeBit(f: nat, n: nat, e: nat): nat { LocalBit(f, Above(n, e), Below(n, e)) }

  lemma TablesListEdges(c: View, n: nat, e: nat)
    requires c.front < 8 && n < 6 && e < 4
    ensures var b, i, j := EdgeBit(c.front, n, e), Local(c, Above(n, e)), Local(c, Below(n, e));
            IsBit(b) && i < 8 && j == Flip(i, b)
  {
    RowEdge(c, Above(n, e), Below(n, e));
  }

  function LocalBit(f: nat, k: nat, m: nat): nat {
    var (a, b, g) := Bits(f);
    match (k, m)
    case (0, 1) => a
    case (0, 2) => b
    case (0, 3) => g
    case (1, 4) => g
    case (1, 5) => b
    case (2, 5) => a
    case (2, 6) => g
    case (3, 6) => b
    case (3, 4) => a
    case (4, 7) => b
    case (5, 7) => g
    case _ => a
  }

  predicate IsStep(k: nat, m: nat) {
    match k
    case 0 => m == 1 || m == 2 || m == 3
    case 1 => m == 4 || m == 5
    case 2 => m == 5 || m == 6
    case 3 => m == 6 || m == 4
    case _ => 4 <= k <= 6 && m == 7
  }

  lemma RowEdge(c: View, k: nat, m: nat)
    requires c.front < 8 && IsStep(k, m)
    ensures var b, i, j := LocalBit(c.front, k, m), Local(c, k), Local(c, m);
            IsBit(b) && i < 8 && j == Flip(i, b)
  {
    var f := c.front;
    assert f == 0 || f == 1 || f == 2 || f == 3 || f == 4 || f == 5 || f == 6 || f == 7;
  }

  /** The point lies on the edge between neighbouring vertices i and Flip(i, b). */
  ghost predicate OnEdge(c: View, p: V, i: nat, b: nat, k: real) {
    && i < 8 && IsBit(b) && 0.0 <= k <= 1.0
    && p == Add(Corner(c, i), Scale(Sub(Corner(c, Flip(i, b)), Corner(c, i)), k))
  }

  /** For every view vector, slab and plane between the back and the front vertex, each of the
      six corners of the polygon lies on the plane and on an edge of the slab. */
  lemma CornersOnPlaneAndEdge(c: View, n: nat, d: real) returns (i: nat, b: nat, k: real)
    requires InFront(c) && Proper(c) && n < 6 && Dist(c, 7 - c.front) <= d <= Dist(c, c.front)
    ensures OnEdge(c, Position(c, n, d), i, b, k)
    ensures Dot(c.dir, Position(c, n, d)) == d
  {
    AlwaysHits(c, n, d);
    var e := FirstHit(c, n, d);
    ProperIsDeep(c);
    var l := Row(c);
    PathFalls(l, n, e);
    HitsIff(c, Local(c, Above(n, e)), Local(c, Below(n, e)), d, l[Above(n, e)], l[Below(n, e)]);
    TablesListEdges(c, n, e);
    i, b := Local(c, Above(n, e)), EdgeBit(c.front, n, e);
    k := Lambda(c, i, Flip(i, b), d);
  }

  // ---- No crossing is missed --------------------------------------------------------------

  lemma StrictIsFirst(l: seq<real>, n: nat, e: nat, d: real, k: nat)
    requires Falling(l) && |l| == 8 && n < 6 && e < 3 && (e == 0 || n % 2 == 0)
    requires l[Below(n, e)] < d < l[Above(n, e)] && k < e
    ensures !Meets(l, n, k, d)
  {
    var p, q, r :| Falls(l, p, q, r);
  }

  /** Where the tables list the edge from position k of the row across a bit. */
  function EdgeSlot(f: nat, k: nat, bit: nat): (nat, nat) {
    var (a, b, g) := Bits(f);
    match k
    case 0 => if bit == a then (0, 0) else if bit == b then (2, 0) else (4, 0)
    case 1 => if bit == g then (0, 1) else (1, 0)
    case 2 => if bit == a then (2, 1) else (3, 0)
    case 3 => if bit == b then (4, 1) else (5, 0)
    case 4 => (0, 2)
    case 5 => (2, 2)
    case _ => (4, 2)
  }

  lemma RowHasAll(c: View, i: nat) returns (k: nat)
    requires c.front < 8 && i < 8
    ensures k < 8 && Local(c, k) == i
  {
    k := if Local(c, 0) == i then 0 else if Local(c, 1) == i then 1 else if Local(c, 2) == i then 2
         else if Local(c, 3) == i then 3 else if Local(c, 4) == i then 4 else if Local(c, 5) == i then 5
         else if Local(c, 6) == i then 6 else 7;
  }

  /** All twelve edges, directed away from the front vertex, are in the tables. */
  lemma TablesListAll(c: View, k: nat, bit: nat)
    requires c.front < 8 && k < 8 && IsBit(bit) && Bit(Local(c, k), bit) == Bit(c.front, bit)
    ensures Listed(c, k, bit)
  {
    if c.front < 2 { TablesList0(c, k, bit); } else if c.front < 4 { TablesList2(c, k, bit); }
    else if c.front < 6 { TablesList4(c, k, bit); } else { TablesList6(c, k, bit); }
  }

  predicate Listed(c: View, k: nat, bit: nat) {
    var (n, e) := EdgeSlot(c.front, k, bit);
    && n < 6 && e < 3 && (e == 0 || n % 2 == 0)
    && Above(n, e) == k && Local(c, Below(n, e)) == Flip(Local(c, k), bit)
  }

  lemma TablesList0(c: View, k: nat, bit: nat)
    requires (c.front == 0 || c.front == 1) && k < 8 && IsBit(bit) && Bit(Local(c, k), bit) == Bit(c.front, bit)
    ensures Listed(c, k, bit)
  {
  }

  lemma TablesList2(c: View, k: nat, bit: nat)
    requires (c.front == 2 || c.front == 3) && k < 8 && IsBit(bit) && Bit(Local(c, k), bit) == Bit(c.front, bit)
    ensures Listed(c, k, bit)
  {
  }

  lemma TablesList4(c: View, k: nat, bit: nat)
    requires (c.front == 4 || c.front == 5) && k < 8 && IsBit(bit) && Bit(Local(c, k), bit) == Bit(c.front, bit)
    ensures Listed(c, k, bit)
  {
  }

  lemma TablesList6(c: View, k: nat, bit: nat)
    requires (c.front == 6 || c.front == 7) && k < 8 && IsBit(bit) && Bit(Local(c, k), bit) == Bit(c.front, bit)
    ensures Listed(c, k, bit)
  {
  }

  /** Every edge of the slab that the plane really crosses contributes its crossing point. */
  lemma EveryCrossingFound(c: View, i: nat, bit: nat, d: real) returns (n: nat)
    requires InFront(c) && Proper(c) && i < 8 && IsBit(bit)
    requires Dist(c, Flip(i, bit)) < d < Dist(c, i)
    ensures n < 6 && Position(c, n, d) == At(c, i, Flip(i, bit), d)
  {
    FlipDist(c, i, bit);
    DropsSink(c, bit);
    var k := RowHasAll(c, i);
    TablesListAll(c, k, bit);
    var e := EdgeSlot(c.front, k, bit).1;
    n := EdgeSlot(c.front, k, bit).0;
    ProperIsDeep(c);
    var l := Row(c);
    TriedIff(c, l, n, e, d);
    forall m | 0 <= m < e ensures !Tried(c, n, m, d) {
      StrictIsFirst(l, n, e, d, m);
      TriedIff(c, l, n, m, d);
    }
    assert FirstHit(c, n, d) == e;
  }

  // ---- Neighbouring corners ---------------------------------------------------------------

  /** The plane goes through no vertex. */
  ghost predicate Generic(l: seq<real>, d: real) {
    && |l| == 8 && l[0] != d && l[1] != d && l[2] != d && l[3] != d
    && l[4] != d && l[5] != d && l[6] != d && l[7] != d
  }

  /** The faces of the slab, as sets of row positions. */
  predicate InFace(face: nat, k: nat) {
    match face
    case 0 => k == 0 || k == 1 || k == 2 || k == 5
    case 1 => k == 0 || k == 1 || k == 3 || k == 4
    case 2 => k == 0 || k == 2 || k == 3 || k == 6
    case 3 => k == 1 || k == 4 || k == 5 || k == 7
    case 4 => k == 2 || k == 5 || k == 6 || k == 7
    case _ => k == 3 || k == 4 || k == 6 || k == 7
  }

  ghost predicate FirstMeet(l: seq<real>, n: nat, e: nat, d: real) {
    && Meets(l, n, e, d) && (e > 0 ==> !Meets(l, n, 0, d))
    && (e > 1 ==> !Meets(l, n, 1, d)) && (e > 2 ==> !Meets(l, n, 2, d))
  }

  /** A face that holds edge e of path n and edge h of the next path. */
  function SharedFace(n: nat, e: nat, h: nat): nat {
    match n
    case 0 => if e == 0 then 0 else 3
    case 1 => if h <= 1 then 0 else 3
    case 2 => if e == 0 then 0 else 4
    case 3 => if h <= 1 then 2 else 4
    case 4 => if e == 0 then 2 else 5
    case _ => if h <= 1 then 1 else 5
  }

  lemma FaceSharedEven(l: seq<real>, n: nat, e: nat, m: nat, h: nat, d: real) returns (face: nat)
    requires Falling(l) && |l| == 8 && Generic(l, d) && ((n == 0 && m == 1) || (n == 2 && m == 3) || (n == 4 && m == 5))
    requires FirstMeet(l, n, e, d) && FirstMeet(l, m, h, d)
    ensures face < 6 && InFace(face, Above(n, e)) && InFace(face, Below(n, e))
    ensures InFace(face, Above(m, h)) && InFace(face, Below(m, h))
  {
    var p, q, r :| Falls(l, p, q, r);
    face := SharedFace(n, e, h);
  }

  lemma FaceSharedOdd(l: seq<real>, n: nat, e: nat, m: nat, h: nat, d: real) returns (face: nat)
    requires Falling(l) && |l| == 8 && Generic(l, d) && ((n == 1 && m == 2) || (n == 3 && m == 4) || (n == 5 && m == 0))
    requires FirstMeet(l, n, e, d) && FirstMeet(l, m, h, d)
    ensures face < 6 && InFace(face, Above(n, e)) && InFace(face, Below(n, e))
    ensures InFace(face, Above(m, h)) && InFace(face, Below(m, h))
  {
    var p, q, r :| Falls(l, p, q, r);
    face := SharedFace(n, e, h);
  }

  /** The bit that all vertices of a face share, and its value. */
  function FaceBit(f: nat, face: nat): nat {
    var (a, b, g) := Bits(f);
    match face case 0 => g case 1 => b case 2 => a case 3 => a case 4 => b case _ => g
  }

  function FaceSide(f: nat, face: nat): bool { Bit(f, FaceBit(f, face)) == (face < 3) }

  lemma FaceVertices(c: View, face: nat, k: nat)
    requires c.front < 8 && face < 6 && k < 8 && InFace(face, k)
    ensures IsBit(FaceBit(c.front, face)) && Bit(Local(c, k), FaceBit(c.front, face)) == FaceSide(c.front, face)
  {
    var f := c.front;
    assert f == 0 || f == 1 || f == 2 || f == 3 || f == 4 || f == 5 || f == 6 || f == 7;
  }

  /** The point is on the side of the slab where the bit is set, or clear. */
  predicate OnSide(c: View, p: V, bit: nat, side: bool) {
    if bit == 1 then p.x == (if side then 1.0 else -1.0)
    else if bit == 2 then p.y == (if side then 1.0 else -1.0)
    else p.z == (if side then c.ze else c.zs)
  }

  lemma EdgeOnSide(c: View, i: nat, j: nat, d: real, bit: nat, side: bool)
    requires IsBit(bit) && Bit(i, bit) == side && Bit(j, bit) == side
    ensures OnSide(c, At(c, i, j, d), bit, side)
  {
  }

  lemma FirstMeets(c: View, l: seq<real>, n: nat, d: real)
    requires |l| == 8 && Falling(l) && (forall k :: 0 <= k < 8 ==> l[k] == Level(c, k)) && n < 6
    requires FirstHit(c, n, d) < 4
    ensures FirstMeet(l, n, FirstHit(c, n, d), d)
  {
    TriedIff(c, l, n, 0, d);
    TriedIff(c, l, n, 1, d);
    TriedIff(c, l, n, 2, d);
    TriedIff(c, l, n, 3, d);
  }

  lemma CornerOnFace(c: View, n: nat, d: real, e: nat, face: nat)
    requires c.front < 8 && face < 6 && e < 4 && e == FirstHit(c, n, d)
    requires InFace(face, Above(n, e)) && InFace(face, Below(n, e))
    ensures OnSide(c, Position(c, n, d), FaceBit(c.front, face), FaceSide(c.front, face))
    ensures IsBit(FaceBit(c.front, face))
  {
    FaceVertices(c, face, Above(n, e));
    FaceVertices(c, face, Below(n, e));
    EdgeOnSide(c, Local(c, Above(n, e)), Local(c, Below(n, e)), d, FaceBit(c.front, face), FaceSide(c.front, face));
  }

  lemma NextCorner(n: nat, m: nat)
    requires n < 6 && m == (n + 1) % 6
    ensures (n == 0 && m == 1) || (n == 2 && m == 3) || (n == 4 && m == 5)
         || (n == 1 && m == 2) || (n == 3 && m == 4) || (n == 5 && m == 0)
  {
  }

  lemma FaceShared(l: seq<real>, n: nat, e: nat, m: nat, h: nat, d: real) returns (face: nat)
    requires Falling(l) && |l| == 8 && Generic(l, d) && n < 6 && m == (n + 1) % 6
    requires FirstMeet(l, n, e, d) && FirstMeet(l, m, h, d)
    ensures face < 6 && InFace(face, Above(n, e)) && InFace(face, Below(n, e))
    ensures InFace(face, Above(m, h)) && InFace(face, Below(m, h))
  {
    NextCorner(n, m);
    if n == 0 || n == 2 || n == 4 {
      face := FaceSharedEven(l, n, e, m, h, d);
    } else {
      face := FaceSharedOdd(l, n, e, m, h, d);
    }
  }

  lemma RowIsGeneric(c: View, l: seq<real>, d: real)
    requires |l| == 8 && (forall k :: 0 <= k < 8 ==> l[k] == Level(c, k)) && forall i: nat :: i < 8 ==> Dist(c, i) != d
    ensures Generic(l, d)
  {
    RowInRange(c);
    assert Level(c, 0) != d && Level(c, 1) != d && Level(c, 2) != d && Level(c, 3) != d;
    assert Level(c, 4) != d && Level(c, 5) != d && Level(c, 6) != d && Level(c, 7) != d;
  }

  lemma EdgesShareFace(c: View, n: nat, m: nat, d: real, e: nat, h: nat) returns (face: nat)
    requires InFront(c) && Proper(c) && n < 6 && m == (n + 1) % 6 && forall i: nat :: i < 8 ==> Dist(c, i) != d
    requires e == FirstHit(c, n, d) < 4 && h == FirstHit(c, m, d) < 4
    ensures face < 6 && InFace(face, Above(n, e)) && InFace(face, Below(n, e))
    ensures InFace(face, Above(m, h)) && InFace(face, Below(m, h))
  {
    ProperIsDeep(c);
    var l := Row(c);
    RowIsGeneric(c, l, d);
    FirstMeets(c, l, n, d);
    FirstMeets(c, l, m, d);
    face := FaceShared(l, n, e, m, h, d);
  }

  /** For a plane through no vertex, the six corners in their order run around the slab:
      each lies with the next on one face. */
  lemma NeighboursShareFace(c: View, n: nat, m: nat, d: real) returns (bit: nat, side: bool)
    requires InFront(c) && Proper(c) && n < 6 && m == (n + 1) % 6
    requires Dist(c, 7 - c.front) <= d <= Dist(c, c.front) && forall i: nat :: i < 8 ==> Dist(c, i) != d
    ensures IsBit(bit) && OnSide(c, Position(c, n, d), bit, side) && OnSide(c, Position(c, m, d), bit, side)
  {
    AlwaysHits(c, n, d);
    AlwaysHits(c, m, d);
    var e, h := FirstHit(c, n, d), FirstHit(c, m, d);
    var face := EdgesShareFace(c, n, m, d, e, h);
    CornerOnFace(c, n, d, e, face);
    CornerOnFace(c, m, d, h, face);
    bit, side := FaceBit(c.front, face), FaceSide(c.front, face);
  }

  lemma RowInRange(c: View)
    ensures forall k: nat :: Local(c, k) < 8
  {
  }

  // ---- The object -------------------------------------------------------------------------

  function PlaneAt(start: real, distance: real, k: int): real { start + k as real * distance }

  function Ceil(x: real): int { -((-x).Floor) }

  class SliceClipper {
    const shaderVertices: array<real>
    var viewVec: V
    var frontIndex: nat
    var sliceDistance: real
    var planeStart: real

    ghost predicate Valid()
      reads this, shaderVertices
    {
      && shaderVertices.Length == 24 && frontIndex < 8
      && forall i: nat :: i < 8 ==> Stored(i) == Corner(AsView(), i)
    }

    function Stored(i: nat): V
      requires i < 8 && shaderVertices.Length == 24
      reads shaderVertices
    {
      Vec3(shaderVertices[i * 3], shaderVertices[i * 3 + 1], shaderVertices[i * 3 + 2])
    }

    function AsView(): View
      requires shaderVertices.Length == 24
      reads this, shaderVertices
    {
      View(Stored(0).z, Stored(7).z, viewVec, frontIndex)
    }

    constructor ()
      ensures shaderVertices.Length == 24 && fresh(shaderVertices)
    {
      shaderVertices := new real[24];
    }

    method StoreVertices(zs: real, ze: real)
      requires shaderVertices.Length == 24
      modifies shaderVertices
      ensures forall i: nat :: i < 8 ==> Stored(i) == Corner(View(zs, ze, viewVec, 0), i)
    {
      var i := 0;
      while i < 8
        invariant i <= 8
        invariant forall k: nat :: k < i ==> Stored(k) == Corner(View(zs, ze, viewVec, 0), k)
      {
        var v := Corner(View(zs, ze, viewVec, 0), i);
        shaderVertices[i * 3], shaderVertices[i * 3 + 1], shaderVertices[i * 3 + 2] := v.x, v.y, v.z;
        i := i + 1;
      }
    }

    /** Sets everything that getPosition depends on: the slab's vertices, the vertex with the
        largest distance, and the first multiple of the slice distance behind which the slab
        begins. */
    method UpdatePerFrameInfo(modelview: seq<real>, newSliceDistance: real, start: real, end: real)
      requires shaderVertices.Length == 24 && |modelview| == 16 && newSliceDistance > 0.0
      modifies this, shaderVertices
      ensures Valid() && InFront(AsView()) && sliceDistance == newSliceDistance
      ensures AsView() == View(-1.0 + 2.0 * start, -1.0 + 2.0 * end, Vec3(-modelview[2], -modelview[6], -modelview[10]), frontIndex)
      ensures PlanesStart(Dist(AsView(), 7 - frontIndex), sliceDistance, planeStart)
    {
      viewVec := Vec3(-modelview[2], -modelview[6], -modelview[10]);
      sliceDistance := newSliceDistance;
      StoreSlab(-1.0 + 2.0 * start, -1.0 + 2.0 * end);
      FindFront();
      var back := Dot(viewVec, Stored(opposite[frontIndex]));
      OppositeIs(frontIndex);
      planeStart := StartPlane(back, sliceDistance);
      FirstPlane(back, sliceDistance, planeStart);
    }

    method StoreSlab(zs: real, ze: real)
      requires shaderVertices.Length == 24
      modifies this`frontIndex, shaderVertices
      ensures Valid() && AsView() == View(zs, ze, viewVec, 0)
    {
      frontIndex := 0;
      StoreVertices(zs, ze);
      assert Stored(0).z == zs && Stored(7).z == ze;
    }

    method FindFront()
      requires Valid() && frontIndex == 0
      modifies this`frontIndex
      ensures Valid() && InFront(AsView())
    {
      ghost var c := AsView();
      var maxDist := Dot(viewVec, Stored(0));
      var i := 1;
      while i < 8
        invariant 1 <= i <= 8 && frontIndex < 8 && maxDist == Dist(c, frontIndex)
        invariant forall k: nat :: k < i ==> Dist(c, k) <= maxDist
        invariant AsView() == c.(front := frontIndex)
      {
        var dist := Dot(viewVec, Stored(i));
        assert Stored(i) == Corner(c, i);
        if dist > maxDist {
          maxDist := dist;
          frontIndex := i;
        }
        i := i + 1;
      }
      FrontFree(c, frontIndex);
    }

    /** Where the edge between two vertices meets the plane, if it does. */
    method Intersect(vidx1: nat, vidx2: nat, planeDist: real) returns (hit: bool, p: V)
      requires Valid() && vidx1 < 8 && vidx2 < 8
      ensures hit <==> Hits(AsView(), vidx1, vidx2, planeDist)
      ensures p == At(AsView(), vidx1, vidx2, planeDist)
    {
      var vecStart := Stored(vidx1);
      var vecDir := Sub(Stored(vidx2), vecStart);
      var denom := Dot(vecDir, viewVec);
      var lambda := if denom != 0.0 then (planeDist - Dot(vecStart, viewVec)) / denom else -1.0;
      assert lambda == Lambda(AsView(), vidx1, vidx2, planeDist);
      hit := 0.0 <= lambda <= 1.0;
      p := Add(vecStart, Scale(vecDir, lambda));
    }

    method Search(vertexNum: nat, planeDist: real) returns (position: V)
      requires Valid() && vertexNum < 6
      ensures position == Position(AsView(), vertexNum, planeDist)
    {
      ghost var c := AsView();
      RowInRange(c);
      position := Vec3(0.0, 0.0, 0.0);
      var e := 0;
      while e < 4
        invariant e <= 4
        invariant forall k :: 0 <= k < e ==> !Tried(c, vertexNum, k, planeDist)
      {
        var hit, p := Intersect(Sequence(frontIndex)[V1(vertexNum)[e]], Sequence(frontIndex)[V2(vertexNum)[e]], planeDist);
        assert hit <==> Tried(c, vertexNum, e, planeDist);
        if hit {
          FirstHitIs(c, vertexNum, planeDist, e);
          return p;
        }
        e := e + 1;
      }
      FirstHitIs(c, vertexNum, planeDist, e);
    }

    /** Corner vertexNum of the polygon in which slice sliceNum cuts the slab. */
    method GetPosition(vertexNum: nat, sliceNum: int) returns (position: V)
      requires Valid() && vertexNum < 6
      ensures position == Position(AsView(), vertexNum, PlaneAt(planeStart, sliceDistance, sliceNum))
    {
      var planeDist := PlaneAt(planeStart, sliceDistance, sliceNum);
      position := Search(vertexNum, planeDist);
    }
  }

  lemma FirstHitIs(c: View, n: nat, d: real, e: nat)
    requires e <= 4 && (e < 4 ==> Tried(c, n, e, d)) && forall k :: 0 <= k < e ==> !Tried(c, n, k, d)
    ensures FirstHit(c, n, d) == e
  {
    var h := FirstHit(c, n, d);
  }

  lemma OppositeIs(f: nat)
    requires f < 8
    ensures opposite[f] == 7 - f
  {
  }

  /** The front vertex does not enter the distances. */
  lemma FrontFree(c: View, f: nat)
    ensures forall i: nat :: Dist(c.(front := f), i) == Dist(c, i)
  {
  }

  // ---- The slices -------------------------------------------------------------------------

  predicate IsMultiple(x: real, distance: real, k: int) { x == k as real * distance }

  /** start is the first multiple of the slice distance that is not below back. */
  ghost predicate PlanesStart(back: real, distance: real, start: real) {
    && (exists k: int :: IsMultiple(start, distance, k))
    && back <= start < back + distance
  }

  lemma Between(q: real, x: real, distance: real, low: real, y: real)
    requires distance > 0.0 && q <= x < q + 1.0 && low == q * distance && y == x * distance
    ensures low <= y < low + distance
  {
    var s, t := x - q, q + 1.0 - x;
    assert s * distance >= 0.0;
    assert t * distance > 0.0;
    assert s * distance == y - low;
    assert t * distance == low + distance - y;
  }

  function StartPlane(back: real, distance: real): real
    requires distance > 0.0
  {
    Ceil(back / distance) as real * distance
  }

  lemma FirstPlane(back: real, distance: real, start: real)
    requires distance > 0.0 && start == StartPlane(back, distance)
    ensures PlanesStart(back, distance, start)
  {
    var q := back / distance;
    var x := Ceil(q) as real;
    assert q * distance == back;
    Between(q, x, distance, back, start);
    assert IsMultiple(start, distance, Ceil(q));
  }

  /** A search finds an edge exactly when the slab has some depth and the plane lies between the
      back and the front vertex. */
  lemma HitsExactly(c: View, n: nat, d: real)
    requires InFront(c) && n < 6
    ensures FirstHit(c, n, d) < 4 <==> Deep(c) && Dist(c, 7 - c.front) <= d <= Dist(c, c.front)
  {
    var e := FirstHit(c, n, d);
    if Deep(c) {
      var l := Row(c);
      if e < 4 {
        TriedIff(c, l, n, e, d);
        RowEnds(l, Above(n, e));
        RowEnds(l, Below(n, e));
      } else if l[7] <= d <= l[0] {
        var k := PathMeets(l, n, d);
        TriedIff(c, l, n, k, d);
      }
    } else if e < 4 {
      FlatMissed(c, n, e, d);
    }
  }

  lemma FlatMissed(c: View, n: nat, e: nat, d: real)
    requires InFront(c) && !Deep(c) && n < 6 && e < 4
    ensures !Tried(c, n, e, d)
  {
    var a, b := Above(n, e), Below(n, e);
    FlatLevel(c, a);
    FlatLevel(c, b);
    HitsIff(c, Local(c, a), Local(c, b), d, Level(c, a), Level(c, b));
  }

  lemma FlatLevel(c: View, k: nat)
    requires InFront(c) && !Deep(c) && k < 8
    ensures Level(c, k) == Level(c, 0)
  {
    var p, q, r := Drops(c);
    RowIs(c);
    assert p == q == r == 0.0;
  }

  /** A plane that misses the slab leaves no polygon: all six corners are the origin. */
  lemma MissedIsEmpty(c: View, n: nat, d: real)
    requires InFront(c) && n < 6 && (d < Dist(c, 7 - c.front) || d > Dist(c, c.front) || !Deep(c))
    ensures Position(c, n, d) == Vec3(0.0, 0.0, 0.0)
  {
    HitsExactly(c, n, d);
  }

  lemma RowEnds(l: seq<real>, k: nat)
    requires |l| == 8 && Falling(l) && k < 8
    ensures l[7] <= l[k] <= l[0]
  {
    var p, q, r :| Falls(l, p, q, r);
  }

  lemma MulSign(a: real, b: real)
    requires b >= 0.0
    ensures (a >= 0.0 ==> a * b >= 0.0) && (a <= 0.0 ==> a * b <= 0.0)
  {
  }

  lemma PositiveFactor(a: real, b: real)
    requires b > 0.0 && a * b > 0.0
    ensures a > 0.0
  {
    MulSign(a, b);
  }

  lemma TwiceProduct(u: real, v: real)
    ensures 2.0 * (u * v) <= u * u + v * v
  {
    assert (u - v) * (u - v) == u * u - 2.0 * (u * v) + v * v;
  }

  lemma Square3(u: real, v: real, w: real)
    ensures (u + v + w) * (u + v + w) == u * u + v * v + w * w + 2.0 * (u * v) + 2.0 * (u * w) + 2.0 * (v * w)
  {
  }

  lemma Squares(s: real, k: real)
    requires s > k > 0.0
    ensures s * s > k * k
  {
    assert s * s - k * k == (s - k) * (s + k);
  }

  lemma SumBound(u: real, v: real, w: real)
    requires u >= 0.0 && v >= 0.0 && w >= 0.0 && u * u + v * v + w * w <= 1.0
    ensures u + v + w <= 1.7321
  {
    var s := u + v + w;
    TwiceProduct(u, v);
    TwiceProduct(u, w);
    TwiceProduct(v, w);
    Square3(u, v, w);
    if s > 1.7321 { Squares(s, 1.7321); }
  }

  lemma SlabDepth(c: View)
    requires InFront(c) && -1.0 <= c.zs && c.zs < c.ze <= 1.0 && SquaredLength(c.dir) <= 1.0
    ensures Dist(c, c.front) - Dist(c, 7 - c.front) <= 3.4642
  {
    ThreeFlips(c, 1, 2, 4);
    DropsSink(c, 1);
    DropsSink(c, 2);
    DropsSink(c, 4);
    var x, y, z := Abs(c.dir.x), Abs(c.dir.y), Abs(c.dir.z);
    DropIs(c);
    assert x * x == c.dir.x * c.dir.x && y * y == c.dir.y * c.dir.y && z * z == c.dir.z * c.dir.z;
    SumBound(x, y, z);
  }

  function Abs(x: real): real { if x < 0.0 then -x else x }

  lemma DropIs(c: View)
    requires InFront(c) && -1.0 <= c.zs && c.zs < c.ze <= 1.0
    ensures Drop(c, 1) <= 2.0 * Abs(c.dir.x) && Drop(c, 2) <= 2.0 * Abs(c.dir.y) && Drop(c, 4) <= 2.0 * Abs(c.dir.z)
  {
    var h, z := c.ze - c.zs, c.dir.z;
    var g := 2.0 - h;
    assert z * h + z * g == 2.0 * z;
    MulSign(z, h);
    MulSign(z, g);
  }

  /** The renderer draws the slices 0 .. 3.6 / distance - 1. */
  function NumberOfSlices(distance: real): int
    requires distance > 0.0
  {
    (3.6 / distance).Floor
  }

  /** The k-th multiple of the slice distance meets the slab between back and front. */
  ghost predicate Cuts(back: real, front: real, distance: real, k: int) { back <= k as real * distance <= front }

  ghost predicate IsDrawn(start: real, distance: real, n: int, k: int) {
    exists s: int :: IsSlice(start, distance, n, k, s)
  }

  predicate IsSlice(start: real, distance: real, n: int, k: int, s: int) {
    0 <= s < n && PlaneAt(start, distance, s) == k as real * distance
  }

  ghost predicate AllDrawn(back: real, front: real, distance: real, start: real, n: int) {
    forall k: int :: Cuts(back, front, distance, k) ==> IsDrawn(start, distance, n, k)
  }

  /** All planes that meet the slab are drawn exactly when the first plane that is not drawn
      lies in front of the front vertex. */
  lemma SlicesDrawnIff(back: real, front: real, distance: real, start: real, n: int)
    requires distance > 0.0 && n == NumberOfSlices(distance) && PlanesStart(back, distance, start)
    ensures AllDrawn(back, front, distance, start, n) <==> front < PlaneAt(start, distance, n)
  {
    var j: int :| IsMultiple(start, distance, j);
    if front < PlaneAt(start, distance, n) {
      SlicesSuffice(back, front, distance, start, n, j);
    } else {
      ManySlices(distance, n);
      FirstMissing(distance, start, j, n, j + n);
      NotDrawn(back, front, distance, start, n, j + n);
    }
  }

  lemma SlicesSuffice(back: real, front: real, distance: real, start: real, n: int, j: int)
    requires distance > 0.0 && IsMultiple(start, distance, j) && back <= start < back + distance
    requires front < PlaneAt(start, distance, n)
    ensures AllDrawn(back, front, distance, start, n)
  {
    forall k: int | Cuts(back, front, distance, k) ensures IsDrawn(start, distance, n, k) {
      var s := k - j;
      SliceOf(distance, start, j, k, back, front, s, n);
      assert IsSlice(start, distance, n, k, s);
    }
  }

  lemma NotDrawn(back: real, front: real, distance: real, start: real, n: int, k: int)
    requires distance > 0.0 && back <= start && k as real * distance == PlaneAt(start, distance, n) && start <= PlaneAt(start, distance, n) <= front
    ensures !AllDrawn(back, front, distance, start, n)
  {
    assert Cuts(back, front, distance, k);
    forall s: int ensures !IsSlice(start, distance, n, k, s) {
      SameSlice(distance, start, s, n);
    }
  }

  lemma ManySlices(distance: real, n: int)
    requires distance > 0.0 && n == NumberOfSlices(distance)
    ensures n >= 0
  {
    var q := 3.6 / distance;
    assert q * distance == 3.6;
    PositiveFactor(q, distance);
  }

  lemma SliceOf(distance: real, start: real, j: int, k: int, back: real, front: real, s: int, n: int)
    requires distance > 0.0 && start == j as real * distance && back <= start < back + distance && s == k - j
    requires back <= k as real * distance <= front < PlaneAt(start, distance, n)
    ensures 0 <= s < n && PlaneAt(start, distance, s) == k as real * distance
  {
    var x, y := s as real, n as real;
    assert x * distance == k as real * distance - start;
    assert (x + 1.0) * distance == x * distance + distance;
    PositiveFactor(x + 1.0, distance);
    assert (y - x) * distance == y * distance - x * distance;
    PositiveFactor(y - x, distance);
  }

  lemma FirstMissing(distance: real, start: real, j: int, n: int, k: int)
    requires distance > 0.0 && n >= 0 && start == j as real * distance && k == j + n
    ensures k as real * distance == PlaneAt(start, distance, n) >= start
  {
    var y := n as real;
    MulSign(y, distance);
    assert k as real == j as real + y;
    assert (j as real + y) * distance == j as real * distance + y * distance;
  }

  lemma SameSlice(distance: real, start: real, s: int, n: int)
    requires distance > 0.0
    ensures PlaneAt(start, distance, s) == PlaneAt(start, distance, n) ==> s == n
  {
    var d := s as real - n as real;
    assert d * distance == s as real * distance - n as real * distance;
    if d > 0.0 { assert d * distance > 0.0; } else if d < 0.0 { assert (-d) * distance > 0.0; }
  }

  /** With a view vector not longer than one and slices no further apart than 0.13 the renderer
      draws every plane that meets the slab. */
  lemma AllSlicesDrawn(c: View, distance: real, start: real, n: int)
    requires InFront(c) && -1.0 <= c.zs && c.zs < c.ze <= 1.0 && SquaredLength(c.dir) <= 1.0
    requires 0.0 < distance <= 0.13 && PlanesStart(Dist(c, 7 - c.front), distance, start) && n == NumberOfSlices(distance)
    ensures AllDrawn(Dist(c, 7 - c.front), Dist(c, c.front), distance, start, n)
  {
    SlabDepth(c);
    EnoughForDepth(Dist(c, 7 - c.front), Dist(c, c.front), distance, start, n);
  }

  lemma EnoughForDepth(back: real, front: real, distance: real, start: real, n: int)
    requires front - back <= 3.4642 && 0.0 < distance <= 0.13
    requires PlanesStart(back, distance, start) && n == NumberOfSlices(distance)
    ensures AllDrawn(back, front, distance, start, n)
  {
    EnoughSlices(distance, n);
    SlicesDrawnIff(back, front, distance, start, n);
  }

  lemma EnoughSlices(distance: real, n: int)
    requires 0.0 < distance && n == NumberOfSlices(distance)
    ensures n as real * distance > 3.6 - distance
  {
    var q, x := 3.6 / distance, n as real;
    var gap := x + 1.0 - q;
    assert q * distance == 3.6;
    assert gap * distance > 0.0;
    assert gap * distance == x * distance + distance - q * distance;
  }

  /** With the distance that the renderer computes, 3.6 divided by resolution times precision,
      every plane that meets the slab is drawn, however few slices there are. */
  lemma RendererDrawsAll(c: View, steps: nat, distance: real, start: real, n: int)
    requires InFront(c) && -1.0 <= c.zs && c.zs < c.ze <= 1.0 && SquaredLength(c.dir) <= 1.0
    requires steps > 0 && distance == 3.6 / steps as real && n == NumberOfSlices(distance)
    requires PlanesStart(Dist(c, 7 - c.front), distance, start)
    ensures AllDrawn(Dist(c, 7 - c.front), Dist(c, c.front), distance, start, n)
  {
    SlabDepth(c);
    StepsSuffice(Dist(c, 7 - c.front), Dist(c, c.front), steps, distance, start, n);
  }

  /** So it does for every volume: the view vector comes from the head transform, the volume's
      proportions and the rotation. */
  lemma VolumeDrawn(c: View, m: seq<real>, head: seq<real>, mv: seq<real>, rotation: seq<real>, width: nat, height: nat,
                    depth: nat, scaling: V, steps: nat, distance: real, start: real, n: int)
    requires width > 0 && height > 0 && depth > 0 && scaling.x > 0.0 && scaling.y > 0.0 && scaling.z > 0.0
    requires Modelview.IsRotation(head) && Modelview.IsRotation(rotation) && Modelview.IsProduct(m, head, mv)
    requires Modelview.IsScaled(mv, Modelview.Proportions(width, height, depth, scaling), rotation)
    requires InFront(c) && -1.0 <= c.zs && c.zs < c.ze <= 1.0 && c.dir == Modelview.ViewVector(m)
    requires steps > 0 && distance == 3.6 / steps as real && n == NumberOfSlices(distance)
    requires PlanesStart(Dist(c, 7 - c.front), distance, start)
    ensures AllDrawn(Dist(c, 7 - c.front), Dist(c, c.front), distance, start, n)
  {
    Modelview.ProportionsInUnit(width, height, depth, scaling);
    Modelview.ViewVectorShort(m, head, mv, Modelview.Proportions(width, height, depth, scaling), rotation);
    RendererDrawsAll(c, steps, distance, start, n);
  }

  lemma StepsSuffice(back: real, front: real, steps: nat, distance: real, start: real, n: int)
    requires front - back <= 3.4642 && steps > 0 && distance == 3.6 / steps as real
    requires n == NumberOfSlices(distance) && PlanesStart(back, distance, start)
    ensures AllDrawn(back, front, distance, start, n)
  {
    StepsBack(steps, distance);
    SlicesDrawnIff(back, front, distance, start, n);
  }

  lemma StepsBack(steps: nat, distance: real)
    requires steps > 0 && distance == 3.6 / steps as real
    ensures distance > 0.0 && NumberOfSlices(distance) == steps && steps as real * distance == 3.6
  {
    var x := steps as real;
    assert x * distance == 3.6;
    assert distance > 0.0;
    assert 3.6 / distance == x;
  }

  /** A distance of another kind can leave a plane out: 1.3 gives two slices, and the plane at
      1.3 is the third. */
  lemma WideSlicesMissed(c: View)
    requires c == View(-1.0, 1.0, Vec3(2.0 / 3.0, 2.0 / 3.0, 1.0 / 3.0), 7)
    ensures InFront(c) && SquaredLength(c.dir) == 1.0 && NumberOfSlices(1.3) == 2 && PlanesStart(Dist(c, 0), 1.3, -1.3)
    ensures !AllDrawn(Dist(c, 0), Dist(c, 7), 1.3, -1.3, 2)
  {
    assert Dist(c, 0) == -5.0 / 3.0 && Dist(c, 7) == 5.0 / 3.0;
    assert IsMultiple(-1.3, 1.3, -1);
    assert 2.0 <= 3.6 / 1.3 < 3.0;
    SlicesDrawnIff(Dist(c, 0), Dist(c, 7), 1.3, -1.3, 2);
  }
}
