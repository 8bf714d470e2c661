/** The root of the kd-tree (examples/eqPly/vertexBufferRoot.cpp): the whole build, and the object
    that carries it out. */
module MeshRoot {
  import opened MeshTypes
  import opened VertexData
  import opened KdSpec
  import opened KdRanges
  import opened KdSpheres
  import opened KdTree

  const NoBuffers: Buffers<real> := Buffers([], [], [], [])

  /** VertexBufferRoot::setupTree, before spheres and ranges are updated. */
  function RootOutcome(rules: Rules, m: Mesh, tris: seq<Triangle>): Outcome
    requires |tris| > 1
  {
    Build(rules, m, tris, false, LongestAxis(m, tris), 0, NoBuffers)
  }

  /** The finished tree and buffers. */
  datatype Model = Model(tree: Tree<real>, buffers: Buffers<real>)

  function Finish(sqrt: real -> real, o: Outcome): Model
    requires |o.buffers.indices| > 0
  {
    Model(WithRange(WithSpheres(sqrt, o.tree, o.buffers), |o.buffers.indices|), o.buffers)
  }

  lemma RootIndices(rules: Rules, m: Mesh, tris: seq<Triangle>)
    requires rules.Valid() && |tris| > 1
    ensures |RootOutcome(rules, m, tris).buffers.indices| == 3 * |tris|
  {
    BuildTiles(rules, m, tris, false, LongestAxis(m, tris), 0, NoBuffers);
  }

  /** What setupTree of a node yields over the whole array. */
  lemma WholeArray(rules: Rules, m: Mesh, was: seq<Triangle>, axis: Axis, n: nat, now: seq<Triangle>, tree: Tree<real>,
                   g: Buffers<real>)
    requires |was| == |now| == n > 1 && axis == LongestAxis(m, was[0..n])
    requires Yields(Outcome(now[0..n], tree, g), rules, m, was[0..n], false, axis, 0, NoBuffers)
    ensures Outcome(now, tree, g) == RootOutcome(rules, m, was)
  {
    assert was[0..n] == was && now[0..n] == now;
    OpenYields(Outcome(now, tree, g), rules, m, was, false, axis, 0, NoBuffers);
  }

  /** VertexBufferRoot. */
  class Root {
    var node: TreeNode
    var data: BufferData

    constructor ()
      ensures fresh(node) && fresh(data)
      ensures !node.isLeaf && node.sphere == NoSphere && node.range == FullRange && node.box == Box(Origin, Origin)
    {
      node := new TreeNode(false);
      data := new BufferData();
    }

    /** setupTree: build from the longest axis, then update spheres and ranges. */
    method SetupTree(rules: Rules, sqrt: real -> real, mesh: Data)
      requires rules.Valid() && |mesh.triangles| > 1
      requires !node.isLeaf && node.sphere == NoSphere && node.range == FullRange && node.box == Box(Origin, Origin)
      modifies node, data, mesh
      ensures node.Valid() && node == old(node) && data == old(data)
      ensures var o := RootOutcome(rules, mesh.mesh, old(mesh.triangles));
        && mesh.triangles == o.tris
        && |o.buffers.indices| > 0 && Model(node.Value(), data.Value()) == Finish(sqrt, o)
    {
      ghost var was := mesh.triangles;
      RootIndices(rules, mesh.mesh, was);
      BuildTree(rules, mesh);
      node.UpdateBoundingSphere(sqrt, data);
      node.UpdateRange(data);
    }

    /** setupTree without its last two calls. */
    method BuildTree(rules: Rules, mesh: Data)
      requires rules.Valid() && |mesh.triangles| > 1
      requires !node.isLeaf && node.sphere == NoSphere && node.range == FullRange && node.box == Box(Origin, Origin)
      modifies node, data, mesh
      ensures node.Valid() && node == old(node) && data == old(data) && fresh(node.repr - {node})
      ensures Outcome(mesh.triangles, node.Value(), data.Value()) == RootOutcome(rules, mesh.mesh, old(mesh.triangles))
    {
      ghost var was := mesh.triangles;
      data.Clear();
      var n := |mesh.triangles|;
      var axis := mesh.GetLongestAxis(0, n);
      node.SetupTree(rules, mesh, 0, n, axis, 0, data, n);
      WholeArray(rules, mesh.mesh, was, axis, n, mesh.triangles, node.Value(), data.Value());
    }
  }
}
