/** Distributing a model (examples/eqPly/vertexBufferDist.cpp): every kd-tree node is
    registered as an object of its own, linked to its children by their IDs, and rebuilt
    on other machines by mapping the root ID and, recursively, the children it names. */
module Distribution {
  import opened MeshTypes

  /** What only the root object carries. */
  datatype RootData<F> = RootData(buffers: Buffers<F>, name: string)

  /** The typed values in an instance data stream. */
  datatype Item<F> =
    | Flag(flag: bool) | Id(id: nat) | Text(text: string)
    | Vectors(vectors: seq<Vec3<F>>) | Colors(colors: seq<Color>) | Shorts(shorts: seq<nat>)
    | Corner(corner: Vec3<F>) | Word(word: nat) | Short16(short: nat)
    | Bounds(sphere: Sphere<F>) | Extent(range: Range<F>)

  // ---- One object ------------------------------------------------------------------------

  function RootItems<F>(d: RootData<F>): seq<Item<F>> {
    [Vectors(d.buffers.vertices), Colors(d.buffers.colors), Vectors(d.buffers.normals), Shorts(d.buffers.indices),
     Text(d.name)]
  }

  /** getInstanceData of an inner node with children l and r; root is given at the root. */
  function NodeItems<F>(t: Tree<F>, l: nat, r: nat, root: Option<RootData<F>>): seq<Item<F>>
    requires t.Node?
  {
    [Flag(root.Some?), Id(l), Id(r)] + (if root.Some? then RootItems(root.value) else []) + [Bounds(t.sphere), Extent(t.range)]
  }

  /** getInstanceData of a leaf, whose child IDs are zero. */
  function LeafItems<F>(t: Tree<F>): seq<Item<F>>
    requires t.Leaf?
  {
    [Flag(false), Id(0), Id(0), Corner(t.box.lo), Corner(t.box.hi), Word(t.vertexStart), Word(t.indexStart),
     Word(t.indexLength), Short16(t.vertexLength), Bounds(t.sphere), Extent(t.range)]
  }

  /** What applyInstanceData extracts from a stream. */
  datatype Instance<F> =
    | NodeInstance(left: nat, right: nat, root: Option<RootData<F>>, sphere: Sphere<F>, range: Range<F>)
    | LeafInstance(leaf: Tree<F>)
    | Garbled

  function DecodeRoot<F>(s: seq<Item<F>>): Option<RootData<F>> {
    if |s| == 5 && s[0].Vectors? && s[1].Colors? && s[2].Vectors? && s[3].Shorts? && s[4].Text?
    then Some(RootData(Buffers(s[0].vectors, s[1].colors, s[2].vectors, s[3].shorts), s[4].text))
    else None
  }

  /** The reading order of applyInstanceData: flag, child IDs, then by case; sphere and
      range come last. */
  function Decode<F>(s: seq<Item<F>>): Instance<F> {
    if |s| < 5 || !s[0].Flag? || !s[1].Id? || !s[2].Id? then Garbled else
      var n := |s| - 2;
      if !s[n].Bounds? || !s[n + 1].Extent? then Garbled
      else if s[1].id != 0 && s[2].id != 0 then
        if !s[0].flag then
          if n == 3 then NodeInstance(s[1].id, s[2].id, None, s[n].sphere, s[n + 1].range) else Garbled
        else
          var root := DecodeRoot(s[3..n]);
          if root.Some? then NodeInstance(s[1].id, s[2].id, root, s[n].sphere, s[n + 1].range) else Garbled
      else if n == 9 && !s[0].flag && s[3].Corner? && s[4].Corner? && s[5].Word? && s[6].Word? && s[7].Word? && s[8].Short16? then
        LeafInstance(Leaf(s[n].sphere, s[n + 1].range, Box(s[3].corner, s[4].corner),
                          s[5].word, s[8].short, s[6].word, s[7].word))
      else Garbled
  }

  lemma DecodeOfNode<F>(t: Tree<F>, l: nat, r: nat, root: Option<RootData<F>>)
    requires t.Node? && l != 0 && r != 0
    ensures Decode(NodeItems(t, l, r, root)) == NodeInstance(l, r, root, t.sphere, t.range)
  {
    var s := NodeItems(t, l, r, root);
    if root.Some? {
      assert s[3..|s| - 2] == RootItems(root.value);
    }
  }

  lemma DecodeOfLeaf<F>(t: Tree<F>)
    requires t.Leaf?
    ensures Decode(LeafItems(t)) == LeafInstance(t)
  {
  }

  /** The stream of an inner node is determined by what is extracted from it; both its child IDs
      are different from zero. */
  lemma ItemsOfNode<F>(s: seq<Item<F>>, t: Tree<F>)
    requires Decode(s).NodeInstance? && t.Node? && t.sphere == Decode(s).sphere && t.range == Decode(s).range
    ensures Decode(s).left != 0 && Decode(s).right != 0 && s == NodeItems(t, Decode(s).left, Decode(s).right, Decode(s).root)
  {
    var n := |s| - 2;
    if s[0].flag {
      var r := s[3..n];
      assert r == RootItems(Decode(s).root.value);
      assert s == s[..3] + r + s[n..];
    }
  }

  /** So is that of a leaf, which has a child ID of zero; of those that a leaf writes, both are. */
  lemma ItemsOfLeaf<F>(s: seq<Item<F>>)
    requires Decode(s).LeafInstance?
    ensures Decode(s).leaf.Leaf? && (s[1] == Id(0) || s[2] == Id(0)) && s == LeafItems(Decode(s).leaf)[1 := s[1]][2 := s[2]]
    ensures LeafItems(Decode(s).leaf)[1] == LeafItems(Decode(s).leaf)[2] == Id(0)
  {
  }

  // ---- The registered tree ---------------------------------------------------------------

  type Objects<F> = map<nat, seq<Item<F>>>

  /** The object with this ID, and those it links to, describe t. */
  ghost predicate Describes<F>(o: Objects<F>, id: nat, t: Tree<F>, root: Option<RootData<F>>)
    decreases t
  {
    && id != 0 && id in o
    && match t
       case Leaf(_, _, _, _, _, _, _) => root == None && o[id] == LeafItems(t)
       case Node(_, _, l, r) =>
         var s := o[id];
         && |s| > 2 && s[1].Id? && s[2].Id? && s == NodeItems(t, s[1].id, s[2].id, root)
         && Describes(o, s[1].id, l, None) && Describes(o, s[2].id, r, None)
  }

  ghost predicate Contains<F>(small: Objects<F>, big: Objects<F>) {
    forall id :: id in small ==> id in big && big[id] == small[id]
  }

  lemma {:induction false} DescribesMore<F>(o: Objects<F>, big: Objects<F>, id: nat, t: Tree<F>, root: Option<RootData<F>>)
    requires Describes(o, id, t, root) && Contains(o, big)
    ensures Describes(big, id, t, root)
    decreases t
  {
    if t.Node? {
      DescribesMore(o, big, o[id][1].id, t.left, None);
      DescribesMore(o, big, o[id][2].id, t.right, None);
    }
  }

  /** What the instance data of a described object decodes to. */
  lemma DecodeOfDescribed<F>(o: Objects<F>, id: nat, t: Tree<F>, root: Option<RootData<F>>)
    requires Describes(o, id, t, root)
    ensures match t
      case Leaf(_, _, _, _, _, _, _) => root == None && Decode(o[id]) == LeafInstance(t)
      case Node(_, _, l, r) =>
        Decode(o[id]) == NodeInstance(o[id][1].id, o[id][2].id, root, t.sphere, t.range)
  {
    if t.Node? {
      DecodeOfNode(t, o[id][1].id, o[id][2].id, root);
    } else {
      DecodeOfLeaf(t);
    }
  }

  /** A set of objects describes one tree at most: an ID determines shape, extents, boxes,
      spheres, ranges and root data of everything below it. */
  lemma {:induction false} DescribesOne<F>(o: Objects<F>, id: nat, t: Tree<F>, root: Option<RootData<F>>,
                                           u: Tree<F>, other: Option<RootData<F>>)
    requires Describes(o, id, t, root) && Describes(o, id, u, other)
    ensures t == u && root == other
    decreases t
  {
    DecodeOfDescribed(o, id, t, root);
    DecodeOfDescribed(o, id, u, other);
    if t.Node? {
      DescribesOne(o, o[id][1].id, t.left, None, u.left, None);
      DescribesOne(o, o[id][2].id, t.right, None, u.right, None);
    }
  }

  /** The UUID generator: never zero, never an ID in use. */
  ghost predicate FreshIds(gen: set<nat> -> nat) {
    forall used: set<nat> :: gen(used) != 0 && gen(used) !in used
  }

  /** The objects known to the node that owns the model. */
  class Registry<F> {
    var objects: Objects<F>
    var used: set<nat>

    constructor ()
      ensures objects == map[] && used == {}
    {
      objects, used := map[], {};
    }

    ghost predicate Valid() reads this { objects.Keys <= used }

    /** registerTree: this object first, then the left and the right subtree. Instance data
        is asked for only later, when all children have their IDs. */
    method RegisterTree(gen: set<nat> -> nat, t: Tree<F>, root: Option<RootData<F>>) returns (id: nat)
      requires Valid() && FreshIds(gen) && (t.Leaf? ==> root == None)
      modifies this
      ensures Valid() && Describes(objects, id, t, root) && id !in old(used)
      ensures Contains(old(objects), objects) && old(used) <= used && id in used
      ensures objects.Keys * old(used) == old(objects).Keys
      decreases t
    {
      id := gen(used);
      used := used + {id};
      match t
      case Leaf(_, _, _, _, _, _, _) =>
        objects := objects[id := LeafItems(t)];
      case Node(_, _, l, r) =>
        var left := RegisterTree(gen, l, None);
        ghost var o1 := objects;
        var right := RegisterTree(gen, r, None);
        ghost var o2 := objects;
        objects := objects[id := NodeItems(t, left, right, root)];
        DescribesMore(o1, objects, left, l, None);
        DescribesMore(o2, objects, right, r, None);
    }
  }

  // ---- Loading ---------------------------------------------------------------------------

  /** A rebuilt object and what it brought along for the root. */
  datatype Loaded<F> = Loaded(tree: Tree<F>, root: Option<RootData<F>>)

  /** Mapping one object: apply its instance data, mapping its children on the way. The
      described tree is what the recursion descends on. */
  method MapObject<F>(o: Objects<F>, id: nat, ghost t: Tree<F>, ghost root: Option<RootData<F>>) returns (r: Loaded<F>)
    requires Describes(o, id, t, root)
    ensures r == Loaded(t, root)
    decreases t
  {
    var instance := Decode(o[id]);
    DecodeOfDescribed(o, id, t, root);
    match instance
    case NodeInstance(leftId, rightId, rootData, sphere, range) =>
      var left := MapObject(o, leftId, t.left, None);
      var right := MapObject(o, rightId, t.right, None);
      r := Loaded(Node(sphere, range, left.tree, right.tree), rootData);
    case LeafInstance(leaf) =>
      r := Loaded(leaf, None);
  }

  /** loadModel: mapping fails exactly when the ID is not known to the master. */
  method LoadModel<F>(o: Objects<F>, id: nat, ghost t: Tree<F>, ghost root: RootData<F>) returns (r: Option<Loaded<F>>)
    requires id in o ==> Describes(o, id, t, Some(root))
    ensures r == if id in o then Some(Loaded(t, Some(root))) else None
  {
    if id !in o {
      return None;
    }
    var l := MapObject(o, id, t, Some(root));
    r := Some(l);
  }

  /** Distributing a model rebuilds it: the same tree, buffers and name, whatever else the
      registry already held. */
  method Distribute<F>(registry: Registry<F>, gen: set<nat> -> nat, t: Tree<F>, root: RootData<F>) returns (r: Option<Loaded<F>>)
    requires registry.Valid() && FreshIds(gen) && t.Node?
    modifies registry
    ensures registry.Valid() && r == Some(Loaded(t, Some(root)))
  {
    var id := registry.RegisterTree(gen, t, Some(root));
    r := LoadModel(registry.objects, id, t, root);
  }
}
