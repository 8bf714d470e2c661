/** The value types of the eqPly mesh classes (examples/eqPly/typedefs.h).
    They are generic in the representation F of a float: the geometry uses
    exact reals, the binary file format uses 32-bit patterns. */
module MeshTypes {

  datatype Option<T> = None | Some(value: T)

  datatype Vec3<F> = Vec3(x: F, y: F, z: F)

  datatype Sphere<F> = Sphere(center: Vec3<F>, radius: F)

  datatype Box<F> = Box(lo: Vec3<F>, hi: Vec3<F>)

  datatype Range<F> = Range(lo: F, hi: F)

  datatype Color = Color(r: nat, g: nat, b: nat, a: nat)

  /** AXIS_X, AXIS_Y and AXIS_Z are 0, 1 and 2. */
  type Axis = a: nat | a < 3

  /** A triangle: three indices into the vertex arrays. */
  datatype Triangle = Triangle(a: nat, b: nat, c: nat) {
    function At(v: nat): nat
      requires v < 3
    {
      if v == 0 then a else if v == 1 then b else c
    }
  }

  /** The value of a kd-tree node object, with the fields of its class. */
  datatype Tree<F> =
    | Leaf(sphere: Sphere<F>, range: Range<F>, box: Box<F>,
           vertexStart: nat, vertexLength: nat, indexStart: nat, indexLength: nat)
    | Node(sphere: Sphere<F>, range: Range<F>, left: Tree<F>, right: Tree<F>)

  /** The value of the global buffers shared by all leaves. */
  datatype Buffers<F> = Buffers(vertices: seq<Vec3<F>>, colors: seq<Color>,
                                normals: seq<Vec3<F>>, indices: seq<nat>)

  const LEAF_SIZE: nat := 21845

  /** Conversion to the 16-bit ShortIndex. */
  function Short(n: nat): nat { n % 0x1_0000 }

  /** The leaves of a tree, left to right: what VertexBufferNode::draw visits. */
  function Leaves<F>(t: Tree<F>): (r: seq<Tree<F>>)
    ensures forall i :: 0 <= i < |r| ==> r[i].Leaf?
  {
    match t
    case Leaf(_, _, _, _, _, _, _) => [t]
    case Node(_, _, l, r) => Leaves(l) + Leaves(r)
  }
}
