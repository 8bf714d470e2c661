/** Writing and reading the binary mesh file through an output stream and a cursor into
    the mapped file, as the toStream and fromMemory members do. */
module MeshFileIO {
  import opened Sequences
  import opened MeshTypes
  import opened Bytes
  import opened MeshFile

  // ---- Writing -------------------------------------------------------------------------

  class OutStream {
    var written: seq<Byte>

    constructor ()
      ensures written == []
    {
      written := [];
    }

    method Write(s: seq<Byte>)
      modifies this
      ensures written == old(written) + s
    {
      written := written + s;
    }

    method WriteVector(a: Arch, items: seq<seq<nat>>, widths: seq<nat>)
      requires forall i :: 0 <= i < |items| ==> |items[i]| == |widths|
      modifies this
      ensures written == old(written) + PrintVector(a, items, widths)
    {
      ghost var w := written;
      Write(PutAll(a, [|items|], [a.wordBytes]));
      if |items| > 0 {
        Write(PutItems(a, items, widths));
      }
      Associate(w, PutAll(a, [|items|], [a.wordBytes]), PutItems(a, items, widths));
    }

    method WriteBuffers(a: Arch, b: Buffers<nat>)
      modifies this
      ensures written == old(written) + PrintBuffers(a, b)
    {
      ghost var w := written;
      WriteVector(a, VectorItems(b.vertices), VectorWidths);
      WriteVector(a, ColorItems(b.colors), ColorWidths);
      WriteVector(a, VectorItems(b.normals), VectorWidths);
      WriteVector(a, IndexItems(b.indices), IndexWidths);
      Chain(w, PrintVector(a, VectorItems(b.vertices), VectorWidths), PrintVector(a, ColorItems(b.colors), ColorWidths),
            PrintVector(a, VectorItems(b.normals), VectorWidths), PrintVector(a, IndexItems(b.indices), IndexWidths));
    }

    /** toStream of node and leaf. */
    method WriteTree(a: Arch, t: Tree<nat>)
      modifies this
      ensures written == old(written) + Print(a, t)
      decreases t
    {
      ghost var w := written;
      match t
      case Leaf(_, _, _, _, _, _, _) =>
        Write(PutAll(a, LeafFields(t), LeafWidths(a)));
      case Node(_, _, l, r) =>
        Write(PutAll(a, NodeFields(t), NodeWidths(a)));
        WriteTree(a, l);
        WriteTree(a, r);
        ChainNode(a, w, t);
    }

    /** VertexBufferRoot::toStream. */
    method WriteFile(a: Arch, m: Model)
      modifies this
      ensures written == old(written) + PrintFile(a, m)
    {
      ghost var w := written;
      Write(PutAll(a, [FILE_VERSION], [a.wordBytes]));
      Write(PutAll(a, [ROOT_TYPE], [a.wordBytes]));
      WriteBuffers(a, m.buffers);
      WriteTree(a, m.tree);
      HeadParts(a);
      Chain(w, PutAll(a, [FILE_VERSION], [a.wordBytes]), PutAll(a, [ROOT_TYPE], [a.wordBytes]),
            PrintBuffers(a, m.buffers), Print(a, m.tree));
      Associate(PutAll(a, [FILE_VERSION], [a.wordBytes]), PutAll(a, [ROOT_TYPE], [a.wordBytes]),
                PrintBuffers(a, m.buffers) + Print(a, m.tree));
    }
  }

  lemma ChainNode(a: Arch, w: seq<Byte>, t: Tree<nat>)
    requires t.Node?
    ensures ((w + PutAll(a, NodeFields(t), NodeWidths(a))) + Print(a, t.left)) + Print(a, t.right) == w + Print(a, t)
  {
    var p := PutAll(a, NodeFields(t), NodeWidths(a));
    Associate(w + p, Print(a, t.left), Print(a, t.right));
    Associate(w, p, Print(a, t.left) + Print(a, t.right));
  }

  lemma Chain(w: seq<Byte>, p: seq<Byte>, q: seq<Byte>, r: seq<Byte>, s: seq<Byte>)
    ensures (((w + p) + q) + r) + s == w + (p + (q + (r + s)))
  {
    Associate((w + p) + q, r, s);
    Associate(w + p, q, r + s);
    Associate(w, p, q + (r + s));
  }

  // ---- Reading -------------------------------------------------------------------------

  /** The outcome of a read: a value, or the error thrown as MeshException. */
  datatype Result<X> = Value(value: X) | Thrown(error: ReadError)

  /** The mapped file and the address the readers advance. */
  class Memory {
    const bytes: seq<Byte>
    var addr: nat

    constructor (bytes: seq<Byte>)
      ensures this.bytes == bytes && addr == 0
    {
      this.bytes := bytes;
      addr := 0;
    }

    ghost predicate Valid() reads this { addr <= |bytes| }

    function Rest(): seq<Byte>
      requires Valid()
      reads this
    {
      bytes[addr..]
    }

    /** The read agrees with the parser p of the bytes that were left before it. */
    ghost predicate Agrees<X>(p: Parsed<X>, r: Result<X>) reads this {
      && Valid()
      && match p
         case Ok(v, rest) => r == Value(v) && Rest() == rest
         case Err(e) => r == Thrown(e)
    }

    method ReadFields(a: Arch, widths: seq<nat>) returns (r: Result<seq<nat>>)
      requires Valid()
      modifies this
      ensures Agrees(ReadRecord(a, old(Rest()), widths), r)
    {
      var n := Width(widths);
      if addr + n > |bytes| {
        return Thrown(Truncated);
      }
      assert Rest()[..n] == bytes[addr..addr + n];
      r := Value(GetAll(a, bytes[addr..addr + n], widths));
      addr := addr + n;
    }

    /** Read a node type and step back. */
    method Peek(a: Arch) returns (r: Result<nat>)
      requires Valid()
      ensures Agrees(PeekType(a, Rest()), r)
    {
      if addr + a.wordBytes > |bytes| {
        return Thrown(Truncated);
      }
      assert Rest()[..a.wordBytes] == bytes[addr..addr + a.wordBytes];
      r := Value(Get(a, bytes[addr..addr + a.wordBytes]));
    }

    method ReadLeaf(a: Arch) returns (r: Result<Tree<nat>>)
      requires Valid()
      modifies this
      ensures Agrees(ParseLeaf(a, old(Rest())), r)
    {
      var tag := Peek(a);
      if tag.Thrown? {
        return Thrown(tag.error);
      }
      if tag.value != LEAF_TYPE {
        return Thrown(NotLeaf);
      }
      var f := ReadFields(a, LeafWidths(a));
      if f.Thrown? {
        return Thrown(f.error);
      }
      r := Value(LeafOf(f.value));
    }

    method ReadNode(a: Arch) returns (r: Result<Tree<nat>>)
      requires Valid() && a.Valid()
      modifies this
      ensures Agrees(ParseNode(a, old(Rest())), r)
      decreases |bytes| - addr, 0
    {
      var tag := Peek(a);
      if tag.Thrown? {
        return Thrown(tag.error);
      }
      if tag.value != NODE_TYPE {
        return Thrown(NotNode);
      }
      var f := ReadFields(a, NodeWidths(a));
      if f.Thrown? {
        return Thrown(f.error);
      }
      var left := ReadChild(a);
      if left.Thrown? {
        return left;
      }
      var right := ReadChild(a);
      if right.Thrown? {
        return right;
      }
      r := Value(NodeOf(f.value, left.value, right.value));
    }

    method ReadChild(a: Arch) returns (r: Result<Tree<nat>>)
      requires Valid() && a.Valid()
      modifies this
      ensures Agrees(ParseChild(a, old(Rest())), r)
      decreases |bytes| - addr, 1
    {
      var tag := Peek(a);
      if tag.Thrown? {
        return Thrown(tag.error);
      }
      if tag.value == NODE_TYPE {
        r := ReadNode(a);
      } else if tag.value == LEAF_TYPE {
        r := ReadLeaf(a);
      } else {
        r := Thrown(NeitherNodeNorLeaf);
      }
    }

    method ReadVector(a: Arch, widths: seq<nat>) returns (r: Result<seq<seq<nat>>>)
      requires Valid()
      modifies this
      ensures Agrees(ParseVector(a, old(Rest()), widths), r)
    {
      var length := ReadFields(a, [a.wordBytes]);
      if length.Thrown? {
        return Thrown(length.error);
      }
      var block := ReadItems(a, Rest(), length.value[0], widths);
      if block.Err? {
        return Thrown(block.error);
      }
      Suffix(a, Rest(), length.value[0], widths);
      r := Value(block.value);
      addr := |bytes| - |block.rest|;
    }

    method ReadBuffers(a: Arch) returns (r: Result<Buffers<nat>>)
      requires Valid()
      modifies this
      ensures Agrees(ParseBuffers(a, old(Rest())), r)
    {
      var v := ReadVector(a, VectorWidths);
      if v.Thrown? {
        return Thrown(v.error);
      }
      var c := ReadVector(a, ColorWidths);
      if c.Thrown? {
        return Thrown(c.error);
      }
      var n := ReadVector(a, VectorWidths);
      if n.Thrown? {
        return Thrown(n.error);
      }
      var i := ReadVector(a, IndexWidths);
      if i.Thrown? {
        return Thrown(i.error);
      }
      r := Value(Buffers(VectorsOf(v.value), ColorsOf(c.value), VectorsOf(n.value), IndicesOf(i.value)));
    }

    /** VertexBufferRoot::fromMemory. */
    method ReadFile(a: Arch) returns (r: Result<Model>)
      requires Valid() && a.Valid()
      modifies this
      ensures Agrees(ParseFile(a, old(Rest())), r)
    {
      var version := ReadFields(a, [a.wordBytes]);
      if version.Thrown? {
        return Thrown(version.error);
      }
      if version.value[0] != FILE_VERSION {
        return Thrown(WrongVersion);
      }
      var nodeType := ReadFields(a, [a.wordBytes]);
      if nodeType.Thrown? {
        return Thrown(nodeType.error);
      }
      if nodeType.value[0] != ROOT_TYPE {
        return Thrown(NotRoot);
      }
      var b := ReadBuffers(a);
      if b.Thrown? {
        return Thrown(b.error);
      }
      var t := ReadNode(a);
      if t.Thrown? {
        return Thrown(t.error);
      }
      r := Value(Model(b.value, t.value));
    }
  }

  /** Reading leaves a suffix of the bytes. */
  lemma {:induction false} Suffix(a: Arch, s: seq<Byte>, n: nat, widths: seq<nat>)
    requires ReadItems(a, s, n, widths).Ok?
    ensures var rest := ReadItems(a, s, n, widths).rest; |rest| <= |s| && s[|s| - |rest|..] == rest
    decreases n
  {
    if n > 0 {
      var m := n - 1;
      ReadItemsStep(a, s, n, m, widths);
      Suffix(a, ReadRecord(a, s, widths).rest, m, widths);
    }
  }
}
