/** The words of the PLY header, letter by letter: what printing and parsing mean by them, apart
    from undoing each other. */
module PlyVocabulary {
  import opened PlyItems
  import opened PlyHeader

  // ---- Single words -----------------------------------------------------------------------

  /** The type names of the format; every other word names no type. */
  lemma TypeNames(s: string)
    ensures TypeOf(s) == Char <==> s == "char"
    ensures TypeOf(s) == Short <==> s == "short"
    ensures TypeOf(s) == Int <==> s == "int"
    ensures TypeOf(s) == UChar <==> s == "uchar"
    ensures TypeOf(s) == UShort <==> s == "ushort"
    ensures TypeOf(s) == UInt <==> s == "uint"
    ensures TypeOf(s) == Float <==> s == "float"
    ensures TypeOf(s) == Double <==> s == "double"
    ensures TypeOf(s) == Float32 <==> s == "float32"
    ensures TypeOf(s) == UInt8 <==> s == "uint8"
    ensures TypeOf(s) == Int32 <==> s == "int32"
    ensures TypeOf(s) == Invalid <==>
            s !in {"char", "short", "int", "uchar", "ushort", "uint", "float", "double", "float32", "uint8", "int32"}
  {
    if TypeOf(s) == Invalid {
      NoName(s);
    } else {
      NameOfType(s);
    }
  }

  /** A word that names a type is that type's name. */
  lemma NameOfType(s: string)
    requires TypeOf(s) != Invalid
    ensures s == TypeName(TypeOf(s))
  {
    NameOfFirst(s, [Char, Short, Int, UChar, UShort, UInt, Float, Double, Float32, UInt8, Int32]);
  }

  lemma {:induction false} NameOfFirst(s: string, ts: seq<PlyType>)
    requires FirstType(s, ts) != Invalid
    ensures s == TypeName(FirstType(s, ts))
  {
    if s != TypeName(ts[0]) { NameOfFirst(s, ts[1..]); }
  }

  lemma NoName(s: string)
    requires TypeOf(s) == Invalid
    ensures s !in {"char", "short", "int", "uchar", "ushort", "uint", "float", "double", "float32", "uint8", "int32"}
  {
    forall t: PlyType | t != Invalid ensures s != TypeName(t) { TypeOfName(t); }
    assert s != TypeName(Char) && s != TypeName(Short) && s != TypeName(Int) && s != TypeName(UChar);
    assert s != TypeName(UShort) && s != TypeName(UInt) && s != TypeName(Float) && s != TypeName(Double);
    assert s != TypeName(Float32) && s != TypeName(UInt8) && s != TypeName(Int32);
  }

  lemma FormatNames(s: string)
    ensures FormatOf(s) == Ascii <==> s == "ascii"
    ensures FormatOf(s) == BinaryBE <==> s == "binary_big_endian"
    ensures FormatOf(s) == BinaryLE <==> s == "binary_little_endian"
    ensures FormatOf(s) == NoFormat <==> s !in {"ascii", "binary_big_endian", "binary_little_endian"}
  {
    assert |"ascii"| == 5 && |"binary_big_endian"| == 17 && |"binary_little_endian"| == 20;
  }

  lemma Keywords(s: string)
    ensures KeywordOf(s) == FormatKey <==> s == "format"
    ensures KeywordOf(s) == ElementKey <==> s == "element"
    ensures KeywordOf(s) == PropertyKey <==> s == "property"
    ensures KeywordOf(s) == CommentKey <==> s == "comment"
    ensures KeywordOf(s) == ObjInfoKey <==> s == "obj_info"
    ensures KeywordOf(s) == EndKey <==> s == "end_header"
    ensures KeywordOf(s) == OtherKey <==>
            s !in {"format", "element", "property", "comment", "obj_info", "end_header"}
  {
    var f, e, p, c, o, n := "format", "element", "property", "comment", "obj_info", "end_header";
    assert |f| == 6 && |e| == 7 && |p| == 8 && |c| == 7 && |o| == 8 && |n| == 10;
    assert e[0] != c[0] && p[0] != o[0];
  }

  // ---- Single lines -----------------------------------------------------------------------

  /** A line of words is parsed by its words, wherever it comes from. */
  lemma LineOfWords(line: string, ws: seq<string>)
    requires (forall i :: 0 <= i < |ws| ==> IsWord(ws[i])) && line == Join(ws)
    ensures Clean(line) == line && Words(Clean(line)) == ws
  {
    JoinOk(ws);
    WordsOfJoin(ws);
  }

  lemma JoinOf3(a: string, b: string, c: string)
    ensures Join([a, b, c]) == a + " " + b + " " + c
  {
    assert [a, b, c][1..] == [b, c] && [b, c][1..] == [c];
    assert Join([c]) == c;
    assert a + " " + (b + " " + c) == a + " " + b + " " + c;
  }

  lemma JoinOf5(a: string, b: string, c: string, d: string, e: string)
    ensures Join([a, b, c, d, e]) == a + " " + b + " " + c + " " + d + " " + e
  {
    var cde := c + " " + d + " " + e;
    JoinOf3(c, d, e);
    assert [a, b, c, d, e][1..] == [b, c, d, e] && [b, c, d, e][1..] == [c, d, e];
    assert Join([b, c, d, e]) == b + " " + cde;
    assert a + " " + (b + " " + cde) == a + " " + b + " " + c + " " + d + " " + e;
  }

  /** What a line of words means, by its first word. */
  lemma PropertyWords(h: Header, ws: seq<string>)
    requires |ws| > 0 && ws[0] == "property" && forall i :: 0 <= i < |ws| ==> IsWord(ws[i])
    ensures ParseLine(h, Join(ws)) == ParseProperty(h, ws)
  {
    LineOfWords(Join(ws), ws);
    PropertyWord();
    ByKeyword(h, Join(ws), ws);
  }

  lemma PropertyWord()
    ensures KeywordOf("property") == PropertyKey
  {
  }

  lemma ByKeyword(h: Header, line: string, ws: seq<string>)
    requires Words(Clean(line)) == ws && ws != [] && KeywordOf(ws[0]) == PropertyKey
    ensures ParseLine(h, line) == ParseProperty(h, ws)
  {
  }

  /** `property TYPE NAME` adds a scalar of the type that the word names; further words do not
      matter. */
  lemma ScalarProperty(h: Header, ws: seq<string>)
    requires |ws| >= 3 && ws[0] == "property" && ws[1] != "list" && forall i :: 0 <= i < |ws| ==> IsWord(ws[i])
    ensures ParseLine(h, Join(ws)) == AddProperty(h, Scalar(TypeOf(ws[1]), ws[2]))
  {
    PropertyWords(h, ws);
  }

  /** `property list COUNT TYPE NAME` adds a list; further words do not matter, and missing ones are
      an error. */
  lemma ListProperty(h: Header, ws: seq<string>)
    requires |ws| >= 2 && ws[0] == "property" && ws[1] == "list" && forall i :: 0 <= i < |ws| ==> IsWord(ws[i])
    ensures ParseLine(h, Join(ws)) == if |ws| < 5 then Bad else AddProperty(h, List(TypeOf(ws[2]), TypeOf(ws[3]), ws[4]))
  {
    PropertyWords(h, ws);
  }

  /** A coordinate, as almost every PLY file has it. */
  lemma FloatProperty(h: Header, name: string)
    requires IsWord(name)
    ensures ParseLine(h, "property" + " " + "float" + " " + name) == AddProperty(h, Scalar(Float, name))
  {
    NameIsWord("float", Float);
    var ws := ["property", "float", name];
    assert IsWord(ws[0]) && IsWord(ws[1]) && IsWord(ws[2]);
    JoinOf3("property", "float", name);
    ScalarProperty(h, ws);
  }

  /** The corners of a face. */
  lemma FaceProperty(h: Header, name: string)
    requires IsWord(name)
    ensures ParseLine(h, "property" + " " + "list" + " " + "uchar" + " " + "int" + " " + name) ==
            AddProperty(h, List(UChar, Int, name))
  {
    NameIsWord("uchar", UChar);
    NameIsWord("int", Int);
    var ws := ["property", "list", "uchar", "int", name];
    assert IsWord(ws[0]) && IsWord(ws[1]) && IsWord(ws[2]) && IsWord(ws[3]) && IsWord(ws[4]);
    JoinOf5("property", "list", "uchar", "int", name);
    ListProperty(h, ws);
  }

  lemma NameIsWord(s: string, t: PlyType)
    requires t != Invalid && s == TypeName(t)
    ensures IsWord(s) && s != "list" && TypeOf(s) == t
  {
    TypeOfName(t);
    TypeNameIsWord(t);
    NoTypeIsList(t);
  }

  /** `format NAME VERSION` sets the format; an unknown name, or another number of words, is an
      error. */
  lemma FormatSet(h: Header, ws: seq<string>)
    requires |ws| > 0 && ws[0] == "format" && forall i :: 0 <= i < |ws| ==> IsWord(ws[i])
    ensures ParseLine(h, Join(ws)) ==
            if |ws| == 3 && ws[1] in {"ascii", "binary_big_endian", "binary_little_endian"}
            then Go(h.(format := FormatOf(ws[1]))) else Bad
  {
    LineOfWords(Join(ws), ws);
    assert KeywordOf("format") == FormatKey;
    if |ws| > 1 { FormatNames(ws[1]); }
  }

  /** `element NAME NUMBER` opens an element without properties. */
  lemma ElementOpened(h: Header, ws: seq<string>)
    requires |ws| >= 3 && ws[0] == "element" && forall i :: 0 <= i < |ws| ==> IsWord(ws[i])
    ensures ParseLine(h, Join(ws)) == Go(h.(elems := h.elems + [Element(ws[1], Atoi(ws[2]), [])]))
  {
    LineOfWords(Join(ws), ws);
    assert KeywordOf("element") == ElementKey;
  }

  /** Lines that start with any other word are skipped. */
  lemma OthersSkipped(h: Header, ws: seq<string>)
    requires |ws| > 0 && (forall i :: 0 <= i < |ws| ==> IsWord(ws[i]))
    requires ws[0] !in {"format", "element", "property", "comment", "obj_info", "end_header"}
    ensures ParseLine(h, Join(ws)) == Go(h)
  {
    LineOfWords(Join(ws), ws);
    Keywords(ws[0]);
  }

  // ---- Numbers ----------------------------------------------------------------------------

  lemma {:induction false} DigitsUpTo(s: string, tail: string)
    requires (forall i :: 0 <= i < |s| ==> IsDigit(s[i])) && (tail == [] || !IsDigit(tail[0]))
    ensures DigitCount(s + tail) == |s|
  {
    if s == [] {
      assert s + tail == tail;
    } else {
      assert (s + tail)[0] == s[0] && (s + tail)[1..] == s[1..] + tail;
      DigitsUpTo(s[1..], tail);
    }
  }

  /** A number is read up to its first other character, with either sign or none; without digits it
      is 0. */
  lemma NumberRead(n: nat, tail: string)
    requires tail == [] || !IsDigit(tail[0])
    ensures Atoi(Decimal(n) + tail) == n
    ensures Atoi("+" + (Decimal(n) + tail)) == n
    ensures Atoi("-" + (Decimal(n) + tail)) == 0 - n
    ensures (tail == [] || (tail[0] != '+' && tail[0] != '-')) ==> Atoi(tail) == 0
  {
    var d := Decimal(n);
    var s := d + tail;
    DigitsUpTo(d, tail);
    DigitsUpTo([], tail);
    ValueOfDecimal(n);
    assert [] + tail == tail;
    assert s[..|d|] == d && s[0] == d[0];
    assert Unsigned(s) == n;
    assert ("+" + s)[1..] == s && ("-" + s)[1..] == s;
    assert tail[..0] == [];
  }

  // ---- The ends of a header ---------------------------------------------------------------

  /** A file whose first word is another one is not a PLY file. */
  lemma NotPly(w: string, rest: string)
    requires IsWord(w) && |w| < CUT && w != "ply"
    ensures Read(w + "\n" + rest) == Null
  {
    SoleWord(w, rest);
  }

  /** A file that ends behind the header's lines is accepted although end_header is missing. */
  lemma EndMissing(h: Header)
    requires Printable(h)
    ensures Read("ply" + "\n" + PrintLines(HeaderLines(h))) == Done(h, [])
  {
    var s := PrintLines(HeaderLines(h));
    PlyLine(s);
    LinesAre(h);
    ElementsLead(h, |h.elems|);
    assert h.elems[..|h.elems|] == h.elems;
    LeadsReads(Empty, HeaderLines(h), h, []);
    assert s + [] == s;
  }

  // ---- A whole header ---------------------------------------------------------------------

  const Cube := Header(BinaryLE, ["a cube"], ["made by hand"],
                       [Element("vertex", 8, [Scalar(Float, "x"), Scalar(UShort, "id")]),
                        Element("face", 12, [List(UChar, Int, "vertex_indices")])])

  const CubeLines := ["format binary_little_endian 1.0", "comment a cube", "obj_info made by hand",
                      "element vertex 8", "property float x", "property ushort id",
                      "element face 12", "property list uchar int vertex_indices"]

  /** A header as it stands in a file: it is what printing gives, and reading it gives the
      elements and properties that it names and leaves the data. */
  lemma CubeHeader(data: string)
    ensures Print(Cube) == PrintLines(["ply"] + CubeLines + ["end_header"])
    ensures Read(PrintLines(["ply"] + CubeLines + ["end_header"]) + data) == Done(Cube, data)
  {
    CubePrinted();
    CubePrintable();
    HeaderRoundTrip(Cube, data);
  }

  lemma CubePrinted()
    ensures HeaderLines(Cube) == CubeLines
  {
    VertexLines();
    FaceLines();
    FrontLines();
    var v, f := Cube.elems[0], Cube.elems[1];
    assert AllElementLines([]) == [];
    assert [v][..0] == [] && [v, f][..1] == [v];
    assert AllElementLines([v]) == ElementLines(v);
    assert AllElementLines([v, f]) == ElementLines(v) + ElementLines(f);
  }

  lemma FrontLines()
    ensures Join(["format", FormatName(Cube.format), "1.0"]) == "format binary_little_endian 1.0"
    ensures TextLines("comment", Cube.comments) == ["comment a cube"]
    ensures TextLines("obj_info", Cube.objInfo) == ["obj_info made by hand"]
  {
    assert Join(["format", FormatName(Cube.format), "1.0"]) == "format binary_little_endian 1.0" by {
      JoinOf3("format", FormatName(Cube.format), "1.0");
      assert "format" + " " + "binary_little_endian" + " " + "1.0" == "format binary_little_endian 1.0";
    }
    CommentLines();
  }

  lemma CommentLines()
    ensures TextLines("comment", Cube.comments) == ["comment a cube"]
    ensures TextLines("obj_info", Cube.objInfo) == ["obj_info made by hand"]
  {
    OneText("comment", "a cube");
    OneText("obj_info", "made by hand");
    assert "comment" + " " + "a cube" == "comment a cube";
    assert "obj_info" + " " + "made by hand" == "obj_info made by hand";
  }

  lemma OneText(key: string, s: string)
    ensures TextLines(key, [s]) == [key + " " + s]
  {
    assert [s][..0] == [];
  }

  lemma VertexLines()
    ensures ElementLines(Cube.elems[0]) == ["element vertex 8", "property float x", "property ushort id"]
  {
    var p, q := Scalar(Float, "x"), Scalar(UShort, "id");
    JoinOf3("element", "vertex", PrintInt(8));
    JoinOf3("property", "float", "x");
    JoinOf3("property", "ushort", "id");
    assert PrintInt(8) == "8";
    assert "element" + " " + "vertex" + " " + "8" == "element vertex 8";
    assert "property" + " " + "float" + " " + "x" == "property float x";
    assert "property" + " " + "ushort" + " " + "id" == "property ushort id";
    TwoProps(p, q);
  }

  lemma TwoProps(p: Prop, q: Prop)
    ensures PropLines([p, q]) == [Join(PropWords(p)), Join(PropWords(q))]
  {
    assert [p, q][..1] == [p] && [p][..0] == [];
    assert PropLines([p]) == [Join(PropWords(p))];
  }

  lemma FaceLines()
    ensures ElementLines(Cube.elems[1]) == ["element face 12", "property list uchar int vertex_indices"]
  {
    FaceWords();
    ListLine();
    var p := List(UChar, Int, "vertex_indices");
    assert [p][..0] == [];
    assert PropLines([p]) == [Join(PropWords(p))];
  }

  lemma FaceWords()
    ensures Join(ElementWords(Cube.elems[1])) == "element face 12"
  {
    JoinOf3("element", "face", PrintInt(12));
    assert PrintInt(12) == Decimal(1) + [Digit(2)] == "12";
    assert "element" + " " + "face" + " " + "12" == "element face 12";
  }

  lemma ListLine()
    ensures Join(PropWords(List(UChar, Int, "vertex_indices"))) == "property list uchar int vertex_indices"
  {
    JoinOf5("property", "list", "uchar", "int", "vertex_indices");
    ListText();
  }

  lemma ListText()
    ensures "property" + " " + "list" + " " + "uchar" + " " + "int" + " " + "vertex_indices"
         == "property list uchar int vertex_indices"
  {
    assert "property" + " " + "list" + " " + "uchar" == "property list uchar";
    assert "property list uchar" + " " + "int" == "property list uchar int";
    assert "property list uchar int" + " " + "vertex_indices" == "property list uchar int vertex_indices";
  }

  lemma CubePrintable()
    ensures Printable(Cube)
  {
    ShortText(TextKey(false), "a cube", "comment a cube");
    ShortText(TextKey(true), "made by hand", "obj_info made by hand");
    VertexOk();
    FaceOk();
  }

  lemma ShortText(key: string, s: string, l: string)
    requires l == key + " " + s && Plain(l) && |l| < CUT && s != [] && s[0] != ' '
    ensures TextOk(key, s)
  {
  }

  lemma VertexOk()
    ensures ElementOk(Cube.elems[0])
  {
    VertexLines();
    var e := Cube.elems[0];
    var ls := ElementLines(e);
    TwoProps(e.props[0], e.props[1]);
    assert ls[0] == Join(ElementWords(e)) && ls[1] == Join(PropWords(e.props[0])) && ls[2] == Join(PropWords(e.props[1]));
    assert |ls[0]| == 16 && |ls[1]| == 16 && |ls[2]| == 18;
    assert IsWord("vertex") && IsWord("x") && IsWord("id");
  }

  lemma FaceOk()
    ensures ElementOk(Cube.elems[1])
  {
    FaceLines();
    var e := Cube.elems[1];
    var ls := ElementLines(e);
    assert [e.props[0]][..0] == [];
    assert PropLines([e.props[0]]) == [Join(PropWords(e.props[0]))];
    assert ls[0] == Join(ElementWords(e)) && ls[1] == Join(PropWords(e.props[0]));
    assert |ls[0]| == 15 && |ls[1]| == 38;
    assert IsWord("face") && IsWord("vertex_indices");
  }
}
