/** The text header of PLY files (examples/eqPly/plyfile.cpp): ply_header_complete prints it,
    ply_read parses it line by line. */
module PlyHeader {
  import opened Hiding
  import opened PlyItems

  datatype Format = NoFormat | Ascii | BinaryBE | BinaryLE

  datatype Prop = Scalar(type_: PlyType, name: string) | List(count: PlyType, type_: PlyType, name: string)

  datatype Element = Element(name: string, num: int, props: seq<Prop>)

  datatype Header = Header(format: Format, comments: seq<string>, objInfo: seq<string>, elems: seq<Element>)

  // ---- Words ------------------------------------------------------------------------------

  predicate Blank(c: char) { c == ' ' || c == '\t' || c == '\n' || c == '\0' }

  /** Something that get_words keeps together. */
  ghost predicate IsWord(w: string) { w != [] && forall i :: 0 <= i < |w| ==> !Blank(w[i]) }

  function WordLength(s: string): (n: nat)
    ensures n <= |s| && (forall i :: 0 <= i < n ==> s[i] != ' ') && (n < |s| ==> s[n] == ' ')
  {
    if s == [] || s[0] == ' ' then 0 else 1 + WordLength(s[1..])
  }

  /** The words of a line in which every other blank was replaced by a space. */
  function Words(s: string): seq<string>
    decreases |s|
  {
    if s == [] then []
    else if s[0] == ' ' then Words(s[1..])
    else var n := WordLength(s); [s[..n]] + Words(s[n..])
  }

  function Join(ws: seq<string>): string {
    if ws == [] then [] else if |ws| == 1 then ws[0] else ws[0] + " " + Join(ws[1..])
  }

  lemma {:induction false} WordLengthIs(w: string, rest: string)
    requires (forall i :: 0 <= i < |w| ==> !Blank(w[i])) && (rest == [] || rest[0] == ' ')
    ensures WordLength(w + rest) == |w|
  {
    var s := w + rest;
    if w == [] {
      assert s == rest;
    } else {
      assert s[0] == w[0] && s[1..] == w[1..] + rest;
      WordLengthIs(w[1..], rest);
    }
  }

  lemma FirstWord(w: string, rest: string)
    requires IsWord(w) && (rest == [] || rest[0] == ' ')
    ensures Words(w + rest) == [w] + Words(rest)
  {
    var s := w + rest;
    WordLengthIs(w, rest);
    assert s[0] == w[0];
    assert s[..|w|] == w && s[|w|..] == rest;
  }

  /** Words joined by spaces come apart again. */
  lemma {:induction false} WordsOfJoin(ws: seq<string>)
    requires forall i :: 0 <= i < |ws| ==> IsWord(ws[i])
    ensures Words(Join(ws)) == ws
  {
    if |ws| == 1 {
      FirstWord(ws[0], []);
      assert ws[0] + [] == ws[0];
    } else if |ws| > 1 {
      var rest := Join(ws[1..]);
      WordsOfJoin(ws[1..]);
      FirstWord(ws[0], " " + rest);
      assert (" " + rest)[1..] == rest;
      assert ws[0] + " " + rest == ws[0] + (" " + rest);
      assert ws == [ws[0]] + ws[1..];
    }
  }

  // ---- Numbers ----------------------------------------------------------------------------

  predicate IsDigit(c: char) { '0' <= c <= '9' }

  function Digit(n: nat): char
    requires n < 10
  {
    n as char + '0'
  }

  function Decimal(n: nat): (s: string)
    ensures s != [] && forall i :: 0 <= i < |s| ==> IsDigit(s[i])
  {
    if n < 10 then [Digit(n)] else Decimal(n / 10) + [Digit(n % 10)]
  }

  /** %d */
  function PrintInt(n: int): string { if n < 0 then "-" + Decimal(-n) else Decimal(n) }

  function Value(s: string): nat {
    if s == [] then 0
    else
      var c := s[|s| - 1];
      10 * Value(s[..|s| - 1]) + (if IsDigit(c) then (c - '0') as nat else 0)
  }

  function DigitCount(s: string): (n: nat)
    ensures n <= |s| && (forall i :: 0 <= i < n ==> IsDigit(s[i])) && (n < |s| ==> !IsDigit(s[n]))
  {
    if s == [] || !IsDigit(s[0]) then 0 else 1 + DigitCount(s[1..])
  }

  /** atoi, without its overflow. */
  function Atoi(s: string): int {
    if s != [] && s[0] == '-' then -Unsigned(s[1..])
    else if s != [] && s[0] == '+' then Unsigned(s[1..])
    else Unsigned(s)
  }

  function Unsigned(s: string): int { var n := DigitCount(s); Value(s[..n]) }

  lemma {:induction false} ValueOfDecimal(n: nat)
    ensures Value(Decimal(n)) == n
  {
    if n >= 10 {
      ValueOfDecimal(n / 10);
      var s := Decimal(n);
      assert s[..|s| - 1] == Decimal(n / 10);
      assert s[|s| - 1] == Digit(n % 10);
    } else {
      assert [Digit(n)][..0] == [];
    }
  }

  lemma UnsignedOfDecimal(n: nat)
    ensures Unsigned(Decimal(n)) == n
  {
    var s := Decimal(n);
    assert DigitCount(s) == |s|;
    assert s[..|s|] == s;
    ValueOfDecimal(n);
  }

  lemma AtoiOfPrint(n: int)
    ensures Atoi(PrintInt(n)) == n && IsWord(PrintInt(n))
  {
    var s := PrintInt(n);
    if n < 0 {
      UnsignedOfDecimal(-n);
      assert s[1..] == Decimal(-n);
    } else {
      UnsignedOfDecimal(n);
      assert IsDigit(s[0]);
    }
  }

  // ---- Lines ------------------------------------------------------------------------------

  /** type_names. */
  function TypeName(t: PlyType): string {
    match t
    case Invalid => "invalid"
    case Char => "char"
    case Short => "short"
    case Int => "int"
    case UChar => "uchar"
    case UShort => "ushort"
    case UInt => "uint"
    case Float => "float"
    case Double => "double"
    case Float32 => "float32"
    case UInt8 => "uint8"
    case Int32 => "int32"
  }

  /** get_prop_type: the first of the valid types with that name. */
  function TypeOf(s: string): PlyType { FirstType(s, [Char, Short, Int, UChar, UShort, UInt, Float, Double, Float32, UInt8, Int32]) }

  function FirstType(s: string, ts: seq<PlyType>): PlyType {
    if ts == [] then Invalid else if s == TypeName(ts[0]) then ts[0] else FirstType(s, ts[1..])
  }

  lemma TypeNamesDiffer(t: PlyType, u: PlyType)
    requires TypeName(t) == TypeName(u)
    ensures t == u
  {
    var a, b := TypeName(t), TypeName(u);
    assert a[0] == b[0] && |a| == |b|;
    assert |a| > 1 ==> a[1] == b[1];
  }

  lemma {:induction false} FirstTypeIs(t: PlyType, ts: seq<PlyType>)
    requires t in ts
    ensures FirstType(TypeName(t), ts) == t
  {
    if TypeName(t) == TypeName(ts[0]) {
      TypeNamesDiffer(t, ts[0]);
    } else {
      FirstTypeIs(t, ts[1..]);
    }
  }

  lemma TypeOfName(t: PlyType)
    requires t != Invalid
    ensures TypeOf(TypeName(t)) == t
  {
    var ts := [Char, Short, Int, UChar, UShort, UInt, Float, Double, Float32, UInt8, Int32];
    assert ts[0] == Char && ts[1] == Short && ts[2] == Int && ts[3] == UChar && ts[4] == UShort && ts[5] == UInt;
    assert ts[6] == Float && ts[7] == Double && ts[8] == Float32 && ts[9] == UInt8 && ts[10] == Int32;
    FirstTypeIs(t, ts);
  }

  lemma TypeNameIsWord(t: PlyType)
    ensures IsWord(TypeName(t))
  {
  }

  function FormatName(f: Format): string {
    match f
    case BinaryBE => "binary_big_endian"
    case BinaryLE => "binary_little_endian"
    case _ => "ascii"
  }

  function FormatOf(s: string): Format {
    if s == "ascii" then Ascii else if s == "binary_big_endian" then BinaryBE
    else if s == "binary_little_endian" then BinaryLE else NoFormat
  }

  lemma FormatOfName(f: Format)
    requires f != NoFormat
    ensures FormatOf(FormatName(f)) == f && IsWord(FormatName(f))
  {
  }

  function PropWords(p: Prop): seq<string> {
    match p
    case Scalar(t, name) => ["property", TypeName(t), name]
    case List(c, t, name) => ["property", "list", TypeName(c), TypeName(t), name]
  }

  function ElementWords(e: Element): seq<string> { ["element", e.name, PrintInt(e.num)] }

  // ---- Printing ---------------------------------------------------------------------------

  function PropLines(ps: seq<Prop>): seq<string> {
    if ps == [] then [] else PropLines(ps[..|ps| - 1]) + [Join(PropWords(ps[|ps| - 1]))]
  }

  function ElementLines(e: Element): seq<string> { [Join(ElementWords(e))] + PropLines(e.props) }

  function AllElementLines(es: seq<Element>): seq<string> {
    if es == [] then [] else AllElementLines(es[..|es| - 1]) + ElementLines(es[|es| - 1])
  }

  function TextLines(key: string, texts: seq<string>): seq<string> {
    if texts == [] then [] else TextLines(key, texts[..|texts| - 1]) + [key + " " + texts[|texts| - 1]]
  }

  /** The header's lines after the first. */
  function HeaderLines(h: Header): seq<string> {
    [Join(["format", FormatName(h.format), "1.0"])] + TextLines("comment", h.comments)
    + TextLines("obj_info", h.objInfo) + AllElementLines(h.elems)
  }

  function PrintLines(ls: seq<string>): string {
    if ls == [] then [] else ls[0] + "\n" + PrintLines(ls[1..])
  }

  /** ply_header_complete. */
  function Print(h: Header): string { PrintLines(["ply"] + HeaderLines(h) + ["end_header"]) }

  // ---- Parsing ----------------------------------------------------------------------------

  /** The position at which get_words puts a space, whatever was read there: two before the end
      of its buffer of 4096 characters. */
  const CUT := 4094

  datatype NextLine = Line(text: string, rest: string) | EndOfFile | Unterminated

  function Find(s: string, c: char): (n: nat)
    ensures n <= |s| && (forall i :: 0 <= i < n ==> s[i] != c) && (n < |s| ==> s[n] == c)
  {
    if s == [] || s[0] == c then 0 else 1 + Find(s[1..], c)
  }

  /** fgets and the space at the end of the buffer: at most 4095 characters are read, and the
      last of them becomes a space even if it was the newline. A zero character, or an end of
      file without newline, leaves the buffers without the marks that the source relies on. */
  function ReadLine(s: string): NextLine {
    var n := Find(s, '\n');
    if s == [] then EndOfFile
    else if Find(s, '\0') < (if n < CUT then n else CUT) then Unterminated
    else if n < CUT then (if n < |s| then Line(s[..n], s[n + 1..]) else Unterminated)
    else if |s| > CUT then Line(s[..CUT] + " ", s[CUT + 1..])
    else Unterminated
  }

  function Clean(s: string): (r: string)
    ensures |r| == |s| && forall i :: 0 <= i < |s| ==> r[i] == if s[i] == '\t' then ' ' else s[i]
  {
    seq(|s|, i requires 0 <= i < |s| => if s[i] == '\t' then ' ' else s[i])
  }

  datatype Keyword = FormatKey | ElementKey | PropertyKey | CommentKey | ObjInfoKey | EndKey | OtherKey

  function KeywordOf(w: string): Keyword {
    if w == "format" then FormatKey else if w == "element" then ElementKey else if w == "property" then PropertyKey
    else if w == "comment" then CommentKey else if w == "obj_info" then ObjInfoKey
    else if w == "end_header" then EndKey else OtherKey
  }

  function SkipBlanks(s: string): string {
    if s != [] && (s[0] == ' ' || s[0] == '\t') then SkipBlanks(s[1..]) else s
  }

  /** Bad is where ply_read returns NULL or reads words or elements that are not there. */
  datatype Step = Go(header: Header) | Stop | Bad

  function AddProperty(h: Header, p: Prop): Step {
    var n := |h.elems| - 1;
    if n < 0 then Bad
    else var e := h.elems[n]; Go(h.(elems := h.elems[n := e.(props := e.props + [p])]))
  }

  function ParseProperty(h: Header, ws: seq<string>): Step {
    if |ws| >= 5 && ws[1] == "list" then AddProperty(h, List(TypeOf(ws[2]), TypeOf(ws[3]), ws[4]))
    else if |ws| >= 3 && ws[1] != "list" then AddProperty(h, Scalar(TypeOf(ws[1]), ws[2]))
    else Bad
  }

  function ParseFormat(h: Header, ws: seq<string>): Step {
    if |ws| != 3 || FormatOf(ws[1]) == NoFormat then Bad else Go(h.(format := FormatOf(ws[1])))
  }

  function ParseElement(h: Header, ws: seq<string>): Step {
    if |ws| < 3 then Bad else Go(h.(elems := h.elems + [Element(ws[1], Atoi(ws[2]), [])]))
  }

  function TextAfter(line: string, n: nat): string { if n <= |line| then SkipBlanks(line[n..]) else [] }

  function ParseLine(h: Header, text: string): Step {
    var line := Clean(text);
    var ws := Words(line);
    if ws == [] then Bad
    else
      match KeywordOf(ws[0])
      case FormatKey => ParseFormat(h, ws)
      case ElementKey => ParseElement(h, ws)
      case PropertyKey => ParseProperty(h, ws)
      case CommentKey => Go(h.(comments := h.comments + [TextAfter(line, 7)]))
      case ObjInfoKey => Go(h.(objInfo := h.objInfo + [TextAfter(line, 8)]))
      case EndKey => Stop
      case OtherKey => Go(h)
  }

  /** The header and the rest of the file, or NULL. */
  datatype Result = Done(header: Header, rest: string) | Null

  function ReadLines(h: Header, s: string): Result
    decreases |s|
  {
    match ReadLine(s)
    case EndOfFile => Done(h, [])
    case Unterminated => Null
    case Line(text, rest) =>
      match ParseLine(h, text)
      case Bad => Null
      case Stop => Done(h, rest)
      case Go(g) => ReadLines(g, rest)
  }

  const Empty := Header(NoFormat, [], [], [])

  /** ply_read. */
  function Read(s: string): Result {
    match ReadLine(s)
    case Line(text, rest) =>
      var ws := Words(Clean(text));
      if ws != [] && ws[0] == "ply" then ReadLines(Empty, s) else Null
    case _ => Null
  }

  // ---- One line back ----------------------------------------------------------------------

  /** A line that fits the buffers and has no characters that end it early. */
  ghost predicate LineOk(l: string) {
    forall key {:trigger Unfold(key)} :: Unfold(key) ==> |l| <= CUT && Plain(l)
  }

  /** What get_words makes of the line: if it just fits, its newline has become a space. */
  function Buffered(l: string): string { if |l| == CUT then l + " " else l }

  ghost predicate Plain(l: string) {
    forall i :: 0 <= i < |l| ==> l[i] != '\n' && l[i] != '\0' && l[i] != '\t'
  }

  lemma FindIs(s: string, c: char, n: nat)
    requires n <= |s| && (forall i :: 0 <= i < n ==> s[i] != c) && (n < |s| ==> s[n] == c)
    ensures Find(s, c) == n
  {
    var k := Find(s, c);
  }

  lemma ReadPrintedLine(l: string, rest: string)
    requires LineOk(l)
    ensures ReadLine(l + "\n" + rest) == Line(Buffered(l), rest) && Clean(Buffered(l)) == Buffered(l)
  {
    assert Unfold(0);
    var s := l + "\n" + rest;
    FindIs(s, '\n', |l|);
    NoZero(s, l);
    assert s[..|l|] == l && s[|l| + 1..] == rest;
  }

  lemma {:induction false} NoZero(s: string, l: string)
    requires Plain(l) && l <= s
    ensures Find(s, '\0') >= |l|
  {
    if l != [] {
      assert s[0] == l[0];
      NoZero(s[1..], l[1..]);
    }
  }

  lemma {:induction false} JoinOk(ws: seq<string>)
    requires forall i :: 0 <= i < |ws| ==> IsWord(ws[i])
    ensures Plain(Join(ws))
  {
    if |ws| > 1 { JoinOk(ws[1..]); }
  }

  /** Lines made of words are parsed by their words. */
  lemma WordsLine(ws: seq<string>)
    requires (forall i :: 0 <= i < |ws| ==> IsWord(ws[i])) && |Join(ws)| <= CUT
    ensures LineOk(Join(ws)) && Words(Clean(Buffered(Join(ws)))) == ws
  {
    assert Unfold(0);
    JoinOk(ws);
    WordsOfJoin(ws);
    WordsOfPadded(Join(ws));
    ReadPrintedLine(Join(ws), []);
  }

  /** A space at the end of a line does not make a word. */
  lemma {:induction false} WordsOfPadded(s: string)
    ensures Words(s + " ") == Words(s)
    decreases |s|
  {
    var p := s + " ";
    if s == [] {
      assert p[1..] == [];
    } else if s[0] == ' ' {
      assert p[1..] == s[1..] + " ";
      WordsOfPadded(s[1..]);
    } else {
      var n := WordLength(s);
      LengthOfPadded(s);
      assert p[..n] == s[..n] && p[n..] == s[n..] + " ";
      WordsOfPadded(s[n..]);
    }
  }

  lemma {:induction false} LengthOfPadded(s: string)
    ensures WordLength(s + " ") == WordLength(s)
  {
    if s != [] && s[0] != ' ' {
      assert (s + " ")[1..] == s[1..] + " ";
      LengthOfPadded(s[1..]);
    }
  }

  lemma FormatLine(h: Header, f: Format)
    requires f != NoFormat
    ensures Takes(h, Join(["format", FormatName(f), "1.0"]), h.(format := f))
  {
    assert Unfold(0);
    FormatOfName(f);
    var ws := ["format", FormatName(f), "1.0"];
    assert IsWord(ws[0]) && IsWord(ws[1]) && IsWord(ws[2]);
    Join3("format", FormatName(f), "1.0");
    WordsLine(ws);
  }

  lemma Join3(a: string, b: string, c: string)
    ensures |Join([a, b, c])| == |a| + |b| + |c| + 2
  {
    assert [a, b, c][1..] == [b, c] && [b, c][1..] == [c];
    assert Join([c]) == c;
    assert Join([b, c]) == b + " " + Join([c]);
  }

  ghost predicate PropOk(p: Prop) {
    forall key {:trigger Unfold(key)} :: Unfold(key) ==>
      && p.type_ != Invalid && (p.List? ==> p.count != Invalid) && IsWord(p.name)
      && |Join(PropWords(p))| <= CUT
  }

  lemma PropLine(h: Header, p: Prop, g: Header)
    requires PropOk(p) && AddProperty(h, p) == Go(g)
    ensures Takes(h, Join(PropWords(p)), g)
  {
    assert Unfold(0);
    match p
    case Scalar(t, name) => ScalarLine(h, t, name, PropWords(p));
    case List(c, t, name) => ListLine(h, c, t, name, PropWords(p));
  }

  lemma ScalarLine(h: Header, t: PlyType, name: string, ws: seq<string>)
    requires t != Invalid && IsWord(name) && ws == ["property", TypeName(t), name] && |Join(ws)| <= CUT
    ensures LineOk(Join(ws)) && ParseLine(h, Buffered(Join(ws))) == AddProperty(h, Scalar(t, name))
  {
    TypeNameIsWord(t);
    assert IsWord(ws[0]) && IsWord(ws[1]) && IsWord(ws[2]);
    WordsLine(ws);
    ScalarWords(h, t, name, Buffered(Join(ws)));
  }

  lemma ScalarWords(h: Header, t: PlyType, name: string, text: string)
    requires t != Invalid && Words(Clean(text)) == ["property", TypeName(t), name]
    ensures ParseLine(h, text) == AddProperty(h, Scalar(t, name))
  {
    TypeOfName(t);
    NoTypeIsList(t);
    assert KeywordOf("property") == PropertyKey;
  }

  lemma NoTypeIsList(t: PlyType)
    ensures TypeName(t) != "list"
  {
    assert "list"[0] == 'l';
  }

  lemma ListLine(h: Header, c: PlyType, t: PlyType, name: string, ws: seq<string>)
    requires c != Invalid && t != Invalid && IsWord(name) && |Join(ws)| <= CUT
    requires ws == ["property", "list", TypeName(c), TypeName(t), name]
    ensures LineOk(Join(ws)) && ParseLine(h, Buffered(Join(ws))) == AddProperty(h, List(c, t, name))
  {
    TypeNameIsWord(t);
    TypeNameIsWord(c);
    assert IsWord(ws[0]) && IsWord(ws[1]) && IsWord(ws[2]) && IsWord(ws[3]) && IsWord(ws[4]);
    WordsLine(ws);
    ListWords(h, c, t, name, Buffered(Join(ws)));
  }

  lemma ListWords(h: Header, c: PlyType, t: PlyType, name: string, text: string)
    requires c != Invalid && t != Invalid && Words(Clean(text)) == ["property", "list", TypeName(c), TypeName(t), name]
    ensures ParseLine(h, text) == AddProperty(h, List(c, t, name))
  {
    TypeOfName(t);
    TypeOfName(c);
    assert KeywordOf("property") == PropertyKey;
  }

  lemma ElementLine(h: Header, e: Element)
    requires IsWord(e.name) && |Join(ElementWords(e))| <= CUT
    ensures Takes(h, Join(ElementWords(e)), h.(elems := h.elems + [Element(e.name, e.num, [])]))
  {
    assert Unfold(0);
    AtoiOfPrint(e.num);
    var ws := ElementWords(e);
    assert IsWord(ws[0]) && IsWord(ws[1]) && IsWord(ws[2]);
    WordsLine(ws);
  }

  /** Text that the parser keeps as it is. */
  ghost predicate TextOk(key: string, s: string) {
    forall k {:trigger Unfold(k)} :: Unfold(k) ==>
      LineOk(key + " " + s) && |key + " " + s| < CUT && (s == [] || s[0] != ' ')
  }

  lemma TextLine(key: string, s: string)
    requires TextOk(key, s) && IsWord(key)
    ensures var l := key + " " + s;
            Clean(l) == l && Words(l) != [] && Words(l)[0] == key && TextAfter(l, |key|) == s
  {
    assert Unfold(0);
    var l := key + " " + s;
    ReadPrintedLine(l, []);
    assert l == key + (" " + s);
    FirstWord(key, " " + s);
    assert l[|key|..] == " " + s;
    assert (" " + s)[1..] == s;
    assert s != [] ==> l[|key| + 1] == s[0];
    assert SkipBlanks(s) == s;
    assert SkipBlanks(" " + s) == s;
  }

  function TextKey(info: bool): string { if info then "obj_info" else "comment" }

  function Texts(info: bool, h: Header): seq<string> { if info then h.objInfo else h.comments }

  function WithTexts(info: bool, h: Header, texts: seq<string>): Header {
    if info then h.(objInfo := h.objInfo + texts) else h.(comments := h.comments + texts)
  }

  /** A line whose first word is one of the two keys adds the text after it. */
  lemma KeyedLine(info: bool, key: string, h: Header, l: string)
    requires key == TextKey(info) && Clean(l) == l && Words(l) != [] && Words(l)[0] == key
    ensures ParseLine(h, l) == Go(WithTexts(info, h, [TextAfter(l, |key|)]))
  {
    assert KeywordOf("comment") == CommentKey && |"comment"| == 7;
    assert KeywordOf("obj_info") == ObjInfoKey && |"obj_info"| == 8;
  }

  /** A comment or an object info that is printed is added. */
  lemma TextLineTakes(info: bool, key: string, h: Header, s: string)
    requires key == TextKey(info) && TextOk(key, s)
    ensures Takes(h, key + " " + s, WithTexts(info, h, [s]))
  {
    assert Unfold(0);
    TextLine(key, s);
    KeyedLine(info, key, h, key + " " + s);
  }

  // ---- The whole header -------------------------------------------------------------------

  /** The printed line l, read back, takes the parser from header h to header g. */
  ghost predicate Takes(h: Header, l: string, g: Header) {
    forall key {:trigger Unfold(key)} :: Unfold(key) ==> LineOk(l) && ParseLine(h, Buffered(l)) == Go(g)
  }

  /** So do the printed lines ls, one after the other. */
  ghost predicate Leads(h: Header, ls: seq<string>, g: Header)
    decreases |ls|
  {
    if ls == [] then h == g else exists k :: Takes(h, ls[0], k) && Leads(k, ls[1..], g)
  }

  lemma LeadsOne(h: Header, l: string, g: Header)
    requires Takes(h, l, g)
    ensures Leads(h, [l], g)
  {
    assert [l][1..] == [] && [l][0] == l;
    assert Leads(g, [], g);
  }

  lemma {:induction false} LeadsJoin(h: Header, a: seq<string>, g: Header, b: seq<string>, k: Header)
    requires Leads(h, a, g) && Leads(g, b, k)
    ensures Leads(h, a + b, k)
    decreases |a|
  {
    if a == [] {
      assert a + b == b;
    } else {
      var m :| Takes(h, a[0], m) && Leads(m, a[1..], g);
      LeadsJoin(m, a[1..], g, b, k);
      assert (a + b)[0] == a[0] && (a + b)[1..] == a[1..] + b;
    }
  }

  /** Reading printed lines is parsing them one after the other. */
  lemma TakesReads(h: Header, l: string, g: Header, rest: string)
    requires Takes(h, l, g)
    ensures ReadLines(h, l + "\n" + rest) == ReadLines(g, rest)
  {
    assert Unfold(0);
    ReadPrintedLine(l, rest);
  }

  lemma {:induction false} LeadsReads(h: Header, ls: seq<string>, g: Header, rest: string)
    requires Leads(h, ls, g)
    ensures ReadLines(h, PrintLines(ls) + rest) == ReadLines(g, rest)
    decreases |ls|
  {
    if ls == [] {
      assert PrintLines(ls) + rest == rest;
    } else {
      var k :| Takes(h, ls[0], k) && Leads(k, ls[1..], g);
      var more := PrintLines(ls[1..]) + rest;
      PrintFirst(ls, rest, more);
      TakesReads(h, ls[0], k, more);
      LeadsReads(k, ls[1..], g, rest);
    }
  }

  lemma PrintFirst(ls: seq<string>, rest: string, more: string)
    requires ls != [] && more == PrintLines(ls[1..]) + rest
    ensures PrintLines(ls) + rest == ls[0] + "\n" + more
  {
    var l, m := ls[0] + "\n", PrintLines(ls[1..]);
    assert (l + m) + rest == l + (m + rest);
  }

  lemma {:induction false} TextLinesLead(info: bool, key: string, h: Header, texts: seq<string>)
    requires key == TextKey(info) && forall i :: 0 <= i < |texts| ==> TextOk(key, texts[i])
    ensures Leads(h, TextLines(key, texts), WithTexts(info, h, texts))
  {
    if texts == [] {
      assert h.comments + texts == h.comments && h.objInfo + texts == h.objInfo;
    } else {
      var n := |texts| - 1;
      TextLinesLead(info, key, h, texts[..n]);
      var g, l := WithTexts(info, h, texts[..n]), key + " " + texts[n];
      TextLineTakes(info, key, g, texts[n]);
      WithMore(info, h, texts, n);
      LeadsOne(g, l, WithTexts(info, h, texts));
      LeadsJoin(h, TextLines(key, texts[..n]), g, [l], WithTexts(info, h, texts));
    }
  }

  lemma WithMore(info: bool, h: Header, texts: seq<string>, n: nat)
    requires |texts| == n + 1
    ensures WithTexts(info, WithTexts(info, h, texts[..n]), [texts[n]]) == WithTexts(info, h, texts)
  {
    assert texts[..n] + [texts[n]] == texts;
    assert h.objInfo + texts[..n] + [texts[n]] == h.objInfo + texts;
    assert h.comments + texts[..n] + [texts[n]] == h.comments + texts;
  }

  lemma {:induction false} PropLinesLead(h: Header, front: seq<Element>, e: Element, ps: seq<Prop>, g: Header)
    requires h.elems == front + [e] && e.props == [] && forall i :: 0 <= i < |ps| ==> PropOk(ps[i])
    requires g == h.(elems := front + [e.(props := ps)])
    ensures Leads(h, PropLines(ps), g)
  {
    if ps != [] {
      var n := |ps| - 1;
      var l, k := Join(PropWords(ps[n])), h.(elems := front + [e.(props := ps[..n])]);
      PropLinesLead(h, front, e, ps[..n], k);
      assert ps[..n] + [ps[n]] == ps;
      AddToLast(k, front, e.(props := ps[..n]), ps[n], ps);
      PropLine(k, ps[n], g);
      LeadsOne(k, l, g);
      LeadsJoin(h, PropLines(ps[..n]), k, [l], g);
    }
  }

  lemma AddToLast(g: Header, front: seq<Element>, e: Element, p: Prop, ps: seq<Prop>)
    requires g.elems == front + [e] && ps == e.props + [p]
    ensures AddProperty(g, p) == Go(g.(elems := front + [e.(props := ps)]))
  {
    var n := |front|;
    assert g.elems[n] == e;
    assert g.elems[n := e.(props := ps)] == front + [e.(props := ps)];
  }

  ghost predicate ElementOk(e: Element) {
    && IsWord(e.name) && |Join(ElementWords(e))| <= CUT
    && forall i :: 0 <= i < |e.props| ==> PropOk(e.props[i])
  }

  lemma ElementLinesLead(h: Header, e: Element, g: Header)
    requires ElementOk(e) && g == h.(elems := h.elems + [e])
    ensures Leads(h, ElementLines(e), g)
  {
    var first, bare := Join(ElementWords(e)), Element(e.name, e.num, []);
    var k := h.(elems := h.elems + [bare]);
    ElementLine(h, e);
    LeadsOne(h, first, k);
    assert bare.(props := e.props) == e;
    PropLinesLead(k, h.elems, bare, e.props, g);
    LeadsJoin(h, [first], k, PropLines(e.props), g);
  }

  lemma {:induction false} AllElementLinesLead(h: Header, es: seq<Element>, g: Header)
    requires (forall i :: 0 <= i < |es| ==> ElementOk(es[i])) && g == h.(elems := h.elems + es)
    ensures Leads(h, AllElementLines(es), g)
  {
    if es == [] {
      assert h.elems + es == h.elems;
    } else {
      var n := |es| - 1;
      var k := h.(elems := h.elems + es[..n]);
      AllElementLinesLead(h, es[..n], k);
      assert k.elems + [es[n]] == h.elems + es;
      ElementLinesLead(k, es[n], g);
      LeadsJoin(h, AllElementLines(es[..n]), k, ElementLines(es[n]), g);
    }
  }

  /** What a header must be like to survive: names without blanks, texts without leading
      blanks, tabs or line ends, and lines within the buffer. A text line must leave room for
      its newline at position 4094, a line of words need not. */
  ghost predicate Printable(h: Header) {
    && h.format != NoFormat
    && (forall i :: 0 <= i < |h.comments| ==> TextOk(TextKey(false), h.comments[i]))
    && (forall i :: 0 <= i < |h.objInfo| ==> TextOk(TextKey(true), h.objInfo[i]))
    && (forall i :: 0 <= i < |h.elems| ==> ElementOk(h.elems[i]))
  }

  // The lines up to the comments, to the object infos and to the elements.

  function Start(h: Header): seq<string> { [Join(["format", FormatName(h.format), "1.0"])] }

  function ToComments(h: Header, n: nat): seq<string>
    requires n <= |h.comments|
  {
    Start(h) + TextLines(TextKey(false), h.comments[..n])
  }

  function ToInfos(h: Header, n: nat): seq<string>
    requires n <= |h.objInfo|
  {
    ToComments(h, |h.comments|) + TextLines(TextKey(true), h.objInfo[..n])
  }

  function ToElements(h: Header, n: nat): seq<string>
    requires n <= |h.elems|
  {
    ToInfos(h, |h.objInfo|) + AllElementLines(h.elems[..n])
  }

  lemma LinesAre(h: Header)
    ensures HeaderLines(h) == ToElements(h, |h.elems|)
  {
    assert h.comments[..|h.comments|] == h.comments && h.objInfo[..|h.objInfo|] == h.objInfo && h.elems[..|h.elems|] == h.elems;
  }

  lemma CommentsLead(h: Header, n: nat)
    requires n <= |h.comments| && h.format != NoFormat
    requires forall i :: 0 <= i < n ==> TextOk(TextKey(false), h.comments[i])
    ensures Leads(Empty, ToComments(h, n), Header(h.format, h.comments[..n], [], []))
  {
    var g := Empty.(format := h.format);
    FormatLine(Empty, h.format);
    LeadsOne(Empty, Start(h)[0], g);
    TextLinesLead(false, TextKey(false), g, h.comments[..n]);
    assert [] + h.comments[..n] == h.comments[..n];
    LeadsJoin(Empty, Start(h), g, TextLines(TextKey(false), h.comments[..n]), Header(h.format, h.comments[..n], [], []));
  }

  lemma InfosLead(h: Header, n: nat)
    requires n <= |h.objInfo| && h.format != NoFormat
    requires forall i :: 0 <= i < |h.comments| ==> TextOk(TextKey(false), h.comments[i])
    requires forall i :: 0 <= i < n ==> TextOk(TextKey(true), h.objInfo[i])
    ensures Leads(Empty, ToInfos(h, n), Header(h.format, h.comments, h.objInfo[..n], []))
  {
    var g := Header(h.format, h.comments, [], []);
    CommentsLead(h, |h.comments|);
    assert h.comments[..|h.comments|] == h.comments;
    TextLinesLead(true, TextKey(true), g, h.objInfo[..n]);
    assert [] + h.objInfo[..n] == h.objInfo[..n];
    LeadsJoin(Empty, ToComments(h, |h.comments|), g, TextLines(TextKey(true), h.objInfo[..n]),
              Header(h.format, h.comments, h.objInfo[..n], []));
  }

  lemma ElementsLead(h: Header, n: nat)
    requires n <= |h.elems| && h.format != NoFormat
    requires forall i :: 0 <= i < |h.comments| ==> TextOk(TextKey(false), h.comments[i])
    requires forall i :: 0 <= i < |h.objInfo| ==> TextOk(TextKey(true), h.objInfo[i])
    requires forall i :: 0 <= i < n ==> ElementOk(h.elems[i])
    ensures Leads(Empty, ToElements(h, n), Header(h.format, h.comments, h.objInfo, h.elems[..n]))
  {
    var g := Header(h.format, h.comments, h.objInfo, []);
    InfosLead(h, |h.objInfo|);
    assert h.objInfo[..|h.objInfo|] == h.objInfo;
    assert [] + h.elems[..n] == h.elems[..n];
    AllElementLinesLead(g, h.elems[..n], Header(h.format, h.comments, h.objInfo, h.elems[..n]));
    LeadsJoin(Empty, ToInfos(h, |h.objInfo|), g, AllElementLines(h.elems[..n]),
              Header(h.format, h.comments, h.objInfo, h.elems[..n]));
  }

  // ---- The file ---------------------------------------------------------------------------

  lemma {:induction false} PrintAppend(ls: seq<string>, l: string)
    ensures PrintLines(ls + [l]) == PrintLines(ls) + l + "\n"
  {
    if ls == [] {
      assert ls + [l] == [l];
      assert [l][1..] == [];
    } else {
      PrintAppend(ls[1..], l);
      assert (ls + [l])[1..] == ls[1..] + [l];
    }
  }

  lemma {:induction false} PrintJoin(a: seq<string>, b: seq<string>)
    ensures PrintLines(a + b) == PrintLines(a) + PrintLines(b)
  {
    if a == [] {
      assert a + b == b;
    } else {
      PrintJoin(a[1..], b);
      assert (a + b)[1..] == a[1..] + b;
    }
  }

  lemma SoleWord(w: string, rest: string)
    requires IsWord(w) && |w| < CUT
    ensures ReadLine(w + "\n" + rest) == Line(w, rest) && Words(Clean(w)) == [w]
  {
    assert Unfold(0);
    ReadPrintedLine(w, rest);
    FirstWord(w, []);
    assert w + [] == w;
  }

  lemma EndLine(h: Header, rest: string)
    ensures ReadLines(h, "end_header" + "\n" + rest) == Done(h, rest)
  {
    EndWord();
    SoleWord("end_header", rest);
  }

  lemma EndWord()
    ensures IsWord("end_header") && KeywordOf("end_header") == EndKey && |"end_header"| == 10
  {
  }

  lemma PlyLine(s: string)
    ensures Read("ply" + "\n" + s) == ReadLines(Empty, s)
  {
    PlyWord();
    SoleWord("ply", s);
  }

  lemma PlyWord()
    ensures IsWord("ply") && KeywordOf("ply") == OtherKey && |"ply"| == 3
  {
  }

  /** The printed header, and the data after it, behind the first line. */
  function Behind(h: Header, data: string): string {
    PrintLines(HeaderLines(h)) + ("end_header" + "\n" + data)
  }

  lemma ReadIsBehind(h: Header, data: string)
    ensures Read(Print(h) + data) == ReadLines(Empty, Behind(h, data))
  {
    FirstLine(HeaderLines(h), data);
    PlyLine(Behind(h, data));
  }

  lemma FirstLine(ls: seq<string>, data: string)
    ensures PrintLines(["ply"] + ls + ["end_header"]) + data == "ply" + "\n" + (PrintLines(ls) + ("end_header" + "\n" + data))
  {
    PrintAppend(["ply"] + ls, "end_header");
    assert (["ply"] + ls)[1..] == ls;
    var a := PrintLines(ls);
    assert PrintLines(["ply"] + ls) == "ply" + "\n" + a;
    assert ("ply" + "\n" + a) + "end_header" + "\n" + data == "ply" + "\n" + (a + ("end_header" + "\n" + data));
  }

  /** ply_read undoes ply_header_complete and stops where the data begins. */
  lemma HeaderRoundTrip(h: Header, data: string)
    requires Printable(h)
    ensures Read(Print(h) + data) == Done(h, data)
  {
    ReadIsBehind(h, data);
    LinesAre(h);
    ElementsLead(h, |h.elems|);
    assert h.elems[..|h.elems|] == h.elems;
    LeadsReads(Empty, HeaderLines(h), h, "end_header" + "\n" + data);
    EndLine(h, data);
  }
}
