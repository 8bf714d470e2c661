/** Exactly which headers survive being written and read (examples/eqPly/plyfile.cpp,
    ply_header_complete and ply_read): those that PlyHeader calls printable, and no others. */
module PlyHeaderLimits {
  import opened Sequences
  import opened Hiding
  import opened PlyItems
  import opened PlyHeader

  /** What ply_header_complete prints at all: it exits for other formats and types. */
  predicate Typed(h: Header) {
    h.format != NoFormat && forall i :: 0 <= i < |h.elems| ==> TypedElement(h.elems[i])
  }

  predicate TypedElement(e: Element) { forall i :: 0 <= i < |e.props| ==> TypedProp(e.props[i]) }

  predicate TypedProp(p: Prop) { p.type_ != Invalid && (p.List? ==> p.count != Invalid) }

  // ---- What reading can produce -------------------------------------------------------------

  ghost predicate TextClean(s: string) { Plain(s) && (s == [] || s[0] != ' ') }

  ghost predicate ElementClean(e: Element) {
    IsWord(e.name) && forall i :: 0 <= i < |e.props| ==> IsWord(e.props[i].name)
  }

  /** No text begins with a space or holds a line end, tab or zero; names are words. */
  ghost predicate CleanHeader(h: Header) {
    && (forall i :: 0 <= i < |h.comments| ==> TextClean(h.comments[i]))
    && (forall i :: 0 <= i < |h.objInfo| ==> TextClean(h.objInfo[i]))
    && (forall i :: 0 <= i < |h.elems| ==> ElementClean(h.elems[i]))
  }

  lemma FindBefore(s: string, c: char, n: nat, i: nat)
    requires n <= Find(s, c) && i < n
    ensures i < |s| && s[i] != c
  {
  }

  lemma LinePlain(s: string)
    requires ReadLine(s).Line?
    ensures Plain(Clean(ReadLine(s).text))
  {
    var text := ReadLine(s).text;
    var n := Find(s, '\n');
    var m := if n < CUT then n else CUT;
    forall i | 0 <= i < |text| ensures text[i] != '\n' && text[i] != '\0' {
      if i < m {
        FindBefore(s, '\n', m, i);
        FindBefore(s, '\0', m, i);
        assert text[i] == s[i];
      }
    }
  }

  lemma {:induction false} WordsAreWords(l: string)
    requires Plain(l)
    ensures forall w :: w in Words(l) ==> IsWord(w)
    decreases |l|
  {
    if l != [] {
      if l[0] == ' ' {
        WordsAreWords(l[1..]);
      } else {
        var n := WordLength(l);
        WordsAreWords(l[n..]);
        assert IsWord(l[..n]);
      }
    }
  }

  lemma {:induction false} SkipClean(l: string)
    requires Plain(l)
    ensures TextClean(SkipBlanks(l))
  {
    if l != [] && (l[0] == ' ' || l[0] == '\t') { SkipClean(l[1..]); }
  }

  lemma AfterClean(l: string, n: nat)
    requires Plain(l)
    ensures TextClean(TextAfter(l, n))
  {
    if n <= |l| { SkipClean(l[n..]); }
  }

  lemma PropClean(h: Header, p: Prop)
    requires CleanHeader(h) && IsWord(p.name)
    ensures AddProperty(h, p).Go? ==> CleanHeader(AddProperty(h, p).header)
  {
  }

  lemma WordAt(ws: seq<string>, i: nat)
    requires (forall w :: w in ws ==> IsWord(w)) && i < |ws|
    ensures IsWord(ws[i])
  {
  }

  lemma PropertyClean(h: Header, ws: seq<string>)
    requires CleanHeader(h) && forall w :: w in ws ==> IsWord(w)
    ensures ParseProperty(h, ws).Go? ==> CleanHeader(ParseProperty(h, ws).header)
  {
    if |ws| >= 5 && ws[1] == "list" {
      WordAt(ws, 4);
      PropClean(h, List(TypeOf(ws[2]), TypeOf(ws[3]), ws[4]));
    } else if |ws| >= 3 && ws[1] != "list" {
      WordAt(ws, 2);
      PropClean(h, Scalar(TypeOf(ws[1]), ws[2]));
    }
  }

  lemma ElementIsClean(h: Header, ws: seq<string>)
    requires CleanHeader(h) && forall w :: w in ws ==> IsWord(w)
    ensures ParseElement(h, ws).Go? ==> CleanHeader(ParseElement(h, ws).header)
  {
    if |ws| >= 3 { WordAt(ws, 1); }
  }

  lemma StepClean(h: Header, text: string)
    requires CleanHeader(h) && Plain(Clean(text))
    ensures ParseLine(h, text).Go? ==> CleanHeader(ParseLine(h, text).header)
  {
    var line := Clean(text);
    var ws := Words(line);
    WordsAreWords(line);
    PropertyClean(h, ws);
    ElementIsClean(h, ws);
    AfterClean(line, 7);
    AfterClean(line, 8);
  }

  /** Whatever the file, what is read from it is clean. */
  lemma {:induction false} ReadsClean(h: Header, s: string)
    requires CleanHeader(h) && ReadLines(h, s).Done?
    ensures CleanHeader(ReadLines(h, s).header)
    decreases |s|
  {
    var next := ReadLine(s);
    if next.Line? {
      LinePlain(s);
      StepClean(h, next.text);
      var step := ParseLine(h, next.text);
      if step.Go? { ReadsClean(step.header, next.rest); }
    }
  }

  // ---- Nothing that was read is taken back --------------------------------------------------

  predicate ElementGrows(e: Element, d: Element) { e.name == d.name && e.num == d.num && e.props <= d.props }

  ghost predicate Grows(h: Header, g: Header) {
    && h.comments <= g.comments && h.objInfo <= g.objInfo && |h.elems| <= |g.elems|
    && forall i :: 0 <= i < |h.elems| ==> ElementGrows(h.elems[i], g.elems[i])
  }

  lemma GrowsOn(a: Header, b: Header, c: Header)
    requires Grows(a, b) && Grows(b, c)
    ensures Grows(a, c)
  {
  }

  lemma StepGrows(h: Header, text: string)
    ensures ParseLine(h, text).Go? ==> Grows(h, ParseLine(h, text).header)
  {
  }

  lemma {:induction false} ReadsGrow(h: Header, s: string)
    requires ReadLines(h, s).Done?
    ensures Grows(h, ReadLines(h, s).header)
    decreases |s|
  {
    var next := ReadLine(s);
    if next.Line? {
      var step := ParseLine(h, next.text);
      if step.Go? {
        StepGrows(h, next.text);
        ReadsGrow(step.header, next.rest);
        GrowsOn(h, step.header, ReadLines(h, s).header);
      }
    }
  }

  // ---- Lines that do not fit ----------------------------------------------------------------

  /** A longer line is cut, and its character at the cut is lost. */
  lemma CutLine(l: string, more: string, s: string)
    requires Plain(l) && |l| >= CUT && s == l + "\n" + more
    ensures ReadLine(s) == Line(l[..CUT] + " ", s[CUT + 1..])
    ensures Clean(l[..CUT] + " ") == l[..CUT] + " " && Plain(l[..CUT] + " ")
  {
    FindIs(s, '\n', |l|);
    NoZero(s, l);
    assert s[..CUT] == l[..CUT];
  }

  /** What comes after the cut of a line that is one character too long is an empty line, and
      its first word is not there. */
  lemma EmptyLine(g: Header, more: string)
    ensures ReadLines(g, "\n" + more) == Null
  {
    var s := "\n" + more;
    assert s[0] == '\n';
    assert ReadLine(s) == Line([], more) by { assert s[..0] == [] && s[1..] == more; }
    assert Clean([]) == [];
  }

  /** A text line that is cut gives another text than the one printed. */
  lemma CutText(key: string, c: string, m: nat, t: string)
    requires IsWord(key) && TextClean(c) && m == CUT - |key| - 1 && 0 < m <= |c|
    requires t == (key + " " + c)[..CUT] + " "
    ensures Words(t) != [] && Words(t)[0] == key && TextAfter(t, |key|) == c[..m] + " "
  {
    var rest := c[..m] + " ";
    assert t == key + (" " + rest);
    FirstWord(key, " " + rest);
    assert t[|key|..] == " " + rest;
    assert (" " + rest)[1..] == rest && rest[0] == c[0];
    assert SkipBlanks(rest) == rest;
    assert SkipBlanks(" " + rest) == rest;
  }

  lemma CutTextRead(info: bool, key: string, p: Header, c: string, m: nat, l: string, more: string, s: string)
    requires key == TextKey(info) && TextClean(c) && l == key + " " + c && |l| >= CUT && s == l + "\n" + more
    requires m == CUT - |key| - 1
    ensures m <= |c| && ReadLines(p, s) == ReadLines(WithTexts(info, p, [c[..m] + " "]), s[CUT + 1..])
  {
    KeyIsWord(info);
    assert Plain(l);
    CutLine(l, more, s);
    CutText(key, c, m, l[..CUT] + " ");
    KeyedLine(info, key, p, l[..CUT] + " ");
  }

  lemma KeyIsWord(info: bool)
    ensures IsWord(TextKey(info)) && |TextKey(info)| <= 8
  {
  }

  lemma TextKept(info: bool, p: Header, x: string, s: string, h: Header, data: string)
    requires ReadLines(WithTexts(info, p, [x]), s) == Done(h, data)
    ensures |Texts(info, p)| < |Texts(info, h)| && Texts(info, h)[|Texts(info, p)|] == x
  {
    var g := WithTexts(info, p, [x]);
    ReadsGrow(g, s);
    assert Texts(info, g)[|Texts(info, p)|] == x;
  }

  lemma OneTooLong(key: string, c: string, m: nat, l: string, more: string, s: string)
    requires l == key + " " + c && s == l + "\n" + more && m == CUT - |key| - 1 && m <= |c| && c == c[..m] + " "
    ensures s[CUT + 1..] == "\n" + more
  {
    assert |c| == m + 1;
    assert |l| == CUT + 1;
  }

  /** If a text came back, its line was short enough. */
  lemma TextFits(info: bool, key: string, p: Header, c: string, more: string, h: Header, data: string, l: string)
    requires key == TextKey(info) && TextClean(c) && l == key + " " + c && ReadLines(p, l + "\n" + more) == Done(h, data)
    requires |Texts(info, p)| < |Texts(info, h)| && Texts(info, h)[|Texts(info, p)|] == c
    ensures |l| < CUT
  {
    if |l| >= CUT {
      var s, m := l + "\n" + more, CUT - |key| - 1;
      KeyIsWord(info);
      CutTextRead(info, key, p, c, m, l, more, s);
      TextKept(info, p, c[..m] + " ", s[CUT + 1..], h, data);
      OneTooLong(key, c, m, l, more, s);
      EmptyLine(WithTexts(info, p, [c[..m] + " "]), more);
    }
  }

  // ---- Lines of words that do not fit -------------------------------------------------------

  ghost predicate AllWords(ws: seq<string>) { forall i :: 0 <= i < |ws| ==> IsWord(ws[i]) }

  lemma {:induction false} JoinLast(ws: seq<string>, w: string)
    requires ws != []
    ensures Join(ws + [w]) == Join(ws) + " " + w
  {
    var more := ws + [w];
    if |ws| == 1 {
      assert more[1..] == [w];
      assert Join([w]) == w;
    } else {
      JoinLast(ws[1..], w);
      assert more[1..] == ws[1..] + [w];
      assert more[0] == ws[0];
      Associate(ws[0] + " ", Join(ws[1..]), " " + w);
    }
  }

  /** Cutting inside the last word shortens it. */
  lemma CutWords(ws: seq<string>, w: string, j: nat, l: string, t: string)
    requires ws != [] && AllWords(ws) && IsWord(w) && l == Join(ws + [w])
    requires |Join(ws)| + 1 < CUT < |l| && j == CUT - |Join(ws)| - 1 && t == l[..CUT] + " "
    ensures 0 < j < |w| && Words(t) == ws + [w[..j]]
  {
    JoinLast(ws, w);
    JoinLast(ws, w[..j]);
    assert l[..CUT] == Join(ws + [w[..j]]);
    var cut := ws + [w[..j]];
    forall i | 0 <= i < |cut| ensures IsWord(cut[i]) { }
    WordsOfJoin(cut);
    WordsOfPadded(Join(cut));
  }

  /** A number that is cut is another number. */
  lemma {:induction false} DecimalPrefix(n: nat, j: nat) returns (m: nat)
    requires 0 < j < |Decimal(n)|
    ensures m < n && Decimal(n)[..j] == Decimal(m)
  {
    var d := Decimal(n);
    if j == |d| - 1 {
      m := n / 10;
    } else {
      m := DecimalPrefix(n / 10, j);
      assert d[..j] == Decimal(n / 10)[..j];
    }
  }

  lemma AtoiPrefix(n: int, j: nat)
    requires 0 < j < |PrintInt(n)|
    ensures Atoi(PrintInt(n)[..j]) != n
  {
    var d, s := if n < 0 then Decimal(-n) else Decimal(n), PrintInt(n)[..j];
    if n >= 0 {
      var m := DecimalPrefix(n, j);
      assert s == PrintInt(m);
      AtoiOfPrint(m);
    } else if j == 1 {
      assert s == "-";
      assert s[1..] == [];
    } else {
      var m := DecimalPrefix(-n, j - 1);
      assert s == "-" + Decimal(m);
      assert s[1..] == Decimal(m);
      UnsignedOfDecimal(m);
    }
  }

  /** An element line that is cut before its count has too few words. */
  lemma CutName(e: Element, l: string, t: string, p: Header)
    requires IsWord(e.name) && l == Join(ElementWords(e)) && |"element"| + 1 + |e.name| + 1 >= CUT
    requires |l| > CUT && t == l[..CUT] + " " && Clean(t) == t
    ensures ParseLine(p, t) == Bad
  {
    var m := CUT - 8;
    ElementIs(e);
    var cut := if m < |e.name| then e.name[..m] else e.name;
    assert IsWord(cut) && IsWord("element");
    var ws := ["element", cut];
    forall i | 0 <= i < |ws| ensures IsWord(ws[i]) { }
    WordsOfJoin(ws);
    JoinLast(["element"], cut);
    assert Join(["element"]) == "element";
    assert ["element"] + [cut] == ws;
    WordsOfPadded(Join(ws));
    WordsOfPadded(Join(ws) + " ");
    assert t == Join(ws) + " " || t == Join(ws) + " " + " ";
    assert KeywordOf("element") == ElementKey;
  }

  lemma ElementIs(e: Element)
    ensures Join(ElementWords(e)) == "element" + " " + e.name + " " + PrintInt(e.num)
    ensures Join(["element", e.name]) == "element" + " " + e.name
  {
    assert Join(["element"]) == "element";
    JoinLast(["element"], e.name);
    assert ["element"] + [e.name] == ["element", e.name];
    JoinLast(["element", e.name], PrintInt(e.num));
    assert ["element", e.name] + [PrintInt(e.num)] == ElementWords(e);
  }

  /** One that is cut inside its count gives another count. */
  lemma CutCount(e: Element, l: string, t: string, p: Header) returns (n: int)
    requires IsWord(e.name) && l == Join(ElementWords(e)) && |"element"| + 1 + |e.name| + 1 < CUT < |l| && t == l[..CUT] + " "
    requires Clean(t) == t
    ensures n != e.num && ParseLine(p, t) == Go(p.(elems := p.elems + [Element(e.name, n, [])]))
  {
    var ws, num := ["element", e.name], PrintInt(e.num);
    ElementIs(e);
    AtoiOfPrint(e.num);
    assert IsWord("element");
    forall i | 0 <= i < |ws| ensures IsWord(ws[i]) { }
    var j := CUT - |Join(ws)| - 1;
    assert ws + [num] == ElementWords(e);
    CutWords(ws, num, j, l, t);
    AtoiPrefix(e.num, j);
    n := Atoi(num[..j]);
    assert KeywordOf("element") == ElementKey;
  }

  lemma ElementKept(p: Header, e: Element, s: string, h: Header, data: string)
    requires ReadLines(p.(elems := p.elems + [e]), s) == Done(h, data)
    ensures |p.elems| < |h.elems| && h.elems[|p.elems|].num == e.num
  {
    ReadsGrow(p.(elems := p.elems + [e]), s);
  }

  /** If an element came back, its line was short enough. */
  lemma ElementFits(p: Header, e: Element, more: string, h: Header, data: string, l: string)
    requires IsWord(e.name) && l == Join(ElementWords(e)) && ReadLines(p, l + "\n" + more) == Done(h, data)
    requires |p.elems| < |h.elems| && h.elems[|p.elems|].num == e.num
    ensures |l| <= CUT
  {
    if |l| > CUT {
      var s, t := l + "\n" + more, l[..CUT] + " ";
      ElementPlain(e);
      CutLine(l, more, s);
      if |"element"| + 1 + |e.name| + 1 >= CUT {
        CutName(e, l, t, p);
      } else {
        var n := CutCount(e, l, t, p);
        ElementKept(p, Element(e.name, n, []), s[CUT + 1..], h, data);
      }
    }
  }

  lemma ElementPlain(e: Element)
    requires IsWord(e.name)
    ensures Plain(Join(ElementWords(e)))
  {
    var ws := ElementWords(e);
    AtoiOfPrint(e.num);
    assert IsWord(ws[0]) && IsWord(ws[1]) && IsWord(ws[2]);
    JoinOk(ws);
  }

  // Properties.

  /** The words before the name. */
  function PropFront(p: Prop): seq<string> {
    match p
    case Scalar(t, _) => ["property", TypeName(t)]
    case List(c, t, _) => ["property", "list", TypeName(c), TypeName(t)]
  }

  lemma PropFrontIs(p: Prop)
    ensures PropWords(p) == PropFront(p) + [p.name] && AllWords(PropFront(p)) && |Join(PropFront(p))| < 40
  {
    TypeNameIsWord(p.type_);
    var ws := PropFront(p);
    assert IsWord("property") && IsWord("list");
    match p
    case Scalar(t, _) =>
      Join2("property", TypeName(t));
    case List(c, t, _) =>
      TypeNameIsWord(c);
      assert ws[1..] == ["list", TypeName(c), TypeName(t)];
      Join3("list", TypeName(c), TypeName(t));
  }

  lemma Join2(a: string, b: string)
    ensures |Join([a, b])| == |a| + |b| + 1
  {
    assert [a, b][1..] == [b];
    assert Join([b]) == b;
  }

  function Renamed(p: Prop, name: string): Prop {
    match p
    case Scalar(t, _) => Scalar(t, name)
    case List(c, t, _) => List(c, t, name)
  }

  /** A property line that is cut gives another name. */
  lemma CutProp(p: Header, q: Prop, l: string, t: string) returns (name: string)
    requires TypedProp(q) && IsWord(q.name) && l == Join(PropWords(q)) && |l| > CUT && t == l[..CUT] + " " && Clean(t) == t
    ensures name != q.name && ParseLine(p, t) == AddProperty(p, Renamed(q, name))
  {
    PropFrontIs(q);
    var ws := PropFront(q);
    var j := CUT - |Join(ws)| - 1;
    CutWords(ws, q.name, j, l, t);
    name := q.name[..j];
    match q
    case Scalar(u, _) =>
      assert Words(t) == ["property", TypeName(u), name];
      ScalarWords(p, u, name, t);
    case List(c, u, _) =>
      assert Words(t) == ["property", "list", TypeName(c), TypeName(u), name];
      ListWords(p, c, u, name, t);
  }

  lemma PropKept(p: Header, q: Prop, s: string, h: Header, data: string, n: int)
    requires AddProperty(p, q).Go? && ReadLines(AddProperty(p, q).header, s) == Done(h, data) && n == |p.elems| - 1
    ensures 0 <= n < |h.elems| && |p.elems[n].props| < |h.elems[n].props| && h.elems[n].props[|p.elems[n].props|] == q
  {
    var g := AddProperty(p, q).header;
    ReadsGrow(g, s);
    assert ElementGrows(g.elems[n], h.elems[n]);
    assert g.elems[n].props[|p.elems[n].props|] == q;
  }

  /** If a property came back, its line was short enough. */
  lemma PropFits(p: Header, q: Prop, more: string, h: Header, data: string, l: string, n: int)
    requires TypedProp(q) && IsWord(q.name) && l == Join(PropWords(q)) && ReadLines(p, l + "\n" + more) == Done(h, data)
    requires n == |p.elems| - 1 && 0 <= n < |h.elems| && |p.elems[n].props| < |h.elems[n].props|
    requires h.elems[n].props[|p.elems[n].props|] == q
    ensures |l| <= CUT
  {
    if |l| > CUT {
      var s, t := l + "\n" + more, l[..CUT] + " ";
      PropPlain(q);
      CutLine(l, more, s);
      var name := CutProp(p, q, l, t);
      PropKept(p, Renamed(q, name), s[CUT + 1..], h, data, n);
    }
  }

  lemma PropPlain(q: Prop)
    requires IsWord(q.name)
    ensures Plain(Join(PropWords(q)))
  {
    PropFrontIs(q);
    var ws := PropWords(q);
    forall i | 0 <= i < |ws| ensures IsWord(ws[i]) { }
    JoinOk(ws);
  }

  // ---- Every line of a header that came back ------------------------------------------------

  lemma LastText(key: string, all: seq<string>, front: seq<string>, x: string)
    requires all == front + [x]
    ensures TextLines(key, all) == TextLines(key, front) + [key + " " + x]
  {
    assert all[..|all| - 1] == front;
  }

  lemma {:induction false} TextLinesJoin(key: string, a: seq<string>, b: seq<string>)
    ensures TextLines(key, a + b) == TextLines(key, a) + TextLines(key, b)
  {
    if b == [] {
      assert a + b == a;
    } else {
      var front, x := b[..|b| - 1], b[|b| - 1];
      TextLinesJoin(key, a, front);
      assert b == front + [x] && a + b == (a + front) + [x];
      LastText(key, b, front, x);
      LastText(key, a + b, a + front, x);
      Associate(TextLines(key, a), TextLines(key, front), [key + " " + x]);
    }
  }

  lemma LastElement(all: seq<Element>, front: seq<Element>, x: Element)
    requires all == front + [x]
    ensures AllElementLines(all) == AllElementLines(front) + ElementLines(x)
  {
    assert all[..|all| - 1] == front;
  }

  lemma {:induction false} ElementLinesJoin(a: seq<Element>, b: seq<Element>)
    ensures AllElementLines(a + b) == AllElementLines(a) + AllElementLines(b)
  {
    if b == [] {
      assert a + b == a;
    } else {
      var front, x := b[..|b| - 1], b[|b| - 1];
      ElementLinesJoin(a, front);
      assert b == front + [x] && a + b == (a + front) + [x];
      LastElement(b, front, x);
      LastElement(a + b, a + front, x);
      Associate(AllElementLines(a), AllElementLines(front), ElementLines(x));
    }
  }

  lemma LastProp(all: seq<Prop>, front: seq<Prop>, x: Prop)
    requires all == front + [x]
    ensures PropLines(all) == PropLines(front) + [Join(PropWords(x))]
  {
    assert all[..|all| - 1] == front;
  }

  lemma {:induction false} PropLinesJoin(a: seq<Prop>, b: seq<Prop>)
    ensures PropLines(a + b) == PropLines(a) + PropLines(b)
  {
    if b == [] {
      assert a + b == a;
    } else {
      var front, x := b[..|b| - 1], b[|b| - 1];
      PropLinesJoin(a, front);
      assert b == front + [x] && a + b == (a + front) + [x];
      LastProp(b, front, x);
      LastProp(a + b, a + front, x);
      Associate(PropLines(a), PropLines(front), [Join(PropWords(x))]);
    }
  }

  lemma TextLinesAt(key: string, texts: seq<string>, k: nat) returns (after: seq<string>)
    requires k < |texts|
    ensures TextLines(key, texts) == TextLines(key, texts[..k]) + ([key + " " + texts[k]] + after)
  {
    var front, back := texts[..k], texts[k..];
    assert texts == front + back;
    TextLinesJoin(key, front, back);
    assert back == [texts[k]] + texts[k + 1..];
    TextLinesJoin(key, [texts[k]], texts[k + 1..]);
    OneTextLine(key, texts[k]);
    after := TextLines(key, texts[k + 1..]);
  }

  lemma OneTextLine(key: string, s: string)
    ensures TextLines(key, [s]) == [key + " " + s]
  {
    assert [s][..0] == [];
  }

  /** Reading a header gets to each of its lines after the lines before it. */
  lemma ReachLine(h: Header, data: string, before: seq<string>, p: Header, l: string, after: seq<string>) returns (more: string)
    requires HeaderLines(h) == before + ([l] + after) && Leads(Empty, before, p)
    ensures ReadLines(Empty, Behind(h, data)) == ReadLines(p, l + "\n" + more)
  {
    var tail := "end_header" + "\n" + data;
    more := PrintLines(after) + tail;
    PrintJoin(before, [l] + after);
    assert ([l] + after)[1..] == after;
    PrintFirst([l] + after, tail, more);
    Associate(PrintLines(before), PrintLines([l] + after), tail);
    LeadsReads(Empty, before, p, l + "\n" + more);
  }

  /** A header that came back. */
  ghost predicate CameBack(h: Header, data: string) {
    forall key {:trigger Unfold(key)} :: Unfold(key) ==>
      Typed(h) && CleanHeader(h) && ReadLines(Empty, Behind(h, data)) == Done(h, data)
  }

  lemma BackFormat(h: Header, data: string)
    requires CameBack(h, data)
    ensures h.format != NoFormat && ReadLines(Empty, Behind(h, data)) == Done(h, data)
  {
    assert Unfold(0);
  }

  lemma BackText(info: bool, h: Header, data: string, k: nat)
    requires CameBack(h, data) && k < |Texts(info, h)|
    ensures TextClean(Texts(info, h)[k])
  {
    assert Unfold(0);
  }

  lemma BackElement(h: Header, data: string, k: nat)
    requires CameBack(h, data) && k < |h.elems|
    ensures IsWord(h.elems[k].name)
  {
    assert Unfold(0);
    assert ElementClean(h.elems[k]);
  }

  lemma BackProp(h: Header, data: string, k: nat, i: nat)
    requires CameBack(h, data) && k < |h.elems| && i < |h.elems[k].props|
    ensures IsWord(h.elems[k].props[i].name) && TypedProp(h.elems[k].props[i])
  {
    assert Unfold(0);
    assert ElementClean(h.elems[k]) && TypedElement(h.elems[k]);
  }

  /** The first n texts are printable. */
  ghost predicate FirstTexts(key: string, texts: seq<string>, n: nat)
    requires n <= |texts|
  {
    n == 0 || (FirstTexts(key, texts, n - 1) && TextOk(key, texts[n - 1]))
  }

  lemma {:induction false} FirstTextsAre(key: string, texts: seq<string>, n: nat)
    requires n <= |texts| && FirstTexts(key, texts, n)
    ensures forall i :: 0 <= i < n ==> TextOk(key, texts[i])
  {
    if n > 0 { FirstTextsAre(key, texts, n - 1); }
  }

  lemma {:induction false} CommentsFit(h: Header, data: string, key: string, n: nat)
    requires CameBack(h, data) && n <= |h.comments| && key == TextKey(false)
    ensures FirstTexts(key, h.comments, n)
  {
    if n > 0 {
      var k := n - 1;
      CommentsFit(h, data, key, k);
      CommentFits(h, data, k, h.comments[k]);
    }
  }

  lemma CommentFits(h: Header, data: string, k: nat, c: string)
    requires CameBack(h, data) && k < |h.comments| && c == h.comments[k] && FirstTexts(TextKey(false), h.comments, k)
    ensures TextOk(TextKey(false), c)
  {
    var p, l := Header(h.format, h.comments[..k], [], []), TextKey(false) + " " + c;
    var more := ReachComment(h, data, k, p, l);
    BackText(false, h, data, k);
    TextFits(false, TextKey(false), p, c, more, h, data, l);
    TextIsOk(false, c);
  }

  lemma TextIsOk(info: bool, c: string)
    requires TextClean(c) && |TextKey(info) + " " + c| < CUT
    ensures TextOk(TextKey(info), c)
  {
    assert Unfold(0);
    KeyIsWord(info);
    assert Plain(TextKey(info) + " " + c);
  }

  lemma ReachComment(h: Header, data: string, k: nat, p: Header, l: string) returns (more: string)
    requires CameBack(h, data) && k < |h.comments| && l == TextKey(false) + " " + h.comments[k]
    requires p == Header(h.format, h.comments[..k], [], []) && FirstTexts(TextKey(false), h.comments, k)
    ensures ReadLines(p, l + "\n" + more) == Done(h, data)
  {
    BackFormat(h, data);
    FirstTextsAre(TextKey(false), h.comments, k);
    CommentsLead(h, k);
    var rest := CommentAt(h, k, l);
    more := ReachLine(h, data, ToComments(h, k), p, l, rest);
  }

  lemma CommentAt(h: Header, k: nat, l: string) returns (rest: seq<string>)
    requires k < |h.comments| && l == TextKey(false) + " " + h.comments[k]
    ensures HeaderLines(h) == ToComments(h, k) + ([l] + rest)
  {
    var after := TextLinesAt(TextKey(false), h.comments, k);
    var infos, elems := TextLines(TextKey(true), h.objInfo), AllElementLines(h.elems);
    rest := after + infos + elems;
    Shift(Start(h), TextLines(TextKey(false), h.comments[..k]), [l], after, infos, elems);
  }

  lemma Shift(a: seq<string>, b: seq<string>, c: seq<string>, d: seq<string>, e: seq<string>, f: seq<string>)
    ensures a + (b + (c + d)) + e + f == (a + b) + (c + (d + e + f))
  {
  }

  lemma {:induction false} InfosFit(h: Header, data: string, key: string, n: nat)
    requires CameBack(h, data) && n <= |h.objInfo| && key == TextKey(true) && FirstTexts(TextKey(false), h.comments, |h.comments|)
    ensures FirstTexts(key, h.objInfo, n)
  {
    if n > 0 {
      var k := n - 1;
      InfosFit(h, data, key, k);
      InfoFits(h, data, k, h.objInfo[k]);
    }
  }

  lemma InfoFits(h: Header, data: string, k: nat, c: string)
    requires CameBack(h, data) && k < |h.objInfo| && c == h.objInfo[k]
    requires FirstTexts(TextKey(false), h.comments, |h.comments|) && FirstTexts(TextKey(true), h.objInfo, k)
    ensures TextOk(TextKey(true), c)
  {
    var p, l := Header(h.format, h.comments, h.objInfo[..k], []), TextKey(true) + " " + c;
    var more := ReachInfo(h, data, k, p, l);
    BackText(true, h, data, k);
    TextFits(true, TextKey(true), p, c, more, h, data, l);
    TextIsOk(true, c);
  }

  lemma ReachInfo(h: Header, data: string, k: nat, p: Header, l: string) returns (more: string)
    requires CameBack(h, data) && k < |h.objInfo| && l == TextKey(true) + " " + h.objInfo[k]
    requires p == Header(h.format, h.comments, h.objInfo[..k], [])
    requires FirstTexts(TextKey(false), h.comments, |h.comments|) && FirstTexts(TextKey(true), h.objInfo, k)
    ensures ReadLines(p, l + "\n" + more) == Done(h, data)
  {
    BackFormat(h, data);
    FirstTextsAre(TextKey(false), h.comments, |h.comments|);
    FirstTextsAre(TextKey(true), h.objInfo, k);
    InfosLead(h, k);
    var rest := InfoAt(h, k, l);
    more := ReachLine(h, data, ToInfos(h, k), p, l, rest);
  }

  lemma InfoAt(h: Header, k: nat, l: string) returns (rest: seq<string>)
    requires k < |h.objInfo| && l == TextKey(true) + " " + h.objInfo[k]
    ensures HeaderLines(h) == ToInfos(h, k) + ([l] + rest)
  {
    var after := TextLinesAt(TextKey(true), h.objInfo, k);
    var elems := AllElementLines(h.elems);
    rest := after + elems;
    assert h.comments[..|h.comments|] == h.comments;
    Shift([], ToComments(h, |h.comments|), [], [], TextLines(TextKey(true), h.objInfo), elems);
    Shift(ToComments(h, |h.comments|), TextLines(TextKey(true), h.objInfo[..k]), [l], after, [], elems);
  }

  ghost predicate TextsOk(h: Header) {
    FirstTexts(TextKey(false), h.comments, |h.comments|) && FirstTexts(TextKey(true), h.objInfo, |h.objInfo|)
  }

  /** The first n elements, and the first n properties, are printable. */
  ghost predicate FirstElements(es: seq<Element>, n: nat)
    requires n <= |es|
  {
    n == 0 || (FirstElements(es, n - 1) && ElementOk(es[n - 1]))
  }

  lemma {:induction false} FirstElementsAre(es: seq<Element>, n: nat)
    requires n <= |es| && FirstElements(es, n)
    ensures forall i :: 0 <= i < n ==> ElementOk(es[i])
  {
    if n > 0 { FirstElementsAre(es, n - 1); }
  }

  ghost predicate FirstProps(ps: seq<Prop>, n: nat)
    requires n <= |ps|
  {
    n == 0 || (FirstProps(ps, n - 1) && PropOk(ps[n - 1]))
  }

  lemma {:induction false} FirstPropsAre(ps: seq<Prop>, n: nat)
    requires n <= |ps| && FirstProps(ps, n)
    ensures forall i :: 0 <= i < n ==> PropOk(ps[i])
  {
    if n > 0 { FirstPropsAre(ps, n - 1); }
  }

  lemma ElementAt(h: Header, k: nat) returns (after: seq<string>)
    requires k < |h.elems|
    ensures HeaderLines(h) == ToElements(h, k) + ([Join(ElementWords(h.elems[k]))] + (PropLines(h.elems[k].props) + after))
  {
    var front, e, back := h.elems[..k], h.elems[k], h.elems[k + 1..];
    assert h.elems == front + ([e] + back);
    ElementLinesJoin(front, [e] + back);
    ElementLinesJoin([e], back);
    OneElement(e);
    after := AllElementLines(back);
    LinesAre(h);
    assert h.elems[..|h.elems|] == h.elems;
    var infos, word, props := ToInfos(h, |h.objInfo|), [Join(ElementWords(e))], PropLines(e.props);
    Associate(word, props, after);
    Associate(infos, AllElementLines(front), word + (props + after));
  }

  lemma OneElement(e: Element)
    ensures AllElementLines([e]) == [Join(ElementWords(e))] + PropLines(e.props)
  {
    assert [e][..0] == [];
  }

  lemma {:induction false} ElementsFit(h: Header, data: string, n: nat)
    requires CameBack(h, data) && n <= |h.elems| && TextsOk(h)
    ensures FirstElements(h.elems, n)
  {
    if n > 0 {
      ElementsFit(h, data, n - 1);
      WholeElementFits(h, data, n - 1, h.elems[n - 1]);
    }
  }

  lemma WholeElementFits(h: Header, data: string, k: nat, e: Element)
    requires CameBack(h, data) && k < |h.elems| && e == h.elems[k] && TextsOk(h) && FirstElements(h.elems, k)
    ensures ElementOk(e)
  {
    BackElement(h, data, k);
    var p, l := Header(h.format, h.comments, h.objInfo, h.elems[..k]), Join(ElementWords(e));
    BeforeElement(h, data, k, p);
    var after := ElementAt(h, k);
    ElementLineFits(h, data, k, e, p, l, after);
    PropsFit(h, data, k, p, l, after, |e.props|);
    FirstPropsAre(e.props, |e.props|);
  }

  lemma BeforeElement(h: Header, data: string, k: nat, p: Header)
    requires CameBack(h, data) && k < |h.elems| && TextsOk(h) && FirstElements(h.elems, k)
    requires p == Header(h.format, h.comments, h.objInfo, h.elems[..k])
    ensures Leads(Empty, ToElements(h, k), p)
  {
    BackFormat(h, data);
    FirstTextsAre(TextKey(false), h.comments, |h.comments|);
    FirstTextsAre(TextKey(true), h.objInfo, |h.objInfo|);
    FirstElementsAre(h.elems, k);
    ElementsLead(h, k);
  }

  lemma ElementLineFits(h: Header, data: string, k: nat, e: Element, p: Header, l: string, after: seq<string>)
    requires CameBack(h, data) && k < |h.elems| && e == h.elems[k] && l == Join(ElementWords(e)) && IsWord(e.name)
    requires Leads(Empty, ToElements(h, k), p) && p == Header(h.format, h.comments, h.objInfo, h.elems[..k])
    requires HeaderLines(h) == ToElements(h, k) + ([l] + (PropLines(e.props) + after))
    ensures |l| <= CUT
  {
    BackFormat(h, data);
    var more := ReachLine(h, data, ToElements(h, k), p, l, PropLines(e.props) + after);
    ElementFits(p, e, more, h, data, l);
  }

  lemma {:induction false} PropsFit(h: Header, data: string, k: nat, p: Header, l: string, after: seq<string>, n: nat)
    requires CameBack(h, data) && k < |h.elems| && n <= |h.elems[k].props| && l == Join(ElementWords(h.elems[k])) && |l| <= CUT
    requires Leads(Empty, ToElements(h, k), p) && p == Header(h.format, h.comments, h.objInfo, h.elems[..k])
    requires HeaderLines(h) == ToElements(h, k) + ([l] + (PropLines(h.elems[k].props) + after))
    ensures FirstProps(h.elems[k].props, n)
  {
    if n > 0 {
      PropsFit(h, data, k, p, l, after, n - 1);
      OnePropFits(h, data, k, p, l, after, n - 1, h.elems[k].props[n - 1]);
    }
  }

  lemma OnePropFits(h: Header, data: string, k: nat, p: Header, l: string, after: seq<string>, i: nat, q: Prop)
    requires CameBack(h, data) && k < |h.elems| && i < |h.elems[k].props| && l == Join(ElementWords(h.elems[k])) && |l| <= CUT
    requires Leads(Empty, ToElements(h, k), p) && p == Header(h.format, h.comments, h.objInfo, h.elems[..k])
    requires HeaderLines(h) == ToElements(h, k) + ([l] + (PropLines(h.elems[k].props) + after))
    requires q == h.elems[k].props[i] && FirstProps(h.elems[k].props, i)
    ensures PropOk(q)
  {
    var e, g, more := ReachProp(h, data, k, p, l, after, i, q);
    BackProp(h, data, k, i);
    PropFits(g, q, more, h, data, Join(PropWords(q)), k);
    PropIsOk(q);
  }

  lemma PropIsOk(q: Prop)
    requires TypedProp(q) && IsWord(q.name) && |Join(PropWords(q))| <= CUT
    ensures PropOk(q)
  {
  }

  lemma ReachProp(h: Header, data: string, k: nat, p: Header, l: string, after: seq<string>, i: nat, q: Prop)
    returns (e: Element, g: Header, more: string)
    requires CameBack(h, data) && k < |h.elems| && i < |h.elems[k].props| && l == Join(ElementWords(h.elems[k])) && |l| <= CUT
    requires Leads(Empty, ToElements(h, k), p) && p == Header(h.format, h.comments, h.objInfo, h.elems[..k])
    requires HeaderLines(h) == ToElements(h, k) + ([l] + (PropLines(h.elems[k].props) + after))
    requires q == h.elems[k].props[i] && FirstProps(h.elems[k].props, i)
    ensures e == h.elems[k] && g == p.(elems := p.elems + [e.(props := e.props[..i])])
    ensures ReadLines(g, Join(PropWords(q)) + "\n" + more) == Done(h, data)
  {
    e := h.elems[k];
    g := p.(elems := p.elems + [e.(props := e.props[..i])]);
    BackFormat(h, data);
    BackElement(h, data, k);
    FirstPropsAre(e.props, i);
    PropsLead(h, k, p, l, i, g);
    var line, rest := PropAt(h, k, l, after, i);
    more := ReachLine(h, data, ToElements(h, k) + ([l] + PropLines(e.props[..i])), g, line, rest);
  }

  lemma PropsLead(h: Header, k: nat, p: Header, l: string, i: nat, g: Header)
    requires k < |h.elems| && i <= |h.elems[k].props| && l == Join(ElementWords(h.elems[k])) && |l| <= CUT && IsWord(h.elems[k].name)
    requires Leads(Empty, ToElements(h, k), p) && g == p.(elems := p.elems + [h.elems[k].(props := h.elems[k].props[..i])])
    requires forall j :: 0 <= j < i ==> PropOk(h.elems[k].props[j])
    ensures Leads(Empty, ToElements(h, k) + ([l] + PropLines(h.elems[k].props[..i])), g)
  {
    var e := h.elems[k].(props := h.elems[k].props[..i]);
    assert ElementWords(e) == ElementWords(h.elems[k]);
    ElementLinesLead(p, e, g);
    LeadsJoin(Empty, ToElements(h, k), p, ElementLines(e), g);
  }

  lemma PropAt(h: Header, k: nat, l: string, after: seq<string>, i: nat) returns (line: string, rest: seq<string>)
    requires k < |h.elems| && i < |h.elems[k].props|
    requires HeaderLines(h) == ToElements(h, k) + ([l] + (PropLines(h.elems[k].props) + after))
    ensures line == Join(PropWords(h.elems[k].props[i]))
    ensures HeaderLines(h) == (ToElements(h, k) + ([l] + PropLines(h.elems[k].props[..i]))) + ([line] + rest)
  {
    var ps := h.elems[k].props;
    line := Join(PropWords(ps[i]));
    PropSplit(ps, i, line);
    rest := PropLines(ps[i + 1..]) + after;
    Shuffle(ToElements(h, k), [l], PropLines(ps[..i]), [line], PropLines(ps[i + 1..]), after);
  }

  lemma PropSplit(ps: seq<Prop>, i: nat, line: string)
    requires i < |ps| && line == Join(PropWords(ps[i]))
    ensures PropLines(ps) == PropLines(ps[..i]) + ([line] + PropLines(ps[i + 1..]))
  {
    Around(ps, i);
    PropLinesNext(ps[..i], ps[i], ps[i + 1..], line);
  }

  lemma Around(ps: seq<Prop>, i: nat)
    requires i < |ps|
    ensures ps[..i] + ([ps[i]] + ps[i + 1..]) == ps
  {
  }

  lemma PropLinesNext(a: seq<Prop>, p: Prop, b: seq<Prop>, line: string)
    requires line == Join(PropWords(p))
    ensures PropLines(a + ([p] + b)) == PropLines(a) + ([line] + PropLines(b))
  {
    PropLinesJoin(a, [p] + b);
    PropLinesJoin([p], b);
    assert [p][..0] == [] && PropLines([p]) == [line];
  }

  lemma Shuffle(a: seq<string>, b: seq<string>, c: seq<string>, d: seq<string>, e: seq<string>, f: seq<string>)
    ensures a + (b + ((c + (d + e)) + f)) == (a + (b + c)) + (d + (e + f))
  {
  }

  // ---- The exact condition ------------------------------------------------------------------

  /** A header that can be written at all is read back unchanged, with the data after it left
      to read, if and only if it is printable. */
  lemma HeaderSurvives(h: Header, data: string)
    requires Typed(h)
    ensures Read(Print(h) + data) == Done(h, data) <==> Printable(h)
  {
    ReadIsBehind(h, data);
    if Printable(h) {
      HeaderRoundTrip(h, data);
    }
    if Read(Print(h) + data) == Done(h, data) {
      ReadsClean(Empty, Behind(h, data));
      assert CameBack(h, data);
      CommentsFit(h, data, TextKey(false), |h.comments|);
      InfosFit(h, data, TextKey(true), |h.objInfo|);
      ElementsFit(h, data, |h.elems|);
      FirstTextsAre(TextKey(false), h.comments, |h.comments|);
      FirstTextsAre(TextKey(true), h.objInfo, |h.objInfo|);
      FirstElementsAre(h.elems, |h.elems|);
    }
  }

  /** If everything else in the header is printable, it comes back exactly when every comment
      has no tab, line end, zero or leading space, and is short enough. */
  lemma CommentsSurvive(h: Header, data: string)
    requires Typed(h) && Printable(h.(comments := []))
    ensures Read(Print(h) + data) == Done(h, data) <==> forall i :: 0 <= i < |h.comments| ==> TextOk(TextKey(false), h.comments[i])
  {
    HeaderSurvives(h, data);
  }

  /** A comment of 4090 letters: it overruns the buffer. */
  lemma LongCommentLost(h: Header, data: string, c: string)
    requires |c| == 4090 && h == Header(Ascii, [c], [], [])
    ensures Read(Print(h) + data) != Done(h, data)
  {
    assert Unfold(0);
    HeaderSurvives(h, data);
    assert h.comments[0] == c;
    assert |TextKey(false) + " " + c| == 4098;
  }

  /** How long a comment may be: 4085 characters, so that its line leaves room for the newline. */
  lemma CommentLength(h: Header, data: string, c: string)
    requires h == Header(Ascii, [c], [], []) && Plain(c) && c != [] && c[0] != ' '
    ensures Read(Print(h) + data) == Done(h, data) <==> |c| <= 4085
  {
    assert Unfold(0);
    HeaderSurvives(h, data);
    var key := TextKey(false);
    var l := key + " " + c;
    assert |l| == |c| + 8;
    assert h.comments[0] == c;
    assert Plain(key) && Plain(l);
  }

  /** How long the name of a float may be: 4079 characters, so that its line fits the buffer. */
  lemma NameLength(h: Header, data: string, name: string)
    requires h == Header(Ascii, [], [], [Element("e", 1, [Scalar(Float, name)])]) && IsWord(name)
    ensures Read(Print(h) + data) == Done(h, data) <==> |name| <= 4079
  {
    assert Unfold(0);
    HeaderSurvives(h, data);
    var e := h.elems[0];
    Join3("property", "float", name);
    Join3("element", "e", PrintInt(1));
    assert PropWords(e.props[0]) == ["property", "float", name] && ElementWords(e) == ["element", "e", "1"];
    assert |Join(PropWords(e.props[0]))| == |name| + 15 && |Join(ElementWords(e))| == 11;
    assert IsWord("e");
  }

  /** A comment with a line end. */
  lemma BrokenCommentLost(h: Header, data: string)
    requires h == Header(Ascii, ["a\nb"], [], [])
    ensures Read(Print(h) + data) != Done(h, data)
  {
    HeaderSurvives(h, data);
    var c := h.comments[0];
    assert Unfold(0);
    assert (TextKey(false) + " " + c)[9] == '\n';
  }
}
