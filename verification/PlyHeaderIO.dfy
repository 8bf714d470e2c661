/** The loops of ply_header_complete, get_words and ply_read (examples/eqPly/plyfile.cpp),
    proved against PlyHeader. */
module PlyHeaderIO {
  import opened PlyHeader
  import opened PlyHeaderLimits

  // ---- Reading ----------------------------------------------------------------------------

  lemma {:induction false} WordStart(s: string, at: nat, from: nat)
    requires from <= at <= |s| && (forall i :: from <= i < at ==> s[i] == ' ')
    ensures Words(s[from..]) == Words(s[at..])
    decreases at - from
  {
    if from < at {
      assert s[from..][0] == ' ' && s[from..][1..] == s[from + 1..];
      WordStart(s, at, from + 1);
    }
  }

  lemma WordEnd(s: string, at: nat, from: nat)
    requires from < at <= |s| && (forall i :: from <= i < at ==> s[i] != ' ') && (at < |s| ==> s[at] == ' ')
    ensures Words(s[from..]) == [s[from..at]] + Words(s[at..])
  {
    var t, n := s[from..], at - from;
    WordLengthAt(t, n);
    assert t[..n] == s[from..at] && t[n..] == s[at..];
  }

  lemma {:induction false} WordLengthAt(t: string, n: nat)
    requires n <= |t| && (forall i :: 0 <= i < n ==> t[i] != ' ') && (n < |t| ==> t[n] == ' ')
    ensures WordLength(t) == n
  {
    if n > 0 { WordLengthAt(t[1..], n - 1); }
  }

  /** get_words on one line without its newline: blanks, then words. */
  method GetWords(text: string) returns (words: seq<string>, line: string)
    ensures line == Clean(text) && words == Words(line)
  {
    line := CleanLine(text);
    words := SplitWords(line);
  }

  method CleanLine(text: string) returns (line: string)
    ensures line == Clean(text)
  {
    line := [];
    var i := 0;
    while i < |text|
      invariant i <= |text| && line == Clean(text[..i])
    {
      var c := text[i];
      if c == '\t' { c := ' '; }
      line := line + [c];
      i := i + 1;
    }
    assert text[..i] == text;
  }

  method SplitWords(line: string) returns (words: seq<string>)
    ensures words == Words(line)
  {
    words := [];
    var ptr := 0;
    assert line[0..] == line;
    while ptr < |line|
      invariant ptr <= |line| && words + Words(line[ptr..]) == Words(line)
    {
      var start := SkipSpaces(line, ptr);
      WordStart(line, start, ptr);
      if start == |line| { ptr := start; break; }
      var end := SkipWord(line, start);
      WordEnd(line, end, start);
      Shift(words, line[start..end], Words(line[end..]));
      words := words + [line[start..end]];
      ptr := end;
    }
    assert line[ptr..] == [];
  }

  lemma Shift(words: seq<string>, w: string, rest: seq<string>)
    ensures words + ([w] + rest) == (words + [w]) + rest
  {
  }

  method SkipSpaces(line: string, ptr: nat) returns (start: nat)
    requires ptr <= |line|
    ensures ptr <= start <= |line| && (forall i :: ptr <= i < start ==> line[i] == ' ')
    ensures start < |line| ==> line[start] != ' '
  {
    start := ptr;
    while start < |line| && line[start] == ' '
      invariant ptr <= start <= |line| && forall i :: ptr <= i < start ==> line[i] == ' '
    {
      start := start + 1;
    }
  }

  method SkipWord(line: string, start: nat) returns (end: nat)
    requires start < |line| && line[start] != ' '
    ensures start < end <= |line| && (forall i :: start <= i < end ==> line[i] != ' ')
    ensures end < |line| ==> line[end] == ' '
  {
    end := start;
    while end < |line| && line[end] != ' '
      invariant start <= end <= |line| && forall i :: start <= i < end ==> line[i] != ' '
    {
      end := end + 1;
    }
  }

  method PlyRead(s: string) returns (r: Result)
    ensures r == Read(s)
  {
    var next := ReadLine(s);
    if !next.Line? {
      return Null;
    }
    var words, line := GetWords(next.text);
    if words == [] || words[0] != "ply" {
      return Null;
    }
    var h, unread := Empty, s;
    while true
      invariant ReadLines(h, unread) == ReadLines(Empty, s)
      decreases |unread|
    {
      next := ReadLine(unread);
      if next.EndOfFile? {
        return Done(h, []);
      }
      if next.Unterminated? {
        return Null;
      }
      var step := ParseLine(h, next.text);
      if step.Bad? {
        return Null;
      }
      if step.Stop? {
        return Done(h, next.rest);
      }
      h, unread := step.header, next.rest;
    }
  }

  // ---- Writing ----------------------------------------------------------------------------

  method PutTexts(key: string, texts: seq<string>) returns (out: string)
    ensures out == PrintLines(TextLines(key, texts))
  {
    out := [];
    var i := 0;
    while i < |texts|
      invariant i <= |texts| && out == PrintLines(TextLines(key, texts[..i]))
    {
      out := out + (key + " " + texts[i]) + "\n";
      PrintAppend(TextLines(key, texts[..i]), key + " " + texts[i]);
      assert texts[..i + 1][..i] == texts[..i];
      i := i + 1;
    }
    assert texts[..i] == texts;
  }

  method PutProps(props: seq<Prop>) returns (out: string)
    ensures out == PrintLines(PropLines(props))
  {
    out := [];
    var j := 0;
    while j < |props|
      invariant j <= |props| && out == PrintLines(PropLines(props[..j]))
    {
      out := out + Join(PropWords(props[j])) + "\n";
      PrintAppend(PropLines(props[..j]), Join(PropWords(props[j])));
      assert props[..j + 1][..j] == props[..j];
      j := j + 1;
    }
    assert props[..j] == props;
  }

  method PutElements(elems: seq<Element>) returns (out: string)
    ensures out == PrintLines(AllElementLines(elems))
  {
    out := [];
    var i := 0;
    while i < |elems|
      invariant i <= |elems| && out == PrintLines(AllElementLines(elems[..i]))
    {
      var props := PutProps(elems[i].props);
      out := out + (Join(ElementWords(elems[i])) + "\n" + props);
      ElementPrinted(elems[i], props);
      PrintJoin(AllElementLines(elems[..i]), ElementLines(elems[i]));
      assert elems[..i + 1][..i] == elems[..i];
      i := i + 1;
    }
    assert elems[..i] == elems;
  }

  lemma ElementPrinted(e: Element, props: string)
    requires props == PrintLines(PropLines(e.props))
    ensures PrintLines(ElementLines(e)) == Join(ElementWords(e)) + "\n" + props
  {
    assert ElementLines(e)[1..] == PropLines(e.props);
  }

  /** The source exits for an unknown file type or property type. */
  method HeaderComplete(h: Header) returns (out: string)
    requires Typed(h)
    ensures out == Print(h)
  {
    var comments := PutTexts("comment", h.comments);
    var objInfo := PutTexts("obj_info", h.objInfo);
    var elems := PutElements(h.elems);
    var format := Join(["format", FormatName(h.format), "1.0"]) + "\n";
    out := "ply" + "\n" + (format + comments + objInfo + elems) + "end_header" + "\n";
    Printed(h, format, comments, objInfo, elems);
  }

  lemma Printed(h: Header, format: string, comments: string, objInfo: string, elems: string)
    requires format == Join(["format", FormatName(h.format), "1.0"]) + "\n"
    requires comments == PrintLines(TextLines("comment", h.comments)) && objInfo == PrintLines(TextLines("obj_info", h.objInfo))
    requires elems == PrintLines(AllElementLines(h.elems))
    ensures Print(h) == "ply" + "\n" + (format + comments + objInfo + elems) + "end_header" + "\n"
  {
    var ls := HeaderLines(h);
    PrintAppend(["ply"] + ls, "end_header");
    assert (["ply"] + ls)[1..] == ls;
    LinesPrinted(Join(["format", FormatName(h.format), "1.0"]), TextLines("comment", h.comments),
                 TextLines("obj_info", h.objInfo), AllElementLines(h.elems));
  }

  lemma LinesPrinted(first: string, a: seq<string>, b: seq<string>, c: seq<string>)
    ensures PrintLines([first] + a + b + c) == first + "\n" + PrintLines(a) + PrintLines(b) + PrintLines(c)
  {
    PrintJoin([first] + a + b, c);
    PrintJoin([first] + a, b);
    PrintJoin([first], a);
    assert [first][1..] == [];
  }
}
