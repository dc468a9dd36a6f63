/** The layout part of the XML import: range strings, page/column/line numbering and shift
    tags. XML elements are given as records: a name, the attributes and the text, and the
    child elements in document order. */
module XmlLayout {
  import opened Common

  datatype XNode = XNode(name: string, attrs: map<string, string>, text: string, children: seq<XNode>)

  /** An attribute cast to string: a missing attribute reads as "". */
  function Attr(n: XNode, key: string): string
  {
    if key in n.attrs then n.attrs[key] else ""
  }

  // ---------------------------------------------------------------------------------------
  // parseRange

  /** The separator ".." starts at position i. */
  predicate SepAt(s: string, i: int)
  {
    0 <= i && i + 1 < |s| && s[i] == '.' && s[i + 1] == '.'
  }

  /** The first position at or after `from` where ".." starts, or |s| when there is none. */
  function FirstSep(s: string, from: nat): (r: nat)
    requires from <= |s|
    ensures from <= r <= |s|
    ensures r < |s| ==> SepAt(s, r)
    ensures forall k :: from <= k < r ==> !SepAt(s, k)
    decreases |s| - from
  {
    if from == |s| then |s|
    else if SepAt(s, from) then from
    else FirstSep(s, from + 1)
  }

  /** The text before the first ".." (all of `s` when there is none): one piece of PHP's
      `explode("..", s)`. */
  function Piece(s: string): (r: string)
    ensures r <= s
  {
    s[..FirstSep(s, 0)]
  }

  /** parseRange: "t1..t4" gives ("t1", "t4"), "t1" gives ("t1", "t1"); only the first two
      pieces of the split count. */
  function ParseRange(range: string): (string, string)
  {
    var i := FirstSep(range, 0);
    if i == |range| then (range, range)
    else (range[..i], Piece(range[i + 2..]))
  }

  /** A string that cannot hide a separator at its end or inside it. */
  predicate Plain(s: string)
  {
    (forall k :: 0 <= k < |s| ==> !SepAt(s, k)) && (s == [] || s[|s| - 1] != '.')
  }

  lemma FirstSepNone(s: string)
    requires forall k :: 0 <= k < |s| ==> !SepAt(s, k)
    ensures FirstSep(s, 0) == |s|
  {
  }

  /** The separator after a plain start is the first one. */
  lemma {:induction false} FirstSepAfter(a: string, rest: string)
    requires Plain(a)
    ensures FirstSep(a + ".." + rest, 0) == |a|
  {
    var s := a + ".." + rest;
    forall k | 0 <= k < |a|
      ensures !SepAt(s, k)
    {
      if k + 1 < |a| {
        assert s[k] == a[k] && s[k + 1] == a[k + 1];
        assert !SepAt(a, k);
      } else {
        assert s[k] == a[k];
      }
    }
    assert SepAt(s, |a|);
    FirstSepIs(s, |a|);
  }

  lemma {:induction false} FirstSepIs(s: string, i: nat)
    requires i <= |s| && (i < |s| ==> SepAt(s, i)) && forall k :: 0 <= k < i ==> !SepAt(s, k)
    ensures FirstSep(s, 0) == i
  {
  }

  /** A range without ".." names a single token. */
  lemma ParseRangeSingle(a: string)
    requires forall k :: 0 <= k < |a| ==> !SepAt(a, k)
    ensures ParseRange(a) == (a, a)
  {
    FirstSepNone(a);
  }

  /** Joining two plain names with ".." and parsing gives them back. */
  lemma ParseRangeJoin(a: string, b: string)
    requires Plain(a) && forall k :: 0 <= k < |b| ==> !SepAt(b, k)
    ensures ParseRange(a + ".." + b) == (a, b)
  {
    var s := a + ".." + b;
    FirstSepAfter(a, b);
    assert s[..|a|] == a && s[|a| + 2..] == b;
    FirstSepNone(b);
    assert Piece(b) == b[..|b|] == b;
  }

  /** Whatever follows a second ".." is ignored. */
  lemma ParseRangeIgnoresRest(a: string, b: string, c: string)
    requires Plain(a) && Plain(b)
    ensures ParseRange(a + ".." + b + ".." + c) == (a, b)
  {
    var s := a + ".." + b + ".." + c;
    assert s == a + ".." + (b + ".." + c);
    FirstSepAfter(a, b + ".." + c);
    assert s[..|a|] == a && s[|a| + 2..] == b + ".." + c;
    FirstSepAfter(b, c);
    assert (b + ".." + c)[..|b|] == b;
  }

  // ---------------------------------------------------------------------------------------
  // processLayoutInformation

  datatype Page = Page(xmlId: string, side: string, name: string, num: int, range: (string, string))
  /** A column or a line of the layout. */
  datatype Span = Span(xmlId: string, name: string, num: int, range: (string, string))
  datatype Layout = Layout(pages: seq<Page>, columns: seq<Span>, lines: seq<Span>)

  /** The pages of a `layoutinfo` element, numbered from 1 in document order. */
  method NumberPages(nodes: seq<XNode>) returns (pages: seq<Page>)
    ensures |pages| == |nodes|
    ensures forall i :: 0 <= i < |nodes| ==>
      pages[i] == Page(Attr(nodes[i], "id"), Attr(nodes[i], "side"), Attr(nodes[i], "no"), i + 1, ParseRange(Attr(nodes[i], "range")))
  {
    pages := [];
    var count := 0;
    for i := 0 to |nodes|
      invariant count == i == |pages|
      invariant forall j :: 0 <= j < i ==>
        pages[j] == Page(Attr(nodes[j], "id"), Attr(nodes[j], "side"), Attr(nodes[j], "no"), j + 1, ParseRange(Attr(nodes[j], "range")))
    {
      var n := nodes[i];
      count := count + 1;
      pages := pages + [Page(Attr(n, "id"), Attr(n, "side"), Attr(n, "no"), count, ParseRange(Attr(n, "range")))];
    }
  }

  /** The columns or the lines of a `layoutinfo` element, numbered from 1. */
  method NumberSpans(nodes: seq<XNode>) returns (spans: seq<Span>)
    ensures |spans| == |nodes|
    ensures forall i :: 0 <= i < |nodes| ==>
      spans[i] == Span(Attr(nodes[i], "id"), Attr(nodes[i], "name"), i + 1, ParseRange(Attr(nodes[i], "range")))
  {
    spans := [];
    var count := 0;
    for i := 0 to |nodes|
      invariant count == i == |spans|
      invariant forall j :: 0 <= j < i ==>
        spans[j] == Span(Attr(nodes[j], "id"), Attr(nodes[j], "name"), j + 1, ParseRange(Attr(nodes[j], "range")))
    {
      var n := nodes[i];
      count := count + 1;
      spans := spans + [Span(Attr(n, "id"), Attr(n, "name"), count, ParseRange(Attr(n, "range")))];
    }
  }

  /** The child elements with the given name, in document order. */
  function Named(children: seq<XNode>, name: string): (r: seq<XNode>)
    ensures forall n :: n in r <==> n in children && n.name == name
  {
    Filter(children, (n: XNode) => n.name == name)
  }

  /** processLayoutInformation: one entry per `page`, `column` and `line` child in
      document order, each with its attributes and parsed range; the three kinds are
      numbered from 1 independently. */
  method ProcessLayoutInformation(node: XNode) returns (layout: Layout)
    ensures var ps := Named(node.children, "page");
      |layout.pages| == |ps| &&
      forall i :: 0 <= i < |ps| ==>
        layout.pages[i] == Page(Attr(ps[i], "id"), Attr(ps[i], "side"), Attr(ps[i], "no"), i + 1, ParseRange(Attr(ps[i], "range")))
    ensures var cs := Named(node.children, "column");
      |layout.columns| == |cs| &&
      forall i :: 0 <= i < |cs| ==>
        layout.columns[i] == Span(Attr(cs[i], "id"), Attr(cs[i], "name"), i + 1, ParseRange(Attr(cs[i], "range")))
    ensures var ls := Named(node.children, "line");
      |layout.lines| == |ls| &&
      forall i :: 0 <= i < |ls| ==>
        layout.lines[i] == Span(Attr(ls[i], "id"), Attr(ls[i], "name"), i + 1, ParseRange(Attr(ls[i], "range")))
  {
    var pages := NumberPages(Named(node.children, "page"));
    var columns := NumberSpans(Named(node.children, "column"));
    var lines := NumberSpans(Named(node.children, "line"));
    layout := Layout(pages, columns, lines);
  }

  // ---------------------------------------------------------------------------------------
  // processShiftTags

  /** The letter of a shift-tag type; an unknown type has none (PHP's NULL). */
  function ShiftLetter(kind: string): (r: Option<char>)
    ensures r.Some? <==> kind in ["rub", "title", "lat", "marg", "fm"]
  {
    if kind == "rub" then Some('R')
    else if kind == "title" then Some('T')
    else if kind == "lat" then Some('L')
    else if kind == "marg" then Some('M')
    else if kind == "fm" then Some('F')
    else None
  }

  /** Different known types have different letters. */
  lemma ShiftLettersDistinct(k1: string, k2: string)
    requires ShiftLetter(k1).Some? && ShiftLetter(k2).Some? && k1 != k2
    ensures ShiftLetter(k1) != ShiftLetter(k2)
  {
  }

  datatype ShiftTag = ShiftTag(kind: string, letter: Option<char>, range: (string, string))

  /** processShiftTags: one shift tag per child element, in order. */
  method ProcessShiftTags(node: XNode) returns (tags: seq<ShiftTag>)
    ensures |tags| == |node.children|
    ensures forall i :: 0 <= i < |tags| ==>
      var c := node.children[i];
      tags[i] == ShiftTag(c.name, ShiftLetter(c.name), ParseRange(Attr(c, "range")))
  {
    tags := [];
    for i := 0 to |node.children|
      invariant |tags| == i
      invariant forall j :: 0 <= j < i ==>
        var c := node.children[j];
        tags[j] == ShiftTag(c.name, ShiftLetter(c.name), ParseRange(Attr(c, "range")))
    {
      var c := node.children[i];
      tags := tags + [ShiftTag(c.name, ShiftLetter(c.name), ParseRange(Attr(c, "range")))];
    }
  }
}
