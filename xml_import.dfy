/** The XML import: header options, the `<text>` element, tokens with their diplomatic and
    modern transcriptions and tag suggestions, and the defaults filled in before the
    document is stored. The XML reader is modelled as the stream of element start nodes in
    document order, each with its subtree. */
module XmlImport {
  import opened Common
  import opened XmlLayout

  type Options = map<string, string>

  /** PHP `empty()` on a string: "" and "0" are empty. */
  predicate Blank(v: string)
  {
    v == "" || v == "0"
  }

  /** PHP `isset($o[key]) && !empty($o[key])`. */
  predicate Filled(o: Options, key: string)
  {
    key in o && !Blank(o[key])
  }

  // ---------------------------------------------------------------------------------------
  // setOptionsFromHeader

  /** The header attributes the import takes over. */
  const HeaderKeys: seq<string> := ["sigle", "name", "tagset", "progress"]

  /** The options after taking over `keys` from the header in order: a non-empty header
      value fills an option that is unset or empty. */
  function MergeKeys(header: Options, options: Options, keys: seq<string>): Options
    decreases |keys|
  {
    if keys == [] then options
    else
      var prev := MergeKeys(header, options, keys[..|keys| - 1]);
      var key := keys[|keys| - 1];
      if Filled(header, key) && !Filled(prev, key) then prev[key := header[key]] else prev
  }

  /** What the merge does to each option: the caller's non-empty options win, a non-empty
      header value fills one of the listed keys otherwise, and nothing else changes. */
  lemma {:induction false} MergeKeysSpec(header: Options, options: Options, keys: seq<string>)
    requires Distinct(keys)
    ensures forall key :: key in MergeKeys(header, options, keys) <==> key in options || (key in keys && Filled(header, key))
    ensures forall key :: key in MergeKeys(header, options, keys) ==>
      MergeKeys(header, options, keys)[key] ==
        if key in keys && Filled(header, key) && !Filled(options, key) then header[key] else options[key]
    decreases |keys|
  {
    if keys != [] {
      var init := keys[..|keys| - 1];
      var last := keys[|keys| - 1];
      assert Distinct(init);
      assert last !in init;
      MergeKeysSpec(header, options, init);
      assert forall key :: key in keys <==> key in init || key == last;
    }
  }

  /** Taking over the header a second time changes nothing. */
  lemma MergeKeysIdempotent(header: Options, options: Options, keys: seq<string>)
    requires Distinct(keys)
    ensures MergeKeys(header, MergeKeys(header, options, keys), keys) == MergeKeys(header, options, keys)
  {
    var once := MergeKeys(header, options, keys);
    MergeKeysSpec(header, options, keys);
    MergeKeysSpec(header, once, keys);
  }

  /** setOptionsFromHeader, over the four header keys. */
  method SetOptionsFromHeader(header: Options, options: Options) returns (r: Options)
    ensures r == MergeKeys(header, options, HeaderKeys)
  {
    r := options;
    for i := 0 to |HeaderKeys|
      invariant r == MergeKeys(header, options, HeaderKeys[..i])
    {
      assert HeaderKeys[..i + 1][..i] == HeaderKeys[..i];
      var key := HeaderKeys[i];
      if Filled(header, key) && !Filled(r, key) {
        r := r[key := header[key]];
      }
    }
    assert HeaderKeys[..|HeaderKeys|] == HeaderKeys;
  }

  /** The caller's options take precedence over the header. */
  lemma HeaderOptionsPrecedence(header: Options, options: Options, key: string)
    requires Filled(options, key)
    ensures key in MergeKeys(header, options, HeaderKeys) && MergeKeys(header, options, HeaderKeys)[key] == options[key]
  {
    MergeKeysSpec(header, options, HeaderKeys);
  }

  /** Only sigle, name, tagset and progress are taken from the header. */
  lemma HeaderOnlyListedKeys(header: Options, options: Options, key: string)
    requires key !in HeaderKeys
    ensures (key in MergeKeys(header, options, HeaderKeys) <==> key in options)
    ensures key in options ==> MergeKeys(header, options, HeaderKeys)[key] == options[key]
  {
    MergeKeysSpec(header, options, HeaderKeys);
  }

  // ---------------------------------------------------------------------------------------
  // processXMLHeader

  const NoTextElement: string := "XML-Format nicht erkannt: <text>-Tag nicht gefunden."

  /** The `ext_id` rule: the `id` of `<text>` is used only when the options lack one. */
  function WithExtId(options: Options, text: XNode): (r: Options)
    ensures Filled(options, "ext_id") ==> r == options
    ensures !Filled(options, "ext_id") && Filled(text.attrs, "id") ==> r == options["ext_id" := text.attrs["id"]]
    ensures !Filled(text.attrs, "id") ==> r == options
  {
    if Filled(text.attrs, "id") && !Filled(options, "ext_id") then options["ext_id" := text.attrs["id"]] else options
  }

  /** processXMLHeader: read up to the first `<text>` element and apply the ext_id rule;
      without one, the error message. `next` is where the reader stands afterwards. */
  method ProcessXMLHeader(stream: seq<XNode>, options: Options) returns (err: Option<string>, r: Options, next: nat)
    ensures err.None? <==> exists i :: 0 <= i < |stream| && stream[i].name == "text"
    ensures err.Some? ==> err.value == NoTextElement && r == options && next == |stream|
    ensures err.None? ==>
      && 0 < next <= |stream| && stream[next - 1].name == "text"
      && (forall i :: 0 <= i < next - 1 ==> stream[i].name != "text")
      && r == WithExtId(options, stream[next - 1])
  {
    var i := 0;
    while i < |stream|
      invariant 0 <= i <= |stream|
      invariant forall j :: 0 <= j < i ==> stream[j].name != "text"
    {
      if stream[i].name == "text" {
        return None, WithExtId(options, stream[i]), i + 1;
      }
      i := i + 1;
    }
    return Some(NoTextElement), options, |stream|;
  }

  // ---------------------------------------------------------------------------------------
  // processToken: suggestions and annotations

  datatype Source = Auto | User

  /** One tag of a modern token: where it comes from, whether it is selected, its type
      (the element name, e.g. `pos`), its tag and its score (NULL for user tags). */
  datatype Sugg = Sugg(source: Source, selected: int, kind: string, tag: string, score: Option<string>)

  /** The automatic suggestions of a `mod` element: the children of its first
      `suggestions` child, unselected, in order. */
  function Autos(m: XNode): (r: seq<Sugg>)
    ensures forall s :: s in r ==> s.source == Auto && s.selected == 0
  {
    var holders := Named(m.children, "suggestions");
    if holders == [] then []
    else
      var cs := holders[0].children;
      seq(|cs|, i requires 0 <= i < |cs| => Sugg(Auto, 0, cs[i].name, Attr(cs[i], "tag"), Some(Attr(cs[i], "score"))))
  }

  /** A child of `mod` that is an annotation (not the suggestion list, not a comment). */
  predicate Annotation(a: XNode)
  {
    a.name != "cora-comment" && a.name != "suggestions"
  }

  /** The first tag of the given type and tag name. */
  function FirstMatch(tags: seq<Sugg>, kind: string, tag: string): (r: Option<nat>)
    ensures r.Some? ==> r.value < |tags| && tags[r.value].kind == kind && tags[r.value].tag == tag
    ensures r.Some? ==> forall j :: 0 <= j < r.value ==> !(tags[j].kind == kind && tags[j].tag == tag)
    ensures r.None? ==> forall j :: 0 <= j < |tags| ==> !(tags[j].kind == kind && tags[j].tag == tag)
    decreases |tags|
  {
    if tags == [] then None
    else if tags[0].kind == kind && tags[0].tag == tag then Some(0)
    else
      var r := FirstMatch(tags[1..], kind, tag);
      if r.None? then None else Some(r.value + 1)
  }

  /** One annotation: select the first tag with its type and tag name, or add it as a
      selected user tag without score. */
  function Annotate(tags: seq<Sugg>, a: XNode): seq<Sugg>
  {
    if !Annotation(a) then tags
    else
      match FirstMatch(tags, a.name, Attr(a, "tag"))
      case Some(k) => tags[k := tags[k].(selected := 1)]
      case None => tags + [Sugg(User, 1, a.name, Attr(a, "tag"), None)]
  }

  /** The annotations applied in document order. */
  function AnnotateAll(tags: seq<Sugg>, anns: seq<XNode>): seq<Sugg>
    decreases |anns|
  {
    if anns == [] then tags else Annotate(AnnotateAll(tags, anns[..|anns| - 1]), anns[|anns| - 1])
  }

  /** The text of the last `cora-comment` child, if any: each one overwrites the
      comment read before it. */
  function LastComment(children: seq<XNode>): (r: Option<string>)
    ensures r.Some? ==>
      exists i ::
        && 0 <= i < |children| && children[i].name == "cora-comment" && children[i].text == r.value
        && forall j :: i < j < |children| ==> children[j].name != "cora-comment"
    ensures r.None? ==> forall c :: c in children ==> c.name != "cora-comment"
    decreases |children|
  {
    if children == [] then None
    else
      var c := children[|children| - 1];
      if c.name == "cora-comment" then Some(c.text) else LastComment(children[..|children| - 1])
  }

  /** `after` keeps every tag of `before` in place, at most selecting it. */
  predicate Extends(before: seq<Sugg>, after: seq<Sugg>)
  {
    |before| <= |after| && forall i :: 0 <= i < |before| ==> after[i] == before[i] || after[i] == before[i].(selected := 1)
  }

  lemma ExtendsTrans(a: seq<Sugg>, b: seq<Sugg>, c: seq<Sugg>)
    requires Extends(a, b) && Extends(b, c)
    ensures Extends(a, c)
  {
  }

  /** Annotations never remove, reorder or unselect a tag, and what they add are selected
      user tags without score. */
  lemma {:induction false} AnnotateAllExtends(tags: seq<Sugg>, anns: seq<XNode>)
    ensures Extends(tags, AnnotateAll(tags, anns))
    ensures forall i :: |tags| <= i < |AnnotateAll(tags, anns)| ==>
      var s := AnnotateAll(tags, anns)[i];
      s.source == User && s.selected == 1 && s.score == None
    decreases |anns|
  {
    if anns != [] {
      var prev := AnnotateAll(tags, anns[..|anns| - 1]);
      AnnotateAllExtends(tags, anns[..|anns| - 1]);
      assert Extends(prev, Annotate(prev, anns[|anns| - 1]));
      ExtendsTrans(tags, prev, Annotate(prev, anns[|anns| - 1]));
    }
  }

  /** A selected tag of the given type and name. */
  predicate Selected(tags: seq<Sugg>, kind: string, tag: string)
  {
    exists k :: 0 <= k < |tags| && tags[k].kind == kind && tags[k].tag == tag && tags[k].selected == 1
  }

  lemma ExtendsKeepsSelected(a: seq<Sugg>, b: seq<Sugg>, kind: string, tag: string)
    requires Extends(a, b) && Selected(a, kind, tag)
    ensures Selected(b, kind, tag)
  {
    var k :| 0 <= k < |a| && a[k].kind == kind && a[k].tag == tag && a[k].selected == 1;
    assert b[k].kind == kind && b[k].tag == tag && b[k].selected == 1;
  }

  /** Every annotation ends up as a selected tag of its type and tag name. */
  lemma {:induction false} AnnotateAllSelects(tags: seq<Sugg>, anns: seq<XNode>, a: XNode)
    requires a in anns && Annotation(a)
    ensures Selected(AnnotateAll(tags, anns), a.name, Attr(a, "tag"))
    decreases |anns|
  {
    var init := anns[..|anns| - 1];
    var last := anns[|anns| - 1];
    var prev := AnnotateAll(tags, init);
    var r := Annotate(prev, last);
    assert Extends(prev, r);
    if a == last {
      var m := FirstMatch(prev, a.name, Attr(a, "tag"));
      if m.Some? {
        assert r[m.value].selected == 1;
      } else {
        assert r[|prev|].selected == 1;
      }
    } else {
      assert a in init;
      AnnotateAllSelects(tags, init, a);
      ExtendsKeepsSelected(prev, r, a.name, Attr(a, "tag"));
    }
  }

  /** The (type, tag) pairs of a tag list. */
  function Pairs(tags: seq<Sugg>): set<(string, string)>
  {
    set s | s in tags :: (s.kind, s.tag)
  }

  /** The (type, tag) pairs the annotations name. */
  function AnnPairs(anns: seq<XNode>): set<(string, string)>
  {
    set a | a in anns && Annotation(a) :: (a.name, Attr(a, "tag"))
  }

  lemma AnnotatePairs(tags: seq<Sugg>, a: XNode)
    requires Annotation(a)
    ensures var p := (a.name, Attr(a, "tag"));
      && Pairs(Annotate(tags, a)) == Pairs(tags) + {p}
      && |Annotate(tags, a)| == if p in Pairs(tags) then |tags| else |tags| + 1
  {
    var p := (a.name, Attr(a, "tag"));
    var r := Annotate(tags, a);
    var m := FirstMatch(tags, a.name, Attr(a, "tag"));
    if m.Some? {
      var k := m.value;
      assert p in Pairs(tags) by { assert tags[k] in tags; }
      forall q | q in Pairs(r)
        ensures q in Pairs(tags)
      {
        var s :| s in r && q == (s.kind, s.tag);
        var i :| 0 <= i < |r| && r[i] == s;
        assert tags[i] in tags;
      }
      forall q | q in Pairs(tags)
        ensures q in Pairs(r)
      {
        var s :| s in tags && q == (s.kind, s.tag);
        var i :| 0 <= i < |tags| && tags[i] == s;
        assert r[i] in r;
      }
    } else {
      assert p !in Pairs(tags);
      assert r == tags + [Sugg(User, 1, a.name, Attr(a, "tag"), None)];
      assert r[|tags|] in r;
    }
  }

  lemma AnnPairsSnoc(anns: seq<XNode>)
    requires anns != []
    ensures var last := anns[|anns| - 1];
      AnnPairs(anns) == AnnPairs(anns[..|anns| - 1]) + (if Annotation(last) then {(last.name, Attr(last, "tag"))} else {})
  {
    var init := anns[..|anns| - 1];
    assert forall a :: a in anns <==> a in init || a == anns[|anns| - 1];
  }

  /** After the annotations, the (type, tag) pairs are those of the suggestions and those
      the annotations name. */
  lemma {:induction false} AnnotateAllPairs(tags: seq<Sugg>, anns: seq<XNode>)
    ensures Pairs(AnnotateAll(tags, anns)) == Pairs(tags) + AnnPairs(anns)
    decreases |anns|
  {
    if anns == [] {
      assert AnnPairs(anns) == {};
    } else {
      var init := anns[..|anns| - 1];
      var last := anns[|anns| - 1];
      AnnotateAllPairs(tags, init);
      AnnPairsSnoc(anns);
      if Annotation(last) {
        AnnotatePairs(AnnotateAll(tags, init), last);
      }
    }
  }

  lemma DiffAdd<T>(a: set<T>, t: set<T>, p: T)
    ensures p in a || p in t ==> (a + {p}) - t == a - t
    ensures p !in a && p !in t ==> (a + {p}) - t == (a - t) + {p} && p !in a - t
  {
  }

  /** The tag list grows by one for every (type, tag) pair that the annotations name and
      that no suggestion had: a pair named twice is added once, since the second
      annotation selects the tag the first one added. */
  lemma {:induction false} AnnotateAllGrowth(tags: seq<Sugg>, anns: seq<XNode>)
    ensures |AnnotateAll(tags, anns)| == |tags| + |AnnPairs(anns) - Pairs(tags)|
    decreases |anns|
  {
    if anns == [] {
      assert AnnPairs(anns) == {};
      assert AnnPairs(anns) - Pairs(tags) == {};
    } else {
      var init := anns[..|anns| - 1];
      var last := anns[|anns| - 1];
      var prev := AnnotateAll(tags, init);
      AnnotateAllGrowth(tags, init);
      AnnotateAllPairs(tags, init);
      AnnPairsSnoc(anns);
      if Annotation(last) {
        var p := (last.name, Attr(last, "tag"));
        AnnotatePairs(prev, last);
        DiffAdd(AnnPairs(init), Pairs(tags), p);
      }
    }
  }

  datatype Token = Token(xmlId: string, trans: string, ordnr: int)
  datatype Dipl = Dipl(xmlId: string, trans: string, utf: string, parent: string)
  datatype Modern = Modern(xmlId: string, trans: string, ascii: string, utf: string, parent: string,
                           tags: seq<Sugg>, comment: Option<string>)

  /** The first index of a tag with the given type and name, found by a linear scan. */
  method FindTag(tags: seq<Sugg>, kind: string, tag: string) returns (r: Option<nat>)
    ensures r == FirstMatch(tags, kind, tag)
  {
    var i := 0;
    while i < |tags|
      invariant 0 <= i <= |tags|
      invariant forall j :: 0 <= j < i ==> !(tags[j].kind == kind && tags[j].tag == tag)
    {
      if tags[i].kind == kind && tags[i].tag == tag {
        FirstMatchIs(tags, kind, tag, i);
        return Some(i);
      }
      i := i + 1;
    }
    FirstMatchNone(tags, kind, tag);
    return None;
  }

  lemma FirstMatchIs(tags: seq<Sugg>, kind: string, tag: string, i: nat)
    requires i < |tags| && tags[i].kind == kind && tags[i].tag == tag
    requires forall j :: 0 <= j < i ==> !(tags[j].kind == kind && tags[j].tag == tag)
    ensures FirstMatch(tags, kind, tag) == Some(i)
  {
  }

  lemma FirstMatchNone(tags: seq<Sugg>, kind: string, tag: string)
    requires forall j :: 0 <= j < |tags| ==> !(tags[j].kind == kind && tags[j].tag == tag)
    ensures FirstMatch(tags, kind, tag) == None
  {
  }

  /** The tags and the comment of one `mod` element: the automatic suggestions first, then
      each child in order — a `cora-comment` sets the comment, the suggestion list is
      skipped, and any other child is an annotation. */
  method ModernTags(m: XNode) returns (tags: seq<Sugg>, comment: Option<string>)
    ensures tags == AnnotateAll(Autos(m), m.children)
    ensures comment == LastComment(m.children)
  {
    tags := Autos(m);
    comment := None;
    for i := 0 to |m.children|
      invariant tags == AnnotateAll(Autos(m), m.children[..i])
      invariant comment == LastComment(m.children[..i])
    {
      assert m.children[..i + 1][..i] == m.children[..i];
      var a := m.children[i];
      if a.name == "cora-comment" {
        comment := Some(a.text);
      } else if a.name != "suggestions" {
        var found := FindTag(tags, a.name, Attr(a, "tag"));
        if found.Some? {
          tags := tags[found.value := tags[found.value].(selected := 1)];
        } else {
          tags := tags + [Sugg(User, 1, a.name, Attr(a, "tag"), None)];
        }
      }
    }
    assert m.children[..|m.children|] == m.children;
  }

  /** What the `dipl` element `n` reads as under the token `parent`. */
  function DiplOf(n: XNode, parent: string): Dipl
  {
    Dipl(Attr(n, "id"), Attr(n, "trans"), Attr(n, "utf"), parent)
  }

  /** What the `mod` element `n` reads as under the token `parent`: its attributes, the
      suggestions with the annotations applied, and the last comment. */
  function ModOf(n: XNode, parent: string): Modern
  {
    Modern(Attr(n, "id"), Attr(n, "trans"), Attr(n, "ascii"), Attr(n, "utf"), parent,
           AnnotateAll(Autos(n), n.children), LastComment(n.children))
  }

  /** The diplomatic transcriptions of a `token` element, in document order. */
  function DiplsOf(tok: XNode): (r: seq<Dipl>)
    ensures var ds := Named(tok.children, "dipl");
      |r| == |ds| && forall i :: 0 <= i < |ds| ==> r[i] == DiplOf(ds[i], Attr(tok, "id"))
  {
    var ds := Named(tok.children, "dipl");
    seq(|ds|, i requires 0 <= i < |ds| => DiplOf(ds[i], Attr(tok, "id")))
  }

  /** The modern transcriptions of a `token` element, in document order. */
  function ModsOf(tok: XNode): (r: seq<Modern>)
    ensures var ms := Named(tok.children, "mod");
      |r| == |ms| && forall i :: 0 <= i < |ms| ==> r[i] == ModOf(ms[i], Attr(tok, "id"))
  {
    var ms := Named(tok.children, "mod");
    seq(|ms|, i requires 0 <= i < |ms| => ModOf(ms[i], Attr(tok, "id")))
  }

  /** The `dipl` children of a token, each recording the token's xml id as its parent. */
  method ReadDipls(nodes: seq<XNode>, parent: string) returns (dipls: seq<Dipl>)
    ensures |dipls| == |nodes|
    ensures forall i :: 0 <= i < |nodes| ==>
      dipls[i] == Dipl(Attr(nodes[i], "id"), Attr(nodes[i], "trans"), Attr(nodes[i], "utf"), parent)
  {
    dipls := [];
    for i := 0 to |nodes|
      invariant |dipls| == i
      invariant forall j :: 0 <= j < i ==>
        dipls[j] == Dipl(Attr(nodes[j], "id"), Attr(nodes[j], "trans"), Attr(nodes[j], "utf"), parent)
    {
      dipls := dipls + [Dipl(Attr(nodes[i], "id"), Attr(nodes[i], "trans"), Attr(nodes[i], "utf"), parent)];
    }
  }

  /** The `mod` children of a token, each with its id, trans, ascii and utf attributes,
      the token's xml id as its parent, its tags and its comment. */
  method ReadMods(nodes: seq<XNode>, parent: string) returns (mods: seq<Modern>)
    ensures |mods| == |nodes|
    ensures forall i :: 0 <= i < |nodes| ==>
      var n := nodes[i];
      && mods[i].xmlId == Attr(n, "id") && mods[i].trans == Attr(n, "trans")
      && mods[i].ascii == Attr(n, "ascii") && mods[i].utf == Attr(n, "utf") && mods[i].parent == parent
      && mods[i].tags == AnnotateAll(Autos(n), n.children) && mods[i].comment == LastComment(n.children)
  {
    mods := [];
    for i := 0 to |nodes|
      invariant |mods| == i
      invariant forall j :: 0 <= j < i ==> mods[j] == ModOf(nodes[j], parent)
    {
      var m := nodes[i];
      var tags, comment := ModernTags(m);
      mods := mods + [Modern(Attr(m, "id"), Attr(m, "trans"), Attr(m, "ascii"), Attr(m, "utf"), parent, tags, comment)];
    }
  }

  /** processToken: the token with the given ordinal number, and its `dipl` and `mod`
      children in document order, each read in full and recording the token's xml id as
      its parent. */
  method ProcessToken(node: XNode, ordnr: int) returns (t: Token, dipls: seq<Dipl>, mods: seq<Modern>)
    ensures t == Token(Attr(node, "id"), Attr(node, "trans"), ordnr)
    ensures dipls == DiplsOf(node) && mods == ModsOf(node)
    ensures forall d :: d in dipls ==> d.parent == t.xmlId
    ensures forall m :: m in mods ==> m.parent == t.xmlId
  {
    t := Token(Attr(node, "id"), Attr(node, "trans"), ordnr);
    dipls := ReadDipls(Named(node.children, "dipl"), t.xmlId);
    mods := ReadMods(Named(node.children, "mod"), t.xmlId);
  }

  // ---------------------------------------------------------------------------------------
  // processXMLData

  /** A comment element, attached to the token read last before it. */
  datatype Comment = Comment(tokId: string, text: string, kind: string)

  /** What processXMLData hands to the document. */
  datatype Doc = Doc(header: string, layout: Option<Layout>, shifts: seq<ShiftTag>, comments: seq<Comment>,
                     tokens: seq<Token>, dipls: seq<Dipl>, mods: seq<Modern>)

  /** PHP `trim`'s default characters. */
  predicate Space(c: char)
  {
    c == ' ' || c == '\t' || c == '\n' || c == '\r' || c == '\0' || c == '\U{000B}'
  }

  /** The number of white-space characters `s` starts with. */
  function Lead(s: string): (n: nat)
    ensures n <= |s| && (forall k :: 0 <= k < n ==> Space(s[k])) && (n < |s| ==> !Space(s[n]))
    decreases |s|
  {
    if s == [] || !Space(s[0]) then 0 else 1 + Lead(s[1..])
  }

  /** The number of white-space characters `s` ends with. */
  function Tail(s: string): (n: nat)
    ensures n <= |s| && (forall k :: |s| - n <= k < |s| ==> Space(s[k])) && (n < |s| ==> !Space(s[|s| - 1 - n]))
    decreases |s|
  {
    if s == [] || !Space(s[|s| - 1]) then 0 else 1 + Tail(s[..|s| - 1])
  }

  /** `s` without leading and trailing white space (PHP `trim`). */
  function Trim(s: string): (r: string)
    ensures |r| <= |s|
    ensures r == [] || (!Space(r[0]) && !Space(r[|r| - 1]))
  {
    var rest := s[Lead(s)..];
    rest[..|rest| - Tail(rest)]
  }

  /** Trimming removes white space at both ends and nothing else. */
  lemma TrimInfix(s: string)
    ensures exists i, j ::
      && 0 <= i <= j <= |s| && Trim(s) == s[i..j]
      && (forall k :: 0 <= k < i ==> Space(s[k])) && (forall k :: j <= k < |s| ==> Space(s[k]))
  {
    var i := Lead(s);
    var rest := s[i..];
    var j := i + |rest| - Tail(rest);
    assert forall k :: j <= k < |s| ==> s[k] == rest[k - i];
    assert Trim(s) == s[i..j];
  }

  /** Trimming twice is trimming once. */
  lemma TrimIdempotent(s: string)
    ensures Trim(Trim(s)) == Trim(s)
  {
    var r := Trim(s);
    assert Lead(r) == 0;
    assert r[0..] == r;
    assert Tail(r) == 0;
    assert r[..|r|] == r;
  }

  /** What holds of the document at every point of processXMLData: the sentinel token
      "t0" with ordinal 1 comes first, each token's ordinal is its position plus one,
      `last` is the xml id of the token read last, every transcription belongs to a real
      token, and every comment to a token or to the sentinel. */
  predicate Numbered(doc: Doc, last: string)
  {
    && |doc.tokens| >= 1 && doc.tokens[0] == Token("t0", "", 1)
    && (forall k :: 0 <= k < |doc.tokens| ==> doc.tokens[k].ordnr == k + 1)
    && last == doc.tokens[|doc.tokens| - 1].xmlId
    && (forall d :: d in doc.dipls ==> d.parent in TokenIds(doc.tokens, 1))
    && (forall m :: m in doc.mods ==> m.parent in TokenIds(doc.tokens, 1))
    && (forall c :: c in doc.comments ==> c.tokId in TokenIds(doc.tokens, 0))
  }

  /** A token read with its transcriptions keeps the numbering invariant. */
  lemma NumberedToken(doc: Doc, last: string, t: Token, ds: seq<Dipl>, ms: seq<Modern>)
    requires Numbered(doc, last) && t.ordnr == |doc.tokens| + 1
    requires forall d :: d in ds ==> d.parent == t.xmlId
    requires forall m :: m in ms ==> m.parent == t.xmlId
    ensures Numbered(doc.(tokens := doc.tokens + [t], dipls := doc.dipls + ds, mods := doc.mods + ms), t.xmlId)
  {
    TokenIdsSnoc(doc.tokens, t, 0);
    TokenIdsSnoc(doc.tokens, t, 1);
  }

  /** One element of the data part: a `token` appends its token, its dipls and its mods;
      no other element touches them. */
  method ProcessNode(doc: Doc, options: Options, last: string, node: XNode) returns (doc': Doc, r: Options, last': string)
    requires Numbered(doc, last)
    ensures Numbered(doc', last')
    ensures node.name == "token" ==>
      && doc'.tokens == doc.tokens + [Token(Attr(node, "id"), Attr(node, "trans"), |doc.tokens| + 1)]
      && doc'.dipls == doc.dipls + DiplsOf(node) && doc'.mods == doc.mods + ModsOf(node)
    ensures node.name != "token" ==> doc'.tokens == doc.tokens && doc'.dipls == doc.dipls && doc'.mods == doc.mods
    ensures r == if node.name == "cora-header" then MergeKeys(node.attrs, options, HeaderKeys) else options
  {
    doc', r, last' := doc, options, last;
    if node.name == "cora-header" {
      r := SetOptionsFromHeader(node.attrs, options);
    } else if node.name == "header" {
      doc' := doc.(header := Trim(node.text));
    } else if node.name == "layoutinfo" {
      var layout := ProcessLayoutInformation(node);
      doc' := doc.(layout := Some(layout));
    } else if node.name == "shifttags" {
      var shifts := ProcessShiftTags(node);
      doc' := doc.(shifts := shifts);
    } else if node.name == "comment" {
      assert last in TokenIds(doc.tokens, 0) by { assert |doc.tokens| - 1 < |doc.tokens|; }
      doc' := doc.(comments := doc.comments + [Comment(last, node.text, Attr(node, "type"))]);
    } else if node.name == "token" {
      var t, ds, ms := ProcessToken(node, |doc.tokens| + 1);
      NumberedToken(doc, last, t, ds, ms);
      doc' := doc.(tokens := doc.tokens + [t], dipls := doc.dipls + ds, mods := doc.mods + ms);
      last' := t.xmlId;
    }
  }

  /** processXMLData: the element stream after `<text>`. A sentinel token "t0" with
      ordinal 1 comes first; each `token` element gets the next ordinal, and each
      `comment` is attached to the token read last. `cora-header` merges header options;
      `header`, `layoutinfo` and `shifttags` set the document's header, layout and shift
      tags (a later element replacing an earlier one). */
  method ProcessXMLData(stream: seq<XNode>, options: Options) returns (doc: Doc, r: Options)
    ensures TokensRead(doc, Named(stream, "token"))
    ensures Numbered(doc, doc.tokens[|doc.tokens| - 1].xmlId)
    ensures KeepsCaller(options, r)
  {
    doc := Doc("", None, [], [], [Token("t0", "", 1)], [], []);
    r := options;
    var tokcount := 1;
    var last := "t0";
    for i := 0 to |stream|
      invariant Numbered(doc, last) && |doc.tokens| == tokcount
      invariant TokensRead(doc, Named(stream[..i], "token"))
      invariant KeepsCaller(options, r)
    {
      var prev := doc;
      NamedSnoc(stream, i, "token");
      if stream[i].name == "token" {
        tokcount := tokcount + 1;
      }
      if stream[i].name == "cora-header" {
        MergeKeepsCaller(stream[i].attrs, options, r);
      }
      doc, r, last := ProcessNode(doc, r, last, stream[i]);
      TokensReadStep(prev, doc, Named(stream[..i], "token"), stream[i]);
    }
    assert stream[..|stream|] == stream;
  }

  /** The diplomatic transcriptions of a series of `token` elements, token by token. */
  function AllDipls(toks: seq<XNode>): seq<Dipl>
    decreases |toks|
  {
    if toks == [] then [] else AllDipls(toks[..|toks| - 1]) + DiplsOf(toks[|toks| - 1])
  }

  /** The modern transcriptions of a series of `token` elements, token by token. */
  function AllMods(toks: seq<XNode>): seq<Modern>
    decreases |toks|
  {
    if toks == [] then [] else AllMods(toks[..|toks| - 1]) + ModsOf(toks[|toks| - 1])
  }

  /** The document holds, after the sentinel, exactly the tokens of `toks` with their
      transcriptions. */
  ghost predicate TokensRead(doc: Doc, toks: seq<XNode>)
  {
    && |doc.tokens| == 1 + |toks|
    && (forall k :: 0 <= k < |toks| ==> doc.tokens[k + 1] == Token(Attr(toks[k], "id"), Attr(toks[k], "trans"), k + 2))
    && doc.dipls == AllDipls(toks) && doc.mods == AllMods(toks)
  }

  /** One more element of the stream, as ProcessNode handles it. */
  lemma TokensReadStep(doc: Doc, doc': Doc, toks: seq<XNode>, n: XNode)
    requires TokensRead(doc, toks)
    requires n.name == "token" ==>
      && doc'.tokens == doc.tokens + [Token(Attr(n, "id"), Attr(n, "trans"), |doc.tokens| + 1)]
      && doc'.dipls == doc.dipls + DiplsOf(n) && doc'.mods == doc.mods + ModsOf(n)
    requires n.name != "token" ==> doc'.tokens == doc.tokens && doc'.dipls == doc.dipls && doc'.mods == doc.mods
    ensures TokensRead(doc', toks + (if n.name == "token" then [n] else []))
  {
    if n.name == "token" {
      TokensReadSnoc(doc, doc', toks, n);
    } else {
      assert toks + [] == toks;
    }
  }

  lemma TokensReadSnoc(doc: Doc, doc': Doc, toks: seq<XNode>, n: XNode)
    requires TokensRead(doc, toks)
    requires doc'.tokens == doc.tokens + [Token(Attr(n, "id"), Attr(n, "trans"), |doc.tokens| + 1)]
    requires doc'.dipls == doc.dipls + DiplsOf(n) && doc'.mods == doc.mods + ModsOf(n)
    ensures TokensRead(doc', toks + [n])
  {
    var ext := toks + [n];
    assert ext[..|toks|] == toks && ext[|toks|] == n;
    assert AllDipls(ext) == AllDipls(toks) + DiplsOf(n);
    assert AllMods(ext) == AllMods(toks) + ModsOf(n);
    forall k | 0 <= k < |ext|
      ensures doc'.tokens[k + 1] == Token(Attr(ext[k], "id"), Attr(ext[k], "trans"), k + 2)
    {
      if k < |toks| {
        assert doc'.tokens[k + 1] == doc.tokens[k + 1] && ext[k] == toks[k];
      }
    }
  }

  /** `r` keeps the caller's non-empty options and differs from them only in header keys. */
  ghost predicate KeepsCaller(options: Options, r: Options)
  {
    && (forall k :: Filled(options, k) ==> k in r && r[k] == options[k])
    && (forall k :: k !in HeaderKeys ==> (k in r <==> k in options) && (k in r ==> r[k] == options[k]))
  }

  lemma MergeKeepsCaller(header: Options, options: Options, r: Options)
    requires KeepsCaller(options, r)
    ensures KeepsCaller(options, MergeKeys(header, r, HeaderKeys))
  {
    assert Distinct(HeaderKeys);
    MergeKeysSpec(header, r, HeaderKeys);
  }

  /** The xml ids of the tokens from position `from` on. */
  function TokenIds(tokens: seq<Token>, from: nat): set<string>
  {
    set k | from <= k < |tokens| :: tokens[k].xmlId
  }

  lemma TokenIdsSnoc(tokens: seq<Token>, t: Token, from: nat)
    requires from <= |tokens|
    ensures TokenIds(tokens + [t], from) == TokenIds(tokens, from) + {t.xmlId}
  {
    var ext := tokens + [t];
    assert ext[|tokens|] == t;
    forall x | x in TokenIds(tokens, from)
      ensures x in TokenIds(ext, from)
    {
      var k :| from <= k < |tokens| && tokens[k].xmlId == x;
      assert ext[k] == tokens[k];
    }
  }

  lemma NamedSnoc(stream: seq<XNode>, i: nat, name: string)
    requires i < |stream|
    ensures Named(stream[..i + 1], name) == Named(stream[..i], name) + (if stream[i].name == name then [stream[i]] else [])
  {
    assert stream[..i + 1] == stream[..i] + [stream[i]];
    FilterConcat(stream[..i], [stream[i]], (n: XNode) => n.name == name);
    assert [stream[i]][1..] == [];
  }

  // ---------------------------------------------------------------------------------------
  // import

  const NoNameWarning: string := "Dokument hat weder Name noch Sigle; benutze Dateiname als Dokumentname."

  /** The defaults filled in after parsing: a document with neither name nor sigle is
      named after the uploaded file, with a warning; a missing ext_id becomes "". */
  function Defaults(options: Options, filename: string): (r: (seq<string>, Options))
    ensures r.0 == (if !Filled(options, "name") && !Filled(options, "sigle") then [NoNameWarning] else [])
    ensures r.0 != [] ==> "name" in r.1 && r.1["name"] == filename
    ensures r.0 == [] ==> (("name" in r.1 <==> "name" in options) && ("name" in r.1 ==> r.1["name"] == options["name"]))
    ensures "ext_id" in r.1 && r.1["ext_id"] == if Filled(options, "ext_id") then options["ext_id"] else ""
    ensures forall k :: k != "name" && k != "ext_id" ==> (k in r.1 <==> k in options) && (k in r.1 ==> r.1[k] == options[k])
  {
    var named := !Filled(options, "name") && !Filled(options, "sigle");
    var o1 := if named then options["name" := filename] else options;
    var o2 := if Filled(o1, "ext_id") then o1 else o1["ext_id" := ""];
    (if named then [NoNameWarning] else [], o2)
  }

  /** What import returns: the errors, or the warnings together with the options and the
      document it hands to the database. */
  datatype ImportResult = Failed(errors: seq<string>) | Imported(warnings: seq<string>, options: Options, doc: Doc)

  /** import, after the well-formedness check: the header part up to `<text>`, then the
      data part, then the defaults. */
  method Import(stream: seq<XNode>, options: Options, filename: string) returns (r: ImportResult)
    ensures r.Failed? <==> forall i :: 0 <= i < |stream| ==> stream[i].name != "text"
    ensures r.Failed? ==> r.errors == [NoTextElement]
    ensures r.Imported? ==> "ext_id" in r.options
    ensures r.Imported? ==> Filled(r.options, "name") || Filled(r.options, "sigle") || ("name" in r.options && r.options["name"] == filename)
    // the caller's options take precedence over everything the file says
    ensures r.Imported? ==> forall k :: Filled(options, k) ==> k in r.options && r.options[k] == options[k]
    // ext_id: the caller's, else the id of the first `<text>`, else ""; the document
    // holds the tokens that follow that element
    ensures r.Imported? ==>
      exists i :: FirstText(stream, i) && r.options["ext_id"] == ExtId(options, stream[i]) &&
        TokensRead(r.doc, Named(stream[i + 1..], "token"))
  {
    var err, opts, doc, at := Parse(stream, options);
    if err.Some? {
      return Failed([err.value]);
    }
    var d := Defaults(opts, filename);
    r := Imported(d.0, d.1, doc);
    ImportOptions(options, stream[at], opts, filename);
  }

  /** The two parsing passes of import: the header part up to the first `<text>` (at
      position `at`), then the data part after it. */
  method Parse(stream: seq<XNode>, options: Options) returns (err: Option<string>, opts: Options, doc: Doc, at: nat)
    ensures err.None? <==> exists i :: 0 <= i < |stream| && stream[i].name == "text"
    ensures err.Some? ==> err.value == NoTextElement
    ensures err.None? ==>
      && FirstText(stream, at)
      && KeepsCaller(WithExtId(options, stream[at]), opts)
      && TokensRead(doc, Named(stream[at + 1..], "token"))
  {
    var header, next;
    err, header, next := ProcessXMLHeader(stream, options);
    if err.Some? {
      return err, header, Doc("", None, [], [], [], [], []), 0;
    }
    at := next - 1;
    assert header == WithExtId(options, stream[at]);
    doc, opts := ProcessXMLData(stream[at + 1..], header);
  }

  /** Element i is the first `<text>` of the stream. */
  predicate FirstText(stream: seq<XNode>, i: int)
  {
    0 <= i < |stream| && stream[i].name == "text" && forall j :: 0 <= j < i ==> stream[j].name != "text"
  }

  /** The ext_id a document gets: the caller's, else the id of `<text>`, else "". */
  function ExtId(options: Options, text: XNode): string
  {
    if Filled(options, "ext_id") then options["ext_id"]
    else if Filled(text.attrs, "id") then text.attrs["id"] else ""
  }

  /** The options import ends with, from the caller's options, the `<text>` element and
      whatever the data part merged in. */
  lemma ImportOptions(options: Options, text: XNode, merged: Options, filename: string)
    requires KeepsCaller(WithExtId(options, text), merged)
    ensures var o := Defaults(merged, filename).1;
      && (forall k :: Filled(options, k) ==> k in o && o[k] == options[k])
      && o["ext_id"] == ExtId(options, text)
  {
    var w := WithExtId(options, text);
    assert "ext_id" !in HeaderKeys;
    assert forall k :: Filled(options, k) ==> k in w && w[k] == options[k];
  }
}
