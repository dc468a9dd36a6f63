/** The four relations that hold a tagset (`tagset_tags`, `tagset_strings`, `tagset_links`,
    `tagset_values`), the SQL statements that saveTagset issues against them, and what those
    statements do. Every relation is a sequence of rows in table order; no unique key is
    assumed on any of them. */
module TagsetStore {
  import opened Common

  type TagsetName = string
  type Lang = string

  /** `tagset_tags`: a tag or an attribute; `kind` is the `type` column ("tag", "attrib"). */
  datatype TagRow = TagRow(tagset: TagsetName, id: int, shortname: string, kind: string)
  /** `tagset_strings`: the description, one column per language. */
  datatype StringRow = StringRow(tagset: TagsetName, id: int, text: map<Lang, string>)
  /** `tagset_links`: attribute `attribId` applies to tag `tagId`. */
  datatype LinkRow = LinkRow(tagset: TagsetName, tagId: int, attribId: int)
  /** `tagset_values`: one allowed value of attribute `id`. */
  datatype ValueRow = ValueRow(tagset: TagsetName, id: int, value: string)

  datatype Store = Store(tags: seq<TagRow>, strings: seq<StringRow>, links: seq<LinkRow>, values: seq<ValueRow>)

  /** The statements saveTagset sends, one constructor per SQL statement shape. Every
      statement carries the tagset its `WHERE`/`VALUES` clause names. */
  datatype Stmt =
    | InsertTag(tagset: TagsetName, id: int, shortname: string, kind: string)
    | InsertString(tagset: TagsetName, id: int, lang: Lang, text: string)
    | InsertLink(tagset: TagsetName, id: int, attribId: int)
    | InsertValue(tagset: TagsetName, id: int, value: string)
    | UpdateShortname(tagset: TagsetName, id: int, shortname: string)
    | UpdateString(tagset: TagsetName, id: int, lang: Lang, text: string)
    | DeleteLinksOfTag(tagset: TagsetName, id: int)
    | DeleteValues(tagset: TagsetName, id: int)
    | DeleteTag(tagset: TagsetName, id: int)
    | DeleteString(tagset: TagsetName, id: int)
    | DeleteLinksNaming(tagset: TagsetName, id: int)

  predicate IsDeletion(st: Stmt)
  {
    st.DeleteLinksOfTag? || st.DeleteValues? || st.DeleteTag? || st.DeleteString? || st.DeleteLinksNaming?
  }

  // ---------------------------------------------------------------------------------------
  // Row selections (named, so that every use denotes the same predicate)

  function TagOther(ts: TagsetName, id: int): TagRow -> bool { (r: TagRow) => !(r.tagset == ts && r.id == id) }
  function StringOther(ts: TagsetName, id: int): StringRow -> bool { (r: StringRow) => !(r.tagset == ts && r.id == id) }
  function ValueOther(ts: TagsetName, id: int): ValueRow -> bool { (r: ValueRow) => !(r.tagset == ts && r.id == id) }
  function LinkNotOfTag(ts: TagsetName, id: int): LinkRow -> bool { (r: LinkRow) => !(r.tagset == ts && r.tagId == id) }
  function LinkNotNaming(ts: TagsetName, id: int): LinkRow -> bool
  {
    (r: LinkRow) => !(r.tagset == ts && (r.tagId == id || r.attribId == id))
  }

  function TagIn(ts: TagsetName): TagRow -> bool { (r: TagRow) => r.tagset == ts }
  function StringIn(ts: TagsetName): StringRow -> bool { (r: StringRow) => r.tagset == ts }
  function LinkIn(ts: TagsetName): LinkRow -> bool { (r: LinkRow) => r.tagset == ts }
  function ValueIn(ts: TagsetName): ValueRow -> bool { (r: ValueRow) => r.tagset == ts }

  // ---------------------------------------------------------------------------------------
  // What one statement does to each relation

  function Rename(ts: TagsetName, id: int, sn: string): TagRow -> TagRow
  {
    (r: TagRow) => if r.tagset == ts && r.id == id then r.(shortname := sn) else r
  }

  function Redescribe(ts: TagsetName, id: int, lang: Lang, text: string): StringRow -> StringRow
  {
    (r: StringRow) => if r.tagset == ts && r.id == id then r.(text := r.text[lang := text]) else r
  }

  function ApplyTags(rows: seq<TagRow>, st: Stmt): seq<TagRow>
  {
    match st
    case InsertTag(ts, id, sn, kind) => rows + [TagRow(ts, id, sn, kind)]
    case UpdateShortname(ts, id, sn) => MapRows(rows, Rename(ts, id, sn))
    case DeleteTag(ts, id) => Filter(rows, TagOther(ts, id))
    case _ => rows
  }

  function ApplyStrings(rows: seq<StringRow>, st: Stmt): seq<StringRow>
  {
    match st
    case InsertString(ts, id, lang, text) => rows + [StringRow(ts, id, map[lang := text])]
    case UpdateString(ts, id, lang, text) => MapRows(rows, Redescribe(ts, id, lang, text))
    case DeleteString(ts, id) => Filter(rows, StringOther(ts, id))
    case _ => rows
  }

  function ApplyLinks(rows: seq<LinkRow>, st: Stmt): seq<LinkRow>
  {
    match st
    case InsertLink(ts, id, a) => rows + [LinkRow(ts, id, a)]
    case DeleteLinksOfTag(ts, id) => Filter(rows, LinkNotOfTag(ts, id))
    case DeleteLinksNaming(ts, id) => Filter(rows, LinkNotNaming(ts, id))
    case _ => rows
  }

  function ApplyValues(rows: seq<ValueRow>, st: Stmt): seq<ValueRow>
  {
    match st
    case InsertValue(ts, id, v) => rows + [ValueRow(ts, id, v)]
    case DeleteValues(ts, id) => Filter(rows, ValueOther(ts, id))
    case _ => rows
  }

  function Apply(s: Store, st: Stmt): Store
  {
    Store(ApplyTags(s.tags, st), ApplyStrings(s.strings, st), ApplyLinks(s.links, st), ApplyValues(s.values, st))
  }

  /** The store after running `stmts` in order. */
  function Exec(s: Store, stmts: seq<Stmt>): Store
    decreases |stmts|
  {
    if stmts == [] then s else Apply(Exec(s, stmts[..|stmts| - 1]), stmts[|stmts| - 1])
  }

  lemma {:induction false} ExecConcat(s: Store, a: seq<Stmt>, b: seq<Stmt>)
    ensures Exec(s, a + b) == Exec(Exec(s, a), b)
    decreases |b|
  {
    if b == [] {
      assert a + b == a;
    } else {
      var b' := b[..|b| - 1];
      assert (a + b)[..|a + b| - 1] == a + b';
      ExecConcat(s, a, b');
    }
  }

  lemma ExecSingle(s: Store, st: Stmt)
    ensures Exec(s, [st]) == Apply(s, st)
  {
    assert [st][..0] == [];
  }

  lemma ExecCons(s: Store, st: Stmt, rest: seq<Stmt>)
    ensures Exec(s, [st] + rest) == Exec(Apply(s, st), rest)
  {
    ExecConcat(s, [st], rest);
    ExecSingle(s, st);
  }

  /** Three statements run one after the other. */
  lemma ExecTriple(s: Store, a: Stmt, b: Stmt, c: Stmt)
    ensures Exec(s, [a, b, c]) == Apply(Apply(Apply(s, a), b), c)
  {
    assert Exec(s, [a]) == Apply(s, a) by { assert [a][..0] == []; }
    assert Exec(s, [a, b]) == Apply(Exec(s, [a]), b) by { assert [a, b][..1] == [a]; }
    assert Exec(s, [a, b, c]) == Apply(Exec(s, [a, b]), c) by { assert [a, b, c][..2] == [a, b]; }
  }

  /** Four statements run one after the other. */
  lemma ExecFour(s: Store, a: Stmt, b: Stmt, c: Stmt, d: Stmt)
    ensures Exec(s, [a, b, c, d]) == Apply(Apply(Apply(Apply(s, a), b), c), d)
  {
    assert [a, b, c, d][..3] == [a, b, c];
    ExecTriple(s, a, b, c);
  }

  // ---------------------------------------------------------------------------------------
  // The input of saveTagset and the statements it sends

  /** One created or modified entry: `link` is used for tags, `val` for attributes; a list
      the request omits is empty. */
  datatype Entry = Entry(id: int, shortname: string, kind: string, desc: string, link: seq<int>, val: seq<string>)

  datatype TagsetChanges = TagsetChanges(tagset: TagsetName, created: seq<Entry>, modified: seq<Entry>, deleted: seq<int>)

  function LinkInserts(ts: TagsetName, id: int, link: seq<int>): (r: seq<Stmt>)
    ensures |r| == |link|
  {
    if link == [] then [] else LinkInserts(ts, id, link[..|link| - 1]) + [InsertLink(ts, id, link[|link| - 1])]
  }

  function ValueInserts(ts: TagsetName, id: int, vals: seq<string>): (r: seq<Stmt>)
    ensures |r| == |vals|
  {
    if vals == [] then [] else ValueInserts(ts, id, vals[..|vals| - 1]) + [InsertValue(ts, id, vals[|vals| - 1])]
  }

  /** Links for a tag, values for an attribute, nothing for any other type. */
  function Dependents(ts: TagsetName, e: Entry): seq<Stmt>
  {
    if e.kind == "tag" then LinkInserts(ts, e.id, e.link)
    else if e.kind == "attrib" then ValueInserts(ts, e.id, e.val)
    else []
  }

  function CreateStmts(ts: TagsetName, lang: Lang, e: Entry): seq<Stmt>
  {
    [InsertTag(ts, e.id, e.shortname, e.kind), InsertString(ts, e.id, lang, e.desc)] + Dependents(ts, e)
  }

  /** The delete-then-recreate policy for links and values. */
  function Purge(ts: TagsetName, e: Entry): seq<Stmt>
  {
    if e.kind == "tag" then [DeleteLinksOfTag(ts, e.id)]
    else if e.kind == "attrib" then [DeleteValues(ts, e.id)]
    else []
  }

  function ModifyStmts(ts: TagsetName, lang: Lang, e: Entry): seq<Stmt>
  {
    [UpdateShortname(ts, e.id, e.shortname), UpdateString(ts, e.id, lang, e.desc)] + Purge(ts, e) + Dependents(ts, e)
  }

  function DeleteStmts(ts: TagsetName, id: int): seq<Stmt>
  {
    [DeleteTag(ts, id), DeleteString(ts, id), DeleteValues(ts, id), DeleteLinksNaming(ts, id)]
  }

  function CreatedPlan(ts: TagsetName, lang: Lang, es: seq<Entry>): seq<Stmt>
  {
    if es == [] then [] else CreatedPlan(ts, lang, es[..|es| - 1]) + CreateStmts(ts, lang, es[|es| - 1])
  }

  function ModifiedPlan(ts: TagsetName, lang: Lang, es: seq<Entry>): seq<Stmt>
  {
    if es == [] then [] else ModifiedPlan(ts, lang, es[..|es| - 1]) + ModifyStmts(ts, lang, es[|es| - 1])
  }

  function DeletedPlan(ts: TagsetName, ids: seq<int>): seq<Stmt>
  {
    if ids == [] then [] else DeletedPlan(ts, ids[..|ids| - 1]) + DeleteStmts(ts, ids[|ids| - 1])
  }

  /** Everything saveTagset sends after taking the lock: created, then modified, then
      deleted entries, each in request order. */
  function SavePlan(ch: TagsetChanges, lang: Lang): seq<Stmt>
  {
    CreatedPlan(ch.tagset, lang, ch.created) + ModifiedPlan(ch.tagset, lang, ch.modified) + DeletedPlan(ch.tagset, ch.deleted)
  }

  /** Index of the first statement the database rejects (|stmts| when it accepts all). */
  function FirstRejected(stmts: seq<Stmt>, rejects: Stmt -> bool): (k: nat)
    ensures k <= |stmts|
    ensures forall j :: 0 <= j < k ==> !rejects(stmts[j])
    ensures k < |stmts| ==> rejects(stmts[k])
  {
    if stmts == [] then 0
    else if rejects(stmts[0]) then 0
    else 1 + FirstRejected(stmts[1..], rejects)
  }

  /** Running the statements one at a time: once all of `done` was accepted and `st` is
      rejected, `done` is exactly the prefix of the plan before the first rejection. */
  lemma {:induction false} RejectedAfter(done: seq<Stmt>, st: Stmt, rest: seq<Stmt>, rejects: Stmt -> bool)
    requires forall j :: 0 <= j < |done| ==> !rejects(done[j])
    requires rejects(st)
    ensures FirstRejected(done + [st] + rest, rejects) == |done|
    ensures (done + [st] + rest)[..|done|] == done
  {
    if done != [] {
      assert (done + [st] + rest)[1..] == done[1..] + [st] + rest;
      RejectedAfter(done[1..], st, rest, rejects);
    }
  }

  lemma {:induction false} NoneRejected(stmts: seq<Stmt>, rejects: Stmt -> bool)
    requires forall j :: 0 <= j < |stmts| ==> !rejects(stmts[j])
    ensures FirstRejected(stmts, rejects) == |stmts|
  {
    if stmts != [] {
      NoneRejected(stmts[1..], rejects);
    }
  }

  /** A statement sequence that is a prefix of `plan`, all accepted, followed by a rejected
      statement leaves the store as running `plan` up to its first rejection does. */
  lemma AbortAt(s: Store, done: seq<Stmt>, st: Stmt, plan: seq<Stmt>, rejects: Stmt -> bool)
    requires done + [st] <= plan
    requires forall j :: 0 <= j < |done| ==> !rejects(done[j])
    requires rejects(st)
    ensures FirstRejected(plan, rejects) == |done|
    ensures Exec(s, done) == Exec(s, plan[..FirstRejected(plan, rejects)])
  {
    var rest := plan[|done| + 1..];
    assert plan == done + [st] + rest;
    RejectedAfter(done, st, rest, rejects);
  }

  ghost predicate NoRejects(stmts: seq<Stmt>, rejects: Stmt -> bool)
  {
    forall j :: 0 <= j < |stmts| ==> !rejects(stmts[j])
  }

  /** The store as left by a run of `plan` that stopped at its first rejected statement. */
  ghost predicate Stopped(s0: Store, s: Store, plan: seq<Stmt>, rejects: Stmt -> bool)
  {
    FirstRejected(plan, rejects) < |plan| && s == Exec(s0, plan[..FirstRejected(plan, rejects)])
  }

  // ---------------------------------------------------------------------------------------
  // Views of the relations

  /** The attribute ids linked to tag `id` of tagset `ts`, in table order. */
  function LinksOf(links: seq<LinkRow>, ts: TagsetName, id: int): seq<int>
    decreases |links|
  {
    if links == [] then []
    else
      var last := links[|links| - 1];
      LinksOf(links[..|links| - 1], ts, id) + (if last.tagset == ts && last.tagId == id then [last.attribId] else [])
  }

  /** The values of attribute `id` of tagset `ts`, in table order. */
  function ValuesOf(values: seq<ValueRow>, ts: TagsetName, id: int): seq<string>
    decreases |values|
  {
    if values == [] then []
    else
      var last := values[|values| - 1];
      ValuesOf(values[..|values| - 1], ts, id) + (if last.tagset == ts && last.id == id then [last.value] else [])
  }

  lemma {:induction false} LinksOfNone(links: seq<LinkRow>, ts: TagsetName, id: int)
    requires forall r :: r in links ==> !(r.tagset == ts && r.tagId == id)
    ensures LinksOf(links, ts, id) == []
    decreases |links|
  {
    if links != [] {
      LinksOfNone(links[..|links| - 1], ts, id);
    }
  }

  lemma {:induction false} ValuesOfNone(values: seq<ValueRow>, ts: TagsetName, id: int)
    requires forall r :: r in values ==> !(r.tagset == ts && r.id == id)
    ensures ValuesOf(values, ts, id) == []
    decreases |values|
  {
    if values != [] {
      ValuesOfNone(values[..|values| - 1], ts, id);
    }
  }

  /** Nothing of entity `id` is left in tagset `ts`: no tag row, no description, no value,
      and no link that names it at either end. */
  ghost predicate Absent(s: Store, ts: TagsetName, id: int)
  {
    && (forall r :: r in s.tags ==> !(r.tagset == ts && r.id == id))
    && (forall r :: r in s.strings ==> !(r.tagset == ts && r.id == id))
    && (forall r :: r in s.values ==> !(r.tagset == ts && r.id == id))
    && (forall r :: r in s.links ==> !(r.tagset == ts && (r.tagId == id || r.attribId == id)))
  }

  /** The rows of one tagset. */
  function Project(s: Store, ts: TagsetName): Store
  {
    Store(Filter(s.tags, TagIn(ts)), Filter(s.strings, StringIn(ts)), Filter(s.links, LinkIn(ts)), Filter(s.values, ValueIn(ts)))
  }

  /** The description of a strings row in one language; NULL reads as "". */
  function Describe(b: StringRow, lang: Lang): string
  {
    if lang in b.text then b.text[lang] else ""
  }

  predicate Joinable(a: TagRow, b: StringRow, ts: TagsetName)
  {
    a.tagset == ts && b.tagset == ts && a.id == b.id
  }

  function Matches(a: TagRow, strings: seq<StringRow>, ts: TagsetName): (r: seq<(TagRow, StringRow)>)
    ensures forall p :: p in r <==> p.0 == a && p.1 in strings && Joinable(a, p.1, ts)
    decreases |strings|
  {
    if strings == [] then []
    else
      var b := strings[|strings| - 1];
      Matches(a, strings[..|strings| - 1], ts) + (if Joinable(a, b, ts) then [(a, b)] else [])
  }

  /** The rows of the getTagset query: every tag row of `ts` paired with every strings row
      of `ts` that has the same id. */
  function Join(tags: seq<TagRow>, strings: seq<StringRow>, ts: TagsetName): (r: seq<(TagRow, StringRow)>)
    ensures forall p :: p in r <==> p.0 in tags && p.1 in strings && Joinable(p.0, p.1, ts)
    decreases |tags|
  {
    if tags == [] then []
    else Join(tags[..|tags| - 1], strings, ts) + Matches(tags[|tags| - 1], strings, ts)
  }

  /** The last joined pair whose tag row has the given type and id: the getTagset loop
      overwrites an id's entry on every such row, so this is the one it keeps. */
  function LastJoined(j: seq<(TagRow, StringRow)>, kind: string, id: int): (r: Option<(TagRow, StringRow)>)
    ensures r.Some? ==> r.value in j && r.value.0.kind == kind && r.value.0.id == id
    ensures r.None? ==> forall p :: p in j ==> !(p.0.kind == kind && p.0.id == id)
    decreases |j|
  {
    if j == [] then None
    else
      var p := j[|j| - 1];
      if p.0.kind == kind && p.0.id == id then Some(p) else LastJoined(j[..|j| - 1], kind, id)
  }

  // ---------------------------------------------------------------------------------------
  // Modified entries: links and values are exactly the supplied lists afterwards

  lemma LinksOfSnoc(links: seq<LinkRow>, r: LinkRow, ts: TagsetName, id: int)
    ensures LinksOf(links + [r], ts, id) == LinksOf(links, ts, id) + (if r.tagset == ts && r.tagId == id then [r.attribId] else [])
  {
    assert (links + [r])[..|links|] == links;
  }

  lemma ValuesOfSnoc(values: seq<ValueRow>, r: ValueRow, ts: TagsetName, id: int)
    ensures ValuesOf(values + [r], ts, id) == ValuesOf(values, ts, id) + (if r.tagset == ts && r.id == id then [r.value] else [])
  {
    assert (values + [r])[..|values|] == values;
  }

  lemma {:induction false} LinkInsertsAppend(s: Store, ts: TagsetName, id: int, link: seq<int>)
    ensures LinksOf(Exec(s, LinkInserts(ts, id, link)).links, ts, id) == LinksOf(s.links, ts, id) + link
    decreases |link|
  {
    if link != [] {
      var init := link[..|link| - 1];
      var st := InsertLink(ts, id, link[|link| - 1]);
      ExecConcat(s, LinkInserts(ts, id, init), [st]);
      ExecSingle(Exec(s, LinkInserts(ts, id, init)), st);
      var s1 := Exec(s, LinkInserts(ts, id, init));
      var row := LinkRow(ts, id, link[|link| - 1]);
      assert Exec(s, LinkInserts(ts, id, link)).links == s1.links + [row];
      LinkInsertsAppend(s, ts, id, init);
      LinksOfSnoc(s1.links, row, ts, id);
      assert LinksOf(s1.links + [row], ts, id) == LinksOf(s.links, ts, id) + init + [link[|link| - 1]];
      assert init + [link[|link| - 1]] == link;
    }
  }

  lemma {:induction false} ValueInsertsAppend(s: Store, ts: TagsetName, id: int, vals: seq<string>)
    ensures ValuesOf(Exec(s, ValueInserts(ts, id, vals)).values, ts, id) == ValuesOf(s.values, ts, id) + vals
    decreases |vals|
  {
    if vals != [] {
      var init := vals[..|vals| - 1];
      var st := InsertValue(ts, id, vals[|vals| - 1]);
      ExecConcat(s, ValueInserts(ts, id, init), [st]);
      ExecSingle(Exec(s, ValueInserts(ts, id, init)), st);
      var s1 := Exec(s, ValueInserts(ts, id, init));
      var row := ValueRow(ts, id, vals[|vals| - 1]);
      assert Exec(s, ValueInserts(ts, id, vals)).values == s1.values + [row];
      ValueInsertsAppend(s, ts, id, init);
      ValuesOfSnoc(s1.values, row, ts, id);
      assert ValuesOf(s1.values + [row], ts, id) == ValuesOf(s.values, ts, id) + init + [vals[|vals| - 1]];
      assert init + [vals[|vals| - 1]] == vals;
    }
  }

  /** The fixed head of a modified entry's statements: the two updates and the purge. */
  function ModifyHead(ts: TagsetName, lang: Lang, e: Entry): seq<Stmt>
  {
    [UpdateShortname(ts, e.id, e.shortname), UpdateString(ts, e.id, lang, e.desc)] + Purge(ts, e)
  }

  lemma ModifyHeadLinks(s: Store, ts: TagsetName, lang: Lang, e: Entry)
    requires e.kind == "tag"
    ensures Exec(s, ModifyHead(ts, lang, e)).links == Filter(s.links, LinkNotOfTag(ts, e.id))
  {
    var a, b, c := UpdateShortname(ts, e.id, e.shortname), UpdateString(ts, e.id, lang, e.desc), DeleteLinksOfTag(ts, e.id);
    assert ModifyHead(ts, lang, e) == [a, b, c];
    ExecTriple(s, a, b, c);
    var s2 := Apply(Apply(s, a), b);
    assert s2.links == s.links;
    assert Apply(s2, c).links == Filter(s2.links, LinkNotOfTag(ts, e.id));
  }

  lemma ModifyHeadValues(s: Store, ts: TagsetName, lang: Lang, e: Entry)
    requires e.kind == "attrib"
    ensures Exec(s, ModifyHead(ts, lang, e)).values == Filter(s.values, ValueOther(ts, e.id))
  {
    var a, b, c := UpdateShortname(ts, e.id, e.shortname), UpdateString(ts, e.id, lang, e.desc), DeleteValues(ts, e.id);
    assert ModifyHead(ts, lang, e) == [a, b, c];
    ExecTriple(s, a, b, c);
    var s2 := Apply(Apply(s, a), b);
    assert s2.values == s.values;
    assert Apply(s2, c).values == Filter(s2.values, ValueOther(ts, e.id));
  }

  /** A modified tag's links afterwards are exactly the supplied list, whatever existed. */
  lemma ModifiedTagLinksReplaced(s: Store, ts: TagsetName, lang: Lang, e: Entry)
    requires e.kind == "tag"
    ensures LinksOf(Exec(s, ModifyStmts(ts, lang, e)).links, ts, e.id) == e.link
  {
    var head := ModifyHead(ts, lang, e);
    assert ModifyStmts(ts, lang, e) == head + LinkInserts(ts, e.id, e.link);
    ExecConcat(s, head, LinkInserts(ts, e.id, e.link));
    var s3 := Exec(s, head);
    ModifyHeadLinks(s, ts, lang, e);
    LinksOfNone(s3.links, ts, e.id);
    LinkInsertsAppend(s3, ts, e.id, e.link);
  }

  /** A modified attribute's values afterwards are exactly the supplied list. */
  lemma ModifiedAttribValuesReplaced(s: Store, ts: TagsetName, lang: Lang, e: Entry)
    requires e.kind == "attrib"
    ensures ValuesOf(Exec(s, ModifyStmts(ts, lang, e)).values, ts, e.id) == e.val
  {
    var head := ModifyHead(ts, lang, e);
    assert ModifyStmts(ts, lang, e) == head + ValueInserts(ts, e.id, e.val);
    ExecConcat(s, head, ValueInserts(ts, e.id, e.val));
    var s3 := Exec(s, head);
    ModifyHeadValues(s, ts, lang, e);
    ValuesOfNone(s3.values, ts, e.id);
    ValueInsertsAppend(s3, ts, e.id, e.val);
  }

  // ---------------------------------------------------------------------------------------
  // Deleted entries: nothing of them is left

  /** One deletion statement filters its own relation and leaves the others alone. */
  lemma ApplyDeletion(s: Store, st: Stmt)
    requires IsDeletion(st) && !st.DeleteLinksOfTag?
    ensures st.DeleteTag? ==> Apply(s, st) == s.(tags := Filter(s.tags, TagOther(st.tagset, st.id)))
    ensures st.DeleteString? ==> Apply(s, st) == s.(strings := Filter(s.strings, StringOther(st.tagset, st.id)))
    ensures st.DeleteValues? ==> Apply(s, st) == s.(values := Filter(s.values, ValueOther(st.tagset, st.id)))
    ensures st.DeleteLinksNaming? ==> Apply(s, st) == s.(links := Filter(s.links, LinkNotNaming(st.tagset, st.id)))
  {
  }

  /** The four statements of one deleted entry leave none of its rows. */
  lemma DeleteStmtsRemove(s: Store, ts: TagsetName, id: int)
    ensures Absent(Exec(s, DeleteStmts(ts, id)), ts, id)
  {
    var a, b, c, d := DeleteTag(ts, id), DeleteString(ts, id), DeleteValues(ts, id), DeleteLinksNaming(ts, id);
    assert DeleteStmts(ts, id) == [a, b, c, d];
    ExecFour(s, a, b, c, d);
    var s1 := Apply(s, a);
    ApplyDeletion(s, a);
    var s2 := Apply(s1, b);
    ApplyDeletion(s1, b);
    var s3 := Apply(s2, c);
    ApplyDeletion(s2, c);
    ApplyDeletion(s3, d);
  }

  lemma ApplyDeletionKeepsAbsent(s: Store, st: Stmt, ts: TagsetName, id: int)
    requires IsDeletion(st) && Absent(s, ts, id)
    ensures Absent(Apply(s, st), ts, id)
  {
  }

  lemma {:induction false} ExecDeletionsKeepAbsent(s: Store, stmts: seq<Stmt>, ts: TagsetName, id: int)
    requires forall st :: st in stmts ==> IsDeletion(st)
    requires Absent(s, ts, id)
    ensures Absent(Exec(s, stmts), ts, id)
    decreases |stmts|
  {
    if stmts != [] {
      var init := stmts[..|stmts| - 1];
      assert forall st :: st in init ==> st in stmts;
      ExecDeletionsKeepAbsent(s, init, ts, id);
      ApplyDeletionKeepsAbsent(Exec(s, init), stmts[|stmts| - 1], ts, id);
    }
  }

  lemma {:induction false} DeletedPlanRemoves(s: Store, ts: TagsetName, ids: seq<int>, id: int)
    requires id in ids
    ensures Absent(Exec(s, DeletedPlan(ts, ids)), ts, id)
    decreases |ids|
  {
    var init := ids[..|ids| - 1];
    var last := DeleteStmts(ts, ids[|ids| - 1]);
    ExecConcat(s, DeletedPlan(ts, init), last);
    if ids[|ids| - 1] == id {
      DeleteStmtsRemove(Exec(s, DeletedPlan(ts, init)), ts, id);
    } else {
      assert id in init;
      DeletedPlanRemoves(s, ts, init, id);
      ExecDeletionsKeepAbsent(Exec(s, DeletedPlan(ts, init)), last, ts, id);
    }
  }

  /** For every deleted id, saveTagset removes its tag row, its description, its values and
      every link naming it, whatever the created and modified lists held. */
  lemma SaveRemovesDeleted(s: Store, ch: TagsetChanges, lang: Lang, id: int)
    requires id in ch.deleted
    ensures Absent(Exec(s, SavePlan(ch, lang)), ch.tagset, id)
  {
    var front := CreatedPlan(ch.tagset, lang, ch.created) + ModifiedPlan(ch.tagset, lang, ch.modified);
    ExecConcat(s, front, DeletedPlan(ch.tagset, ch.deleted));
    DeletedPlanRemoves(Exec(s, front), ch.tagset, ch.deleted, id);
  }

  // ---------------------------------------------------------------------------------------
  // Scoping: statements of one tagset leave every other tagset alone

  lemma ApplyKeepsOtherTagset(s: Store, st: Stmt, u: TagsetName)
    requires st.tagset != u
    ensures Project(Apply(s, st), u) == Project(s, u)
  {
    var r := Apply(s, st);
    match st {
      case InsertTag(ts, id, sn, kind) =>
        FilterConcat(s.tags, [TagRow(ts, id, sn, kind)], TagIn(u));
      case InsertString(ts, id, lang, text) =>
        FilterConcat(s.strings, [StringRow(ts, id, map[lang := text])], StringIn(u));
      case InsertLink(ts, id, a) =>
        FilterConcat(s.links, [LinkRow(ts, id, a)], LinkIn(u));
      case InsertValue(ts, id, v) =>
        FilterConcat(s.values, [ValueRow(ts, id, v)], ValueIn(u));
      case UpdateShortname(ts, id, sn) =>
        FilterMapInvisible(s.tags, Rename(ts, id, sn), TagIn(u));
      case UpdateString(ts, id, lang, text) =>
        FilterMapInvisible(s.strings, Redescribe(ts, id, lang, text), StringIn(u));
      case DeleteLinksOfTag(ts, id) =>
        FilterAbsorb(s.links, LinkNotOfTag(ts, id), LinkIn(u));
      case DeleteValues(ts, id) =>
        FilterAbsorb(s.values, ValueOther(ts, id), ValueIn(u));
      case DeleteTag(ts, id) =>
        FilterAbsorb(s.tags, TagOther(ts, id), TagIn(u));
      case DeleteString(ts, id) =>
        FilterAbsorb(s.strings, StringOther(ts, id), StringIn(u));
      case DeleteLinksNaming(ts, id) =>
        FilterAbsorb(s.links, LinkNotNaming(ts, id), LinkIn(u));
    }
  }

  lemma {:induction false} ExecKeepsOtherTagset(s: Store, stmts: seq<Stmt>, u: TagsetName)
    requires forall st :: st in stmts ==> st.tagset != u
    ensures Project(Exec(s, stmts), u) == Project(s, u)
    decreases |stmts|
  {
    if stmts != [] {
      var init := stmts[..|stmts| - 1];
      assert forall st :: st in init ==> st in stmts;
      ExecKeepsOtherTagset(s, init, u);
      ApplyKeepsOtherTagset(Exec(s, init), stmts[|stmts| - 1], u);
    }
  }

  /** saveTagset only touches its own tagset, also when it stops after any prefix of its
      statements. */
  /** Every statement names tagset `ts`. */
  ghost predicate Scoped(stmts: seq<Stmt>, ts: TagsetName)
  {
    forall st :: st in stmts ==> st.tagset == ts
  }

  lemma ScopedConcat(a: seq<Stmt>, b: seq<Stmt>, ts: TagsetName)
    requires Scoped(a, ts) && Scoped(b, ts)
    ensures Scoped(a + b, ts)
  {
  }

  lemma DeleteStmtsScoped(ts: TagsetName, id: int)
    ensures Scoped(DeleteStmts(ts, id), ts)
  {
  }

  lemma {:induction false} DependentsScoped(ts: TagsetName, e: Entry)
    ensures Scoped(Dependents(ts, e), ts)
  {
    if e.kind == "tag" {
      LinkInsertsScoped(ts, e.id, e.link);
    } else if e.kind == "attrib" {
      ValueInsertsScoped(ts, e.id, e.val);
    }
  }

  lemma {:induction false} LinkInsertsScoped(ts: TagsetName, id: int, link: seq<int>)
    ensures Scoped(LinkInserts(ts, id, link), ts)
    decreases |link|
  {
    if link != [] {
      LinkInsertsScoped(ts, id, link[..|link| - 1]);
    }
  }

  lemma {:induction false} ValueInsertsScoped(ts: TagsetName, id: int, vals: seq<string>)
    ensures Scoped(ValueInserts(ts, id, vals), ts)
    decreases |vals|
  {
    if vals != [] {
      ValueInsertsScoped(ts, id, vals[..|vals| - 1]);
    }
  }

  lemma {:induction false} CreatedPlanScoped(ts: TagsetName, lang: Lang, es: seq<Entry>)
    ensures Scoped(CreatedPlan(ts, lang, es), ts)
    decreases |es|
  {
    if es != [] {
      CreatedPlanScoped(ts, lang, es[..|es| - 1]);
      DependentsScoped(ts, es[|es| - 1]);
    }
  }

  lemma {:induction false} ModifiedPlanScoped(ts: TagsetName, lang: Lang, es: seq<Entry>)
    ensures Scoped(ModifiedPlan(ts, lang, es), ts)
    decreases |es|
  {
    if es != [] {
      var e := es[|es| - 1];
      ModifiedPlanScoped(ts, lang, es[..|es| - 1]);
      DependentsScoped(ts, e);
      var head := [UpdateShortname(ts, e.id, e.shortname), UpdateString(ts, e.id, lang, e.desc)];
      assert Scoped(head, ts) && Scoped(Purge(ts, e), ts);
      ScopedConcat(head, Purge(ts, e), ts);
      ScopedConcat(head + Purge(ts, e), Dependents(ts, e), ts);
      ScopedConcat(ModifiedPlan(ts, lang, es[..|es| - 1]), ModifyStmts(ts, lang, e), ts);
    }
  }

  lemma {:induction false} DeletedPlanScoped(ts: TagsetName, ids: seq<int>)
    ensures Scoped(DeletedPlan(ts, ids), ts)
    decreases |ids|
  {
    if ids != [] {
      var init, last := DeletedPlan(ts, ids[..|ids| - 1]), DeleteStmts(ts, ids[|ids| - 1]);
      DeletedPlanScoped(ts, ids[..|ids| - 1]);
      DeleteStmtsScoped(ts, ids[|ids| - 1]);
      ScopedConcat(init, last, ts);
    }
  }

  /** Every statement saveTagset sends is scoped to the tagset being saved. */
  lemma SavePlanScoped(ch: TagsetChanges, lang: Lang)
    ensures Scoped(SavePlan(ch, lang), ch.tagset)
  {
    CreatedPlanScoped(ch.tagset, lang, ch.created);
    ModifiedPlanScoped(ch.tagset, lang, ch.modified);
    DeletedPlanScoped(ch.tagset, ch.deleted);
  }

  lemma SaveKeepsOtherTagsets(s: Store, ch: TagsetChanges, lang: Lang, k: nat, u: TagsetName)
    requires u != ch.tagset
    requires k <= |SavePlan(ch, lang)|
    ensures Project(Exec(s, SavePlan(ch, lang)[..k]), u) == Project(s, u)
  {
    var plan := SavePlan(ch, lang);
    SavePlanScoped(ch, lang);
    assert forall st :: st in plan[..k] ==> st in plan;
    ExecKeepsOtherTagset(s, plan[..k], u);
  }

  // ---------------------------------------------------------------------------------------
  // saveCopyTagset

  function RetagTags(rows: seq<TagRow>, to: TagsetName): (r: seq<TagRow>)
    ensures |r| == |rows| && forall i :: 0 <= i < |r| ==> r[i] == rows[i].(tagset := to)
  {
    seq(|rows|, i requires 0 <= i < |rows| => rows[i].(tagset := to))
  }

  function RetagStrings(rows: seq<StringRow>, to: TagsetName): (r: seq<StringRow>)
    ensures |r| == |rows| && forall i :: 0 <= i < |r| ==> r[i] == rows[i].(tagset := to)
  {
    seq(|rows|, i requires 0 <= i < |rows| => rows[i].(tagset := to))
  }

  function RetagLinks(rows: seq<LinkRow>, to: TagsetName): (r: seq<LinkRow>)
    ensures |r| == |rows| && forall i :: 0 <= i < |r| ==> r[i] == rows[i].(tagset := to)
  {
    seq(|rows|, i requires 0 <= i < |rows| => rows[i].(tagset := to))
  }

  function RetagValues(rows: seq<ValueRow>, to: TagsetName): (r: seq<ValueRow>)
    ensures |r| == |rows| && forall i :: 0 <= i < |r| ==> r[i] == rows[i].(tagset := to)
  {
    seq(|rows|, i requires 0 <= i < |rows| => rows[i].(tagset := to))
  }

  /** The four `INSERT ... SELECT` statements of saveCopyTagset: every row of `from` is
      appended once more under the name `to`. */
  function CopyRows(s: Store, from: TagsetName, to: TagsetName): Store
  {
    Store(s.tags + RetagTags(Filter(s.tags, TagIn(from)), to),
          s.strings + RetagStrings(Filter(s.strings, StringIn(from)), to),
          s.links + RetagLinks(Filter(s.links, LinkIn(from)), to),
          s.values + RetagValues(Filter(s.values, ValueIn(from)), to))
  }

  /** The copy gives `to` all rows of `from`, after whatever `to` already had. */
  lemma CopyRowsTarget(s: Store, from: TagsetName, to: TagsetName)
    ensures Project(CopyRows(s, from, to), to) ==
      Store(Filter(s.tags, TagIn(to)) + RetagTags(Filter(s.tags, TagIn(from)), to),
            Filter(s.strings, StringIn(to)) + RetagStrings(Filter(s.strings, StringIn(from)), to),
            Filter(s.links, LinkIn(to)) + RetagLinks(Filter(s.links, LinkIn(from)), to),
            Filter(s.values, ValueIn(to)) + RetagValues(Filter(s.values, ValueIn(from)), to))
  {
    FilterAppendKept(s.tags, RetagTags(Filter(s.tags, TagIn(from)), to), TagIn(to));
    FilterAppendKept(s.strings, RetagStrings(Filter(s.strings, StringIn(from)), to), StringIn(to));
    FilterAppendKept(s.links, RetagLinks(Filter(s.links, LinkIn(from)), to), LinkIn(to));
    FilterAppendKept(s.values, RetagValues(Filter(s.values, ValueIn(from)), to), ValueIn(to));
  }

  /** The copy leaves every tagset other than `to` as it was, `from` included. */
  lemma CopyRowsKeepsOthers(s: Store, from: TagsetName, to: TagsetName, u: TagsetName)
    requires u != to
    ensures Project(CopyRows(s, from, to), u) == Project(s, u)
  {
    FilterAppendDropped(s.tags, RetagTags(Filter(s.tags, TagIn(from)), to), TagIn(u));
    FilterAppendDropped(s.strings, RetagStrings(Filter(s.strings, StringIn(from)), to), StringIn(u));
    FilterAppendDropped(s.links, RetagLinks(Filter(s.links, LinkIn(from)), to), LinkIn(u));
    FilterAppendDropped(s.values, RetagValues(Filter(s.values, ValueIn(from)), to), ValueIn(u));
  }
}
