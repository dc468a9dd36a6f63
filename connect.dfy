/** The database interface: every table the core touches is a field, and every operation
    is a method that changes the tables the way its SQL statements do. The session user,
    the admin flag of the session and the current time are parameters. */
module Connect {
  import opened Common
  import opened Locks
  import opened TagsetStore
  import opened Documents

  /** What saveTagset achieves: the lock was refused (false is returned), a critical write
      was rejected (the script stops with an error page), or everything was written. */
  datatype SaveOutcome = Saved | LockRefused | Aborted

  /** The getTagset view of one tag. */
  datatype TagView = TagView(desc: string, shortname: string, link: seq<int>)
  /** Description and short name of an attribute that has a tag row. */
  datatype AttribNames = AttribNames(desc: string, shortname: string)
  /** The getTagset view of one attribute: its names when it has a tag row with a
      description, and its values (empty when it has none). */
  datatype AttribView = AttribView(names: Option<AttribNames>, val: seq<string>)
  datatype TagsetView = TagsetView(tags: map<int, TagView>, attribs: map<int, AttribView>)

  /** The names getTagset records for an attribute, from the joined row it keeps. */
  function NamesOf(p: Option<(TagRow, StringRow)>, lang: Lang): Option<AttribNames>
  {
    match p
    case None => None
    case Some(q) => Some(AttribNames(Describe(q.1, lang), q.0.shortname))
  }

  /** `r` is `attribs` with the values of `ts` among `rows` appended to their attribute's
      entry, an entry being created for an attribute that had none. */
  ghost predicate ValuesAdded(r: map<int, AttribView>, attribs: map<int, AttribView>, rows: seq<ValueRow>, ts: TagsetName)
  {
    && (forall id :: id in r <==> id in attribs || ValuesOf(rows, ts, id) != [])
    && (forall id :: id in r ==>
          r[id] == AttribView(if id in attribs then attribs[id].names else None,
                              (if id in attribs then attribs[id].val else []) + ValuesOf(rows, ts, id)))
  }

  /** One more value row read by the getTagset value loop. */
  lemma ValuesAddedStep(r: map<int, AttribView>, attribs: map<int, AttribView>, rows: seq<ValueRow>, ts: TagsetName, row: ValueRow)
    requires ValuesAdded(r, attribs, rows, ts)
    ensures ValuesAdded(if row.tagset == ts then
                          var cur := if row.id in r then r[row.id] else AttribView(None, []);
                          r[row.id := cur.(val := cur.val + [row.value])]
                        else r, attribs, rows + [row], ts)
  {
    var r' := if row.tagset == ts then
                var cur := if row.id in r then r[row.id] else AttribView(None, []);
                r[row.id := cur.(val := cur.val + [row.value])]
              else r;
    forall id
      ensures id in r' <==> id in attribs || ValuesOf(rows + [row], ts, id) != []
      ensures id in r' ==>
        r'[id] == AttribView(if id in attribs then attribs[id].names else None,
                             (if id in attribs then attribs[id].val else []) + ValuesOf(rows + [row], ts, id))
    {
      ValuesOfSnoc(rows, row, ts, id);
      if row.tagset == ts && row.id == id {
        assert ValuesOf(rows + [row], ts, id) == ValuesOf(rows, ts, id) + [row.value];
      } else {
        assert ValuesOf(rows + [row], ts, id) == ValuesOf(rows, ts, id);
        assert id in r' <==> id in r;
      }
    }
  }

  /** The openFile answer: the cursor position and the metadata row, each possibly absent. */
  datatype Opened = Opened(lastEditedRow: Option<LineId>, data: Option<FileMeta>)

  class DBInterface {
    /** `users.admin`, by user name. */
    var users: map<User, string>
    var filesLocked: map<FileId, Lock>
    var tagsetLocks: map<TagsetName, Lock>
    /** `tagsets.last_modified_by`, by tagset. */
    var tagsets: map<TagsetName, User>
    var tagsetTags: seq<TagRow>
    var tagsetStrings: seq<StringRow>
    var tagsetLinks: seq<LinkRow>
    var tagsetValues: seq<ValueRow>
    var filesMetadata: map<FileId, FileMeta>
    var filesData: map<LineKey, LineRow>
    var suggestions: map<SuggKey, SuggRow>
    /** `files_errors`: one row per marker, duplicates possible. */
    var filesErrors: seq<LineKey>
    /** `files_progress` for the global user, by file. */
    var filesProgress: map<FileId, Progress>

    constructor ()
      ensures users == map[] && filesLocked == map[] && tagsetLocks == map[] && tagsets == map[]
      ensures tagsetTags == [] && tagsetStrings == [] && tagsetLinks == [] && tagsetValues == []
      ensures filesMetadata == map[] && filesData == map[] && suggestions == map[]
      ensures filesErrors == [] && filesProgress == map[]
    {
      users, filesLocked, tagsetLocks, tagsets := map[], map[], map[], map[];
      tagsetTags, tagsetStrings, tagsetLinks, tagsetValues := [], [], [], [];
      filesMetadata, filesData, suggestions := map[], map[], map[];
      filesErrors, filesProgress := [], map[];
    }

    /** The four tagset relations together. */
    function Tagsets(): Store
      reads this
    {
      Store(tagsetTags, tagsetStrings, tagsetLinks, tagsetValues)
    }

    // -------------------------------------------------------------------------------------
    // Locks

    method LockFile(file: FileId, user: User, now: Time) returns (r: Acquired)
      modifies this`filesLocked
      ensures (filesLocked, r) == Acquire(old(filesLocked), file, user, now)
    {
      var released := |HeldBy(filesLocked, user)|;
      filesLocked := DropHeldBy(filesLocked, user);
      if file in filesLocked {
        r := Refused(filesLocked[file]);
      } else {
        filesLocked := filesLocked[file := Lock(user, now)];
        r := Granted(released);
      }
    }

    /** As LockFile, but the answer carries no count of released locks. */
    method LockTagset(ts: TagsetName, user: User, now: Time) returns (success: bool, holder: Option<Lock>)
      modifies this`tagsetLocks
      ensures var a := Acquire(old(tagsetLocks), ts, user, now);
        && tagsetLocks == a.0
        && (success <==> a.1.Granted?)
        && holder == (if a.1.Refused? then Some(a.1.holder) else None)
    {
      tagsetLocks := DropHeldBy(tagsetLocks, user);
      if ts in tagsetLocks {
        success, holder := false, Some(tagsetLocks[ts]);
      } else {
        tagsetLocks := tagsetLocks[ts := Lock(user, now)];
        success, holder := true, None;
      }
    }

    /** Admin sessions remove the lock whoever holds it; others only their own. */
    method UnlockFile(file: FileId, user: User, admin: bool)
      modifies this`filesLocked
      ensures filesLocked == Release(old(filesLocked), file, user, admin)
    {
      if file in filesLocked && (admin || filesLocked[file].owner == user) {
        filesLocked := filesLocked - {file};
      }
    }

    method UnlockTagset(ts: TagsetName, user: User)
      modifies this`tagsetLocks
      ensures tagsetLocks == Release(old(tagsetLocks), ts, user, false)
    {
      if ts in tagsetLocks && tagsetLocks[ts].owner == user {
        tagsetLocks := tagsetLocks - {ts};
      }
    }

    /** The file the user has locked, with its name; only locks of files that have a
        metadata row are seen (the query joins both tables). */
    method GetLockedFiles(user: User) returns (r: Option<(FileId, string)>)
      ensures r.None? <==> forall f :: f in filesLocked && filesLocked[f].owner == user ==> f !in filesMetadata
      ensures r.Some? ==> var f := r.value.0;
        f in filesLocked && filesLocked[f].owner == user && f in filesMetadata && r.value.1 == filesMetadata[f].name
    {
      if f :| f in filesLocked && filesLocked[f].owner == user && f in filesMetadata {
        r := Some((f, filesMetadata[f].name));
      } else {
        r := None;
      }
    }

    // -------------------------------------------------------------------------------------
    // saveTagset, one critical statement at a time

    /** criticalQuery: a rejected statement stops the whole request, keeping what was
        written before it. `done` is what the request wrote so far, a prefix of `plan`. */
    method CriticalQuery(st: Stmt, rejects: Stmt -> bool, ghost s0: Store, ghost plan: seq<Stmt>, ghost done: seq<Stmt>)
      returns (ok: bool)
      requires done + [st] <= plan
      requires Tagsets() == Exec(s0, done) && NoRejects(done, rejects)
      modifies this`tagsetTags, this`tagsetStrings, this`tagsetLinks, this`tagsetValues
      ensures ok == !rejects(st)
      ensures ok ==> Tagsets() == Exec(s0, done + [st]) && NoRejects(done + [st], rejects)
      ensures !ok ==> Tagsets() == old(Tagsets()) && Stopped(s0, Tagsets(), plan, rejects)
    {
      if rejects(st) {
        AbortAt(s0, done, st, plan, rejects);
        return false;
      }
      var s := Apply(Tagsets(), st);
      tagsetTags, tagsetStrings, tagsetLinks, tagsetValues := s.tags, s.strings, s.links, s.values;
      assert (done + [st])[..|done|] == done;
      return true;
    }

    /** The statements of a request, sent one after another through criticalQuery until
        one is rejected. */
    method RunCritical(stmts: seq<Stmt>, rejects: Stmt -> bool) returns (ok: bool)
      modifies this`tagsetTags, this`tagsetStrings, this`tagsetLinks, this`tagsetValues
      ensures ok ==> NoRejects(stmts, rejects) && Tagsets() == Exec(old(Tagsets()), stmts)
      ensures !ok ==> Stopped(old(Tagsets()), Tagsets(), stmts, rejects)
    {
      ghost var s0 := Tagsets();
      var k := 0;
      assert stmts[..0] == [];
      while k < |stmts|
        invariant 0 <= k <= |stmts|
        invariant Tagsets() == Exec(s0, stmts[..k]) && NoRejects(stmts[..k], rejects)
      {
        assert stmts[..k] + [stmts[k]] == stmts[..k + 1] && stmts[..k + 1] <= stmts;
        ok := CriticalQuery(stmts[k], rejects, s0, stmts, stmts[..k]);
        if !ok {
          return;
        }
        k := k + 1;
      }
      assert stmts[..k] == stmts;
      return true;
    }

    /** saveTagset: take the tagset lock, then write the created, modified and deleted
        entries in that order, and finally record who modified the tagset. A refused lock
        writes nothing to the tagset; a rejected statement stops the request with every
        earlier write kept. The lock is not released. */
    method SaveTagset(ch: TagsetChanges, lang: Lang, user: User, now: Time, rejects: Stmt -> bool)
      returns (outcome: SaveOutcome)
      modifies this`tagsetLocks, this`tagsetTags, this`tagsetStrings, this`tagsetLinks, this`tagsetValues, this`tagsets
      ensures tagsetLocks == Acquire(old(tagsetLocks), ch.tagset, user, now).0
      ensures outcome == LockRefused <==> Acquire(old(tagsetLocks), ch.tagset, user, now).1.Refused?
      ensures outcome == LockRefused ==> Tagsets() == old(Tagsets()) && tagsets == old(tagsets)
      ensures outcome == Saved ==>
        && NoRejects(SavePlan(ch, lang), rejects)
        && Tagsets() == Exec(old(Tagsets()), SavePlan(ch, lang))
        && tagsets == (if ch.tagset in old(tagsets) then old(tagsets)[ch.tagset := user] else old(tagsets))
      ensures outcome == Aborted ==> Stopped(old(Tagsets()), Tagsets(), SavePlan(ch, lang), rejects) && tagsets == old(tagsets)
    {
      var ts := ch.tagset;
      var locked, _ := LockTagset(ts, user, now);
      if !locked {
        return LockRefused;
      }
      var ok := RunCritical(SavePlan(ch, lang), rejects);
      if !ok {
        return Aborted;
      }
      if ts in tagsets {
        tagsets := tagsets[ts := user];
      }
      return Saved;
    }

    /** saveCopyTagset: under the new tagset's lock, append a copy of every row of
        `origin` under the name `target`, register the new tagset, and release the lock. */
    method SaveCopyTagset(origin: TagsetName, target: TagsetName, user: User, now: Time) returns (ok: bool)
      modifies this`tagsetLocks, this`tagsetTags, this`tagsetStrings, this`tagsetLinks, this`tagsetValues, this`tagsets
      ensures var a := Acquire(old(tagsetLocks), target, user, now);
        && (ok <==> a.1.Granted?)
        && (!ok ==> tagsetLocks == a.0 && Tagsets() == old(Tagsets()) && tagsets == old(tagsets))
        && (ok ==> tagsetLocks == a.0 - {target})
      ensures ok ==> Tagsets() == CopyRows(old(Tagsets()), origin, target)
      ensures ok ==> tagsets == (if target in old(tagsets) then old(tagsets) else old(tagsets)[target := user])
    {
      var locked, _ := LockTagset(target, user, now);
      if !locked {
        return false;
      }
      ghost var held := tagsetLocks;
      assert target in held && held[target].owner == user;
      var s := CopyRows(Tagsets(), origin, target);
      tagsetTags, tagsetStrings, tagsetLinks, tagsetValues := s.tags, s.strings, s.links, s.values;
      if target !in tagsets {
        tagsets := tagsets[target := user];
      }
      UnlockTagset(target, user);
      assert tagsetLocks == held - {target};
      return true;
    }
    // -------------------------------------------------------------------------------------
    // getTagset

    /** The attribute ids linked to tag `id`, read row by row. */
    method FetchLinks(ts: TagsetName, id: int) returns (link: seq<int>)
      ensures link == LinksOf(tagsetLinks, ts, id)
    {
      link := [];
      var k := 0;
      while k < |tagsetLinks|
        invariant 0 <= k <= |tagsetLinks|
        invariant link == LinksOf(tagsetLinks[..k], ts, id)
      {
        assert tagsetLinks[..k + 1][..k] == tagsetLinks[..k];
        var row := tagsetLinks[k];
        if row.tagset == ts && row.tagId == id {
          link := link + [row.attribId];
        }
        k := k + 1;
      }
      assert tagsetLinks[..k] == tagsetLinks;
    }

    /** The first getTagset loop: one entry per joined row of type tag or attrib, a later
        row of the same id overwriting an earlier one; links and values still empty. */
    method ReadJoined(rows: seq<(TagRow, StringRow)>, lang: Lang)
      returns (tags: map<int, TagView>, attribs: map<int, AttribView>, order: seq<int>)
      ensures Distinct(order) && forall id :: id in order <==> id in tags
      ensures forall id :: id in tags <==> LastJoined(rows, "tag", id).Some?
      ensures forall id :: id in tags ==>
        var p := LastJoined(rows, "tag", id);
        p.Some? && tags[id] == TagView(Describe(p.value.1, lang), p.value.0.shortname, [])
      ensures forall id :: id in attribs <==> LastJoined(rows, "attrib", id).Some?
      ensures forall id :: id in attribs ==> attribs[id] == AttribView(NamesOf(LastJoined(rows, "attrib", id), lang), [])
    {
      tags, attribs, order := map[], map[], [];
      var i := 0;
      while i < |rows|
        invariant 0 <= i <= |rows|
        invariant Distinct(order) && forall id :: id in order <==> id in tags
        invariant forall id :: id in tags <==> LastJoined(rows[..i], "tag", id).Some?
        invariant forall id :: id in tags ==>
          var p := LastJoined(rows[..i], "tag", id);
          p.Some? && tags[id] == TagView(Describe(p.value.1, lang), p.value.0.shortname, [])
        invariant forall id :: id in attribs <==> LastJoined(rows[..i], "attrib", id).Some?
        invariant forall id :: id in attribs ==> attribs[id] == AttribView(NamesOf(LastJoined(rows[..i], "attrib", id), lang), [])
      {
        assert rows[..i + 1][..i] == rows[..i];
        var a, b := rows[i].0, rows[i].1;
        if a.kind == "tag" {
          if a.id !in tags {
            order := order + [a.id];
          }
          tags := tags[a.id := TagView(Describe(b, lang), a.shortname, [])];
        } else if a.kind == "attrib" {
          attribs := attribs[a.id := AttribView(Some(AttribNames(Describe(b, lang), a.shortname)), [])];
        }
        i := i + 1;
      }
      assert rows[..i] == rows;
    }

    /** The second getTagset loop: every tag of `order` (the tag ids in the order the first
        loop met them) gets its links. */
    method AddLinks(ts: TagsetName, tags: map<int, TagView>, order: seq<int>) returns (r: map<int, TagView>)
      requires Distinct(order) && forall id :: id in order <==> id in tags
      ensures r.Keys == tags.Keys
      ensures forall id :: id in r ==> r[id] == tags[id].(link := tags[id].link + LinksOf(tagsetLinks, ts, id))
    {
      r := tags;
      var k := 0;
      while k < |order|
        invariant 0 <= k <= |order| && r.Keys == tags.Keys
        invariant forall id :: id in r ==>
          r[id] == if id in order[..k] then tags[id].(link := tags[id].link + LinksOf(tagsetLinks, ts, id)) else tags[id]
      {
        var id := order[k];
        assert order[..k + 1] == order[..k] + [id];
        assert id !in order[..k];
        var link := FetchLinks(ts, id);
        r := r[id := r[id].(link := r[id].link + link)];
        k := k + 1;
      }
      assert order[..k] == order;
    }

    /** The third getTagset loop: the values of `ts`, appended to their attribute's entry,
        which is created when the attribute had no joined row. */
    method AddValues(ts: TagsetName, attribs: map<int, AttribView>) returns (r: map<int, AttribView>)
      ensures forall id :: id in r <==> id in attribs || ValuesOf(tagsetValues, ts, id) != []
      ensures forall id :: id in r ==>
        r[id] == AttribView(if id in attribs then attribs[id].names else None,
                            (if id in attribs then attribs[id].val else []) + ValuesOf(tagsetValues, ts, id))
    {
      r := attribs;
      var k := 0;
      while k < |tagsetValues|
        invariant 0 <= k <= |tagsetValues|
        invariant ValuesAdded(r, attribs, tagsetValues[..k], ts)
      {
        var row := tagsetValues[k];
        assert tagsetValues[..k + 1] == tagsetValues[..k] + [row];
        ValuesAddedStep(r, attribs, tagsetValues[..k], ts, row);
        if row.tagset == ts {
          var cur := if row.id in r then r[row.id] else AttribView(None, []);
          r := r[row.id := cur.(val := cur.val + [row.value])];
        }
        k := k + 1;
      }
      assert tagsetValues[..k] == tagsetValues;
    }

    /** getTagset: the tags and attributes of `ts` with their descriptions in `lang`, each
        tag with its links and each attribute with its values. A tag or attribute row
        without a strings row is not seen; an attribute with values but no joined row has
        values and no names. */
    method GetTagset(ts: TagsetName, lang: Lang) returns (r: TagsetView)
      ensures forall id :: id in r.tags <==> LastJoined(Join(tagsetTags, tagsetStrings, ts), "tag", id).Some?
      ensures forall id :: id in r.tags ==>
        var p := LastJoined(Join(tagsetTags, tagsetStrings, ts), "tag", id);
        p.Some? && r.tags[id] == TagView(Describe(p.value.1, lang), p.value.0.shortname, LinksOf(tagsetLinks, ts, id))
      ensures forall id :: id in r.attribs <==>
        LastJoined(Join(tagsetTags, tagsetStrings, ts), "attrib", id).Some? || ValuesOf(tagsetValues, ts, id) != []
      ensures forall id :: id in r.attribs ==>
        r.attribs[id] == AttribView(NamesOf(LastJoined(Join(tagsetTags, tagsetStrings, ts), "attrib", id), lang), ValuesOf(tagsetValues, ts, id))
    {
      var tags, attribs, order := ReadJoined(Join(tagsetTags, tagsetStrings, ts), lang);
      tags := AddLinks(ts, tags, order);
      attribs := AddValues(ts, attribs);
      r := TagsetView(tags, attribs);
    }
    // -------------------------------------------------------------------------------------
    // Users

    /** toggleAdminStatus: false when the user has no row; otherwise the admin flag flips
        ('y' to 'n', anything else to 'y'). */
    method ToggleAdminStatus(user: User) returns (ok: bool)
      modifies this`users
      ensures ok <==> user in old(users)
      ensures users == if ok then old(users)[user := Toggled(old(users)[user])] else old(users)
    {
      if user !in users {
        return false;
      }
      users := users[user := Toggled(users[user])];
      return true;
    }

    // -------------------------------------------------------------------------------------
    // Import: insertData, updateData, saveAddData

    /** The inner loop of insertData for one line: insert every suggestion on layer `l`
        and keep the running maximum, which yields the line's initial tag and lemma. */
    method SeedLine(file: FileId, line: LineId, l: Layer, data: seq<TagSuggestion>) returns (tag: string, lemmaText: string)
      modifies this`suggestions
      ensures suggestions == Seeded(old(suggestions), file, line, l, data)
      ensures (tag, lemmaText) == Initial(l, data)
    {
      ghost var m0 := suggestions;
      var max := 0;
      tag, lemmaText := "", "";
      var j := 0;
      while j < |data|
        invariant 0 <= j <= |data|
        invariant suggestions == Seeded(m0, file, line, l, data[..j])
        invariant var b := Best(Possibilities(data[..j]));
          && (b.None? ==> max == 0 && tag == "" && lemmaText == "")
          && (b.Some? ==> b.value < j && max == data[b.value].possibility && tag == TagOn(l, data[b.value]) && lemmaText == data[b.value].lemmaText)
      {
        SeededStep(m0, file, line, l, data, j);
        BestStep(data, j);
        var key := SuggKey(file, line, j, l);
        if key !in suggestions {
          suggestions := suggestions[key := Suggestion(l, data[j])];
        }
        if max < data[j].possibility {
          max := data[j].possibility;
          tag := TagOn(l, data[j]);
          lemmaText := data[j].lemmaText;
        }
        j := j + 1;
      }
      assert data[..j] == data;
    }

    /** insertData: line i of `lines` becomes line i of `file`. When the file is tagged on
        some layer (the first of POS, morph and norm that is set), each line's suggestions
        are inserted and the line row carries the initial tag and lemma; otherwise the row
        carries only the token. A row or suggestion whose key exists is left as it was
        (the failed insert is only reported). Always true. */
    method InsertData(file: FileId, lines: seq<ImportLine>, posTagged: bool, morphTagged: bool, norm: bool) returns (ok: bool)
      modifies this`suggestions, this`filesData
      ensures ok
      ensures var layer := ImportLayer(posTagged, morphTagged, norm);
        && suggestions == (if layer.Some? then SeedAll(old(suggestions), file, layer.value, lines) else old(suggestions))
        && filesData == InsertRows(old(filesData), file, layer, lines)
    {
      var layer := ImportLayer(posTagged, morphTagged, norm);
      ghost var m0, d0 := suggestions, filesData;
      var i := 0;
      while i < |lines|
        invariant 0 <= i <= |lines|
        invariant suggestions == (if layer.Some? then SeedAll(m0, file, layer.value, lines[..i]) else m0)
        invariant filesData == InsertRows(d0, file, layer, lines[..i])
      {
        assert lines[..i + 1][..i] == lines[..i];
        var init := ("", "");
        if layer.Some? {
          var tag, lemmaText := SeedLine(file, i, layer.value, lines[i].data);
          init := (tag, lemmaText);
        }
        var key := LineKey(file, i);
        if key !in filesData {
          filesData := filesData[key := ImportRow(lines[i].token, layer, init)];
        }
        i := i + 1;
      }
      assert lines[..i] == lines;
      return true;
    }

    /** The inner loop of updateData for one line: upsert every suggestion on layer `l` and
        keep the running maximum of the tag. */
    method UpsertLine(file: FileId, line: LineId, l: Layer, data: seq<TagSuggestion>) returns (tag: string)
      modifies this`suggestions
      ensures suggestions == Upserted(old(suggestions), file, line, l, data)
      ensures tag == Initial(l, data).0
    {
      ghost var m0 := suggestions;
      var max := 0;
      tag := "";
      var j := 0;
      while j < |data|
        invariant 0 <= j <= |data|
        invariant suggestions == Upserted(m0, file, line, l, data[..j])
        invariant var b := Best(Possibilities(data[..j]));
          && (b.None? ==> max == 0 && tag == "")
          && (b.Some? ==> b.value < j && max == data[b.value].possibility && tag == TagOn(l, data[b.value]))
      {
        UpsertedStep(m0, file, line, l, data, j);
        BestStep(data, j);
        var key := SuggKey(file, line, j, l);
        var lemmaText := if key in suggestions then suggestions[key].lemmaText else "";
        suggestions := suggestions[key := SuggRow(TagOn(l, data[j]), lemmaText, data[j].possibility)];
        if max < data[j].possibility {
          max := data[j].possibility;
          tag := TagOn(l, data[j]);
        }
        j := j + 1;
      }
      assert data[..j] == data;
    }

    /** updateData: upsert every line's suggestions on layer `l`, then set the layer column
        of the line's row (if it exists) to the initial tag. The column name is only known
        once some line had a suggestion; before that the line update is malformed and does
        nothing. The lemma column is not touched. Always true. */
    method UpdateData(file: FileId, l: Layer, lines: seq<ImportLine>) returns (ok: bool)
      modifies this`suggestions, this`filesData
      ensures ok
      ensures suggestions == UpsertAll(old(suggestions), file, l, lines)
      ensures filesData == TagRows(old(filesData), file, l, lines)
    {
      ghost var m0, d0 := suggestions, filesData;
      var named := false;
      var i := 0;
      while i < |lines|
        invariant 0 <= i <= |lines|
        invariant suggestions == UpsertAll(m0, file, l, lines[..i])
        invariant filesData == TagRows(d0, file, l, lines[..i])
        invariant named == AnyData(lines[..i])
      {
        UpdateStep(m0, d0, file, l, lines, i);
        AnyDataStep(lines, i);
        var tag := UpsertLine(file, i, l, lines[i].data);
        named := named || lines[i].data != [];
        var key := LineKey(file, i);
        if named && key in filesData {
          filesData := filesData[key := WithTag(filesData[key], l, tag)];
        }
        i := i + 1;
      }
      assert lines[..i] == lines;
      return true;
    }

    /** saveAddData: a tag type naming no layer (compared case-insensitively) makes the
        metadata update malformed, and nothing happens. Otherwise the file's metadata row,
        if any, is marked as tagged on that layer and updateData runs. */
    method SaveAddData(file: FileId, tagType: string, lines: seq<ImportLine>) returns (ok: bool)
      modifies this`filesMetadata, this`suggestions, this`filesData
      ensures ok <==> ParseLayer(tagType).Some?
      ensures !ok ==> filesMetadata == old(filesMetadata) && suggestions == old(suggestions) && filesData == old(filesData)
      ensures ok ==> var l := ParseLayer(tagType).value;
        && filesMetadata == (if file in old(filesMetadata) then old(filesMetadata)[file := WithLayer(old(filesMetadata)[file], l)] else old(filesMetadata))
        && suggestions == UpsertAll(old(suggestions), file, l, lines)
        && filesData == TagRows(old(filesData), file, l, lines)
    {
      var layer := ParseLayer(tagType);
      if layer.None? {
        return false;
      }
      if file in filesMetadata {
        filesMetadata := filesMetadata[file := WithLayer(filesMetadata[file], layer.value)];
      }
      ok := UpdateData(file, layer.value, lines);
    }

    // -------------------------------------------------------------------------------------
    // Editing a file

    /** saveLine: overwrite the annotation of an existing line, keeping its token. */
    method SaveLine(file: FileId, line: LineId, lemmaText: string, pos: string, morph: string, norm: string, comment: string)
      modifies this`filesData
      ensures var key := LineKey(file, line);
        filesData == if key in old(filesData) then old(filesData)[key := LineRow(old(filesData)[key].token, pos, morph, norm, lemmaText, comment)] else old(filesData)
    {
      var key := LineKey(file, line);
      if key in filesData {
        filesData := filesData[key := LineRow(filesData[key].token, pos, morph, norm, lemmaText, comment)];
      }
    }

    /** highlightError: one more marker row for the line (duplicates are possible). */
    method HighlightError(file: FileId, line: LineId)
      modifies this`filesErrors
      ensures filesErrors == old(filesErrors) + [LineKey(file, line)]
    {
      filesErrors := filesErrors + [LineKey(file, line)];
    }

    /** unhighlightError: every marker row of the line goes. */
    method UnhighlightError(file: FileId, line: LineId)
      modifies this`filesErrors
      ensures filesErrors == Unmarked(old(filesErrors), LineKey(file, line))
    {
      filesErrors := Unmarked(filesErrors, LineKey(file, line));
    }

    /** markLastPosition: the file's cursor moves to `line`, remembering the line it was on. */
    method MarkLastPosition(file: FileId, line: LineId)
      modifies this`filesProgress
      ensures filesProgress == old(filesProgress)[file := Mark(if file in old(filesProgress) then Some(old(filesProgress)[file]) else None, line)]
    {
      var p := if file in filesProgress then Some(filesProgress[file]) else None;
      filesProgress := filesProgress[file := Mark(p, line)];
    }

    /** openFile: the metadata row and the cursor's current line, each absent when the
        file has none; no lock is taken. */
    method OpenFile(file: FileId) returns (r: Opened)
      ensures r.data.Some? <==> file in filesMetadata
      ensures r.data.Some? ==> r.data.value == filesMetadata[file]
      ensures r.lastEditedRow.Some? <==> file in filesProgress
      ensures r.lastEditedRow.Some? ==> r.lastEditedRow.value == filesProgress[file].current
    {
      var row := if file in filesProgress then Some(filesProgress[file].current) else None;
      var data := if file in filesMetadata then Some(filesMetadata[file]) else None;
      r := Opened(row, data);
    }

    /** deleteFile: no row of the file is left in the metadata, suggestion, data, error and
        progress tables; rows of other files and the lock table are untouched. Always
        true. */
    method DeleteFile(file: FileId) returns (ok: bool)
      modifies this`filesMetadata, this`suggestions, this`filesData, this`filesErrors, this`filesProgress
      ensures ok
      ensures filesMetadata == old(filesMetadata) - {file} && filesProgress == old(filesProgress) - {file}
      ensures forall k :: k in suggestions <==> k in old(suggestions) && k.file != file
      ensures forall k :: k in suggestions ==> suggestions[k] == old(suggestions)[k]
      ensures forall k :: k in filesData <==> k in old(filesData) && k.file != file
      ensures forall k :: k in filesData ==> filesData[k] == old(filesData)[k]
      ensures filesErrors == Filter(old(filesErrors), NotOfFile(file))
    {
      filesMetadata := filesMetadata - {file};
      suggestions := map k | k in suggestions && k.file != file :: suggestions[k];
      filesData := map k | k in filesData && k.file != file :: filesData[k];
      filesErrors := Filter(filesErrors, NotOfFile(file));
      filesProgress := filesProgress - {file};
      return true;
    }
  }
}
