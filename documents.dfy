/** Values of the document store: annotation layers, import lines with their tag
    suggestions, the choice of a line's initial tag, and the per-file progress cursor. */
module Documents {
  import opened Common

  type FileId = int
  type LineId = int

  /** The annotation layers a file can carry (`pos`, `morph`, `norm`). */
  datatype Layer = POS | Morph | Norm

  function LayerName(l: Layer): string
  {
    match l
    case POS => "pos"
    case Morph => "morph"
    case Norm => "norm"
  }

  /** ASCII lower-casing (PHP `strtolower` in the "C" locale). */
  function LowerChar(c: char): char
  {
    if 'A' <= c <= 'Z' then (c as int + 32) as char else c
  }

  function Lower(s: string): (r: string)
    ensures |r| == |s| && forall i :: 0 <= i < |s| ==> r[i] == LowerChar(s[i])
  {
    seq(|s|, i requires 0 <= i < |s| => LowerChar(s[i]))
  }

  /** The layer a tag-type argument names, compared case-insensitively; any other string
      names no layer. */
  function ParseLayer(tagType: string): (r: Option<Layer>)
    ensures r.Some? ==> LayerName(r.value) == Lower(tagType)
    ensures r.None? ==> forall l: Layer :: LayerName(l) != Lower(tagType)
  {
    var t := Lower(tagType);
    if t == "morph" then Some(Morph)
    else if t == "pos" then Some(POS)
    else if t == "norm" then Some(Norm)
    else None
  }

  /** One suggestion of an imported line: its tag on every layer, a lemma and the
      probability the tagger gave it (the source's `possibility`). */
  datatype TagSuggestion = TagSuggestion(pos: string, morph: string, norm: string, lemmaText: string, possibility: int)

  /** One line of an import: the token and its suggestions in input order. */
  datatype ImportLine = ImportLine(token: string, data: seq<TagSuggestion>)

  function TagOn(l: Layer, t: TagSuggestion): string
  {
    match l
    case POS => t.pos
    case Morph => t.morph
    case Norm => t.norm
  }

  function Possibilities(ts: seq<TagSuggestion>): (r: seq<int>)
    ensures |r| == |ts| && forall i :: 0 <= i < |ts| ==> r[i] == ts[i].possibility
  {
    seq(|ts|, i requires 0 <= i < |ts| => ts[i].possibility)
  }

  /** The position of the first suggestion with the greatest probability, provided that
      probability is above 0. */
  function Best(ps: seq<int>): (r: Option<nat>)
    ensures r.None? <==> forall j :: 0 <= j < |ps| ==> ps[j] <= 0
    ensures r.Some? ==> r.value < |ps| && ps[r.value] > 0
    ensures r.Some? ==> forall j :: 0 <= j < |ps| ==> ps[j] <= ps[r.value]
    ensures r.Some? ==> forall j :: 0 <= j < r.value ==> ps[j] < ps[r.value]
    decreases |ps|
  {
    if ps == [] then None
    else
      var b := Best(ps[..|ps| - 1]);
      var top := if b.None? then 0 else ps[b.value];
      if top < ps[|ps| - 1] then Some(|ps| - 1) else b
  }

  /** The initial tag and lemma of a line on layer `l`: those of the best suggestion, or
      "" and "" when there is none. */
  function Initial(l: Layer, data: seq<TagSuggestion>): (string, string)
  {
    match Best(Possibilities(data))
    case None => ("", "")
    case Some(k) => (TagOn(l, data[k]), data[k].lemmaText)
  }

  /** The initial tag and lemma come from the first suggestion whose probability is above 0
      and strictly greater than every suggestion before it, and not smaller than any after
      it; both are "" when no probability is above 0. */
  lemma InitialSpec(l: Layer, data: seq<TagSuggestion>)
    ensures (forall j :: 0 <= j < |data| ==> data[j].possibility <= 0) ==> Initial(l, data) == ("", "")
    ensures (exists j :: 0 <= j < |data| && data[j].possibility > 0) ==>
      exists k :: 0 <= k < |data| && data[k].possibility > 0
        && (forall j :: 0 <= j < |data| ==> data[j].possibility <= data[k].possibility)
        && (forall j :: 0 <= j < k ==> data[j].possibility < data[k].possibility)
        && Initial(l, data) == (TagOn(l, data[k]), data[k].lemmaText)
  {
    var ps := Possibilities(data);
    var b := Best(ps);
    if b.Some? {
      var k := b.value;
      assert Initial(l, data) == (TagOn(l, data[k]), data[k].lemmaText);
      assert forall j :: 0 <= j < |data| ==> data[j].possibility <= data[k].possibility by {
        forall j | 0 <= j < |data|
          ensures data[j].possibility <= data[k].possibility
        {
          assert ps[j] <= ps[k];
        }
      }
      assert forall j :: 0 <= j < k ==> data[j].possibility < data[k].possibility by {
        forall j | 0 <= j < k
          ensures data[j].possibility < data[k].possibility
        {
          assert ps[j] < ps[k];
        }
      }
      assert data[k].possibility > 0 by { assert ps[k] > 0; }
    } else {
      forall j | 0 <= j < |data|
        ensures data[j].possibility <= 0
      {
        assert ps[j] <= 0;
      }
    }
  }

  /** One more suggestion in the running maximum: it replaces the current choice exactly
      when its probability is strictly greater (the choice so far counting as 0 when there
      is none). */
  lemma BestStep(data: seq<TagSuggestion>, j: nat)
    requires j < |data|
    ensures var b := Best(Possibilities(data[..j]));
      Best(Possibilities(data[..j + 1])) ==
        if (if b.None? then 0 else data[b.value].possibility) < data[j].possibility then Some(j) else b
  {
    assert Possibilities(data[..j + 1])[..j] == Possibilities(data[..j]);
  }

  /** The layer insertData tags a new file on: the first of POS, morph and norm whose flag
      is set. */
  function ImportLayer(posTagged: bool, morphTagged: bool, norm: bool): (r: Option<Layer>)
    ensures r.None? <==> !posTagged && !morphTagged && !norm
    ensures r == Some(Morph) ==> !posTagged
    ensures r == Some(Norm) ==> !posTagged && !morphTagged
  {
    if posTagged then Some(POS)
    else if morphTagged then Some(Morph)
    else if norm then Some(Norm)
    else None
  }

  // ---------------------------------------------------------------------------------------
  // Rows of the document tables

  /** `files_metadata`: the file name and which layers the file carries. */
  datatype FileMeta = FileMeta(name: string, posTagged: bool, morphTagged: bool, norm: bool)

  function WithLayer(m: FileMeta, l: Layer): (r: FileMeta)
    ensures r.name == m.name
    ensures r.posTagged == (m.posTagged || l == POS)
    ensures r.morphTagged == (m.morphTagged || l == Morph)
    ensures r.norm == (m.norm || l == Norm)
  {
    match l
    case POS => m.(posTagged := true)
    case Morph => m.(morphTagged := true)
    case Norm => m.(norm := true)
  }

  /** Key of `files_data`, `files_errors`: a line of a file. */
  datatype LineKey = LineKey(file: FileId, line: LineId)

  /** `files_data`: a token and its current annotation. */
  datatype LineRow = LineRow(token: string, pos: string, morph: string, norm: string, lemmaText: string, comment: string)

  function WithTag(r: LineRow, l: Layer, tag: string): LineRow
  {
    match l
    case POS => r.(pos := tag)
    case Morph => r.(morph := tag)
    case Norm => r.(norm := tag)
  }

  /** Key of `files_tags_suggestion`: the n-th suggestion of a line on one layer. */
  datatype SuggKey = SuggKey(file: FileId, line: LineId, index: int, layer: Layer)

  /** `files_tags_suggestion`: tag name, lemma and probability. */
  datatype SuggRow = SuggRow(tagName: string, lemmaText: string, probability: int)

  /** The suggestion row insertData writes for `t` on layer `l`. */
  function Suggestion(l: Layer, t: TagSuggestion): SuggRow
  {
    SuggRow(TagOn(l, t), t.lemmaText, t.possibility)
  }

  /** insertData's suggestion inserts for one line, in order; an insert whose key exists
      fails and leaves the existing row. */
  function Seeded(m: map<SuggKey, SuggRow>, file: FileId, line: LineId, l: Layer, data: seq<TagSuggestion>): map<SuggKey, SuggRow>
    decreases |data|
  {
    if data == [] then m
    else
      var prev := Seeded(m, file, line, l, data[..|data| - 1]);
      var k := SuggKey(file, line, |data| - 1, l);
      if k in prev then prev else prev[k := Suggestion(l, data[|data| - 1])]
  }

  lemma SeededStep(m: map<SuggKey, SuggRow>, file: FileId, line: LineId, l: Layer, data: seq<TagSuggestion>, j: nat)
    requires j < |data|
    ensures var prev := Seeded(m, file, line, l, data[..j]);
      var k := SuggKey(file, line, j, l);
      Seeded(m, file, line, l, data[..j + 1]) == if k in prev then prev else prev[k := Suggestion(l, data[j])]
  {
    assert data[..j + 1][..j] == data[..j];
  }

  /** The keys of one line's suggestions on one layer. */
  predicate OfLine(k: SuggKey, file: FileId, line: LineId, l: Layer, n: int)
  {
    k.file == file && k.line == line && k.layer == l && 0 <= k.index < n
  }

  /** Each suggestion of the line is present afterwards; those whose key was free hold the
      suggestion, and no existing row is changed. */
  lemma {:induction false} SeededSpec(m: map<SuggKey, SuggRow>, file: FileId, line: LineId, l: Layer, data: seq<TagSuggestion>)
    ensures forall k :: k in Seeded(m, file, line, l, data) <==> k in m || OfLine(k, file, line, l, |data|)
    ensures forall k :: k in m ==> Seeded(m, file, line, l, data)[k] == m[k]
    ensures forall j :: 0 <= j < |data| && SuggKey(file, line, j, l) !in m ==>
      var k := SuggKey(file, line, j, l);
      k in Seeded(m, file, line, l, data) && Seeded(m, file, line, l, data)[k] == Suggestion(l, data[j])
    decreases |data|
  {
    if data != [] {
      var init := data[..|data| - 1];
      SeededSpec(m, file, line, l, init);
      assert forall j :: 0 <= j < |init| ==> init[j] == data[j];
    }
  }

  /** updateData's suggestion upserts for one line: the tag and probability are written;
      the lemma of an existing row is kept, a new row gets none. */
  function Upserted(m: map<SuggKey, SuggRow>, file: FileId, line: LineId, l: Layer, data: seq<TagSuggestion>): map<SuggKey, SuggRow>
    decreases |data|
  {
    if data == [] then m
    else
      var prev := Upserted(m, file, line, l, data[..|data| - 1]);
      var k := SuggKey(file, line, |data| - 1, l);
      var t := data[|data| - 1];
      prev[k := SuggRow(TagOn(l, t), if k in prev then prev[k].lemmaText else "", t.possibility)]
  }

  lemma UpsertedStep(m: map<SuggKey, SuggRow>, file: FileId, line: LineId, l: Layer, data: seq<TagSuggestion>, j: nat)
    requires j < |data|
    ensures var prev := Upserted(m, file, line, l, data[..j]);
      var k := SuggKey(file, line, j, l);
      Upserted(m, file, line, l, data[..j + 1]) ==
        prev[k := SuggRow(TagOn(l, data[j]), if k in prev then prev[k].lemmaText else "", data[j].possibility)]
  {
    assert data[..j + 1][..j] == data[..j];
  }

  lemma {:induction false} UpsertedSpec(m: map<SuggKey, SuggRow>, file: FileId, line: LineId, l: Layer, data: seq<TagSuggestion>)
    ensures forall k :: k in Upserted(m, file, line, l, data) <==> k in m || OfLine(k, file, line, l, |data|)
    ensures forall k :: k in m && !OfLine(k, file, line, l, |data|) ==> Upserted(m, file, line, l, data)[k] == m[k]
    ensures forall j :: 0 <= j < |data| ==>
      var k := SuggKey(file, line, j, l);
      k in Upserted(m, file, line, l, data) && Upserted(m, file, line, l, data)[k] == SuggRow(TagOn(l, data[j]), if k in m then m[k].lemmaText else "", data[j].possibility)
    decreases |data|
  {
    if data != [] {
      var init := data[..|data| - 1];
      UpsertedSpec(m, file, line, l, init);
      assert forall j :: 0 <= j < |init| ==> init[j] == data[j];
    }
  }

  /** The row insertData writes for a new line: the token, and on the import layer (if any)
      the initial tag together with the initial lemma. */
  function ImportRow(token: string, layer: Option<Layer>, init: (string, string)): LineRow
  {
    match layer
    case None => LineRow(token, "", "", "", "", "")
    case Some(l) => WithTag(LineRow(token, "", "", "", init.1, ""), l, init.0)
  }

  function LineInitial(layer: Option<Layer>, data: seq<TagSuggestion>): (string, string)
  {
    if layer.Some? then Initial(layer.value, data) else ("", "")
  }

  /** insertData's suggestion inserts for a whole file (none when no layer is tagged). */
  function SeedAll(m: map<SuggKey, SuggRow>, file: FileId, l: Layer, lines: seq<ImportLine>): map<SuggKey, SuggRow>
    decreases |lines|
  {
    if lines == [] then m
    else Seeded(SeedAll(m, file, l, lines[..|lines| - 1]), file, |lines| - 1, l, lines[|lines| - 1].data)
  }

  /** insertData's line inserts: line i of the input becomes line id i; an existing row is
      kept. */
  function InsertRows(d: map<LineKey, LineRow>, file: FileId, layer: Option<Layer>, lines: seq<ImportLine>): map<LineKey, LineRow>
    decreases |lines|
  {
    if lines == [] then d
    else
      var prev := InsertRows(d, file, layer, lines[..|lines| - 1]);
      var k := LineKey(file, |lines| - 1);
      var line := lines[|lines| - 1];
      if k in prev then prev else prev[k := ImportRow(line.token, layer, LineInitial(layer, line.data))]
  }

  lemma {:induction false} InsertRowsKeys(d: map<LineKey, LineRow>, file: FileId, layer: Option<Layer>, lines: seq<ImportLine>)
    ensures forall k :: k in InsertRows(d, file, layer, lines) <==> k in d || (k.file == file && 0 <= k.line < |lines|)
    decreases |lines|
  {
    if lines != [] {
      InsertRowsKeys(d, file, layer, lines[..|lines| - 1]);
    }
  }

  lemma {:induction false} InsertRowsKeeps(d: map<LineKey, LineRow>, file: FileId, layer: Option<Layer>, lines: seq<ImportLine>, k: LineKey)
    requires k in d
    ensures k in InsertRows(d, file, layer, lines) && InsertRows(d, file, layer, lines)[k] == d[k]
    decreases |lines|
  {
    if lines != [] {
      InsertRowsKeeps(d, file, layer, lines[..|lines| - 1], k);
    }
  }

  lemma {:induction false} InsertRowsNew(d: map<LineKey, LineRow>, file: FileId, layer: Option<Layer>, lines: seq<ImportLine>, i: nat)
    requires i < |lines| && LineKey(file, i) !in d
    ensures LineKey(file, i) in InsertRows(d, file, layer, lines)
    ensures InsertRows(d, file, layer, lines)[LineKey(file, i)] == ImportRow(lines[i].token, layer, LineInitial(layer, lines[i].data))
    decreases |lines|
  {
    var n := |lines| - 1;
    if i < n {
      var init := lines[..n];
      InsertRowsNew(d, file, layer, init, i);
      assert init[i] == lines[i];
    } else {
      var prev := InsertRows(d, file, layer, lines[..n]);
      InsertRowsKeys(d, file, layer, lines[..n]);
      assert LineKey(file, i) !in prev;
    }
  }

  /** Line i of the input becomes row i of the file unless that row exists; existing rows
      are unchanged, and no other row appears. */
  lemma InsertRowsSpec(d: map<LineKey, LineRow>, file: FileId, layer: Option<Layer>, lines: seq<ImportLine>)
    ensures forall k :: k in InsertRows(d, file, layer, lines) <==> k in d || (k.file == file && 0 <= k.line < |lines|)
    ensures forall k :: k in d ==> InsertRows(d, file, layer, lines)[k] == d[k]
    ensures forall i :: 0 <= i < |lines| && LineKey(file, i) !in d ==>
      InsertRows(d, file, layer, lines)[LineKey(file, i)] == ImportRow(lines[i].token, layer, LineInitial(layer, lines[i].data))
  {
    InsertRowsKeys(d, file, layer, lines);
    forall k | k in d
      ensures InsertRows(d, file, layer, lines)[k] == d[k]
    {
      InsertRowsKeeps(d, file, layer, lines, k);
    }
    forall i | 0 <= i < |lines| && LineKey(file, i) !in d
      ensures InsertRows(d, file, layer, lines)[LineKey(file, i)] == ImportRow(lines[i].token, layer, LineInitial(layer, lines[i].data))
    {
      InsertRowsNew(d, file, layer, lines, i);
    }
  }

  /** updateData's suggestion upserts for a whole file. */
  function UpsertAll(m: map<SuggKey, SuggRow>, file: FileId, l: Layer, lines: seq<ImportLine>): map<SuggKey, SuggRow>
    decreases |lines|
  {
    if lines == [] then m
    else Upserted(UpsertAll(m, file, l, lines[..|lines| - 1]), file, |lines| - 1, l, lines[|lines| - 1].data)
  }

  /** Some line up to here has at least one suggestion (only then has updateData named the
      column its line update writes). */
  predicate AnyData(lines: seq<ImportLine>)
  {
    exists j :: 0 <= j < |lines| && lines[j].data != []
  }

  /** updateData's line updates: the layer column of each existing line row is set to the
      line's initial tag, once some line so far had suggestions; nothing else changes. */
  function TagRows(d: map<LineKey, LineRow>, file: FileId, l: Layer, lines: seq<ImportLine>): map<LineKey, LineRow>
    decreases |lines|
  {
    if lines == [] then d
    else
      var prev := TagRows(d, file, l, lines[..|lines| - 1]);
      var k := LineKey(file, |lines| - 1);
      if AnyData(lines) && k in prev then prev[k := WithTag(prev[k], l, Initial(l, lines[|lines| - 1].data).0)] else prev
  }

  lemma AnyDataStep(lines: seq<ImportLine>, i: nat)
    requires i < |lines|
    ensures AnyData(lines[..i + 1]) == (AnyData(lines[..i]) || lines[i].data != [])
  {
    if AnyData(lines[..i + 1]) && !AnyData(lines[..i]) {
      var j :| 0 <= j < i + 1 && lines[..i + 1][j].data != [];
    }
    if lines[i].data != [] {
      assert lines[..i + 1][i] == lines[i];
    }
  }

  /** One more line of updateData. */
  lemma UpdateStep(m: map<SuggKey, SuggRow>, d: map<LineKey, LineRow>, file: FileId, l: Layer, lines: seq<ImportLine>, i: nat)
    requires i < |lines|
    ensures UpsertAll(m, file, l, lines[..i + 1]) == Upserted(UpsertAll(m, file, l, lines[..i]), file, i, l, lines[i].data)
    ensures var prev := TagRows(d, file, l, lines[..i]);
      var k := LineKey(file, i);
      TagRows(d, file, l, lines[..i + 1]) ==
        if AnyData(lines[..i + 1]) && k in prev then prev[k := WithTag(prev[k], l, Initial(l, lines[i].data).0)] else prev
  {
    assert lines[..i + 1][..i] == lines[..i];
  }

  lemma {:induction false} TagRowsKeys(d: map<LineKey, LineRow>, file: FileId, l: Layer, lines: seq<ImportLine>)
    ensures TagRows(d, file, l, lines).Keys == d.Keys
    decreases |lines|
  {
    if lines != [] {
      TagRowsKeys(d, file, l, lines[..|lines| - 1]);
    }
  }

  /** Rows of other files, and lines beyond the input, are left alone. */
  lemma {:induction false} TagRowsOthers(d: map<LineKey, LineRow>, file: FileId, l: Layer, lines: seq<ImportLine>, k: LineKey)
    requires k in d && !(k.file == file && 0 <= k.line < |lines|)
    ensures k in TagRows(d, file, l, lines) && TagRows(d, file, l, lines)[k] == d[k]
    decreases |lines|
  {
    TagRowsKeys(d, file, l, lines);
    if lines != [] {
      TagRowsOthers(d, file, l, lines[..|lines| - 1], k);
    }
  }

  /** Line i of the input sets the layer column of row i to its initial tag, provided some
      line up to i had suggestions. */
  lemma {:induction false} TagRowsLine(d: map<LineKey, LineRow>, file: FileId, l: Layer, lines: seq<ImportLine>, i: int)
    requires 0 <= i < |lines| && LineKey(file, i) in d
    ensures LineKey(file, i) in TagRows(d, file, l, lines)
    ensures TagRows(d, file, l, lines)[LineKey(file, i)] ==
      if AnyData(lines[..i + 1]) then WithTag(d[LineKey(file, i)], l, Initial(l, lines[i].data).0) else d[LineKey(file, i)]
    decreases |lines|
  {
    var init := lines[..|lines| - 1];
    TagRowsKeys(d, file, l, lines);
    TagRowsKeys(d, file, l, init);
    if i < |init| {
      TagRowsLine(d, file, l, init, i);
      assert init[..i + 1] == lines[..i + 1];
    } else {
      TagRowsOthers(d, file, l, init, LineKey(file, i));
      assert lines[..i + 1] == lines;
    }
  }

  /** A tag on one layer leaves the token, the lemma, the comment and the other layers. */
  lemma WithTagOnlyThatLayer(r: LineRow, l: Layer, tag: string)
    ensures WithTag(r, l, tag).token == r.token && WithTag(r, l, tag).lemmaText == r.lemmaText
    ensures WithTag(r, l, tag).comment == r.comment
    ensures forall m: Layer :: m != l ==> TagOf(WithTag(r, l, tag), m) == TagOf(r, m)
    ensures TagOf(WithTag(r, l, tag), l) == tag
  {
  }

  function TagOf(r: LineRow, l: Layer): string
  {
    match l
    case POS => r.pos
    case Morph => r.morph
    case Norm => r.norm
  }

  // ---------------------------------------------------------------------------------------
  // Users

  /** toggleAdminStatus: 'y' becomes 'n', anything else becomes 'y'. */
  function Toggled(admin: string): (r: string)
    ensures r == "y" || r == "n"
    ensures r == "n" <==> admin == "y"
  {
    if admin == "y" then "n" else "y"
  }

  /** Toggling twice restores a flag that was 'y' or 'n'. */
  lemma ToggleTwice(admin: string)
    requires admin == "y" || admin == "n"
    ensures Toggled(Toggled(admin)) == admin
  {
  }

  // ---------------------------------------------------------------------------------------
  // Error markers (`files_errors`) and file deletion

  function NotAt(key: LineKey): LineKey -> bool { (k: LineKey) => k != key }

  /** unhighlightError: every marker of the line is removed, all others stay in order. */
  function Unmarked(errs: seq<LineKey>, key: LineKey): (r: seq<LineKey>)
    ensures key !in r
    ensures forall k :: k in errs && k != key ==> k in r
    ensures forall k :: k in r ==> k in errs
  {
    Filter(errs, NotAt(key))
  }

  function NotOfFile(file: FileId): LineKey -> bool { (k: LineKey) => k.file != file }

  // ---------------------------------------------------------------------------------------
  // The progress cursor (`files_progress`)

  /** The last line saved (`new_line_id`) and the one saved before it (`old_line_id`, NULL
      before the second save). */
  datatype Progress = Progress(previous: Option<LineId>, current: LineId)

  /** One markLastPosition upsert on a file's cursor. */
  function Mark(p: Option<Progress>, line: LineId): Progress
  {
    match p
    case None => Progress(None, line)
    case Some(q) => Progress(Some(q.current), line)
  }

  /** The cursor after marking `lines` in order, starting from `p`. */
  function MarkAll(p: Option<Progress>, lines: seq<LineId>): Option<Progress>
    decreases |lines|
  {
    if lines == [] then p else Some(Mark(MarkAll(p, lines[..|lines| - 1]), lines[|lines| - 1]))
  }

  /** After any non-empty series of saves on a file without a cursor, the cursor holds the
      last line and the one before it (NULL after a single save). */
  lemma {:induction false} MarkAllTracksLastTwo(lines: seq<LineId>)
    requires lines != []
    ensures MarkAll(None, lines).Some?
    ensures MarkAll(None, lines).value.current == lines[|lines| - 1]
    ensures MarkAll(None, lines).value.previous == if |lines| == 1 then None else Some(lines[|lines| - 2])
    decreases |lines|
  {
    var init := lines[..|lines| - 1];
    if init != [] {
      MarkAllTracksLastTwo(init);
      assert init[|init| - 1] == lines[|lines| - 2];
    }
  }
}
