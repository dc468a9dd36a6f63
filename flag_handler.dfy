/** The editor's status flags (error mark, verified lemma, sentence boundary): reading
    their values from token data, the click handlers that toggle them, and keeping the CSS
    classes of a table row's flag elements in step with the values. */
module FlagHandler {

  /** A JavaScript value as it appears in token data or in a change set. */
  datatype Value = Num(n: int) | Text(s: string) | Null | Undefined

  /** JavaScript `v == 1`. */
  predicate IsOne(v: Value)
  {
    v == Num(1) || v == Text("1")
  }

  /** The configuration of one flag: the element selector in a table row, the CSS class
      that marks it set, its display name and the event it listens to. */
  datatype FlagOptions = FlagOptions(elem: string, cls: string, displayName: string, eventString: string)

  /** The configured flags. */
  datatype Flag = GeneralError | LemmaVerified | Boundary

  /** The flags in configuration order, which is the order every loop over them takes. */
  const Flags: seq<Flag> := [GeneralError, LemmaVerified, Boundary]

  /** The key of a flag in token data and change sets. */
  function Name(f: Flag): string
  {
    match f
    case GeneralError => "flag_general_error"
    case LemmaVerified => "flag_lemma_verified"
    case Boundary => "flag_boundary"
  }

  function Options(f: Flag): FlagOptions
  {
    match f
    case GeneralError =>
      FlagOptions("div.editTableError", "editTableErrorChecked",
                  "EditorTab.Forms.searchForm.errorMarkup", "click:relay(div.editTableError)")
    case LemmaVerified =>
      FlagOptions("div.editTableLemma", "editTableLemmaChecked",
                  "EditorTab.Forms.searchForm.lemmaMarkup", "click:relay(div.editTableLemma)")
    case Boundary =>
      FlagOptions("div.editTableBoundary", "editTableBoundaryChecked",
                  "EditorTab.Forms.searchForm.sentBoundaryMarkup", "click:relay(div.editTableBoundary)")
  }

  /** The position of a flag in configuration order. */
  function Index(f: Flag): (r: nat)
    ensures r < |Flags| && Flags[r] == f
  {
    match f
    case GeneralError => 0
    case LemmaVerified => 1
    case Boundary => 2
  }

  /** A key of a token data object or a change set: a flag's key, or any other
      annotation's. */
  datatype Key = FlagKey(flag: Flag) | OtherKey(name: string)

  /** The property name a key stands for. */
  function KeyName(k: Key): string
  {
    match k
    case FlagKey(f) => Name(f)
    case OtherKey(name) => name
  }

  /** A token data object or a change set: a missing key reads as `undefined`. */
  function Lookup(data: map<Key, Value>, key: Key): Value
  {
    if key in data then data[key] else Undefined
  }

  /** getValues: one entry per flag, 1 when the data holds 1 for it and 0 otherwise. */
  function GetValues(data: map<Key, Value>): (r: map<Flag, int>)
    ensures forall f :: f in r
    ensures forall f :: (r[f] == 1 <==> IsOne(Lookup(data, FlagKey(f)))) && (r[f] == 0 <==> !IsOne(Lookup(data, FlagKey(f))))
  {
    assert forall f: Flag :: f in Flags by {
      forall f: Flag
        ensures f in Flags
      {
        assert Flags[Index(f)] == f;
      }
    }
    map f | f in Flags :: if IsOne(Lookup(data, FlagKey(f))) then 1 else 0
  }

  /** An event registration of getEventData: its event type and the flag whose handler
      it calls. */
  datatype Event = Event(eventType: string, flag: Flag)

  /** getEventData: one event per flag, in configuration order. */
  function GetEventData(): (r: seq<Event>)
    ensures |r| == |Flags|
    ensures forall i :: 0 <= i < |r| ==> r[i].flag == Flags[i] && r[i].eventType == Options(Flags[i]).eventString
  {
    seq(|Flags|, i requires 0 <= i < |Flags| => Event(Options(Flags[i]).eventString, Flags[i]))
  }

  /** The handler of an event: the flag's key, and the value it toggles to — 0 when the
      clicked element carries the flag's class, 1 when it does not. */
  function Handle(e: Event, hasClass: bool): (r: (Key, Value))
    ensures r.0 == FlagKey(e.flag)
    ensures IsOne(r.1) <==> !hasClass
  {
    (FlagKey(e.flag), if hasClass then Num(0) else Num(1))
  }

  /** A CSS class of an element: the class that marks a flag as set, or any other. */
  datatype CssClass = Checked(flag: Flag) | Other(name: string)

  /** The class attribute value a CSS class stands for. */
  function ClassName(c: CssClass): string
  {
    match c
    case Checked(f) => Options(f).cls
    case Other(name) => name
  }

  /** The classes of an element after _setFlag: `cls` is present exactly when the value
      is 1, and every other class is kept. */
  function Flagged(classes: set<CssClass>, cls: CssClass, v: Value): (r: set<CssClass>)
    ensures cls in r <==> IsOne(v)
    ensures forall c :: c != cls ==> (c in r <==> c in classes)
  {
    if IsOne(v) then classes + {cls} else classes - {cls}
  }

  /** Setting a flag twice is setting it once. */
  lemma FlaggedIdempotent(classes: set<CssClass>, cls: CssClass, v: Value)
    ensures Flagged(Flagged(classes, cls, v), cls, v) == Flagged(classes, cls, v)
  {
  }

  /** A click on a flag element, handled and applied, toggles the flag's class. */
  lemma HandlerToggles(e: Event, classes: set<CssClass>)
    ensures var cls := Checked(e.flag);
      cls in Flagged(classes, cls, Handle(e, cls in classes).1) <==> cls !in classes
  {
  }

  /** Compared with `before`, the row `after` has the same flag elements; those of flags
      numbered below `n` show `shown` (a `null` there leaves the element as it was), the
      others are as they were, and no other class of a flag element changed. */
  ghost predicate Shows(before: map<Flag, set<CssClass>>, after: map<Flag, set<CssClass>>, n: nat, shown: Flag -> Value)
    requires n <= |Flags|
  {
    && after.Keys == before.Keys
    && (forall f :: f in after ==>
         (Checked(f) in after[f] <==>
            if Index(f) < n && shown(f) != Null then IsOne(shown(f)) else Checked(f) in before[f]))
    && (forall f, c :: f in after && c != Checked(f) ==> (c in after[f] <==> c in before[f]))
  }

  /** One flag of fill or update: the element of flag number `i`, when present, gets the
      value `w`, which agrees with `shown` — unless `shown` holds `null` for it. */
  lemma ShowsStep(before: map<Flag, set<CssClass>>, mid: map<Flag, set<CssClass>>, i: nat, shown: Flag -> Value, w: Value)
    requires i < |Flags| && Shows(before, mid, i, shown)
    requires shown(Flags[i]) != Null ==> (IsOne(w) <==> IsOne(shown(Flags[i])))
    ensures var f := Flags[i];
      Shows(before, if shown(f) != Null && f in mid then mid[f := Flagged(mid[f], Checked(f), w)] else mid, i + 1, shown)
  {
    var f := Flags[i];
    var after := if shown(f) != Null && f in mid then mid[f := Flagged(mid[f], Checked(f), w)] else mid;
    forall g | g in after
      ensures Checked(g) in after[g] <==>
        if Index(g) < i + 1 && shown(g) != Null then IsOne(shown(g)) else Checked(g) in before[g]
    {
      if g != f {
        assert after[g] == mid[g] && Index(g) != i;
      }
    }
    forall g, c | g in after && c != Checked(g)
      ensures c in after[g] <==> c in before[g]
    {
      assert c in after[g] <==> c in mid[g];
    }
  }

  /** The data values of a token, with a `null` read as `undefined` (both clear the flag). */
  function DataShown(data: map<Key, Value>): Flag -> Value
  {
    f => if Lookup(data, FlagKey(f)) == Null then Undefined else Lookup(data, FlagKey(f))
  }

  /** After fill, a row shows exactly what getValues reads from the same token data. */
  lemma FilledAsValues(before: map<Flag, set<CssClass>>, after: map<Flag, set<CssClass>>, data: map<Key, Value>)
    requires Shows(before, after, |Flags|, DataShown(data))
    ensures forall f :: f in after ==> (Checked(f) in after[f] <==> GetValues(data)[f] == 1)
  {
    forall f | f in after
      ensures Checked(f) in after[f] <==> GetValues(data)[f] == 1
    {
      assert Index(f) < |Flags|;
      assert IsOne(DataShown(data)(f)) <==> IsOne(Lookup(data, FlagKey(f)));
    }
  }

  /** The value update shows for flag `f`: the new value when `f` is the changed class,
      else the pending change for `f`, else none (`null`). */
  function Pending(f: Flag, changes: map<Key, Value>, cls: Key, v: Value): (r: Value)
    ensures cls == FlagKey(f) ==> r == v
    ensures cls != FlagKey(f) && FlagKey(f) in changes ==> r == changes[FlagKey(f)]
    ensures cls != FlagKey(f) && FlagKey(f) !in changes ==> r == Null
  {
    if cls == FlagKey(f) then v else if FlagKey(f) in changes then changes[FlagKey(f)] else Null
  }

  /** A change set, as filled in by the annotation editors and read by update. */
  class Changes {
    var entries: map<Key, Value>

    constructor (entries: map<Key, Value>)
      ensures this.entries == entries
    {
      this.entries := entries;
    }
  }

  /** A table row of the editor: for each flag whose selector finds an element in the row
      (getElement), that element's class list, which the flag handler changes in place. */
  class Row {
    var elems: map<Flag, set<CssClass>>

    constructor (elems: map<Flag, set<CssClass>>)
      ensures this.elems == elems
    {
      this.elems := elems;
    }

    /** _setFlag on the element of flag `f`. */
    method SetFlag(f: Flag, cls: CssClass, v: Value)
      requires f in elems
      modifies this
      ensures elems == old(elems)[f := Flagged(old(elems)[f], cls, v)]
    {
      elems := elems[f := Flagged(elems[f], cls, v)];
    }

    /** fill: every flag element present in the row shows the token's value of its flag. */
    method Fill(data: map<Key, Value>)
      modifies this
      ensures Shows(old(elems), elems, |Flags|, DataShown(data))
      ensures forall f :: f in elems ==> (Checked(f) in elems[f] <==> GetValues(data)[f] == 1)
    {
      for i := 0 to |Flags|
        invariant Shows(old(elems), elems, i, DataShown(data))
      {
        var f := Flags[i];
        ShowsStep(old(elems), elems, i, DataShown(data), Lookup(data, FlagKey(f)));
        if f in elems {
          SetFlag(f, Checked(f), Lookup(data, FlagKey(f)));
        }
      }
      FilledAsValues(old(elems), elems, data);
    }

    /** update: record the new value of a flag in the change set, and show it together
        with any other pending flag change. */
    method Update(changes: Changes, cls: Key, v: Value)
      modifies this, changes
      ensures changes.entries == if cls.FlagKey? then old(changes.entries)[cls := v] else old(changes.entries)
      ensures Shows(old(elems), elems, |Flags|, f => Pending(f, old(changes.entries), cls, v))
    {
      ghost var before := changes.entries;
      ghost var shown := f => Pending(f, before, cls, v);
      for i := 0 to |Flags|
        invariant changes.entries == if cls.FlagKey? && Index(cls.flag) < i then before[cls := v] else before
        invariant Shows(old(elems), elems, i, shown)
      {
        var f := Flags[i];
        var flagValue := Null;
        if cls == FlagKey(f) {
          flagValue := v;
          changes.entries := changes.entries[FlagKey(f) := flagValue];
        } else if FlagKey(f) in changes.entries {
          flagValue := changes.entries[FlagKey(f)];
        }
        assert flagValue == shown(f);
        ShowsStep(old(elems), elems, i, shown, flagValue);
        if flagValue != Null && f in elems {
          SetFlag(f, Checked(f), flagValue);
        }
      }
    }
  }
}
