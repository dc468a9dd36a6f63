/** The user settings of the web client: the line-settings form check, the list of hidden
    columns, the settings store and the admin test. */
module Settings {
  import opened Common

  // ---------------------------------------------------------------------------------------
  // Number input (MooTools `toInt`, i.e. `parseInt(s, 10)`)

  predicate Space(c: char)
  {
    c == ' ' || c == '\t' || c == '\n' || c == '\r' || c == '\U{000B}' || c == '\U{000C}'
  }

  predicate Digit(c: char)
  {
    '0' <= c <= '9'
  }

  /** The number of leading characters of `s` that satisfy `p`. */
  function Leading(s: string, p: char -> bool): (n: nat)
    ensures n <= |s| && (forall k :: 0 <= k < n ==> p(s[k])) && (n < |s| ==> !p(s[n]))
    decreases |s|
  {
    if s == [] || !p(s[0]) then 0 else 1 + Leading(s[1..], p)
  }

  /** The value of a string of decimal digits. */
  function DigitsValue(s: string): (v: nat)
    requires forall k :: 0 <= k < |s| ==> Digit(s[k])
    decreases |s|
  {
    if s == [] then 0
    else
      var d := s[|s| - 1];
      assert Digit(d);
      DigitsValue(s[..|s| - 1]) * 10 + (d as int - '0' as int)
  }

  /** The text after leading white space and an optional sign, and the sign. */
  function Unsigned(s: string): (r: (int, string))
    ensures r.0 == 1 || r.0 == -1
    ensures |r.1| <= |s|
  {
    var t := s[Leading(s, Space)..];
    if |t| > 0 && t[0] == '-' then (-1, t[1..])
    else if |t| > 0 && t[0] == '+' then (1, t[1..])
    else (1, t)
  }

  /** `parseInt(s, 10)`: white space, an optional sign and the longest run of digits after
      it; None (NaN) when there is no digit there. */
  function ParseInt(s: string): (r: Option<int>)
    ensures r.None? <==> Leading(Unsigned(s).1, Digit) == 0
  {
    var (sign, u) := Unsigned(s);
    var k := Leading(u, Digit);
    if k == 0 then None else Some(sign * DigitsValue(u[..k]))
  }

  /** The decimal notation of a natural number. */
  function Decimal(n: nat): (r: string)
    ensures |r| > 0 && forall k :: 0 <= k < |r| ==> Digit(r[k])
  {
    if n < 10 then ['0' + n as char] else Decimal(n / 10) + ['0' + (n % 10) as char]
  }

  lemma {:induction false} DecimalValue(n: nat)
    ensures DigitsValue(Decimal(n)) == n
  {
    if n >= 10 {
      DecimalValue(n / 10);
      assert Decimal(n)[..|Decimal(n)| - 1] == Decimal(n / 10);
    }
  }

  lemma {:induction false} LeadingDigits(d: string, rest: string)
    requires forall k :: 0 <= k < |d| ==> Digit(d[k])
    requires rest == [] || !Digit(rest[0])
    ensures Leading(d + rest, Digit) == |d|
    decreases |d|
  {
    if d != [] {
      assert (d + rest)[1..] == d[1..] + rest;
      LeadingDigits(d[1..], rest);
    }
  }

  /** A number written out in decimal reads back as itself, whatever non-digit text
      follows it. */
  lemma ParseIntDecimal(n: nat, rest: string)
    requires rest == [] || !Digit(rest[0])
    ensures ParseInt(Decimal(n) + rest) == Some(n)
  {
    var s := Decimal(n) + rest;
    assert Leading(s, Space) == 0;
    assert s[0..] == s;
    assert Unsigned(s) == (1, s);
    LeadingDigits(Decimal(n), rest);
    assert s[..|Decimal(n)|] == Decimal(n);
    DecimalValue(n);
  }

  // ---------------------------------------------------------------------------------------
  // The line-settings form

  /** The outcome of submitting the line-settings form: sent, or stopped with an error
      notice (none when the user declined the confirmation). */
  datatype LineCheck = Submit | Refused(notice: Option<string>)

  /** The check before the line settings are sent: both inputs must be numbers, the
      context lines fewer than the lines per page, and more than 50 lines per page need
      the user's confirmation (`confirmed` is the answer to that question). */
  function CheckLineSettings(contextLines: string, pageLines: string, confirmed: bool): (r: LineCheck)
    ensures r == Submit <==>
      && ParseInt(contextLines).Some? && ParseInt(pageLines).Some?
      && ParseInt(contextLines).value < ParseInt(pageLines).value
      && (ParseInt(pageLines).value > 50 ==> confirmed)
    ensures ParseInt(contextLines).None? || ParseInt(pageLines).None? ==> r == Refused(Some("Banner.numbersOnly"))
    ensures (&& ParseInt(contextLines).Some? && ParseInt(pageLines).Some?
             && ParseInt(contextLines).value >= ParseInt(pageLines).value) ==> r == Refused(Some("Banner.overlappingLines"))
    ensures r == Refused(None) ==> ParseInt(pageLines).Some? && ParseInt(pageLines).value > 50 && !confirmed
  {
    var cl := ParseInt(contextLines);
    var pl := ParseInt(pageLines);
    if cl.None? || pl.None? then Refused(Some("Banner.numbersOnly"))
    else if cl.value >= pl.value then Refused(Some("Banner.overlappingLines"))
    else if pl.value > 50 && !confirmed then Refused(None)
    else Submit
  }

  /** The confirmation question matters only for more than 50 lines per page. */
  lemma ConfirmationOnlyForManyLines(contextLines: string, pageLines: string)
    requires ParseInt(pageLines).Some? ==> ParseInt(pageLines).value <= 50
    ensures CheckLineSettings(contextLines, pageLines, true) == CheckLineSettings(contextLines, pageLines, false)
  {
  }

  // ---------------------------------------------------------------------------------------
  // The hidden-columns setting: column names, each followed by a comma

  /** The setting string for a list of hidden columns. */
  function Encode(names: seq<string>): string
    decreases |names|
  {
    if names == [] then [] else names[0] + "," + Encode(names[1..])
  }

  predicate NoComma(s: string)
  {
    forall k :: 0 <= k < |s| ==> s[k] != ','
  }

  /** `pat` occurs in `s` at position i. */
  predicate At(s: string, pat: string, i: int)
  {
    0 <= i && i + |pat| <= |s| && s[i..i + |pat|] == pat
  }

  /** The first position at or after `from` where `pat` occurs, if any. */
  function Find(s: string, pat: string, from: nat): (r: Option<nat>)
    requires from <= |s|
    ensures r.Some? ==> from <= r.value && r.value + |pat| <= |s|
    decreases |s| - from
  {
    if At(s, pat, from) then Some(from)
    else if from == |s| then None
    else Find(s, pat, from + 1)
  }

  /** Find gives the first match at or after its start, and none only when there is no
      match there. */
  lemma {:induction false} FindSpec(s: string, pat: string, from: nat)
    requires from <= |s|
    ensures var r := Find(s, pat, from);
      && (r.Some? ==> from <= r.value && At(s, pat, r.value) && forall k :: from <= k < r.value ==> !At(s, pat, k))
      && (r.None? ==> forall k :: from <= k <= |s| ==> !At(s, pat, k))
    decreases |s| - from
  {
    if !At(s, pat, from) && from < |s| {
      FindSpec(s, pat, from + 1);
    }
  }

  /** JavaScript `s.replace(pat, "")` with a string pattern: the first occurrence of `pat`
      is removed. */
  function RemoveFirst(s: string, pat: string): string
  {
    Excise(s, |pat|, Find(s, pat, 0))
  }

  /** `s` without the `m` characters at the position, if there is one. */
  function Excise(s: string, m: nat, at: Option<nat>): string
    requires at.Some? ==> at.value + m <= |s|
  {
    match at
    case None => s
    case Some(i) => s[..i] + s[i + m..]
  }

  /** Unchecking column `v` (hiding it) appends it to the setting. */
  function Hide(setting: string, v: string): string
  {
    setting + v + ","
  }

  /** Checking column `v` (showing it) as written: the first occurrence of "v," in the
      setting is removed, wherever it starts. */
  function ShowAsWritten(setting: string, v: string): string
  {
    RemoveFirst(setting, v + ",")
  }

  /** Hiding a column appends it to the list. */
  lemma {:induction false} HideAppends(names: seq<string>, v: string)
    ensures Hide(Encode(names), v) == Encode(names + [v])
    decreases |names|
  {
    if names == [] {
      assert Encode([v]) == v + "," + Encode([]);
    } else {
      HideAppends(names[1..], v);
      assert (names + [v])[1..] == names[1..] + [v];
    }
  }

  /** Showing a column that was just hidden restores the setting, as written, when the
      setting does not already contain "v,". */
  lemma ShowAsWrittenUndoesHide(setting: string, v: string)
    requires NoComma(v)
    requires forall k :: 0 <= k <= |setting| ==> !At(setting, v + ",", k)
    ensures ShowAsWritten(Hide(setting, v), v) == setting
  {
    var s := Hide(setting, v);
    var p := v + ",";
    assert s == setting + p;
    assert At(s, p, |setting|) by { assert s[|setting|..|setting| + |p|] == p; }
    forall k | 0 <= k < |setting|
      ensures !At(s, p, k)
    {
      if k + |p| <= |setting| {
        assert s[k..k + |p|] == setting[k..k + |p|] && !At(setting, p, k);
      } else {
        // the last character of a match would fall inside the appended name, which has no comma
        var c := k + |p| - 1;
        assert s[c] == v[c - |setting|] != ',';
        assert s[k..k + |p|][|p| - 1] == s[c] && p[|p| - 1] == ',';
      }
    }
    FindSkip(s, p, 0, |setting|);
    assert s[..|setting|] == setting && s[|setting| + |p|..] == [];
  }

  /** The hidden list "xgen,a,gen,": showing column "gen" as written removes the "gen,"
      inside "xgen," and leaves "xa,gen," — the column names "xa" and "gen" instead of
      "xgen" and "a". */
  lemma ShowAsWrittenMergesEntries()
    ensures Encode(["xgen", "a", "gen"]) == "xgen,a,gen,"
    ensures ShowAsWritten("xgen,a,gen,", "gen") == "xa,gen,"
    ensures ShowAsWritten("xgen,a,gen,", "gen") != Encode(["xgen", "a"])
  {
    var s := "xgen,a,gen,";
    var p := "gen,";
    assert !At(s, p, 0) by { assert s[0] != p[0]; }
    assert At(s, p, 1) by { assert s[1..5] == p; }
    assert Find(s, p, 1) == Some(1);
    assert Find(s, p, 0) == Some(1);
    assert s[..1] + s[5..] == "xa,gen,";
    assert Encode(["xgen", "a"]) == "xgen,a,";
    assert "xa,gen,"[1] != "xgen,a,"[1];
  }

  /** The first name of the list equal to `v` removed. */
  function RemoveName(names: seq<string>, v: string): (r: seq<string>)
    ensures v !in names ==> r == names
    ensures v in names ==> |r| == |names| - 1
    decreases |names|
  {
    if names == [] then []
    else if names[0] == v then names[1..]
    else [names[0]] + RemoveName(names[1..], v)
  }

  /** The position of the first comma in `s`, if any. */
  function FirstComma(s: string): (r: Option<nat>)
    ensures r.Some? ==> r.value < |s| && s[r.value] == ',' && NoComma(s[..r.value])
    ensures r.None? ==> NoComma(s)
    decreases |s|
  {
    if s == [] then None
    else if s[0] == ',' then Some(0)
    else
      var r := FirstComma(s[1..]);
      if r.None? then None
      else
        assert s[..r.value + 1] == [s[0]] + s[1..][..r.value];
        Some(r.value + 1)
  }

  /** Checking column `v` as evidently intended: the first comma-terminated entry equal
      to `v` is removed. */
  function ShowColumn(setting: string, v: string): string
    decreases |setting|
  {
    match FirstComma(setting)
    case None => setting
    case Some(c) =>
      if setting[..c] == v then setting[c + 1..]
      else setting[..c + 1] + ShowColumn(setting[c + 1..], v)
  }

  lemma FirstCommaEncode(n: string, rest: seq<string>)
    requires NoComma(n)
    ensures FirstComma(Encode([n] + rest)) == Some(|n|)
  {
    var s := Encode([n] + rest);
    assert ([n] + rest)[1..] == rest;
    assert s == n + "," + Encode(rest);
    assert s[|n|] == ',';
    assert forall k :: 0 <= k < |n| ==> s[k] == n[k];
  }

  /** Showing a column removes exactly its first entry from the list. */
  lemma {:induction false} ShowColumnRemovesName(names: seq<string>, v: string)
    requires forall k :: 0 <= k < |names| ==> NoComma(names[k])
    ensures ShowColumn(Encode(names), v) == Encode(RemoveName(names, v))
    decreases |names|
  {
    if names != [] {
      var s := Encode(names);
      FirstCommaEncode(names[0], names[1..]);
      assert [names[0]] + names[1..] == names;
      var c := |names[0]|;
      assert s == names[0] + "," + Encode(names[1..]);
      assert s[..c] == names[0] && s[c + 1..] == Encode(names[1..]);
      if names[0] != v {
        ShowColumnRemovesName(names[1..], v);
        assert s[..c + 1] == names[0] + ",";
      }
    }
  }

  /** Hiding a column and showing it again gives the setting back. */
  lemma ShowColumnUndoesHide(names: seq<string>, v: string)
    requires forall k :: 0 <= k < |names| ==> NoComma(names[k])
    requires NoComma(v) && v !in names
    ensures ShowColumn(Hide(Encode(names), v), v) == Encode(names)
  {
    HideAppends(names, v);
    ShowColumnRemovesName(names + [v], v);
    RemoveNameLast(names, v);
  }

  lemma {:induction false} RemoveNameLast(names: seq<string>, v: string)
    requires v !in names
    ensures RemoveName(names + [v], v) == names
    decreases |names|
  {
    if names == [] {
    } else {
      assert (names + [v])[1..] == names[1..] + [v];
      RemoveNameLast(names[1..], v);
    }
  }

  /** `v` ends `n` and is shorter than it. */
  predicate ProperSuffix(v: string, n: string)
  {
    |v| < |n| && n[|n| - |v|..] == v
  }

  /** A match in `b` is a match in `a + b`, |a| positions later. */
  lemma AtShift(a: string, b: string, pat: string, j: int)
    requires 0 <= j
    ensures At(a + b, pat, |a| + j) <==> At(b, pat, j)
  {
    if j + |pat| <= |b| {
      assert (a + b)[|a| + j..|a| + j + |pat|] == b[j..j + |pat|];
    }
  }

  /** A position `n` places later. */
  function ShiftBy(r: Option<nat>, n: nat): Option<nat>
  {
    match r
    case None => None
    case Some(i) => Some(n + i)
  }

  /** Searching `a + b` from inside `b` finds what searching `b` finds, |a| positions
      later. */
  lemma {:induction false} FindShift(a: string, b: string, pat: string, j: nat)
    requires j <= |b|
    ensures Find(a + b, pat, |a| + j) == ShiftBy(Find(b, pat, j), |a|)
    decreases |b| - j
  {
    AtShift(a, b, pat, j);
    if !At(b, pat, j) && j < |b| {
      FindShift(a, b, pat, j + 1);
    }
  }

  /** A search that meets no match before `x` goes on from `x`. */
  lemma {:induction false} FindSkip(s: string, pat: string, k: nat, x: nat)
    requires k <= x <= |s|
    requires forall m :: k <= m < x ==> !At(s, pat, m)
    ensures Find(s, pat, k) == Find(s, pat, x)
    decreases x - k
  {
    if k < x {
      FindSkip(s, pat, k + 1, x);
    }
  }

  /** When no match of `pat` starts inside the prefix `a`, removing the first match from
      `a + b` removes the first match from `b`. */
  lemma RemoveFirstAfter(a: string, b: string, pat: string)
    requires forall k :: 0 <= k < |a| ==> !At(a + b, pat, k)
    ensures RemoveFirst(a + b, pat) == a + RemoveFirst(b, pat)
  {
    FindAfterPrefix(a, b, pat);
    ExciseAfter(a, b, |pat|, Find(b, pat, 0));
  }

  /** When no match starts inside `a`, the first match in `a + b` is the first match in
      `b`, |a| positions later. */
  lemma FindAfterPrefix(a: string, b: string, pat: string)
    requires forall k :: 0 <= k < |a| ==> !At(a + b, pat, k)
    ensures Find(a + b, pat, 0) == ShiftBy(Find(b, pat, 0), |a|)
  {
    FindSkip(a + b, pat, 0, |a|);
    FindShift(a, b, pat, 0);
  }

  /** Cutting out of `b` is cutting out of `a + b`, |a| positions later. */
  lemma ExciseAfter(a: string, b: string, m: nat, at: Option<nat>)
    requires at.Some? ==> at.value + m <= |b|
    ensures Excise(a + b, m, ShiftBy(at, |a|)) == a + Excise(b, m, at)
  {
    if at.Some? {
      CutAfter(a, b, at.value, m);
    }
  }

  lemma CutAfter(a: string, b: string, i: nat, m: nat)
    requires i + m <= |b|
    ensures (a + b)[..|a| + i] + (a + b)[|a| + i + m..] == a + (b[..i] + b[i + m..])
  {
    assert (a + b)[..|a| + i] == a + b[..i];
    assert (a + b)[|a| + i + m..] == b[i + m..];
  }

  /** No match of "v," starts inside the entry "n," of a list when `n` differs from `v`
      and does not end with it. */
  lemma NoMatchInEntry(n: string, rest: string, v: string)
    requires NoComma(n) && NoComma(v) && n != v && !ProperSuffix(v, n)
    ensures forall k :: 0 <= k < |n + ","| ==> !At(n + "," + rest, v + ",", k)
  {
    var s := n + "," + rest;
    var p := v + ",";
    forall k | 0 <= k < |n| + 1
      ensures !At(s, p, k)
    {
      if k + |p| <= |s| {
        var w := s[k..k + |p|];
        if k + |v| < |n| {
          assert w[|v|] == n[k + |v|] != ',' == p[|v|];
        } else if k + |v| > |n| {
          assert w[|n| - k] == ',' != v[|n| - k] == p[|n| - k];
        } else {
          if k == 0 {
            assert n[k..] == n;
          }
          assert w[..|v|] == n[k..] != v == p[..|v|];
        }
      }
    }
  }

  /** Showing a column as written removes its entry when no other entry ends with
      its name. */
  lemma {:induction false} ShowAsWrittenAgrees(names: seq<string>, v: string)
    requires NoComma(v)
    requires forall k :: 0 <= k < |names| ==> NoComma(names[k]) && !ProperSuffix(v, names[k])
    ensures ShowAsWritten(Encode(names), v) == ShowColumn(Encode(names), v) == Encode(RemoveName(names, v))
    decreases |names|
  {
    ShowColumnRemovesName(names, v);
    if names != [] {
      var n := names[0];
      var p := v + ",";
      var s := Encode(names);
      assert s == n + "," + Encode(names[1..]);
      if n == v {
        assert At(s, p, 0) by { assert s[0..|p|] == p; }
        assert s[|p|..] == Encode(names[1..]);
      } else {
        NoMatchInEntry(n, Encode(names[1..]), v);
        RemoveFirstAfter(n + ",", Encode(names[1..]), p);
        ShowAsWrittenAgrees(names[1..], v);
        assert RemoveName(names, v) == [n] + RemoveName(names[1..], v);
        assert ([n] + RemoveName(names[1..], v))[1..] == RemoveName(names[1..], v);
      }
    }
  }

  // ---------------------------------------------------------------------------------------
  // The settings store

  /** A user setting's value as the client holds it. */
  datatype Value = Str(s: string) | Int(i: int) | Bool(b: bool) | Undefined

  /** JavaScript `Boolean(v)`. */
  predicate Truthy(v: Value)
  {
    match v
    case Str(s) => s != ""
    case Int(i) => i != 0
    case Bool(b) => b
    case Undefined => false
  }

  /** cora.isAdmin on the `admin` setting: truthy and not the string "0". */
  function IsAdmin(admin: Value): (r: bool)
    ensures r <==> admin != Str("0") && admin != Str("") && admin != Int(0) && admin != Bool(false) && admin != Undefined
  {
    Truthy(admin) && admin != Str("0")
  }

  /** isColumnVisible: the state of the column's checkbox, or true when there is none. */
  function IsColumnVisible(boxes: map<string, bool>, name: string): (r: bool)
    ensures name !in boxes ==> r
    ensures name in boxes ==> r == boxes[name]
  {
    if name in boxes then boxes[name] else true
  }

  /** The checkboxes after the column-visibility panel is set up: every entry of the
      hidden list (split at commas) is unchecked. */
  function UncheckHidden(boxes: map<string, bool>, names: seq<string>): (r: map<string, bool>)
    ensures r.Keys == boxes.Keys
    ensures forall n :: n in r ==> r[n] == (boxes[n] && n !in names)
  {
    map n | n in boxes :: boxes[n] && n !in names
  }

  /** After set-up, no hidden column is visible. */
  lemma HiddenNotVisible(boxes: map<string, bool>, names: seq<string>, n: string)
    requires n in names
    ensures !IsColumnVisible(UncheckHidden(boxes, names), n) <==> n in boxes
  {
  }

  /** After set-up, a column outside the hidden list is as visible as before. */
  lemma OthersKeepVisibility(boxes: map<string, bool>, names: seq<string>, n: string)
    requires n !in names
    ensures IsColumnVisible(UncheckHidden(boxes, names), n) == IsColumnVisible(boxes, n)
  {
  }

  /** The client's settings store (`userdata`). */
  class UserSettings {
    var userdata: map<string, Value>

    constructor (userdata: map<string, Value>)
      ensures this.userdata == userdata
    {
      this.userdata := userdata;
    }

    /** get: the setting's value, undefined when it is not set. */
    function Get(name: string): (r: Value)
      reads this
      ensures name in userdata ==> r == userdata[name]
      ensures name !in userdata ==> r == Undefined
    {
      if name in userdata then userdata[name] else Undefined
    }

    /** set: store the value and return the store itself (for chaining). */
    method Set(name: string, value: Value) returns (self: UserSettings)
      modifies this
      ensures userdata == old(userdata)[name := value]
      ensures self == this && Get(name) == value
      ensures forall other :: other != name ==> Get(other) == old(Get(other))
    {
      userdata := userdata[name := value];
      self := this;
    }

    /** The change handler of a column checkbox: showing a column removes the first
        occurrence of "v," from the hidden list, hiding it appends the entry. */
    method ColumnToggled(v: string, checked: bool)
      requires "hiddenColumns" in userdata && userdata["hiddenColumns"].Str?
      modifies this
      ensures var setting := old(userdata)["hiddenColumns"].s;
        userdata == old(userdata)["hiddenColumns" := Str(if checked then ShowAsWritten(setting, v) else Hide(setting, v))]
    {
      var setting := userdata["hiddenColumns"].s;
      var self;
      if checked {
        self := Set("hiddenColumns", Str(RemoveFirst(setting, v + ",")));
      } else {
        self := Set("hiddenColumns", Str(setting + v + ","));
      }
    }
  }
}
