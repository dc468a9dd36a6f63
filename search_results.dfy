/** The search-results tab of the editor: the index from token number to result position,
    stepping through the results with the back and forward buttons, and the text that
    describes the search conditions. */
module SearchResults {
  import opened Common

  /** A result line; only its token number matters here. */
  datatype ResultLine = ResultLine(num: int)

  // ---------------------------------------------------------------------------------------
  // The index from token number to result position

  /** The index after reading the first |data| results in order: each number maps to the
      position it was last seen at. */
  function IndexByNum(data: seq<ResultLine>): map<int, int>
    decreases |data|
  {
    if data == [] then map[]
    else IndexByNum(data[..|data| - 1])[data[|data| - 1].num := |data| - 1]
  }

  /** The index holds exactly the result numbers, each mapped to the last position that
      has it. */
  lemma {:induction false} IndexByNumSpec(data: seq<ResultLine>)
    ensures forall n :: n in IndexByNum(data) <==> exists i :: 0 <= i < |data| && data[i].num == n
    ensures forall n :: n in IndexByNum(data) ==>
      var i := IndexByNum(data)[n];
      0 <= i < |data| && data[i].num == n && forall j :: i < j < |data| ==> data[j].num != n
    decreases |data|
  {
    if data != [] {
      var init := data[..|data| - 1];
      IndexByNumSpec(init);
      forall n | exists i :: 0 <= i < |data| && data[i].num == n
        ensures n in IndexByNum(data)
      {
        var i :| 0 <= i < |data| && data[i].num == n;
        if i < |data| - 1 {
          assert init[i].num == n;
        }
      }
    }
  }

  /** With distinct numbers, the index sends every result's number to its position. */
  lemma IndexByNumDistinct(data: seq<ResultLine>, i: int)
    requires forall j, k :: 0 <= j < k < |data| ==> data[j].num != data[k].num
    requires 0 <= i < |data|
    ensures data[i].num in IndexByNum(data) && IndexByNum(data)[data[i].num] == i
  {
    IndexByNumSpec(data);
  }

  /** A navigation panel: whether each of its buttons is disabled (carries the
      `start-disabled` class), or None when the panel has no such button. */
  datatype Panel = Panel(back: Option<bool>, forward: Option<bool>)

  class SearchResultsTab {
    var data: seq<ResultLine>
    var searchIdxByNum: map<int, int>
    var currentSearchIdx: int
    /** Whether the back and forward buttons are disabled; None when there is none. */
    var backDisabled: Option<bool>
    var forwardDisabled: Option<bool>
    /** The line the editor table was last told to show (setPageByLine). */
    var shownLine: Option<int>
    /** Whether the search tab button is shown. */
    var tabShown: bool

    /** The constructor: index the results, then set up the buttons of `panel` (when
        there is one) — the forward button is enabled only when there is more than one
        result, the back button keeps its state. */
    constructor (data: seq<ResultLine>, panel: Option<Panel>)
      ensures this.data == data && searchIdxByNum == IndexByNum(data) && currentSearchIdx == 0
      ensures backDisabled == if panel.Some? then panel.value.back else None
      ensures forwardDisabled ==
        if panel.None? || panel.value.forward.None? then None
        else if |data| > 1 then Some(false) else panel.value.forward
      ensures shownLine == None && tabShown
    {
      this.data := data;
      currentSearchIdx := 0;
      shownLine := None;
      var index := map[];
      for i := 0 to |data|
        invariant index == IndexByNum(data[..i])
      {
        assert data[..i + 1][..i] == data[..i];
        index := index[data[i].num := i];
      }
      assert data[..|data|] == data;
      searchIdxByNum := index;
      var back, forward := None, None;
      if panel.Some? {
        back := panel.value.back;
        forward := panel.value.forward;
        if forward.Some? && |data| > 1 {
          forward := Some(false);
        }
      }
      backDisabled, forwardDisabled := back, forward;
      tabShown := true;
    }

    /** gotoSearchResult: make `idx` the current result and show its line (`num`, or the
        number of result `idx` when none is given) one past; the back button is disabled
        exactly at the first result and the forward button exactly at the last. Without a
        number and with `idx` outside the results the lookup fails and nothing changes. */
    method GotoSearchResult(idx: int, num: Option<int>) returns (ok: bool)
      modifies this
      ensures ok <==> num.Some? || 0 <= idx < |data|
      ensures !ok ==> unchanged(this)
      ensures ok ==>
        && currentSearchIdx == idx
        && shownLine == Some((if num.Some? then num.value else data[idx].num) + 1)
        && backDisabled == (if old(backDisabled).Some? then Some(idx == 0) else None)
        && forwardDisabled == (if old(forwardDisabled).Some? then Some(idx == |data| - 1) else None)
        && data == old(data) && searchIdxByNum == old(searchIdxByNum) && tabShown == old(tabShown)
    {
      var n: int;
      if num.Some? {
        n := num.value;
      } else if 0 <= idx < |data| {
        n := data[idx].num;
      } else {
        return false;
      }
      currentSearchIdx := idx;
      shownLine := Some(n + 1);
      if backDisabled.Some? {
        backDisabled := Some(idx == 0);
      }
      if forwardDisabled.Some? {
        forwardDisabled := Some(idx == |data| - 1);
      }
      return true;
    }

    /** The back button's click handler. */
    method Back() returns (ok: bool)
      modifies this
      ensures ok <==> 0 <= old(currentSearchIdx) - 1 < |data|
      ensures ok ==> currentSearchIdx == old(currentSearchIdx) - 1 && shownLine == Some(data[currentSearchIdx].num + 1)
      ensures !ok ==> unchanged(this)
    {
      ok := GotoSearchResult(currentSearchIdx - 1, None);
    }

    /** The forward button's click handler. */
    method Forward() returns (ok: bool)
      modifies this
      ensures ok <==> 0 <= old(currentSearchIdx) + 1 < |data|
      ensures ok ==> currentSearchIdx == old(currentSearchIdx) + 1 && shownLine == Some(data[currentSearchIdx].num + 1)
      ensures !ok ==> unchanged(this)
    {
      ok := GotoSearchResult(currentSearchIdx + 1, None);
    }

    /** destroy: both buttons are disabled and the tab button is hidden. */
    method Destroy()
      modifies this
      ensures backDisabled == (if old(backDisabled).Some? then Some(true) else None)
      ensures forwardDisabled == (if old(forwardDisabled).Some? then Some(true) else None)
      ensures !tabShown
      ensures data == old(data) && searchIdxByNum == old(searchIdxByNum)
      ensures currentSearchIdx == old(currentSearchIdx) && shownLine == old(shownLine)
    {
      if backDisabled.Some? {
        backDisabled := Some(true);
      }
      if forwardDisabled.Some? {
        forwardDisabled := Some(true);
      }
      tabShown := false;
    }
  }

  // ---------------------------------------------------------------------------------------
  // renderSearchCriteria

  /** A search condition: the field, the match operator `op` and the value searched for. */
  datatype Condition = Condition(field: string, op: string, value: string)

  /** A rendered condition: its text, and the value shown after it, if any. */
  datatype ConditionItem = ConditionItem(text: string, value: Option<string>)

  /** A property of a JavaScript object that may be missing: undefined renders as
      "undefined". */
  function Label(labels: map<string, string>, key: string): string
  {
    if key in labels then labels[key] else "undefined"
  }

  /** One list item of renderSearchCriteria: the field's label and the (translated)
      operator's label, each followed by a space; then, unless the operator is `set` or
      `nset`, the value — or " leer" when the value is empty. */
  function ConditionText(fields: map<string, string>, matches: map<string, string>, c: Condition): (r: ConditionItem)
    ensures var head := Label(fields, c.field) + " " + Label(matches, c.op) + " ";
      && (c.op == "set" || c.op == "nset" ==> r == ConditionItem(head, None))
      && (c.op != "set" && c.op != "nset" && c.value == "" ==> r == ConditionItem(head + " leer", None))
      && (c.op != "set" && c.op != "nset" && c.value != "" ==> r == ConditionItem(head, Some(c.value)))
  {
    var text := Label(fields, c.field) + " " + Label(matches, c.op) + " ";
    if c.op != "set" && c.op != "nset" then
      if c.value == "" then ConditionItem(text + " leer", None)
      else ConditionItem(text, Some(c.value))
    else ConditionItem(text, None)
  }

  /** A value is shown exactly for a non-empty value under an operator other than `set`
      and `nset`, and then it is the condition's value. */
  lemma ConditionValueShown(fields: map<string, string>, matches: map<string, string>, c: Condition)
    ensures ConditionText(fields, matches, c).value.Some? <==> c.op != "set" && c.op != "nset" && c.value != ""
    ensures ConditionText(fields, matches, c).value.Some? ==> ConditionText(fields, matches, c).value.value == c.value
  {
  }

  /** Every item starts with the field's label and the operator's label, each followed by
      a space; " leer" follows exactly when a value operator has an empty value, and it
      never comes with a shown value. */
  lemma ConditionTextLabels(fields: map<string, string>, matches: map<string, string>, c: Condition)
    ensures var head := Label(fields, c.field) + " " + Label(matches, c.op) + " ";
      var r := ConditionText(fields, matches, c);
      && |head| <= |r.text| && r.text[..|head|] == head
      && (r.text == head + " leer" <==> c.op != "set" && c.op != "nset" && c.value == "")
      && (r.text != head + " leer" ==> r.text == head)
      && (r.value.Some? ==> r.text == head)
  {
    var head := Label(fields, c.field) + " " + Label(matches, c.op) + " ";
    assert (head + " leer")[..|head|] == head;
    assert |head + " leer"| != |head|;
  }

  /** The list of renderSearchCriteria, one item per condition in order. */
  function RenderConditions(fields: map<string, string>, matches: map<string, string>, cs: seq<Condition>): (r: seq<ConditionItem>)
    ensures |r| == |cs| && forall i :: 0 <= i < |cs| ==> r[i] == ConditionText(fields, matches, cs[i])
  {
    seq(|cs|, i requires 0 <= i < |cs| => ConditionText(fields, matches, cs[i]))
  }

  /** The summary line's mode: all conditions when the operator's label is "alle",
      one of them otherwise. */
  function SearchMode(operators: map<string, string>, operator: string): (r: string)
    ensures r == "EditorTab.Forms.searchForm.allFulfilled" <==> operator in operators && operators[operator] == "alle"
  {
    if operator in operators && operators[operator] == "alle" then "EditorTab.Forms.searchForm.allFulfilled"
    else "EditorTab.Forms.searchForm.oneFulfilled"
  }
}
