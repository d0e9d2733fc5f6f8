/** Which scenario a call belongs to: the catalog helpers of server/okk_mcp/backend_client.py. */
module Scenarios {
  import opened Common
  import opened Counting

  /** A catalog row; an empty code is a missing one. `current` is `is_active is not False`. */
  datatype Version = Version(id: string, code: string, current: bool)

  /** A journal call; empty strings are missing values. `scored` is a present `quality_score`. */
  datatype Call = Call(id: string, scenarioId: string, detectedCode: string, nestedCode: string, scored: bool)

  predicate IsDigit(c: char) { '0' <= c <= '9' }

  const LEGACY: string := "__legacy_"
  const STAMP_DIGITS: nat := 20

  /** The text is a code, the archive mark and a 20-digit time. */
  predicate IsArchivedCode(text: string) {
    && |text| > |LEGACY| + STAMP_DIGITS
    && text[|text| - STAMP_DIGITS - |LEGACY|..|text| - STAMP_DIGITS] == LEGACY
    && (forall i :: |text| - STAMP_DIGITS <= i < |text| ==> IsDigit(text[i]))
    && '\n' !in text[..|text| - STAMP_DIGITS - |LEGACY|]
  }

  /** `_scenario_code`: the business code shared by every version. */
  function ScenarioCode(code: string): (c: Option<string>)
    ensures c.Some? ==> c.value != ""
  {
    var text := Strip(code);
    var business := if IsArchivedCode(text) then text[..|text| - STAMP_DIGITS - |LEGACY|] else text;
    if business == "" then None else Some(business)
  }

  lemma {:induction false} Stripped(s: string)
    requires s != [] && !IsSpace(s[0]) && !IsSpace(s[|s| - 1])
    ensures Strip(s) == s
  {
  }

  /** Archiving and reading back: every version archived under a code, at whatever time, still has that
      business code, and so has the current one. */
  lemma ArchivedKeepsItsCode(code: string, stamp: string)
    requires code != "" && !IsSpace(code[0]) && !IsSpace(code[|code| - 1]) && '\n' !in code
    requires |stamp| == STAMP_DIGITS && forall i :: 0 <= i < |stamp| ==> IsDigit(stamp[i])
    ensures ScenarioCode(code + LEGACY + stamp) == Some(code)
    ensures !IsArchivedCode(code) ==> ScenarioCode(code) == Some(code)
  {
    var text := code + LEGACY + stamp;
    Stripped(code);
    assert text[0] == code[0] && text[|text| - 1] == stamp[|stamp| - 1];
    Stripped(text);
    assert text[..|code|] == code && text[|code|..|code| + |LEGACY|] == LEGACY;
    assert forall i :: |code| + |LEGACY| <= i < |text| ==> text[i] == stamp[i - |code| - |LEGACY|];
  }

  /** `_shown_call_code` */
  function ShownCode(call: Call): Option<string> {
    ScenarioCode(if call.detectedCode != "" then call.detectedCode else call.nestedCode)
  }

  /** The first code OKK shows on a call of a version. */
  function FirstShown(calls: seq<Call>, id: string): Option<string> {
    if calls == [] then None
    else if calls[0].scenarioId == id && ShownCode(calls[0]).Some? then ShownCode(calls[0])
    else FirstShown(calls[1..], id)
  }

  /** The business code of one catalog row. */
  function VersionCode(row: Version, calls: seq<Call>): string {
    var shown := if row.current || row.id == "" then None else FirstShown(calls, row.id);
    if shown.Some? then shown.value
    else if ScenarioCode(row.code).Some? then ScenarioCode(row.code).value
    else row.id
  }

  /** `_scenario_versions_by_code`, built from the last row backwards: a later row of one id wins. */
  function VersionCodes(catalog: seq<Version>, calls: seq<Call>): (codes: map<string, string>)
    ensures forall id :: id in codes <==> exists i :: 0 <= i < |catalog| && catalog[i].id == id
  {
    if catalog == [] then map[]
    else VersionCodes(catalog[..|catalog| - 1], calls)
      [catalog[|catalog| - 1].id := VersionCode(catalog[|catalog| - 1], calls)]
  }

  method ScenarioVersionsByCode(catalog: seq<Version>, calls: seq<Call>) returns (codes: map<string, string>)
    ensures codes == VersionCodes(catalog, calls)
  {
    var shown: map<string, string> := map[];
    for i := 0 to |calls|
      invariant forall id :: id in shown <==> id != "" && FirstShown(calls[..i], id).Some?
      invariant forall id :: id in shown ==> FirstShown(calls[..i], id) == Some(shown[id])
    {
      var call := calls[i];
      var code := ShownCode(call);
      forall id ensures FirstShown(calls[..i + 1], id) ==
        if FirstShown(calls[..i], id).Some? then FirstShown(calls[..i], id)
        else if call.scenarioId == id then code else None
      {
        assert calls[..i + 1] == calls[..i] + [call];
        FirstShownAppend(calls[..i], call, id);
      }
      if call.scenarioId != "" && code.Some? && call.scenarioId !in shown {
        shown := shown[call.scenarioId := code.value];
      }
    }
    assert calls[..|calls|] == calls;
    codes := map[];
    for i := 0 to |catalog|
      invariant codes == VersionCodes(catalog[..i], calls)
    {
      var row := catalog[i];
      var code := if !row.current && row.id in shown then Some(shown[row.id]) else ScenarioCode(row.code);
      assert catalog[..i + 1][..i] == catalog[..i];
      codes := codes[row.id := if code.Some? then code.value else row.id];
    }
    assert catalog[..|catalog|] == catalog;
  }

  lemma {:induction false} FirstShownAppend(calls: seq<Call>, call: Call, id: string)
    ensures FirstShown(calls + [call], id) ==
      if FirstShown(calls, id).Some? then FirstShown(calls, id)
      else if call.scenarioId == id then ShownCode(call) else None
  {
    if calls != [] {
      assert (calls + [call])[1..] == calls[1..] + [call];
      FirstShownAppend(calls[1..], call, id);
    }
  }

  /** `_call_scenario_code` */
  function CallCode(call: Call, codes: map<string, string>): Option<string> {
    if call.scenarioId in codes then Some(codes[call.scenarioId]) else ShownCode(call)
  }

  // ---------------------------------------------------------------- the calls of one scenario

  /** The call is on some version of the scenario. */
  predicate OnScenario(call: Call, code: string, codes: map<string, string>) {
    call.scenarioId != "" && CallCode(call, codes) == Some(code)
  }

  /** The call was evaluated on a version nobody can name. */
  predicate Unplaced(call: Call, codes: map<string, string>) {
    call.scenarioId != "" && CallCode(call, codes) == None
  }

  function Selected(calls: seq<Call>, code: string, codes: map<string, string>): seq<Call> {
    if calls == [] then []
    else
      var before, call := Selected(calls[..|calls| - 1], code, codes), calls[|calls| - 1];
      if OnScenario(call, code, codes) then before + [call] else before
  }

  function UnplacedIn(calls: seq<Call>, codes: map<string, string>): nat {
    if calls == [] then 0
    else UnplacedIn(calls[..|calls| - 1], codes) + (if Unplaced(calls[|calls| - 1], codes) then 1 else 0)
  }

  /** `_calls_of_scenario` */
  method CallsOfScenario(calls: seq<Call>, code: string, codes: map<string, string>)
    returns (selected: seq<Call>, unknown: nat)
    ensures selected == Selected(calls, code, codes)
    ensures unknown == UnplacedIn(calls, codes)
  {
    selected, unknown := [], 0;
    for i := 0 to |calls|
      invariant selected == Selected(calls[..i], code, codes)
      invariant unknown == UnplacedIn(calls[..i], codes)
    {
      var call := calls[i];
      assert calls[..i + 1][..i] == calls[..i];
      if call.scenarioId != "" {
        var named := CallCode(call, codes);
        if named.None? {
          unknown := unknown + 1;
        } else if named.value == code {
          selected := selected + [call];
        }
      }
    }
    assert calls[..|calls|] == calls;
  }

  /** The calls at some places are the selection, and the places are all those of the scenario's calls. */
  ghost predicate StandAt(selected: seq<Call>, calls: seq<Call>, code: string, codes: map<string, string>,
                          at: seq<nat>) {
    && Places(at, |calls|) && |at| == |selected|
    && (forall i {:trigger at[i]} :: 0 <= i < |at| ==> at[i] < |calls| && calls[at[i]] == selected[i])
    && (forall k {:trigger k in at} :: 0 <= k < |calls| ==> (k in at <==> OnScenario(calls[k], code, codes)))
  }

  lemma StandNext(selected: seq<Call>, calls: seq<Call>, code: string, codes: map<string, string>, at: seq<nat>,
                  call: Call)
    requires StandAt(selected, calls, code, codes, at)
    ensures OnScenario(call, code, codes) ==> StandAt(selected + [call], calls + [call], code, codes, at + [|calls|])
    ensures !OnScenario(call, code, codes) ==> StandAt(selected, calls + [call], code, codes, at)
  {
    hide OnScenario;
    PlacesNext(at, |calls|);
  }

  /** The selection is exactly the calls of the scenario, in journal order, each once. */
  lemma {:induction false} SelectedInOrder(calls: seq<Call>, code: string, codes: map<string, string>)
    returns (at: seq<nat>)
    ensures StandAt(Selected(calls, code, codes), calls, code, codes, at)
  {
    hide OnScenario, StandAt;
    if calls == [] {
      at := [];
      NoneStand(code, codes);
    } else {
      var rest, call := calls[..|calls| - 1], calls[|calls| - 1];
      assert calls == rest + [call];
      at := SelectedInOrder(rest, code, codes);
      StandNext(Selected(rest, code, codes), rest, code, codes, at, call);
      if OnScenario(call, code, codes) {
        at := at + [|rest|];
      }
    }
  }

  lemma NoneStand(code: string, codes: map<string, string>)
    ensures StandAt([], [], code, codes, [])
  {
  }

  /** The calls selected under a list of distinct codes, summed. */
  function SelectedUnder(calls: seq<Call>, names: seq<string>, codes: map<string, string>): nat {
    if names == [] then 0
    else SelectedUnder(calls, names[..|names| - 1], codes) + |Selected(calls, names[|names| - 1], codes)|
  }

  /** The scenarios share the calls out: over any distinct codes that cover every call that can be
      placed, the selections and the excluded calls add up to the calls on a version, so no call is
      in two selections or in none. */
  lemma {:induction false} SelectionsShareOut(calls: seq<Call>, names: seq<string>, codes: map<string, string>)
    requires forall i, j :: 0 <= i < j < |names| ==> names[i] != names[j]
    requires forall call :: call in calls && call.scenarioId != "" && CallCode(call, codes).Some? ==>
      CallCode(call, codes).value in names
    ensures SelectedUnder(calls, names, codes) + UnplacedIn(calls, codes) == |WithVersion(calls)|
  {
    if calls == [] {
      NothingSelected(names, codes);
    } else {
      var rest, last := calls[..|calls| - 1], calls[|calls| - 1];
      SelectionsShareOut(rest, names, codes);
      OneMoreCall(calls, names, codes);
      assert last in calls;
    }
  }

  function WithVersion(calls: seq<Call>): seq<Call> {
    if calls == [] then []
    else
      var before, call := WithVersion(calls[..|calls| - 1]), calls[|calls| - 1];
      if call.scenarioId != "" then before + [call] else before
  }

  lemma {:induction false} NothingSelected(names: seq<string>, codes: map<string, string>)
    ensures SelectedUnder([], names, codes) == 0
  {
    if names != [] { NothingSelected(names[..|names| - 1], codes); }
  }

  /** A further call is selected under exactly one of distinct names, or under none. */
  lemma {:induction false} OneMoreCall(calls: seq<Call>, names: seq<string>, codes: map<string, string>)
    requires calls != []
    requires forall i, j :: 0 <= i < j < |names| ==> names[i] != names[j]
    ensures SelectedUnder(calls, names, codes) == SelectedUnder(calls[..|calls| - 1], names, codes)
      + (if exists i :: 0 <= i < |names| && OnScenario(calls[|calls| - 1], names[i], codes) then 1 else 0)
  {
    if names != [] {
      OneMoreCall(calls, names[..|names| - 1], codes);
    }
  }

  // ---------------------------------------------------------------- the archive changes nothing

  /** Catalog rows have ids, each once. */
  predicate ProperCatalog(catalog: seq<Version>) {
    && (forall i :: 0 <= i < |catalog| ==> catalog[i].id != "")
    && (forall i, j :: 0 <= i < j < |catalog| ==> catalog[i].id != catalog[j].id)
  }

  /** The catalog an account without access to the archive reads. */
  function WithoutArchive(catalog: seq<Version>): (rest: seq<Version>)
    ensures forall row :: row in rest <==> row in catalog && row.current
  {
    if catalog == [] then []
    else
      var before, row := WithoutArchive(catalog[..|catalog| - 1]), catalog[|catalog| - 1];
      assert catalog == catalog[..|catalog| - 1] + [row];
      if row.current then before + [row] else before
  }

  lemma {:induction false} WithoutArchiveProper(catalog: seq<Version>)
    requires ProperCatalog(catalog)
    ensures ProperCatalog(WithoutArchive(catalog))
  {
    if catalog != [] {
      var rest := catalog[..|catalog| - 1];
      WithoutArchiveProper(rest);
      var kept := WithoutArchive(rest);
      forall i | 0 <= i < |kept| ensures kept[i].id != catalog[|catalog| - 1].id {
        assert kept[i] in kept;
        var j :| 0 <= j < |rest| && rest[j] == kept[i];
        assert catalog[j].id != catalog[|catalog| - 1].id;
      }
    }
  }

  /** What the index says of an id: the code of its one row. */
  lemma {:induction false} VersionCodesAt(catalog: seq<Version>, calls: seq<Call>)
    requires ProperCatalog(catalog)
    ensures forall row :: row in catalog ==>
      row.id in VersionCodes(catalog, calls) && VersionCodes(catalog, calls)[row.id] == VersionCode(row, calls)
    ensures forall id :: id in VersionCodes(catalog, calls) ==> exists row :: row in catalog && row.id == id
  {
    if catalog != [] {
      var rest, last := catalog[..|catalog| - 1], catalog[|catalog| - 1];
      VersionCodesAt(rest, calls);
      assert catalog == rest + [last];
      forall row | row in rest ensures row.id != last.id {
        var j :| 0 <= j < |rest| && rest[j] == row;
        assert catalog[j].id != catalog[|catalog| - 1].id;
      }
      forall id | id in VersionCodes(catalog, calls) ensures exists row :: row in catalog && row.id == id {
        if id == last.id { assert last in catalog; }
        else { var row :| row in rest && row.id == id; assert row in catalog; }
      }
    }
  }

  /** All calls on a version show one and the same code. */
  ghost predicate OneCodeShown(calls: seq<Call>, id: string) {
    exists code :: forall call :: call in calls && call.scenarioId == id ==> ShownCode(call) == Some(code)
  }

  lemma {:induction false} FirstShownIsOne(calls: seq<Call>, id: string, code: string)
    requires forall call :: call in calls && call.scenarioId == id ==> ShownCode(call) == Some(code)
    requires exists call :: call in calls && call.scenarioId == id
    ensures FirstShown(calls, id) == Some(code)
  {
    if calls[0].scenarioId == id {
      assert calls[0] in calls;
    } else {
      var call :| call in calls && call.scenarioId == id;
      assert call in calls[1..];
      FirstShownIsOne(calls[1..], id, code);
    }
  }

  /** Reading the archive changes no attribution exactly when on every archived version all calls show
      one code. */
  lemma ArchiveChangesNothingIff(catalog: seq<Version>, calls: seq<Call>)
    requires ProperCatalog(catalog)
    ensures (forall call :: call in calls ==>
               CallCode(call, VersionCodes(catalog, calls)) ==
                 CallCode(call, VersionCodes(WithoutArchive(catalog), calls)))
      <==> (forall row :: row in catalog && !row.current ==> OneCodeShown(calls, row.id))
  {
    var full, seen := VersionCodes(catalog, calls), VersionCodes(WithoutArchive(catalog), calls);
    WithoutArchiveProper(catalog);
    VersionCodesAt(catalog, calls);
    VersionCodesAt(WithoutArchive(catalog), calls);
    if forall row :: row in catalog && !row.current ==> OneCodeShown(calls, row.id) {
      forall call | call in calls ensures CallCode(call, full) == CallCode(call, seen) {
        if row :| row in catalog && row.id == call.scenarioId {
          if row.current {
            assert row in WithoutArchive(catalog);
          } else {
            ArchivedRowUnseen(catalog, calls, row);
            var code :| forall c :: c in calls && c.scenarioId == row.id ==> ShownCode(c) == Some(code);
            FirstShownIsOne(calls, row.id, code);
          }
        } else {
          assert call.scenarioId !in full;
          assert forall row :: row in WithoutArchive(catalog) ==> row in catalog;
          assert call.scenarioId !in seen;
        }
      }
    }
    if forall call :: call in calls ==> CallCode(call, full) == CallCode(call, seen) {
      forall row | row in catalog && !row.current ensures OneCodeShown(calls, row.id) {
        ArchivedRowUnseen(catalog, calls, row);
        forall c | c in calls && c.scenarioId == row.id ensures ShownCode(c) == Some(full[row.id]) {
          assert CallCode(c, full) == CallCode(c, seen);
        }
      }
    }
  }

  lemma ArchivedRowUnseen(catalog: seq<Version>, calls: seq<Call>, row: Version)
    requires ProperCatalog(catalog) && row in catalog && !row.current
    ensures row.id !in VersionCodes(WithoutArchive(catalog), calls)
  {
    WithoutArchiveProper(catalog);
    VersionCodesAt(WithoutArchive(catalog), calls);
    var i :| 0 <= i < |catalog| && catalog[i] == row;
    forall other | other in WithoutArchive(catalog) ensures other.id != row.id {
      var j :| 0 <= j < |catalog| && catalog[j] == other;
      assert i != j;
    }
  }
}
