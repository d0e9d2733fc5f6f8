/** `get_scenario_performance` of server/okk_mcp/backend_client.py: which evaluations land in which row. */
module ScenarioStats {
  import opened Common
  import opened Scenarios
  import opened Counting

  datatype Status = Ok | Partial | NoData | NotAvailable

  datatype VersionCount = VersionCount(scenarioId: Option<string>, current: bool, evaluations: nat)

  datatype Row = Row(code: string, shown: Version, versions: seq<VersionCount>, evaluations: nat)

  /** `unknown` and `notInCatalog` are the two reasons of excluded evaluations. */
  datatype Answer = Answer(effective: seq<string>, omitted: nat, rows: seq<Row>, unknown: nat, notInCatalog: nat,
                           status: Status)

  // ---------------------------------------------------------------- specification

  function Ids(catalog: seq<Version>): (ids: seq<string>)
    ensures |ids| == |catalog|
    ensures forall i :: 0 <= i < |catalog| ==> ids[i] == catalog[i].id
  {
    if catalog == [] then [] else Ids(catalog[..|catalog| - 1]) + [catalog[|catalog| - 1].id]
  }

  /** The requested ids that are visible, as often as they were requested. */
  function Kept(requested: seq<string>, visible: set<string>): (kept: seq<string>)
    ensures |kept| <= |requested|
    ensures forall id :: id in kept <==> id in requested && id in visible
  {
    if requested == [] then []
    else
      var before, id := Kept(requested[..|requested| - 1], visible), requested[|requested| - 1];
      if id in visible then before + [id] else before
  }

  function Effective(catalog: seq<Version>, requested: seq<string>): seq<string> {
    if requested == [] then Firsts(Ids(catalog))
    else Firsts(Kept(requested, set id | id in Ids(catalog)))
  }

  function CodesAt(ids: seq<string>, codes: map<string, string>): (named: seq<string>)
    requires forall id :: id in ids ==> id in codes
    ensures forall name :: name in named ==> exists id :: id in ids && codes[id] == name
  {
    if ids == [] then [] else CodesAt(ids[..|ids| - 1], codes) + [codes[ids[|ids| - 1]]]
  }

  /** The scenarios of the answer, in the order of the effective versions. */
  function Names(catalog: seq<Version>, requested: seq<string>, calls: seq<Call>): seq<string> {
    Firsts(CodesAt(Effective(catalog, requested), VersionCodes(catalog, calls)))
  }

  /** The catalog row a scenario is shown by. */
  function Shown(catalog: seq<Version>, codes: map<string, string>, code: string): (shown: Option<Version>)
    requires forall i :: 0 <= i < |catalog| ==> catalog[i].id in codes
  {
    if catalog == [] then None
    else
      var row := catalog[|catalog| - 1];
      var before := Shown(catalog[..|catalog| - 1], codes, code);
      if codes[row.id] == code && (before.None? || (row.current && !before.value.current)) then Some(row) else before
  }

  function Scored(calls: seq<Call>): seq<Call> {
    if calls == [] then []
    else
      var before, call := Scored(calls[..|calls| - 1]), calls[|calls| - 1];
      if call.scored then before + [call] else before
  }

  /** The scenario of every scored call. */
  function Landing(calls: seq<Call>, codes: map<string, string>): seq<Option<string>> {
    if calls == [] then []
    else
      var before, call := Landing(calls[..|calls| - 1], codes), calls[|calls| - 1];
      if call.scored then before + [CallCode(call, codes)] else before
  }

  /** The scored calls of one scenario, in journal order. */
  function Group(calls: seq<Call>, code: string, codes: map<string, string>): seq<Call> {
    if calls == [] then []
    else
      var before, call := Group(calls[..|calls| - 1], code, codes), calls[|calls| - 1];
      if call.scored && CallCode(call, codes) == Some(code) then before + [call] else before
  }

  /** Scored calls on a named scenario that is none of the answer's. */
  function Elsewhere(calls: seq<Call>, names: seq<string>, codes: map<string, string>): nat {
    if calls == [] then 0
    else
      var call := calls[|calls| - 1];
      var code := CallCode(call, codes);
      Elsewhere(calls[..|calls| - 1], names, codes)
        + (if call.scored && code.Some? && code.value !in names then 1 else 0)
  }

  /** The version every call of a group was evaluated on. */
  function VersionsOf(group: seq<Call>): (versions: seq<Option<string>>)
    ensures |versions| == |group|
  {
    if group == [] then []
    else
      var last := group[|group| - 1];
      VersionsOf(group[..|group| - 1]) + [if last.scenarioId != "" then Some(last.scenarioId) else None]
  }

  /** The last catalog row of an id is the one in the index. */
  predicate CurrentIn(catalog: seq<Version>, id: Option<string>) {
    if catalog == [] then false
    else if Some(catalog[|catalog| - 1].id) == id then catalog[|catalog| - 1].current
    else CurrentIn(catalog[..|catalog| - 1], id)
  }

  predicate CountsVersions(versions: seq<VersionCount>, group: seq<Call>, catalog: seq<Version>) {
    var keys := Firsts(VersionsOf(group));
    && |versions| == |keys|
    && (forall i :: 0 <= i < |keys| ==>
          versions[i] == VersionCount(keys[i], CurrentIn(catalog, keys[i]), Count(VersionsOf(group), keys[i])))
  }

  predicate Reports(row: Row, code: string, catalog: seq<Version>, calls: seq<Call>) {
    var codes := VersionCodes(catalog, calls);
    && row.code == code
    && Some(row.shown) == Shown(catalog, codes, code)
    && row.evaluations == |Group(calls, code, codes)|
    && CountsVersions(row.versions, Group(calls, code, codes), catalog)
  }

  predicate Answers(answer: Answer, catalog: seq<Version>, requested: seq<string>, calls: seq<Call>, complete: bool) {
    var codes := VersionCodes(catalog, calls);
    var names := Names(catalog, requested, calls);
    && answer.effective == Effective(catalog, requested)
    && answer.omitted == (if requested == [] then 0 else |requested| - |Kept(requested, set id | id in Ids(catalog))|)
    && if requested != [] && answer.effective == [] then
         answer.rows == [] && answer.unknown == answer.notInCatalog == 0 && answer.status == NotAvailable
       else
         && |answer.rows| == |names|
         && (forall i :: 0 <= i < |names| ==> Reports(answer.rows[i], names[i], catalog, calls))
         && answer.unknown == Count(Landing(calls, codes), None)
         && answer.notInCatalog == (if requested == [] then Elsewhere(calls, names, codes) else 0)
         && answer.status == (if !complete || answer.unknown + answer.notInCatalog > 0 then Partial
                   else if names != [] then Ok else NoData)
  }

  // ---------------------------------------------------------------- the loops

  lemma KeptNext(requested: seq<string>, i: nat, visible: set<string>)
    requires i < |requested|
    ensures var before, next := Kept(requested[..i], visible), Kept(requested[..i + 1], visible);
      if requested[i] in visible then next == before + [requested[i]] else next == before
  {
    assert requested[..i + 1][..i] == requested[..i];
  }

  lemma KeptNone(visible: set<string>)
    ensures Kept([], visible) == [] && Firsts<string>([]) == []
  {
  }

  /** `_select_visible` */
  method SelectVisible(requested: seq<string>, visible: set<string>) returns (effective: seq<string>, omitted: nat)
    ensures effective == Firsts(Kept(requested, visible))
    ensures omitted == |requested| - |Kept(requested, visible)|
  {
    hide Kept, Firsts;
    KeptNone(visible);
    effective, omitted := [], 0;
    for i := 0 to |requested|
      invariant effective == Firsts(Kept(requested[..i], visible))
      invariant omitted == i - |Kept(requested[..i], visible)|
    {
      KeptNext(requested, i, visible);
      AppendFirsts(Kept(requested[..i], visible), requested[i]);
      if requested[i] !in visible {
        omitted := omitted + 1;
      } else if requested[i] !in effective {
        effective := effective + [requested[i]];
      }
    }
    assert requested[..|requested|] == requested;
  }

  method ShownRows(catalog: seq<Version>, codes: map<string, string>, names: seq<string>)
    returns (shown: map<string, Version>)
    requires forall i :: 0 <= i < |catalog| ==> catalog[i].id in codes
    ensures forall code :: code in shown <==> code in names && Shown(catalog, codes, code).Some?
    ensures forall code :: code in shown ==> Shown(catalog, codes, code) == Some(shown[code])
  {
    shown := map[];
    for i := 0 to |catalog|
      invariant forall code :: code in shown <==> code in names && Shown(catalog[..i], codes, code).Some?
      invariant forall code :: code in shown ==> Shown(catalog[..i], codes, code) == Some(shown[code])
    {
      assert catalog[..i + 1][..i] == catalog[..i];
      var row := catalog[i];
      var code := codes[row.id];
      if code in names && (code !in shown || (row.current && !shown[code].current)) {
        shown := shown[code := row];
      }
    }
    assert catalog[..|catalog|] == catalog;
  }

  function GroupIn(groups: map<string, seq<Call>>, code: string): seq<Call> {
    if code in groups then groups[code] else []
  }

  lemma LandingStep(calls: seq<Call>, i: nat, codes: map<string, string>)
    requires i < |calls|
    ensures Landing(calls[..i + 1], codes) ==
      (if calls[i].scored then Landing(calls[..i], codes) + [CallCode(calls[i], codes)] else Landing(calls[..i], codes))
    ensures forall code {:trigger Group(calls[..i + 1], code, codes)} ::
              (Group(calls[..i + 1], code, codes) ==
               if calls[i].scored && CallCode(calls[i], codes) == Some(code)
               then Group(calls[..i], code, codes) + [calls[i]]
               else Group(calls[..i], code, codes))
  {
    assert calls[..i + 1][..i] == calls[..i];
  }

  /** The groups hold the calls of every scenario of the answer. */
  predicate Holds(groups: map<string, seq<Call>>, names: seq<string>, calls: seq<Call>, codes: map<string, string>) {
    forall code {:trigger GroupIn(groups, code)} :: code in names ==> GroupIn(groups, code) == Group(calls, code, codes)
  }

  lemma HoldsStep(before: map<string, seq<Call>>, groups: map<string, seq<Call>>, names: seq<string>, calls: seq<Call>,
                  i: nat, codes: map<string, string>)
    requires i < |calls| && Holds(before, names, calls[..i], codes)
    requires forall code {:trigger GroupIn(groups, code)} :: code in names ==>
               (GroupIn(groups, code) ==
                if calls[i].scored && CallCode(calls[i], codes) == Some(code) then GroupIn(before, code) + [calls[i]]
                else GroupIn(before, code))
    ensures Holds(groups, names, calls[..i + 1], codes)
  {
    LandingStep(calls, i, codes);
    forall name | name in names ensures GroupIn(groups, name) == Group(calls[..i + 1], name, codes) {
      assert GroupIn(before, name) == Group(calls[..i], name, codes);
    }
  }

  lemma ExcludedStep(calls: seq<Call>, i: nat, codes: map<string, string>, names: seq<string>)
    requires i < |calls|
    ensures var code, counts := CallCode(calls[i], codes), calls[i].scored;
      && Count(Landing(calls[..i + 1], codes), None) ==
            Count(Landing(calls[..i], codes), None) + (if counts && code.None? then 1 else 0)
      && Elsewhere(calls[..i + 1], names, codes) ==
           Elsewhere(calls[..i], names, codes) + (if counts && code.Some? && code.value !in names then 1 else 0)
  {
    LandingStep(calls, i, codes);
    assert calls[..i + 1][..i] == calls[..i];
    AppendCount(Landing(calls[..i], codes), CallCode(calls[i], codes), None);
  }

  method Grouped(calls: seq<Call>, codes: map<string, string>, names: seq<string>, filtered: bool)
    returns (groups: map<string, seq<Call>>, unknown: nat, notInCatalog: nat)
    ensures Holds(groups, names, calls, codes)
    ensures unknown == Count(Landing(calls, codes), None)
    ensures notInCatalog == if filtered then 0 else Elsewhere(calls, names, codes)
  {
    groups, unknown, notInCatalog := map[], 0, 0;
    for i := 0 to |calls|
      invariant Holds(groups, names, calls[..i], codes)
      invariant unknown == Count(Landing(calls[..i], codes), None)
      invariant notInCatalog == if filtered then 0 else Elsewhere(calls[..i], names, codes)
    {
      ghost var before := groups;
      ExcludedStep(calls, i, codes, names);
      if calls[i].scored {
        var code := CallCode(calls[i], codes);
        if code.Some? && code.value in names {
          groups := groups[code.value := GroupIn(groups, code.value) + [calls[i]]];
        } else if code.None? {
          unknown := unknown + 1;
        } else if !filtered {
          notInCatalog := notInCatalog + 1;
        }
      }
      HoldsStep(before, groups, names, calls, i, codes);
    }
    assert calls[..|calls|] == calls;
  }

  method VersionCounts(group: seq<Call>, catalog: seq<Version>) returns (versions: seq<VersionCount>)
    ensures CountsVersions(versions, group, catalog)
  {
    hide Firsts, VersionsOf, CurrentIn, Count;
    var keys, counts := Tally(VersionsOf(group));
    versions := [];
    for i := 0 to |keys|
      invariant |versions| == i
      invariant forall j :: 0 <= j < i ==>
        versions[j] == VersionCount(keys[j], CurrentIn(catalog, keys[j]), Count(VersionsOf(group), keys[j]))
    {
      versions := versions + [VersionCount(keys[i], CurrentIn(catalog, keys[i]), counts[keys[i]])];
    }
  }

  method Rows(catalog: seq<Version>, requested: seq<string>, calls: seq<Call>, codes: map<string, string>,
              names: seq<string>, shown: map<string, Version>, groups: map<string, seq<Call>>)
    returns (rows: seq<Row>)
    requires codes == VersionCodes(catalog, calls) && names == Names(catalog, requested, calls)
    requires forall code :: code in names && Shown(catalog, codes, code).Some? ==> code in shown
    requires forall code :: code in shown ==> Shown(catalog, codes, code) == Some(shown[code])
    requires Holds(groups, names, calls, codes)
    ensures |rows| == |names|
    ensures forall j :: 0 <= j < |names| ==> Reports(rows[j], names[j], catalog, calls)
  {
    hide VersionCodes, Names, Group, CountsVersions, Shown;
    rows := [];
    for i := 0 to |names|
      invariant |rows| == i
      invariant forall j :: 0 <= j < i ==> Reports(rows[j], names[j], catalog, calls)
    {
      var code := names[i];
      EveryNameIsShown(catalog, requested, calls, code);
      var group := GroupIn(groups, code);
      var versions := VersionCounts(group, catalog);
      rows := rows + [Row(code, shown[code], versions, |group|)];
    }
  }

  /** The part of `get_scenario_performance` after its reads: catalog, journal and whether the journal
      was read whole are given. */
  method ScenarioPerformance(catalog: seq<Version>, requested: seq<string>, calls: seq<Call>, complete: bool)
    returns (answer: Answer)
    ensures Answers(answer, catalog, requested, calls, complete)
  {
    var effective: seq<string>, omitted: nat := [], 0;
    if requested == [] {
      effective := Unrepeated(Ids(catalog));
    } else {
      effective, omitted := SelectVisible(requested, set id | id in Ids(catalog));
      if effective == [] {
        return Answer([], omitted, [], 0, 0, NotAvailable);
      }
    }
    var codes := ScenarioVersionsByCode(catalog, calls);
    var names := Unrepeated(CodesAt(effective, codes));
    var shown := ShownRows(catalog, codes, names);
    var groups, unknown, notInCatalog := Grouped(calls, codes, names, requested != []);
    var rows := Rows(catalog, requested, calls, codes, names, shown, groups);
    answer := Answer(effective, omitted, rows, unknown, notInCatalog,
                     if !complete || unknown + notInCatalog > 0 then Partial else if rows != [] then Ok else NoData);
  }

  // ---------------------------------------------------------------- what the answer says

  /** Every scenario of the answer has a catalog row to show it by, so the lookup never fails. */
  lemma EveryNameIsShown(catalog: seq<Version>, requested: seq<string>, calls: seq<Call>, code: string)
    requires code in Names(catalog, requested, calls)
    ensures Shown(catalog, VersionCodes(catalog, calls), code).Some?
  {
    hide VersionCodes, Firsts, Kept, Ids, CodesAt, Shown;
    var codes := VersionCodes(catalog, calls);
    var id :| id in Effective(catalog, requested) && codes[id] == code;
    var i :| 0 <= i < |catalog| && catalog[i].id == id;
    ShownBest(catalog, codes, code, i);
  }

  /** Whatever row a scenario is shown by: it carries the scenario's code, a current version wins over
      an archived one, and among equals the first in the catalog wins. */
  lemma {:induction false} ShownBest(catalog: seq<Version>, codes: map<string, string>, code: string, i: nat)
    requires forall i :: 0 <= i < |catalog| ==> catalog[i].id in codes
    requires i < |catalog| && codes[catalog[i].id] == code
    ensures var shown := Shown(catalog, codes, code);
      && shown.Some?
      && (catalog[i].current ==> shown.value.current)
      && exists k :: 0 <= k < |catalog| && catalog[k] == shown.value && codes[catalog[k].id] == code
           && (k <= i || catalog[k].current)
           && (k <= i || !catalog[i].current)
  {
    var rest, row := catalog[..|catalog| - 1], catalog[|catalog| - 1];
    assert forall j :: 0 <= j < |rest| ==> rest[j] == catalog[j];
    if i < |rest| {
      ShownBest(rest, codes, code, i);
    } else {
      var before := Shown(rest, codes, code);
      if before.Some? {
        ShownIsListed(rest, codes, code);
      }
    }
  }

  lemma {:induction false} ShownIsListed(catalog: seq<Version>, codes: map<string, string>, code: string)
    requires forall i :: 0 <= i < |catalog| ==> catalog[i].id in codes
    requires Shown(catalog, codes, code).Some?
    ensures exists k ::
      0 <= k < |catalog| && catalog[k] == Shown(catalog, codes, code).value && codes[catalog[k].id] == code
  {
    var rest := catalog[..|catalog| - 1];
    assert forall j :: 0 <= j < |rest| ==> rest[j] == catalog[j];
    if Shown(catalog, codes, code) == Shown(rest, codes, code) {
      ShownIsListed(rest, codes, code);
    }
  }

  function Evaluations(rows: seq<Row>): nat {
    if rows == [] then 0 else Evaluations(rows[..|rows| - 1]) + rows[|rows| - 1].evaluations
  }

  function VersionEvaluations(versions: seq<VersionCount>): nat {
    if versions == [] then 0 else VersionEvaluations(versions[..|versions| - 1]) + versions[|versions| - 1].evaluations
  }

  /** Scored calls on a scenario the answer neither shows nor had to show. */
  function OutOfScope(catalog: seq<Version>, requested: seq<string>, calls: seq<Call>): nat {
    if requested == [] then 0 else Elsewhere(calls, Names(catalog, requested, calls), VersionCodes(catalog, calls))
  }

  /** Conservation, for any status: the rows, the excluded evaluations and, under a filter, the
      evaluations of other scenarios add up to the scored calls. No call is in two rows. */
  lemma EveryEvaluationLands(answer: Answer, catalog: seq<Version>, requested: seq<string>, calls: seq<Call>,
                             complete: bool)
    requires Answers(answer, catalog, requested, calls, complete) && answer.status != NotAvailable
    ensures Evaluations(answer.rows) + answer.unknown + answer.notInCatalog + OutOfScope(catalog, requested, calls) ==
      |Scored(calls)|
  {
    var codes, names := VersionCodes(catalog, calls), Names(catalog, requested, calls);
    RowsCount(answer.rows, names, catalog, calls);
    EachLandsOnce(calls, names, codes);
  }

  /** An unfiltered answer is `ok` exactly when the journal was read whole and its rows hold every
      scored call. */
  lemma OkIffFullyAccounted(answer: Answer, catalog: seq<Version>, calls: seq<Call>, complete: bool)
    requires Answers(answer, catalog, [], calls, complete)
    ensures answer.status == Ok <==> complete && answer.rows != [] && Evaluations(answer.rows) == |Scored(calls)|
  {
    if answer.status != NotAvailable {
      EveryEvaluationLands(answer, catalog, [], calls, complete);
    }
  }

  /** The version counts of a row add up to its evaluations. */
  lemma VersionsAddUp(row: Row, code: string, catalog: seq<Version>, calls: seq<Call>)
    requires Reports(row, code, catalog, calls)
    ensures VersionEvaluations(row.versions) == row.evaluations
  {
    var keys := VersionsOf(Group(calls, code, VersionCodes(catalog, calls)));
    VersionSums(row.versions, keys, Firsts(keys));
    TallyIsComplete(keys);
  }

  lemma {:induction false} VersionSums(versions: seq<VersionCount>, keys: seq<Option<string>>,
                                       order: seq<Option<string>>)
    requires |versions| == |order|
    requires forall i :: 0 <= i < |order| ==> versions[i].evaluations == Count(keys, order[i])
    ensures VersionEvaluations(versions) == SumOfCounts(keys, order)
  {
    if versions != [] {
      VersionSums(versions[..|versions| - 1], keys, order[..|order| - 1]);
    }
  }

  /** The evaluations of the rows are the landings on their codes. */
  lemma {:induction false} RowsCount(rows: seq<Row>, names: seq<string>, catalog: seq<Version>, calls: seq<Call>)
    requires |rows| == |names|
    requires forall i :: 0 <= i < |names| ==> Reports(rows[i], names[i], catalog, calls)
    ensures Evaluations(rows) == SumOfCounts(Landing(calls, VersionCodes(catalog, calls)), Named(names))
  {
    if rows != [] {
      var last := |rows| - 1;
      RowsCount(rows[..last], names[..last], catalog, calls);
      GroupIsCount(calls, names[last], VersionCodes(catalog, calls));
      assert Named(names)[..last] == Named(names[..last]);
    }
  }

  function Named(names: seq<string>): (codes: seq<Option<string>>)
    ensures |codes| == |names|
    ensures forall i :: 0 <= i < |names| ==> codes[i] == Some(names[i])
  {
    if names == [] then [] else Named(names[..|names| - 1]) + [Some(names[|names| - 1])]
  }

  lemma {:induction false} GroupIsCount(calls: seq<Call>, code: string, codes: map<string, string>)
    ensures |Group(calls, code, codes)| == Count(Landing(calls, codes), Some(code))
  {
    if calls != [] {
      var rest, call := calls[..|calls| - 1], calls[|calls| - 1];
      GroupIsCount(rest, code, codes);
      if call.scored {
        AppendCount(Landing(rest, codes), CallCode(call, codes), Some(code));
      }
    }
  }

  lemma {:induction false} EachLandsOnce(calls: seq<Call>, names: seq<string>, codes: map<string, string>)
    requires Distinct(names)
    ensures SumOfCounts(Landing(calls, codes), Named(names)) + Count(Landing(calls, codes), None)
      + Elsewhere(calls, names, codes)
      == |Scored(calls)|
  {
    CountsAddUp(Landing(calls, codes), Named(names));
    Partition(calls, names, codes);
  }

  lemma NamedIn(names: seq<string>, code: Option<string>)
    ensures code in Named(names) <==> code.Some? && code.value in names
  {
    if code.Some? && code.value in names {
      var i :| 0 <= i < |names| && names[i] == code.value;
      assert Named(names)[i] == code;
    }
  }

  /** A scored call lands on a shown scenario, on none that can be named, or elsewhere. */
  lemma {:induction false} Partition(calls: seq<Call>, names: seq<string>, codes: map<string, string>)
    ensures CountAmong(Landing(calls, codes), Named(names)) + Count(Landing(calls, codes), None)
      + Elsewhere(calls, names, codes)
      == |Scored(calls)|
  {
    if calls != [] {
      var last := |calls| - 1;
      var landed, code := Landing(calls[..last], codes), CallCode(calls[last], codes);
      Partition(calls[..last], names, codes);
      if calls[last].scored {
        AppendCount(landed, code, None);
        AppendAmong(landed, code, Named(names));
        NamedIn(names, code);
        assert Landing(calls, codes) == landed + [code];
      }
    }
  }
}
