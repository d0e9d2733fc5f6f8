/** What the two statistics answers say, counted call by call on the journal and the catalog. */
module StatsAnswers {
  import opened Common
  import opened Counting
  import opened Scenarios
  import opened ScenarioStats
  import opened CriterionStats

  // ---------------------------------------------------------------- the code of a version

  /** The call is the first of this version to show a code. */
  ghost predicate FirstToShow(calls: seq<Call>, id: string, k: nat) {
    && k < |calls| && calls[k].scenarioId == id && ShownCode(calls[k]).Some?
    && forall j :: 0 <= j < k && calls[j].scenarioId == id ==> ShownCode(calls[j]).None?
  }

  lemma {:induction false} FirstShownIs(calls: seq<Call>, id: string)
    ensures forall k: nat :: FirstToShow(calls, id, k) ==> FirstShown(calls, id) == ShownCode(calls[k])
    ensures FirstShown(calls, id).None? <==>
      forall call :: call in calls && call.scenarioId == id ==> ShownCode(call).None?
  {
    if calls != [] {
      FirstShownIs(calls[1..], id);
      assert calls == [calls[0]] + calls[1..];
      forall k: nat | FirstToShow(calls, id, k) ensures FirstShown(calls, id) == ShownCode(calls[k]) {
        if k > 0 {
          assert calls[0].scenarioId == id ==> ShownCode(calls[0]).None?;
          assert forall j :: 0 <= j < k - 1 ==> calls[1..][j] == calls[j + 1];
          assert FirstToShow(calls[1..], id, k - 1);
        }
      }
    }
  }

  /** A current version has the code of its catalog row, whatever its calls show. An archived one has the code the
      first call on it shows that shows one; without such a call, and for any row without a
      code, what is left is the row's own code, else its id. */
  lemma CodeOfAVersion(row: Version, calls: seq<Call>)
    ensures ScenarioCode(row.code).Some? && (row.current || row.id == "") ==>
      VersionCode(row, calls) == ScenarioCode(row.code).value
    ensures !row.current && row.id != "" ==>
      forall k: nat :: FirstToShow(calls, row.id, k) ==> Some(VersionCode(row, calls)) == ShownCode(calls[k])
    ensures (forall call :: call in calls && call.scenarioId == row.id ==> ShownCode(call).None?) ==>
      VersionCode(row, calls) == if ScenarioCode(row.code).Some? then ScenarioCode(row.code).value else row.id
    ensures ScenarioCode(row.code).None? && row.current ==> VersionCode(row, calls) == row.id
  {
    FirstShownIs(calls, row.id);
  }

  /** A text without the archive mark is its own code, blanks around it apart; only a blank text is none. */
  lemma CodeOfAText(text: string)
    ensures ScenarioCode(text) == None <==> Strip(text) == ""
    ensures !IsArchivedCode(Strip(text)) && Strip(text) != "" ==> ScenarioCode(text) == Some(Strip(text))
  {}

  /** The archive mark: a code of one line, the mark and twenty digits, and nothing else. */
  lemma ArchivedIff(text: string)
    ensures IsArchivedCode(text) <==>
      exists code: string, stamp: string :: IsMarked(text, code, stamp)
  {
    if IsArchivedCode(text) {
      var n := |text| - STAMP_DIGITS - |LEGACY|;
      var code, stamp := text[..n], text[|text| - STAMP_DIGITS..];
      assert text == code + text[n..n + |LEGACY|] + stamp;
      assert IsMarked(text, code, stamp);
    }
    if code, stamp :| IsMarked(text, code, stamp) {
      assert text[..|code|] == code && text[|code|..|code| + |LEGACY|] == LEGACY;
      assert forall i :: |text| - 20 <= i < |text| ==> text[i] == stamp[i - |code| - |LEGACY|];
    }
  }

  predicate IsMarked(text: string, code: string, stamp: string) {
    && text == code + "__legacy_" + stamp && code != "" && '\n' !in code
    && |stamp| == 20 && forall i :: 0 <= i < |stamp| ==> '0' <= stamp[i] <= '9'
  }

  /** A call on a version the account can read has the code of that version; any other has the one scenario selection
      chose, and only without that the one of the version it shows. */
  lemma CodeOfACall(call: Call, codes: map<string, string>)
    ensures call.scenarioId in codes ==> CallCode(call, codes) == Some(codes[call.scenarioId])
    ensures call.scenarioId !in codes && call.detectedCode != "" ==>
      CallCode(call, codes) == ScenarioCode(call.detectedCode)
    ensures call.scenarioId !in codes && call.detectedCode == "" ==>
      CallCode(call, codes) == ScenarioCode(call.nestedCode)
  {}

  /** The dictionary gives an id the code of the last catalog row that has it. */
  lemma {:induction false} LastRowWins(catalog: seq<Version>, calls: seq<Call>, k: nat)
    requires k < |catalog| && forall j :: k < j < |catalog| ==> catalog[j].id != catalog[k].id
    ensures catalog[k].id in VersionCodes(catalog, calls)
    ensures VersionCodes(catalog, calls)[catalog[k].id] == VersionCode(catalog[k], calls)
    ensures CurrentIn(catalog, Some(catalog[k].id)) == catalog[k].current
  {
    if k < |catalog| - 1 { LastRowWins(catalog[..|catalog| - 1], calls, k); }
  }

  // ---------------------------------------------------------------- scenario performance

  /** The places of the scored calls on one scenario, of one version or of any. */
  function CallsOn(calls: seq<Call>, code: string, codes: map<string, string>, version: Option<string>): set<nat> {
    set i: nat | i < |calls| && OnVersion(calls[i], code, codes, version)
  }

  /** The call was scored, belongs to the scenario, and is on that version if one is named (the empty text stands for
      a call on no version). */
  predicate OnVersion(call: Call, code: string, codes: map<string, string>, version: Option<string>) {
    call.scored && CallCode(call, codes) == Some(code) && (version.None? || call.scenarioId == version.value)
  }

  function VersionText(id: Option<string>): string { if id.Some? then id.value else "" }

  lemma {:induction false} GroupSizes(calls: seq<Call>, code: string, codes: map<string, string>, id: Option<string>)
    requires id != Some("")
    ensures |Group(calls, code, codes)| == |CallsOn(calls, code, codes, None)|
    ensures Count(VersionsOf(Group(calls, code, codes)), id) == |CallsOn(calls, code, codes, Some(VersionText(id)))|
  {
    hide CallCode, OnVersion;
    if calls != [] {
      var rest, last := calls[..|calls| - 1], calls[|calls| - 1];
      GroupSizes(rest, code, codes, id);
      assert calls == rest + [last];
      OneMoreOn(rest, last, code, codes, None);
      OneMoreOn(rest, last, code, codes, Some(VersionText(id)));
      GroupNext(rest, last, code, codes, id);
    }
  }

  lemma OneMoreOn(calls: seq<Call>, call: Call, code: string, codes: map<string, string>, version: Option<string>)
    ensures |CallsOn(calls + [call], code, codes, version)| ==
      |CallsOn(calls, code, codes, version)| + if OnVersion(call, code, codes, version) then 1 else 0
  {
    hide OnVersion;
    var on := CallsOn(calls, code, codes, version);
    assert CallsOn(calls + [call], code, codes, version) ==
      if OnVersion(call, code, codes, version) then on + {|calls|} else on;
  }

  lemma GroupNext(calls: seq<Call>, call: Call, code: string, codes: map<string, string>, id: Option<string>)
    requires id != Some("")
    ensures |Group(calls + [call], code, codes)| ==
      |Group(calls, code, codes)| + if OnVersion(call, code, codes, None) then 1 else 0
    ensures Count(VersionsOf(Group(calls + [call], code, codes)), id) ==
      Count(VersionsOf(Group(calls, code, codes)), id)
        + if OnVersion(call, code, codes, Some(VersionText(id))) then 1 else 0
  {
    assert (calls + [call])[..|calls|] == calls;
    var before := Group(calls, code, codes);
    if OnVersion(call, code, codes, None) {
      assert (before + [call])[..|before|] == before;
      AppendCount(VersionsOf(before), if call.scenarioId != "" then Some(call.scenarioId) else None, id);
    }
  }

  /** A row counts exactly the scored calls of its scenario, and each version of it exactly those made on that version;
      a version is shown as current exactly when its last catalog row is. */
  lemma RowCountsItsCalls(row: Row, code: string, catalog: seq<Version>, calls: seq<Call>)
    requires Reports(row, code, catalog, calls)
    ensures var codes := VersionCodes(catalog, calls);
      && row.evaluations == |CallsOn(calls, code, codes, None)|
      && forall v :: v in row.versions && v.scenarioId != Some("") ==>
           && v.evaluations == |CallsOn(calls, code, codes, Some(VersionText(v.scenarioId)))|
           && v.evaluations > 0 && v.current == CurrentIn(catalog, v.scenarioId)
  {
    hide VersionCodes, CallsOn, CurrentIn, Group, VersionsOf;
    var codes := VersionCodes(catalog, calls);
    var keys := VersionsOf(Group(calls, code, codes));
    GroupSizes(calls, code, codes, None);
    forall v | v in row.versions && v.scenarioId != Some("")
      ensures v.evaluations == |CallsOn(calls, code, codes, Some(VersionText(v.scenarioId)))| && v.evaluations > 0
      ensures v.current == CurrentIn(catalog, v.scenarioId)
    {
      GroupSizes(calls, code, codes, v.scenarioId);
      assert v.scenarioId in Firsts(keys);
      Met(keys, v.scenarioId);
    }
  }

  /** Which scenarios an answer has a row for: exactly those of the visible versions, under a filter of the requested
      ones among them; one row each. */
  lemma RowsAreTheScenarios(answer: Answer, catalog: seq<Version>, requested: seq<string>, calls: seq<Call>,
                            complete: bool, code: string)
    requires Answers(answer, catalog, requested, calls, complete) && answer.status != NotAvailable
    ensures (exists i :: 0 <= i < |answer.rows| && answer.rows[i].code == code) <==>
      exists k :: 0 <= k < |catalog| && (requested == [] || catalog[k].id in requested)
                  && VersionCodes(catalog, calls)[catalog[k].id] == code
    ensures forall i, j :: 0 <= i < j < |answer.rows| ==> answer.rows[i].code != answer.rows[j].code
  {
    hide VersionCodes, Firsts, Kept, CodesAt;
    var codes, names := VersionCodes(catalog, calls), Names(catalog, requested, calls);
    CodesAtAll(Effective(catalog, requested), codes);
    if i :| 0 <= i < |answer.rows| && answer.rows[i].code == code {
      assert Reports(answer.rows[i], names[i], catalog, calls) && code in names;
      var id :| id in Effective(catalog, requested) && codes[id] == code;
      assert id in Ids(catalog) && (requested == [] || id in requested);
      var k :| 0 <= k < |catalog| && catalog[k].id == id;
    }
    if k :| 0 <= k < |catalog| && (requested == [] || catalog[k].id in requested) && codes[catalog[k].id] == code {
      assert Ids(catalog)[k] == catalog[k].id && catalog[k].id in Effective(catalog, requested);
      assert code in names;
      var i :| 0 <= i < |names| && names[i] == code;
      assert Reports(answer.rows[i], names[i], catalog, calls);
    }
    forall i, j | 0 <= i < j < |answer.rows| ensures answer.rows[i].code != answer.rows[j].code {
      assert Reports(answer.rows[i], names[i], catalog, calls) && Reports(answer.rows[j], names[j], catalog, calls);
    }
  }

  lemma {:induction false} CodesAtAll(ids: seq<string>, codes: map<string, string>)
    requires forall id :: id in ids ==> id in codes
    ensures forall id :: id in ids ==> codes[id] in CodesAt(ids, codes)
  {
    if ids != [] { CodesAtAll(ids[..|ids| - 1], codes); }
  }

  /** The status, filtered or not. Not available: ids were requested and none is visible. Otherwise `ok` or no data
      exactly when the journal was read whole and every scored call names a scenario, without a
      filter one of the answer's; `ok` if there is a row. */
  lemma ScenarioStatus(answer: Answer, catalog: seq<Version>, requested: seq<string>, calls: seq<Call>, complete: bool)
    requires Answers(answer, catalog, requested, calls, complete)
    ensures var codes := VersionCodes(catalog, calls);
      && (answer.status == NotAvailable <==>
            requested != [] && forall k :: 0 <= k < |catalog| ==> catalog[k].id !in requested)
      && (answer.status != NotAvailable ==>
            && (answer.status == Ok || answer.status == NoData <==>
                  complete && forall call :: call in calls && call.scored ==>
                    && CallCode(call, codes).Some?
                    && (requested == [] ==> CallCode(call, codes).value in Names(catalog, requested, calls)))
            && (answer.status == Ok ==> answer.rows != []) && (answer.status == NoData ==> answer.rows == []))
  {
    hide VersionCodes, CallCode, Landing, Elsewhere, Kept, Firsts, CodesAt;
    var codes, names := VersionCodes(catalog, calls), Names(catalog, requested, calls);
    AllNamed(calls, codes);
    NoneElsewhere(calls, names, codes);
    if requested != [] { NothingKept(catalog, requested); }
  }

  lemma NothingKept(catalog: seq<Version>, requested: seq<string>)
    requires requested != []
    ensures Effective(catalog, requested) == [] <==> forall k :: 0 <= k < |catalog| ==> catalog[k].id !in requested
  {
    hide Kept, Firsts;
    var effective := Effective(catalog, requested);
    if effective != [] {
      assert effective[0] in effective && effective[0] in Ids(catalog);
      var k :| 0 <= k < |catalog| && catalog[k].id == effective[0];
    }
    if k :| 0 <= k < |catalog| && catalog[k].id in requested {
      assert Ids(catalog)[k] in Ids(catalog) && catalog[k].id in effective;
    }
  }

  lemma {:induction false} AllNamed(calls: seq<Call>, codes: map<string, string>)
    ensures Count(Landing(calls, codes), None) == 0 <==>
      forall call :: call in calls && call.scored ==> CallCode(call, codes).Some?
  {
    hide CallCode;
    if calls != [] {
      var rest, last := calls[..|calls| - 1], calls[|calls| - 1];
      AllNamed(rest, codes);
      assert calls == rest + [last];
      if last.scored { AppendCount(Landing(rest, codes), CallCode(last, codes), None); }
    }
  }

  lemma {:induction false} NoneElsewhere(calls: seq<Call>, names: seq<string>, codes: map<string, string>)
    ensures Elsewhere(calls, names, codes) == 0 <==>
      forall call :: call in calls && call.scored && CallCode(call, codes).Some? ==>
        CallCode(call, codes).value in names
  {
    hide CallCode;
    if calls != [] {
      NoneElsewhere(calls[..|calls| - 1], names, codes);
      assert calls == calls[..|calls| - 1] + [calls[|calls| - 1]];
    }
  }

  // ---------------------------------------------------------------- criterion performance

  /** The item is an observation of the criterion, and a violation if only those are asked for. */
  predicate Observes(item: Item, ix: Index, key: Key, violationsOnly: bool) {
    item.criterionId in ix.keys && ix.keys[item.criterionId] == key && (violationsOnly ==> item.negative)
  }

  /** The places of a call's items that observe the criterion. */
  function ItemsOf(items: seq<Item>, ix: Index, key: Key, violationsOnly: bool): set<nat> {
    set j: nat | j < |items| && Observes(items[j], ix, key, violationsOnly)
  }

  /** The items read with the card of a call; none when it could not be read. */
  function ItemsRead(details: map<string, seq<Item>>, id: string): seq<Item> {
    if id in details then details[id] else []
  }

  /** How many items of the calls observe the criterion. */
  function TimesSeen(calls: seq<Call>, details: map<string, seq<Item>>, ix: Index, key: Key,
                     violationsOnly: bool): nat
  {
    if calls == [] then 0
    else
      var last := ItemsRead(details, calls[|calls| - 1].id);
      TimesSeen(calls[..|calls| - 1], details, ix, key, violationsOnly) + |ItemsOf(last, ix, key, violationsOnly)|
  }

  lemma LandedOne(seen: seq<Seen>, one: Seen, wanted: set<Key>, key: Key, violationsOnly: bool)
    requires key in wanted
    ensures Count(Landed(seen + [one], wanted, violationsOnly), key) ==
      Count(Landed(seen, wanted, violationsOnly), key)
        + if one.key == Some(key) && (violationsOnly ==> one.negative) then 1 else 0
  {
    assert (seen + [one])[..|seen|] == seen;
    var before := Landed(seen, wanted, violationsOnly);
    if one.key.Some? { assert (before + [one.key.value])[..|before|] == before; }
  }

  lemma {:induction false} LandedItems(seen: seq<Seen>, items: seq<Item>, ix: Index, wanted: set<Key>, key: Key,
                                       violationsOnly: bool)
    requires key in wanted
    ensures Count(Landed(seen + SeenIn(items, ix), wanted, violationsOnly), key) ==
      Count(Landed(seen, wanted, violationsOnly), key) + |ItemsOf(items, ix, key, violationsOnly)|
  {
    hide Landed, Observes, Count;
    if items == [] {
      assert seen + SeenIn(items, ix) == seen;
      assert ItemsOf(items, ix, key, violationsOnly) == {};
    } else {
      var rest, last := items[..|items| - 1], items[|items| - 1];
      LandedItems(seen, rest, ix, wanted, key, violationsOnly);
      var one := Seen(if last.criterionId in ix.keys then Some(ix.keys[last.criterionId]) else None, last.negative);
      assert seen + SeenIn(items, ix) == (seen + SeenIn(rest, ix)) + [one];
      LandedOne(seen + SeenIn(rest, ix), one, wanted, key, violationsOnly);
      assert items == rest + [last];
      ItemsNext(rest, last, ix, key, violationsOnly);
      assert one.key == Some(key) && (violationsOnly ==> one.negative) <==> Observes(last, ix, key, violationsOnly) by {
        ObservesIs(last, ix, key, violationsOnly);
      }
    }
  }

  lemma ObservesIs(item: Item, ix: Index, key: Key, violationsOnly: bool)
    ensures Observes(item, ix, key, violationsOnly) <==>
      item.criterionId in ix.keys && ix.keys[item.criterionId] == key && (violationsOnly ==> item.negative)
  {}

  lemma ItemsNext(items: seq<Item>, item: Item, ix: Index, key: Key, violationsOnly: bool)
    ensures |ItemsOf(items + [item], ix, key, violationsOnly)| ==
      |ItemsOf(items, ix, key, violationsOnly)| + if Observes(item, ix, key, violationsOnly) then 1 else 0
  {
    hide Observes;
    var before := ItemsOf(items, ix, key, violationsOnly);
    assert ItemsOf(items + [item], ix, key, violationsOnly) ==
      if Observes(item, ix, key, violationsOnly) then before + {|items|} else before;
  }

  lemma {:induction false} LandedTimes(calls: seq<Call>, details: map<string, seq<Item>>, ix: Index, wanted: set<Key>,
                                       key: Key, violationsOnly: bool)
    requires key in wanted
    ensures Count(Landed(SeenOn(calls, details, ix), wanted, violationsOnly), key) ==
      TimesSeen(calls, details, ix, key, violationsOnly)
  {
    hide Landed, ItemsOf, SeenIn;
    if calls != [] {
      var rest, last := calls[..|calls| - 1], calls[|calls| - 1];
      LandedTimes(rest, details, ix, wanted, key, violationsOnly);
      LandedItems(SeenOn(rest, details, ix), Items(last, details), ix, wanted, key, violationsOnly);
    } else {
      NothingLanded(wanted, key, violationsOnly);
    }
  }

  lemma NothingLanded(wanted: set<Key>, key: Key, violationsOnly: bool)
    ensures Count(Landed([], wanted, violationsOnly), key) == 0
  {}

  /** Every row tells the truth of its criterion: it was asked for, it was observed and violated exactly as often as the
      items of the evaluated calls say, and it is shown by the entry of its key. No criterion that was
      asked for and observed is without a row. */
  lemma TableTellsTheTruth(reading: Reading)
    requires reading.ScenarioReadable()
    ensures var evaluated, ix := Evaluated(reading.calls, reading.Codes(), reading.Only()), reading.Criteria();
      && (forall row :: row in reading.Table() ==>
            && row.key in reading.Wanted() && row.key in ix.shown && row.shown == ix.shown[row.key]
            && row.tallied.observations == TimesSeen(evaluated, reading.details, ix, row.key, false) > 0
            && row.tallied.violations == TimesSeen(evaluated, reading.details, ix, row.key, true))
      && (forall key :: key in reading.Wanted() && TimesSeen(evaluated, reading.details, ix, key, false) > 0 ==>
            exists row :: row in reading.Table() && row.key == key)
  {
    hide Landed, SeenOn, Evaluated, Indexed, Sound, VersionCodes, Count, Firsts, TimesSeen;
    var evaluated, ix := Evaluated(reading.calls, reading.Codes(), reading.Only()), reading.Criteria();
    var seen, wanted := reading.Observed(), reading.Wanted();
    var all := Landed(seen, wanted, false);
    forall row | row in reading.Table()
      ensures row.key in wanted && row.key in ix.shown && row.shown == ix.shown[row.key]
      ensures row.tallied.observations == TimesSeen(evaluated, reading.details, ix, row.key, false) > 0
      ensures row.tallied.violations == TimesSeen(evaluated, reading.details, ix, row.key, true)
    {
      var i :| 0 <= i < |reading.Table()| && reading.Table()[i] == row;
      assert Firsts(all)[i] in Firsts(all);
      LandedTimes(evaluated, reading.details, ix, wanted, row.key, false);
      LandedTimes(evaluated, reading.details, ix, wanted, row.key, true);
      Met(all, row.key);
    }
    forall key | key in wanted && TimesSeen(evaluated, reading.details, ix, key, false) > 0
      ensures exists row :: row in reading.Table() && row.key == key
    {
      LandedTimes(evaluated, reading.details, ix, wanted, key, false);
      if key !in all { NeverMet(all, key); }
      var i :| 0 <= i < |Firsts(all)| && Firsts(all)[i] == key;
      assert reading.Table()[i].key == key;
    }
  }

  /** The scored call belongs to the scenario asked for, or none was asked for. */
  predicate Counts(reading: Reading, call: Call)
    requires reading.ScenarioReadable()
  {
    call.scored && (reading.scenario == None || CallCode(call, reading.Codes()) == reading.Only())
  }

  lemma {:induction false} EvaluatedAre(calls: seq<Call>, codes: map<string, string>, only: Option<string>)
    ensures forall call :: call in Evaluated(calls, codes, only) <==>
      call in calls && call.scored && (only.None? || CallCode(call, codes) == only)
    ensures Unplaceable(calls, codes, only) == 0 <==>
      forall call :: call in calls && call.scored && only.Some? ==> CallCode(call, codes).Some?
  {
    hide CallCode;
    if calls != [] {
      EvaluatedAre(calls[..|calls| - 1], codes, only);
      assert calls == calls[..|calls| - 1] + [calls[|calls| - 1]];
    }
  }

  lemma {:induction false} AllReadable(calls: seq<Call>, details: map<string, seq<Item>>, ix: Index)
    ensures WithoutItems(calls, details) == 0 <==> forall call :: call in calls ==> Items(call, details) != []
    ensures PartlyUnreadable(calls, details, ix) == 0 <==>
      forall call :: call in calls ==> forall item :: item in Items(call, details) ==> item.criterionId in ix.keys
  {
    hide Items, SeenIn, Unreadable;
    if calls != [] {
      AllReadable(calls[..|calls| - 1], details, ix);
      assert calls == calls[..|calls| - 1] + [calls[|calls| - 1]];
      ReadableItems(Items(calls[|calls| - 1], details), ix);
    }
  }

  lemma {:induction false} ReadableItems(items: seq<Item>, ix: Index)
    ensures Unreadable(SeenIn(items, ix)) == 0 <==> forall item :: item in items ==> item.criterionId in ix.keys
  {
    hide SeenIn, Unreadable;
    if items == [] {
      NothingSeen(ix);
    } else {
      var rest, last := items[..|items| - 1], items[|items| - 1];
      ReadableItems(rest, ix);
      assert items == rest + [last];
      OneMoreSeen(rest, last, ix);
    }
  }

  lemma NothingSeen(ix: Index)
    ensures SeenIn([], ix) == [] && Unreadable([]) == 0
  {}

  lemma OneMoreSeen(items: seq<Item>, item: Item, ix: Index)
    ensures Unreadable(SeenIn(items + [item], ix)) ==
      Unreadable(SeenIn(items, ix)) + if item.criterionId in ix.keys then 0 else 1
  {
    assert (items + [item])[..|items|] == items;
    var before := SeenIn(items, ix);
    assert SeenIn(items + [item], ix)[..|before|] == before;
  }

  /** Nothing is left out: every scored call names a scenario where one is asked for, and every call that counts gave
      items, all of readable criteria. */
  predicate EverythingReadable(reading: Reading)
    requires reading.ScenarioReadable()
  {
    && (reading.scenario != None ==>
          forall call :: call in reading.calls && call.scored ==> CallCode(call, reading.Codes()) != None)
    && forall call :: call in reading.calls && Counts(reading, call) ==>
         && Items(call, reading.details) != []
         && forall item :: item in Items(call, reading.details) ==> item.criterionId in reading.Criteria().keys
  }

  /** The status, filtered or not. Not available: the scenario is not readable, or criteria were requested and none of
      them is. Otherwise `ok` or no data exactly when the journal was read whole, the limit cut
      nothing and nothing is left out; `ok` if there is a row. */
  lemma CriterionStatus(reading: Reading)
    ensures var answer := reading.Answered();
      && (answer.status == NotAvailable <==>
            !reading.ScenarioReadable()
            || (reading.requested != [] && forall id :: id in reading.requested ==> id !in reading.Criteria().keys))
      && (answer.status != NotAvailable ==>
            && (answer.status == Ok || answer.status == NoData <==>
                  && reading.complete && reading.total <= |reading.calls|
                  && |answer.quality| + |answer.critical| == |reading.Table()| && EverythingReadable(reading))
            && (answer.status == Ok ==> reading.Table() != []) && (answer.status == NoData ==> reading.Table() == [])
            && answer.matching == |reading.Table()| && answer.returned == |answer.quality| + |answer.critical|)
  {
    hide Indexed, VersionCodes, Kept, Firsts, EverythingReadable, Reading.Compiled, Reading.Table;
    if reading.ScenarioReadable() {
      if reading.requested != [] { NothingVisible(reading); }
      CompiledStatus(reading, if reading.requested == [] then 0
                              else |reading.requested| - |Kept(reading.requested, reading.Criteria().keys.Keys)|);
    }
  }

  lemma CompiledStatus(reading: Reading, omitted: nat)
    requires reading.ScenarioReadable()
    ensures var answer := reading.Compiled(omitted);
      && answer.status != NotAvailable && answer.omitted == omitted
      && answer.matching == |reading.Table()| && answer.returned == |answer.quality| + |answer.critical|
      && (answer.status == Ok || answer.status == NoData <==>
            && reading.complete && reading.total <= |reading.calls|
            && |answer.quality| + |answer.critical| == |reading.Table()| && EverythingReadable(reading))
      && (answer.status == Ok ==> reading.Table() != []) && (answer.status == NoData ==> reading.Table() == [])
  {
    hide Indexed, VersionCodes, Kept, Firsts, Split, Sorted, Cut, Evaluated, CallCode, Items, Observations, RowsOf,
      Landed, SeenOn, Unplaceable, WithoutItems, PartlyUnreadable;
    var codes, only, ix := reading.Codes(), reading.Only(), reading.Criteria();
    var evaluated, table := Evaluated(reading.calls, codes, only), reading.Table();
    EvaluatedAre(reading.calls, codes, only);
    AllReadable(evaluated, reading.details, ix);
    SplitAdds(table);
    CutShortens(Split(table, false), reading.place, reading.limit);
    CutShortens(Split(table, true), reading.place, reading.limit);
    assert forall call :: call in reading.calls && Counts(reading, call) <==> call in evaluated;
  }

  lemma CutShortens(rows: seq<CriterionRow>, place: map<Key, int>, limit: nat)
    ensures |Cut(Sorted(rows, place), limit)| == if |rows| <= limit then |rows| else limit
  {
    hide Sorted, Observations;
    SortedOrders(rows, place);
  }

  lemma NothingVisible(reading: Reading)
    requires reading.ScenarioReadable() && reading.requested != []
    ensures reading.Effective() == [] <==>
      forall id :: id in reading.requested ==> id !in reading.Criteria().keys
  {
    hide Indexed, VersionCodes, Kept, Firsts;
    if reading.Effective() != [] { assert reading.Effective()[0] in reading.Effective(); }
    if id :| id in reading.requested && id in reading.Criteria().keys {
      assert id in reading.Effective();
    }
  }

  /** The two lists: critical errors and the others, each in order of rank, each from the table, and with no row left
      out while there is room. */
  lemma ListsHold(reading: Reading, critical: bool)
    requires reading.ScenarioReadable() && reading.Answered().status != NotAvailable
    ensures var list := Returned(reading.Answered(), critical);
      && Ordered(list, reading.place) && |list| <= reading.limit
      && (forall row :: row in list ==> row in reading.Table() && row.shown.criterion.critical == critical)
      && (|list| < reading.limit ==>
            forall row :: row in reading.Table() && row.shown.criterion.critical == critical ==> row in list)
  {
    hide Sorted, Split, Observations, Indexed, VersionCodes, RowsOf;
    var rows := Split(reading.Table(), critical);
    SortedOrders(rows, reading.place);
    SplitKind(reading.Table(), critical);
    SplitHas(reading.Table(), critical);
  }

  lemma {:induction false} SplitHas(rows: seq<CriterionRow>, critical: bool)
    ensures forall row :: row in rows && row.shown.criterion.critical == critical ==> row in Split(rows, critical)
  {
    if rows != [] {
      SplitHas(rows[..|rows| - 1], critical);
      assert rows == rows[..|rows| - 1] + [rows[|rows| - 1]];
    }
  }

  // ---------------------------------------------------------------- the index of the criteria

  /** A criterion is one code within one scenario, whatever the version; without a code it stands alone under its id. */
  lemma OneCriterionAcrossVersions(a: Criterion, b: Criterion, v: Version, w: Version, code: string, other: string)
    ensures a.code != "" && b.code != "" ==>
      (EntryOf(a, v, code).key == EntryOf(b, w, other).key <==> code == other && a.code == b.code)
    ensures a.code == "" && b.code == "" ==>
      (EntryOf(a, v, code).key == EntryOf(b, w, other).key <==> code == other && a.id == b.id)
  {}

  /** The criteria of the versions in scope, in catalog order. */
  function EntriesOf(listing: Listing, code: string, n: nat): seq<Entry>
    requires n <= |listing.criteria|
  {
    if n == 0 then []
    else EntriesOf(listing, code, n - 1) + [EntryOf(listing.criteria[n - 1], listing.version, code)]
  }

  function Entries(listings: seq<Listing>, codes: map<string, string>, only: Option<string>, n: nat): seq<Entry>
    requires n <= |listings|
    requires forall i :: 0 <= i < |listings| ==> listings[i].version.id in codes
  {
    if n == 0 then []
    else
      var listing := listings[n - 1];
      var code := codes[listing.version.id];
      Entries(listings, codes, only, n - 1)
        + (if only.Some? && code != only.value then [] else EntriesOf(listing, code, |listing.criteria|))
  }

  /** The index of some entries, one after the other. */
  function IndexOf(entries: seq<Entry>): Index {
    if entries == [] then Index([], map[], map[]) else Add(IndexOf(entries[..|entries| - 1]), entries[|entries| - 1])
  }

  lemma {:induction false} AddAllIndexes(entries: seq<Entry>, listing: Listing, code: string, n: nat)
    requires n <= |listing.criteria|
    ensures AddAll(IndexOf(entries), listing, code, n) == IndexOf(entries + EntriesOf(listing, code, n))
  {
    hide Add, IndexOf;
    if n == 0 {
      assert entries + EntriesOf(listing, code, 0) == entries;
    } else {
      AddAllIndexes(entries, listing, code, n - 1);
      var before := entries + EntriesOf(listing, code, n - 1);
      var entry := EntryOf(listing.criteria[n - 1], listing.version, code);
      assert entries + EntriesOf(listing, code, n) == before + [entry];
      IndexNext(before, entry);
    }
  }

  lemma IndexNext(entries: seq<Entry>, entry: Entry)
    ensures IndexOf(entries + [entry]) == Add(IndexOf(entries), entry)
  {
    hide Add;
    assert (entries + [entry])[..|entries|] == entries;
  }

  /** The index is built from exactly the criteria of the versions in scope. */
  lemma {:induction false} IndexIsTheCatalog(listings: seq<Listing>, codes: map<string, string>, only: Option<string>,
                                             n: nat)
    requires n <= |listings|
    requires forall i :: 0 <= i < |listings| ==> listings[i].version.id in codes
    ensures Indexed(listings, codes, only, n) == IndexOf(Entries(listings, codes, only, n))
  {
    hide IndexOf, AddAll;
    if n == 0 {
      NothingIndexed();
    } else {
      IndexIsTheCatalog(listings, codes, only, n - 1);
      var before, listing := Entries(listings, codes, only, n - 1), listings[n - 1];
      AddAllIndexes(before, listing, codes[listing.version.id], |listing.criteria|);
      assert before + [] == before;
    }
  }

  lemma NothingIndexed()
    ensures IndexOf([]) == Index([], map[], map[])
  {}

  /** What the index says of an entry's id and key: the id stands for the key of the last entry that has it, and the key
      is shown by an entry of a current version if it has one, the first of those, else by the first. */
  lemma {:induction false} IndexPrefersCurrent(entries: seq<Entry>, i: nat)
    requires i < |entries|
    ensures var ix, e := IndexOf(entries), entries[i];
      && e.criterion.id in ix.keys && e.key in ix.shown
      && (exists k :: i <= k < |entries| && entries[k].criterion.id == e.criterion.id
                      && ix.keys[e.criterion.id] == entries[k].key)
      && (e.version.current ==> ix.shown[e.key].version.current)
      && (exists k :: 0 <= k < |entries| && entries[k] == ix.shown[e.key] && entries[k].key == e.key
                      && (k <= i || entries[k].version.current) && (k <= i || !e.version.current))
  {
    var rest, last := entries[..|entries| - 1], entries[|entries| - 1];
    assert forall j :: 0 <= j < |rest| ==> rest[j] == entries[j];
    if i < |rest| {
      IndexPrefersCurrent(rest, i);
    } else if last.key in IndexOf(rest).shown {
      IndexedFrom(rest);
      var k :| 0 <= k < |rest| && rest[k] == IndexOf(rest).shown[last.key];
      assert entries[k] == rest[k];
    }
  }

  /** The index knows no other id and shows no other entry. */
  lemma {:induction false} IndexedFrom(entries: seq<Entry>)
    ensures forall id :: id in IndexOf(entries).keys ==> exists e :: e in entries && e.criterion.id == id
    ensures forall key :: key in IndexOf(entries).shown ==>
      IndexOf(entries).shown[key] in entries && IndexOf(entries).shown[key].key == key
  {
    if entries != [] {
      var rest, last := entries[..|entries| - 1], entries[|entries| - 1];
      IndexedFrom(rest);
      assert entries == rest + [last];
      forall id | id in IndexOf(entries).keys ensures exists e :: e in entries && e.criterion.id == id {
        if id == last.criterion.id {
          assert last in entries;
        } else {
          assert id in IndexOf(rest).keys;
          var e :| e in rest && e.criterion.id == id;
          assert e in entries;
        }
      }
    }
  }

  // ---------------------------------------------------------------- the counters

  /** The places of the requests that are not visible. */
  function HiddenAt(requested: seq<string>, visible: set<string>): set<nat> {
    set i: nat | i < |requested| && requested[i] !in visible
  }

  lemma {:induction false} OmittedAreHidden(requested: seq<string>, visible: set<string>)
    ensures |requested| - |Kept(requested, visible)| == |HiddenAt(requested, visible)|
  {
    hide HiddenAt;
    if requested == [] {
      NothingHidden(visible);
    } else {
      var rest, last := requested[..|requested| - 1], requested[|requested| - 1];
      OmittedAreHidden(rest, visible);
      assert requested == rest + [last];
      HiddenNext(rest, last, visible);
    }
  }

  lemma HiddenNext(requested: seq<string>, id: string, visible: set<string>)
    ensures |HiddenAt(requested + [id], visible)| == |HiddenAt(requested, visible)| + if id in visible then 0 else 1
  {
    var before := HiddenAt(requested, visible);
    assert HiddenAt(requested + [id], visible) == if id in visible then before else before + {|requested|};
  }

  /** The call was scored and names no scenario, or names one outside the answer. */
  predicate NamesNone(call: Call, codes: map<string, string>) { call.scored && CallCode(call, codes) == None }

  predicate NamesOther(call: Call, names: seq<string>, codes: map<string, string>) {
    call.scored && CallCode(call, codes).Some? && CallCode(call, codes).value !in names
  }

  function UnknownAt(calls: seq<Call>, codes: map<string, string>): set<nat> {
    set i: nat | i < |calls| && NamesNone(calls[i], codes)
  }

  function OutsideAt(calls: seq<Call>, names: seq<string>, codes: map<string, string>): set<nat> {
    set i: nat | i < |calls| && NamesOther(calls[i], names, codes)
  }

  lemma UnknownNext(calls: seq<Call>, call: Call, codes: map<string, string>)
    ensures |UnknownAt(calls + [call], codes)| == |UnknownAt(calls, codes)| + if NamesNone(call, codes) then 1 else 0
  {
    hide NamesNone;
    var before := UnknownAt(calls, codes);
    assert UnknownAt(calls + [call], codes) == if NamesNone(call, codes) then before + {|calls|} else before;
  }

  lemma OutsideNext(calls: seq<Call>, call: Call, names: seq<string>, codes: map<string, string>)
    ensures |OutsideAt(calls + [call], names, codes)| ==
      |OutsideAt(calls, names, codes)| + if NamesOther(call, names, codes) then 1 else 0
  {
    hide NamesOther;
    var before := OutsideAt(calls, names, codes);
    assert OutsideAt(calls + [call], names, codes) ==
      if NamesOther(call, names, codes) then before + {|calls|} else before;
  }

  lemma {:induction false} ExcludedPlaces(calls: seq<Call>, names: seq<string>, codes: map<string, string>)
    ensures Count(Landing(calls, codes), None) == |UnknownAt(calls, codes)|
    ensures Elsewhere(calls, names, codes) == |OutsideAt(calls, names, codes)|
  {
    hide CallCode, UnknownAt, OutsideAt;
    if calls == [] {
      NobodyThere(names, codes);
    } else {
      var rest, last := calls[..|calls| - 1], calls[|calls| - 1];
      ExcludedPlaces(rest, names, codes);
      if last.scored { AppendCount(Landing(rest, codes), CallCode(last, codes), None); }
      assert calls == rest + [last];
      UnknownNext(rest, last, codes);
      OutsideNext(rest, last, names, codes);
    }
  }

  lemma NobodyThere(names: seq<string>, codes: map<string, string>)
    ensures UnknownAt([], codes) == {} && OutsideAt([], names, codes) == {}
  {}

  /** The counters of a scenario answer are exact: the requested ids that are not visible, the scored calls that name no
      scenario, and without a filter those that name one which has no row. */
  lemma ScenarioCounters(answer: Answer, catalog: seq<Version>, requested: seq<string>, calls: seq<Call>,
                         complete: bool)
    requires Answers(answer, catalog, requested, calls, complete)
    ensures answer.omitted == |HiddenAt(requested, set id | id in Ids(catalog))|
    ensures answer.status != NotAvailable ==>
      var codes, names := VersionCodes(catalog, calls), Names(catalog, requested, calls);
      && answer.unknown == |UnknownAt(calls, codes)|
      && answer.notInCatalog == if requested == [] then |OutsideAt(calls, names, codes)| else 0
  {
    hide VersionCodes, CallCode, Landing, Elsewhere, Kept, Firsts, CodesAt, Reports, UnknownAt, OutsideAt;
    OmittedAreHidden(requested, set id | id in Ids(catalog));
    ExcludedPlaces(calls, Names(catalog, requested, calls), VersionCodes(catalog, calls));
  }

  predicate AllItemsReadable(items: seq<Item>, ix: Index) {
    forall item :: item in items ==> item.criterionId in ix.keys
  }

  /** The places of the calls that gave no items, and of those with an item of an unreadable criterion. */
  function EmptyAt(calls: seq<Call>, details: map<string, seq<Item>>): set<nat> {
    set i: nat | i < |calls| && Items(calls[i], details) == []
  }

  function UnreadableAt(calls: seq<Call>, details: map<string, seq<Item>>, ix: Index): set<nat> {
    set i: nat | i < |calls| && !AllItemsReadable(Items(calls[i], details), ix)
  }

  lemma EvaluationNext(calls: seq<Call>, call: Call, details: map<string, seq<Item>>, ix: Index)
    ensures |EmptyAt(calls + [call], details)| ==
      |EmptyAt(calls, details)| + if Items(call, details) == [] then 1 else 0
    ensures |UnreadableAt(calls + [call], details, ix)| ==
      |UnreadableAt(calls, details, ix)| + if AllItemsReadable(Items(call, details), ix) then 0 else 1
  {
    hide Items, AllItemsReadable;
    var empty, unreadable := EmptyAt(calls, details), UnreadableAt(calls, details, ix);
    assert EmptyAt(calls + [call], details) == if Items(call, details) == [] then empty + {|calls|} else empty;
    assert UnreadableAt(calls + [call], details, ix) ==
      if AllItemsReadable(Items(call, details), ix) then unreadable else unreadable + {|calls|};
  }

  lemma {:induction false} EvaluationPlaces(calls: seq<Call>, details: map<string, seq<Item>>, ix: Index)
    ensures WithoutItems(calls, details) == |EmptyAt(calls, details)|
    ensures PartlyUnreadable(calls, details, ix) == |UnreadableAt(calls, details, ix)|
  {
    hide Items, SeenIn, Unreadable, EmptyAt, UnreadableAt;
    if calls == [] {
      NoneEvaluated(details, ix);
    } else {
      var rest, last := calls[..|calls| - 1], calls[|calls| - 1];
      EvaluationPlaces(rest, details, ix);
      ReadableItems(Items(last, details), ix);
      assert calls == rest + [last];
      EvaluationNext(rest, last, details, ix);
    }
  }

  lemma NoneEvaluated(details: map<string, seq<Item>>, ix: Index)
    ensures EmptyAt([], details) == {} && UnreadableAt([], details, ix) == {}
  {}

  lemma {:induction false} UnplacedCalls(calls: seq<Call>, codes: map<string, string>, only: Option<string>)
    ensures Unplaceable(calls, codes, only) == if only.Some? then |UnknownAt(calls, codes)| else 0
  {
    hide CallCode, UnknownAt;
    if calls == [] {
      NobodyThere([], codes);
    } else {
      var rest, last := calls[..|calls| - 1], calls[|calls| - 1];
      UnplacedCalls(rest, codes, only);
      assert calls == rest + [last];
      UnknownNext(rest, last, codes);
    }
  }

  /** The counters of a criterion answer are exact: the requested ids that are not readable, under a scenario the scored
      calls that name none, and the evaluated calls that gave no items or an unreadable one. */
  lemma CriterionCounters(reading: Reading)
    requires reading.ScenarioReadable()
    ensures var answer := reading.Answered();
      && answer.omitted == |HiddenAt(reading.requested, reading.Criteria().keys.Keys)|
      && (answer.status != NotAvailable ==>
            var evaluated := Evaluated(reading.calls, reading.Codes(), reading.Only());
            && answer.unknown == (if reading.scenario == None then 0 else |UnknownAt(reading.calls, reading.Codes())|)
            && answer.unavailable == |EmptyAt(evaluated, reading.details)|
            && answer.unreadable == |UnreadableAt(evaluated, reading.details, reading.Criteria())|)
  {
    hide Indexed, VersionCodes, Kept, Firsts, Split, Sorted, Cut, Evaluated, CallCode, Items, RowsOf, Landed, SeenOn,
      Unplaceable, WithoutItems, PartlyUnreadable, HiddenAt, UnknownAt, EmptyAt, UnreadableAt, UnreadableOn;
    OmittedAreHidden(reading.requested, reading.Criteria().keys.Keys);
    NothingHidden(reading.Criteria().keys.Keys);
    UnplacedCalls(reading.calls, reading.Codes(), reading.Only());
    EvaluationPlaces(Evaluated(reading.calls, reading.Codes(), reading.Only()), reading.details, reading.Criteria());
  }

  lemma NothingHidden(visible: set<string>)
    ensures HiddenAt([], visible) == {}
  {}

  // ---------------------------------------------------------------- equal ranks

  function OfRank(rows: seq<CriterionRow>, place: map<Key, int>, rank: int): seq<CriterionRow> {
    if rows == [] then []
    else
      var before, row := OfRank(rows[..|rows| - 1], place, rank), rows[|rows| - 1];
      if Rank(row, place) == rank then before + [row] else before
  }

  lemma {:induction false} InsertIsStable(rows: seq<CriterionRow>, row: CriterionRow, place: map<Key, int>, rank: int)
    ensures OfRank(Insert(rows, row, place), place, rank) ==
      if Rank(row, place) == rank then OfRank(rows, place, rank) + [row] else OfRank(rows, place, rank)
  {
    hide Rank;
    if rows == [] || Rank(rows[|rows| - 1], place) <= Rank(row, place) {
      assert (rows + [row])[..|rows|] == rows;
    } else {
      var rest, last := rows[..|rows| - 1], rows[|rows| - 1];
      InsertIsStable(rest, row, place, rank);
      assert (Insert(rest, row, place) + [last])[..|Insert(rest, row, place)|] == Insert(rest, row, place);
    }
  }

  /** The sort is stable: criteria of equal rank stay in the order in which they were first observed. */
  lemma {:induction false} SortIsStable(rows: seq<CriterionRow>, place: map<Key, int>, rank: int)
    ensures OfRank(Sorted(rows, place), place, rank) == OfRank(rows, place, rank)
  {
    hide Rank, Insert;
    if rows != [] {
      SortIsStable(rows[..|rows| - 1], place, rank);
      InsertIsStable(Sorted(rows[..|rows| - 1], place), rows[|rows| - 1], place, rank);
    }
  }
}
