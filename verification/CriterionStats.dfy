/** `get_criterion_performance` of server/okk_mcp/backend_client.py: which observations land in which row. */
module CriterionStats {
  import opened Common
  import opened Scenarios
  import opened Counting
  import opened ScenarioStats

  /** A criterion of a version; an empty code is a missing one. */
  datatype Criterion = Criterion(id: string, code: string, critical: bool)

  /** A catalog row with its criteria. */
  datatype Listing = Listing(version: Version, criteria: seq<Criterion>)

  /** One criterion of one scenario across all its versions. */
  datatype Key = Key(scenario: string, criterion: string)

  datatype Entry = Entry(criterion: Criterion, version: Version, key: Key)

  /** `criterion_keys`, with the order of its keys, and `shown`. */
  datatype Index = Index(order: seq<string>, keys: map<string, Key>, shown: map<Key, Entry>)

  /** An item of an evaluation; an item with a negative score is a violation. */
  datatype Item = Item(criterionId: string, negative: bool)

  datatype Seen = Seen(key: Option<Key>, negative: bool)

  datatype Tallied = Tallied(observations: nat, violations: nat)

  datatype CriterionRow = CriterionRow(key: Key, shown: Entry, tallied: Tallied)

  datatype Report = Report(effective: seq<string>, omitted: nat, quality: seq<CriterionRow>,
                           critical: seq<CriterionRow>, matching: nat, returned: nat,
                           unknown: nat, unavailable: nat, unreadable: nat, excludedObservations: nat, status: Status)

  // ---------------------------------------------------------------- the index of the criteria

  function Versions(listings: seq<Listing>): (catalog: seq<Version>)
    ensures |catalog| == |listings| && forall i :: 0 <= i < |listings| ==> catalog[i] == listings[i].version
  {
    if listings == [] then [] else Versions(listings[..|listings| - 1]) + [listings[|listings| - 1].version]
  }

  function EntryOf(criterion: Criterion, version: Version, code: string): Entry {
    Entry(criterion, version, Key(code, if criterion.code != "" then criterion.code else criterion.id))
  }

  function Add(ix: Index, entry: Entry): Index {
    var id, key := entry.criterion.id, entry.key;
    Index(if id in ix.keys then ix.order else ix.order + [id],
          ix.keys[id := key],
          if key !in ix.shown || (entry.version.current && !ix.shown[key].version.current) then ix.shown[key := entry]
          else ix.shown)
  }

  function AddAll(ix: Index, listing: Listing, code: string, n: nat): Index
    requires n <= |listing.criteria|
  {
    if n == 0 then ix
    else Add(AddAll(ix, listing, code, n - 1), EntryOf(listing.criteria[n - 1], listing.version, code))
  }

  /** The index of the first `n` rows, narrowed to one scenario when one is asked for. */
  function Indexed(listings: seq<Listing>, codes: map<string, string>, only: Option<string>, n: nat): Index
    requires n <= |listings|
    requires forall i :: 0 <= i < |listings| ==> listings[i].version.id in codes
  {
    if n == 0 then Index([], map[], map[])
    else
      var before, listing := Indexed(listings, codes, only, n - 1), listings[n - 1];
      var code := codes[listing.version.id];
      if only.Some? && code != only.value then before else AddAll(before, listing, code, |listing.criteria|)
  }

  method CriterionKeys(listings: seq<Listing>, codes: map<string, string>, only: Option<string>) returns (ix: Index)
    requires forall i :: 0 <= i < |listings| ==> listings[i].version.id in codes
    ensures ix == Indexed(listings, codes, only, |listings|)
  {
    var order: seq<string>, keys: map<string, Key>, shown: map<Key, Entry> := [], map[], map[];
    for i := 0 to |listings|
      invariant Index(order, keys, shown) == Indexed(listings, codes, only, i)
    {
      var version := listings[i].version;
      var code := codes[version.id];
      if only.Some? && code != only.value { continue; }
      ghost var before := Index(order, keys, shown);
      for j := 0 to |listings[i].criteria|
        invariant Index(order, keys, shown) == AddAll(before, listings[i], code, j)
      {
        var item := listings[i].criteria[j];
        var key := Key(code, if item.code != "" then item.code else item.id);
        if item.id !in keys { order := order + [item.id]; }
        keys := keys[item.id := key];
        if key !in shown || (version.current && !shown[key].version.current) {
          shown := shown[key := EntryOf(item, version, code)];
        }
      }
    }
    ix := Index(order, keys, shown);
  }

  /** Ids in order are the indexed ones, each once; every key has an entry to show it by, with that key. */
  ghost predicate Sound(ix: Index) {
    && Distinct(ix.order)
    && (forall id :: id in ix.order <==> id in ix.keys)
    && (forall id :: id in ix.keys ==> ix.keys[id] in ix.shown)
    && (forall key :: key in ix.shown ==> ix.shown[key].key == key)
  }

  lemma AddSound(ix: Index, entry: Entry)
    requires Sound(ix)
    ensures Sound(Add(ix, entry))
  {
  }

  lemma {:induction false} AddAllSound(ix: Index, listing: Listing, code: string, n: nat)
    requires Sound(ix) && n <= |listing.criteria|
    ensures Sound(AddAll(ix, listing, code, n))
  {
    hide Add, Sound;
    if n > 0 {
      AddAllSound(ix, listing, code, n - 1);
      AddSound(AddAll(ix, listing, code, n - 1), EntryOf(listing.criteria[n - 1], listing.version, code));
    }
  }

  lemma {:induction false} IndexedSound(listings: seq<Listing>, codes: map<string, string>, only: Option<string>,
                                        n: nat)
    requires n <= |listings|
    requires forall i :: 0 <= i < |listings| ==> listings[i].version.id in codes
    ensures Sound(Indexed(listings, codes, only, n))
  {
    if n > 0 {
      IndexedSound(listings, codes, only, n - 1);
      AddAllSound(Indexed(listings, codes, only, n - 1), listings[n - 1], codes[listings[n - 1].version.id],
                  |listings[n - 1].criteria|);
    }
  }

  // ---------------------------------------------------------------- the evaluated calls

  function Evaluated(calls: seq<Call>, codes: map<string, string>, only: Option<string>): seq<Call> {
    if calls == [] then []
    else
      var before, call := Evaluated(calls[..|calls| - 1], codes, only), calls[|calls| - 1];
      if call.scored && (only.None? || CallCode(call, codes) == only) then before + [call] else before
  }

  /** Scored calls that name no scenario, when one scenario is asked for. */
  function Unplaceable(calls: seq<Call>, codes: map<string, string>, only: Option<string>): nat {
    if calls == [] then 0
    else
      var call := calls[|calls| - 1];
      Unplaceable(calls[..|calls| - 1], codes, only)
        + (if call.scored && only.Some? && CallCode(call, codes).None? then 1 else 0)
  }

  method EvaluatedCalls(calls: seq<Call>, codes: map<string, string>, only: Option<string>)
    returns (evaluated: seq<Call>, unknown: nat)
    ensures evaluated == Evaluated(calls, codes, only)
    ensures unknown == Unplaceable(calls, codes, only)
  {
    evaluated, unknown := [], 0;
    for i := 0 to |calls|
      invariant evaluated == Evaluated(calls[..i], codes, only)
      invariant unknown == Unplaceable(calls[..i], codes, only)
    {
      assert calls[..i + 1][..i] == calls[..i];
      var call := calls[i];
      if !call.scored { continue; }
      if only.Some? {
        var code := CallCode(call, codes);
        if code.None? {
          unknown := unknown + 1;
          continue;
        }
        if code != only { continue; }
      }
      evaluated := evaluated + [call];
    }
    assert calls[..|calls|] == calls;
  }

  // ---------------------------------------------------------------- the observations

  /** The items of a call's evaluation; none when its card could not be read. */
  function Items(call: Call, details: map<string, seq<Item>>): seq<Item> {
    if call.id in details then details[call.id] else []
  }

  function SeenIn(items: seq<Item>, ix: Index): (seen: seq<Seen>)
    ensures |seen| == |items|
  {
    if items == [] then []
    else
      var item := items[|items| - 1];
      SeenIn(items[..|items| - 1], ix)
        + [Seen(if item.criterionId in ix.keys then Some(ix.keys[item.criterionId]) else None, item.negative)]
  }

  function SeenOn(calls: seq<Call>, details: map<string, seq<Item>>, ix: Index): seq<Seen> {
    if calls == [] then []
    else SeenOn(calls[..|calls| - 1], details, ix) + SeenIn(Items(calls[|calls| - 1], details), ix)
  }

  /** The observations of the effective criteria, with or without the ones that are no violation. */
  function Landed(seen: seq<Seen>, wanted: set<Key>, violationsOnly: bool): (landed: seq<Key>)
    ensures forall key :: key in landed ==> key in wanted
  {
    if seen == [] then []
    else
      var before, last := Landed(seen[..|seen| - 1], wanted, violationsOnly), seen[|seen| - 1];
      if last.key.Some? && last.key.value in wanted && (last.negative || !violationsOnly) then before + [last.key.value]
      else before
  }

  function Unreadable(seen: seq<Seen>): nat {
    if seen == [] then 0 else Unreadable(seen[..|seen| - 1]) + (if seen[|seen| - 1].key.None? then 1 else 0)
  }

  /** Observations of readable criteria that were not asked for. */
  function NotWanted(seen: seq<Seen>, wanted: set<Key>): nat {
    if seen == [] then 0
    else
      var last := seen[|seen| - 1];
      NotWanted(seen[..|seen| - 1], wanted) + (if last.key.Some? && last.key.value !in wanted then 1 else 0)
  }

  function WithoutItems(calls: seq<Call>, details: map<string, seq<Item>>): nat {
    if calls == [] then 0
    else WithoutItems(calls[..|calls| - 1], details) + (if Items(calls[|calls| - 1], details) == [] then 1 else 0)
  }

  /** Calls with an item whose criterion the account cannot read. */
  function PartlyUnreadable(calls: seq<Call>, details: map<string, seq<Item>>, ix: Index): nat {
    if calls == [] then 0
    else
      var last := SeenIn(Items(calls[|calls| - 1], details), ix);
      PartlyUnreadable(calls[..|calls| - 1], details, ix) + (if Unreadable(last) > 0 then 1 else 0)
  }

  function UnreadableOn(calls: seq<Call>, details: map<string, seq<Item>>, ix: Index): nat {
    if calls == [] then 0
    else UnreadableOn(calls[..|calls| - 1], details, ix) + Unreadable(SeenIn(Items(calls[|calls| - 1], details), ix))
  }

  predicate Tells(aggregate: map<Key, Tallied>, key: Key, all: seq<Key>, bad: seq<Key>) {
    && (key in aggregate <==> key in all)
    && (key in aggregate ==> aggregate[key] == Tallied(Count(all, key), Count(bad, key)))
  }

  /** What the aggregate holds of the observations `all`, `bad` of them violations. */
  ghost predicate Aggregates(order: seq<Key>, aggregate: map<Key, Tallied>, all: seq<Key>, bad: seq<Key>) {
    && order == Firsts(all)
    && (forall key {:trigger Tells(aggregate, key, all, bad)} :: Tells(aggregate, key, all, bad))
  }

  ghost predicate Collects(order: seq<Key>, aggregate: map<Key, Tallied>, seen: seq<Seen>, wanted: set<Key>) {
    Aggregates(order, aggregate, Landed(seen, wanted, false), Landed(seen, wanted, true))
  }

  function Tally1(aggregate: map<Key, Tallied>, key: Key, negative: bool): map<Key, Tallied> {
    var row := if key in aggregate then aggregate[key] else Tallied(0, 0);
    aggregate[key := Tallied(row.observations + 1, row.violations + if negative then 1 else 0)]
  }

  lemma AggregateNext(order: seq<Key>, aggregate: map<Key, Tallied>, all: seq<Key>, bad: seq<Key>, key: Key,
                      negative: bool)
    requires Aggregates(order, aggregate, all, bad)
    requires forall k :: k in bad ==> k in all
    ensures Aggregates(if key in aggregate then order else order + [key], Tally1(aggregate, key, negative),
                       all + [key], if negative then bad + [key] else bad)
  {
    assert Tells(aggregate, key, all, bad);
    AppendFirsts(all, key);
    var next, bad' := Tally1(aggregate, key, negative), if negative then bad + [key] else bad;
    forall k ensures Tells(next, k, all + [key], bad') {
      assert Tells(aggregate, k, all, bad);
      TellsNext(aggregate, all, bad, key, negative, k);
    }
  }

  lemma TellsNext(aggregate: map<Key, Tallied>, all: seq<Key>, bad: seq<Key>, key: Key, negative: bool, k: Key)
    requires Tells(aggregate, key, all, bad) && Tells(aggregate, k, all, bad)
    requires k in bad ==> k in all
    ensures Tells(Tally1(aggregate, key, negative), k, all + [key], if negative then bad + [key] else bad)
  {
    AppendCount(all, key, k);
    AppendCount(bad, key, k);
    if k !in all {
      NeverMet(all, k);
      NeverMet(bad, k);
    }
  }

  lemma LandedNext(seen: seq<Seen>, next: Seen, wanted: set<Key>)
    ensures next.key.Some? && next.key.value in wanted ==>
      && Landed(seen + [next], wanted, false) == Landed(seen, wanted, false) + [next.key.value]
      && Landed(seen + [next], wanted, true) ==
            (if next.negative then Landed(seen, wanted, true) + [next.key.value] else Landed(seen, wanted, true))
    ensures next.key.None? || next.key.value !in wanted ==>
      && Landed(seen + [next], wanted, false) == Landed(seen, wanted, false)
      && Landed(seen + [next], wanted, true) == Landed(seen, wanted, true)
  {
    assert (seen + [next])[..|seen|] == seen;
  }

  lemma {:induction false} ViolationsAreObserved(seen: seq<Seen>, wanted: set<Key>)
    ensures forall key :: key in Landed(seen, wanted, true) ==> key in Landed(seen, wanted, false)
  {
    if seen != [] {
      ViolationsAreObserved(seen[..|seen| - 1], wanted);
    }
  }

  lemma CollectsNext(order: seq<Key>, aggregate: map<Key, Tallied>, seen: seq<Seen>, next: Seen, wanted: set<Key>)
    requires Collects(order, aggregate, seen, wanted)
    ensures if next.key.Some? && next.key.value in wanted
      then Collects(if next.key.value in aggregate then order else order + [next.key.value],
                    Tally1(aggregate, next.key.value, next.negative), seen + [next], wanted)
      else Collects(order, aggregate, seen + [next], wanted)
  {
    LandedNext(seen, next, wanted);
    if next.key.Some? && next.key.value in wanted {
      ViolationsAreObserved(seen, wanted);
      AggregateNext(order, aggregate, Landed(seen, wanted, false), Landed(seen, wanted, true), next.key.value,
                    next.negative);
    }
  }

  method Aggregate(evaluated: seq<Call>, details: map<string, seq<Item>>, ix: Index, wanted: set<Key>)
    returns (order: seq<Key>, aggregate: map<Key, Tallied>, unavailable: nat,
             unreadable: nat, excludedObservations: nat)
    ensures Collects(order, aggregate, SeenOn(evaluated, details, ix), wanted)
    ensures unavailable == WithoutItems(evaluated, details)
    ensures unreadable == PartlyUnreadable(evaluated, details, ix)
    ensures excludedObservations == UnreadableOn(evaluated, details, ix)
  {
    hide Collects, SeenOn, SeenIn, WithoutItems, PartlyUnreadable, UnreadableOn, Unreadable, Items;
    NothingYet(details, ix, wanted);
    order, aggregate := [], map[];
    unavailable, unreadable, excludedObservations := 0, 0, 0;
    for i := 0 to |evaluated|
      invariant Collects(order, aggregate, SeenOn(evaluated[..i], details, ix), wanted)
      invariant unavailable == WithoutItems(evaluated[..i], details)
      invariant unreadable == PartlyUnreadable(evaluated[..i], details, ix)
      invariant excludedObservations == UnreadableOn(evaluated[..i], details, ix)
    {
      CallNext(evaluated, i, details, ix);
      var items := Items(evaluated[i], details);
      if items == [] {
        unavailable := unavailable + 1;
        continue;
      }
      var missed: nat;
      order, aggregate, missed := AggregateCall(items, ix, wanted, order, aggregate,
                                                SeenOn(evaluated[..i], details, ix));
      if missed > 0 {
        unreadable := unreadable + 1;
        excludedObservations := excludedObservations + missed;
      }
    }
    assert evaluated[..|evaluated|] == evaluated;
  }

  lemma NothingYet(details: map<string, seq<Item>>, ix: Index, wanted: set<Key>)
    ensures Collects([], map[], SeenOn([], details, ix), wanted)
    ensures WithoutItems([], details) == PartlyUnreadable([], details, ix) == UnreadableOn([], details, ix) == 0
  {
  }

  lemma NoneMissed(ix: Index)
    ensures SeenIn([], ix) == [] && Unreadable([]) == 0
  {
  }

  lemma CallNext(evaluated: seq<Call>, i: nat, details: map<string, seq<Item>>, ix: Index)
    requires i < |evaluated|
    ensures var items, done, next := Items(evaluated[i], details), evaluated[..i], evaluated[..i + 1];
      && SeenOn(next, details, ix) == SeenOn(done, details, ix) + SeenIn(items, ix)
      && (items == [] ==> SeenOn(next, details, ix) == SeenOn(done, details, ix) && Unreadable(SeenIn(items, ix)) == 0)
      && WithoutItems(next, details) == WithoutItems(done, details) + (if items == [] then 1 else 0)
      && PartlyUnreadable(next, details, ix) ==
            PartlyUnreadable(done, details, ix) + (if Unreadable(SeenIn(items, ix)) > 0 then 1 else 0)
      && UnreadableOn(next, details, ix) == UnreadableOn(done, details, ix) + Unreadable(SeenIn(items, ix))
  {
    assert evaluated[..i + 1][..i] == evaluated[..i];
  }

  /** The inner loop: the items of one call. */
  method AggregateCall(items: seq<Item>, ix: Index, wanted: set<Key>, order0: seq<Key>, aggregate0: map<Key, Tallied>,
                       ghost seen: seq<Seen>)
    returns (order: seq<Key>, aggregate: map<Key, Tallied>, missed: nat)
    requires Collects(order0, aggregate0, seen, wanted)
    ensures Collects(order, aggregate, seen + SeenIn(items, ix), wanted)
    ensures missed == Unreadable(SeenIn(items, ix))
  {
    hide Collects, SeenIn, Unreadable, Tally1;
    NoneMissed(ix);
    order, aggregate, missed := order0, aggregate0, 0;
    assert seen + [] == seen;
    for j := 0 to |items|
      invariant Collects(order, aggregate, seen + SeenIn(items[..j], ix), wanted)
      invariant missed == Unreadable(SeenIn(items[..j], ix))
    {
      assert items[..j + 1][..j] == items[..j];
      ghost var past := SeenIn(items[..j], ix);
      var known := items[j].criterionId in ix.keys;
      ghost var next := Seen(if known then Some(ix.keys[items[j].criterionId]) else None, items[j].negative);
      SeenNext(seen, items, j, ix, next);
      CollectsNext(order, aggregate, seen + past, next, wanted);
      if !known {
        missed := missed + 1;
      } else {
        var key := ix.keys[items[j].criterionId];
        if key in wanted {
          if key !in aggregate { order := order + [key]; }
          aggregate := Tally1(aggregate, key, items[j].negative);
        }
      }
    }
    assert items[..|items|] == items;
  }

  lemma SeenNext(seen: seq<Seen>, items: seq<Item>, j: nat, ix: Index, next: Seen)
    requires j < |items|
    requires next == Seen(if items[j].criterionId in ix.keys then Some(ix.keys[items[j].criterionId]) else None,
                          items[j].negative)
    ensures seen + SeenIn(items[..j + 1], ix) == seen + SeenIn(items[..j], ix) + [next]
    ensures Unreadable(SeenIn(items[..j + 1], ix)) ==
      Unreadable(SeenIn(items[..j], ix)) + if next.key.None? then 1 else 0
  {
    assert items[..j + 1][..j] == items[..j];
    var past := SeenIn(items[..j], ix);
    assert (past + [next])[..j] == past;
    assert seen + (past + [next]) == seen + past + [next];
  }

  // ---------------------------------------------------------------- the answer

  /** What is asked and what was read. `place` is where the average puts a criterion among the others. */
  datatype Reading = Reading(listings: seq<Listing>, requested: seq<string>, scenario: Option<string>, calls: seq<Call>,
                             total: nat, complete: bool, details: map<string, seq<Item>>, limit: nat,
                             place: map<Key, int>)
  {
    function Catalog(): seq<Version> { Versions(listings) }

    function Codes(): (codes: map<string, string>)
      ensures forall i :: 0 <= i < |listings| ==> listings[i].version.id in codes
    {
      assert forall i :: 0 <= i < |listings| ==> Catalog()[i] == listings[i].version;
      VersionCodes(Catalog(), calls)
    }

    predicate ScenarioReadable() { scenario.Some? ==> scenario.value in Codes() }

    function Only(): Option<string>
      requires ScenarioReadable()
    {
      if scenario.Some? then Some(Codes()[scenario.value]) else None
    }

    function Criteria(): (ix: Index)
      requires ScenarioReadable()
      ensures Sound(ix)
    {
      IndexedSound(listings, Codes(), Only(), |listings|);
      Indexed(listings, Codes(), Only(), |listings|)
    }

    function Effective(): (effective: seq<string>)
      requires ScenarioReadable()
      ensures forall id :: id in effective ==> id in Criteria().keys
    {
      if requested == [] then Criteria().order else Firsts(Kept(requested, Criteria().keys.Keys))
    }

    function Wanted(): (wanted: set<Key>)
      requires ScenarioReadable()
      ensures forall key :: key in wanted ==> key in Criteria().shown
    {
      set id | id in Effective() :: Criteria().keys[id]
    }

    function Observed(): seq<Seen>
      requires ScenarioReadable()
    {
      SeenOn(Evaluated(calls, Codes(), Only()), details, Criteria())
    }

    /** The rows of the aggregate, in the order the criteria were first observed. */
    function Table(): seq<CriterionRow>
      requires ScenarioReadable()
    {
      var all := Landed(Observed(), Wanted(), false);
      RowsOf(Firsts(all), all, Landed(Observed(), Wanted(), true), Criteria())
    }

    function Compiled(omitted: nat): Report
      requires ScenarioReadable()
    {
      var evaluated := Evaluated(calls, Codes(), Only());
      Finish(this, omitted, Split(Table(), false), Split(Table(), true), Unplaceable(calls, Codes(), Only()),
             WithoutItems(evaluated, details), PartlyUnreadable(evaluated, details, Criteria()),
             UnreadableOn(evaluated, details, Criteria()))
    }

    function Answered(): Report {
      if !ScenarioReadable() then Report([], 0, [], [], 0, 0, 0, 0, 0, 0, NotAvailable)
      else
        var omitted := if requested == [] then 0 else |requested| - |Kept(requested, Criteria().keys.Keys)|;
        if requested != [] && Effective() == [] then Report([], omitted, [], [], 0, 0, 0, 0, 0, 0, NotAvailable)
        else Compiled(omitted)
    }
  }

  function RowsOf(order: seq<Key>, all: seq<Key>, bad: seq<Key>, ix: Index): (rows: seq<CriterionRow>)
    requires forall key :: key in order ==> key in ix.shown
    ensures |rows| == |order|
    ensures forall i :: 0 <= i < |order| ==>
      rows[i] == CriterionRow(order[i], ix.shown[order[i]], Tallied(Count(all, order[i]), Count(bad, order[i])))
  {
    if order == [] then []
    else
      var key := order[|order| - 1];
      RowsOf(order[..|order| - 1], all, bad, ix)
        + [CriterionRow(key, ix.shown[key], Tallied(Count(all, key), Count(bad, key)))]
  }

  /** The rows of critical, or of other, criteria. */
  function Split(rows: seq<CriterionRow>, critical: bool): seq<CriterionRow> {
    if rows == [] then []
    else
      var before, row := Split(rows[..|rows| - 1], critical), rows[|rows| - 1];
      if row.shown.criterion.critical == critical then before + [row] else before
  }

  function Rank(row: CriterionRow, place: map<Key, int>): int {
    if row.shown.criterion.critical then 0 - row.tallied.violations else if row.key in place then place[row.key] else 0
  }

  function Insert(rows: seq<CriterionRow>, row: CriterionRow, place: map<Key, int>): seq<CriterionRow> {
    if rows == [] || Rank(rows[|rows| - 1], place) <= Rank(row, place) then rows + [row]
    else Insert(rows[..|rows| - 1], row, place) + [rows[|rows| - 1]]
  }

  /** `list.sort` by the rank: stable, lowest first. */
  function Sorted(rows: seq<CriterionRow>, place: map<Key, int>): seq<CriterionRow>
  {
    if rows == [] then [] else Insert(Sorted(rows[..|rows| - 1], place), rows[|rows| - 1], place)
  }

  function Cut(rows: seq<CriterionRow>, limit: nat): seq<CriterionRow> {
    if |rows| <= limit then rows else rows[..limit]
  }

  /** Sorting, the limit and the status. */
  function Finish(reading: Reading, omitted: nat, quality: seq<CriterionRow>, critical: seq<CriterionRow>, unknown: nat,
                  unavailable: nat, unreadable: nat, excludedObservations: nat): Report
    requires reading.ScenarioReadable()
  {
    var best, worst := Cut(Sorted(quality, reading.place), reading.limit),
      Cut(Sorted(critical, reading.place), reading.limit);
    var matching, returned := |quality| + |critical|, |best| + |worst|;
    var truncated := !reading.complete || reading.total > |reading.calls| || returned < matching;
    Report(reading.Effective(), omitted, best, worst, matching, returned, unknown, unavailable, unreadable,
           excludedObservations,
           if truncated || unknown + unavailable + unreadable > 0 then Partial else if matching > 0 then Ok else NoData)
  }

  /** The part of `get_criterion_performance` after its reads. */
  method CriterionPerformance(reading: Reading) returns (answer: Report)
    ensures answer == reading.Answered()
  {
    hide Finish, Indexed, Kept, Firsts, VersionCodes, Versions;
    var codes := ScenarioVersionsByCode(reading.Catalog(), reading.calls);
    if reading.scenario.Some? && reading.scenario.value !in codes {
      return Report([], 0, [], [], 0, 0, 0, 0, 0, 0, NotAvailable);
    }
    var only := if reading.scenario.Some? then Some(codes[reading.scenario.value]) else None;
    assert codes == reading.Codes() && only == reading.Only();
    var ix := CriterionKeys(reading.listings, codes, only);
    var effective, omitted := ix.order, 0;
    if reading.requested != [] {
      effective, omitted := SelectVisible(reading.requested, ix.keys.Keys);
      if effective == [] {
        return Report([], omitted, [], [], 0, 0, 0, 0, 0, 0, NotAvailable);
      }
    }
    answer := Compile(reading, codes, only, ix, effective, omitted);
  }

  method Compile(reading: Reading, codes: map<string, string>, only: Option<string>, ix: Index, effective: seq<string>,
                 omitted: nat)
    returns (answer: Report)
    requires reading.ScenarioReadable()
    requires codes == reading.Codes() && only == reading.Only() && ix == reading.Criteria()
    requires effective == reading.Effective()
    ensures answer == reading.Compiled(omitted)
  {
    var evaluated, unknown := EvaluatedCalls(reading.calls, codes, only);
    var wanted := set id | id in effective :: ix.keys[id];
    assert wanted == reading.Wanted();
    var order, aggregate, unavailable, unreadable, excludedObservations :=
      Aggregate(evaluated, reading.details, ix, wanted);
    var quality, critical := Lists(order, aggregate, ix, reading.Observed(), wanted);
    answer := Finish(reading, omitted, quality, critical, unknown, unavailable, unreadable, excludedObservations);
  }

  method Lists(order: seq<Key>, aggregate: map<Key, Tallied>, ix: Index, ghost seen: seq<Seen>, wanted: set<Key>)
    returns (quality: seq<CriterionRow>, critical: seq<CriterionRow>)
    requires Collects(order, aggregate, seen, wanted)
    requires forall key :: key in wanted ==> key in ix.shown
    ensures var rows := RowsOf(order, Landed(seen, wanted, false), Landed(seen, wanted, true), ix);
      quality == Split(rows, false) && critical == Split(rows, true)
  {
    ghost var all, bad := Landed(seen, wanted, false), Landed(seen, wanted, true);
    ghost var rows := RowsOf(order, all, bad, ix);
    quality, critical := [], [];
    for i := 0 to |order|
      invariant quality == Split(rows[..i], false)
      invariant critical == Split(rows[..i], true)
    {
      assert rows[..i + 1][..i] == rows[..i];
      assert Tells(aggregate, order[i], all, bad);
      var row := CriterionRow(order[i], ix.shown[order[i]], aggregate[order[i]]);
      assert row == rows[i];
      if row.shown.criterion.critical { critical := critical + [row]; } else { quality := quality + [row]; }
    }
    assert rows[..|order|] == rows;
  }

  // ---------------------------------------------------------------- what the answer says

  function Observations(rows: seq<CriterionRow>): nat {
    if rows == [] then 0 else Observations(rows[..|rows| - 1]) + rows[|rows| - 1].tallied.observations
  }

  /** The evaluation items of some calls. */
  function ItemCount(calls: seq<Call>, details: map<string, seq<Item>>): nat {
    if calls == [] then 0 else ItemCount(calls[..|calls| - 1], details) + |Items(calls[|calls| - 1], details)|
  }

  /** Scored calls of other scenarios, when one is asked for. */
  function OfOthers(calls: seq<Call>, codes: map<string, string>, only: Option<string>): nat {
    if calls == [] then 0
    else
      var call := calls[|calls| - 1];
      var code := CallCode(call, codes);
      OfOthers(calls[..|calls| - 1], codes, only)
        + (if call.scored && only.Some? && code.Some? && code != only then 1 else 0)
  }

  /** Every row was observed at least once. */
  predicate AllObserved(rows: seq<CriterionRow>) { forall row :: row in rows ==> row.tallied.observations > 0 }

  predicate Ordered(rows: seq<CriterionRow>, place: map<Key, int>) {
    forall i, j :: 0 <= i < j < |rows| ==> Rank(rows[i], place) <= Rank(rows[j], place)
  }

  /** Conservation, for any status: the rows before the limit, the observations excluded as unreadable
      and those of criteria nobody asked for are all the items of the evaluated calls; and the
      evaluated calls, those without a scenario and those of other scenarios are all the scored ones. */
  lemma EveryObservationLands(reading: Reading)
    requires reading.ScenarioReadable() && reading.Answered().status != NotAvailable
    ensures var evaluated := Evaluated(reading.calls, reading.Codes(), reading.Only());
      && Observations(reading.Table()) + reading.Answered().excludedObservations
           + NotWanted(reading.Observed(), reading.Wanted())
           == ItemCount(evaluated, reading.details)
      && |evaluated| + reading.Answered().unknown + OfOthers(reading.calls, reading.Codes(), reading.Only()) ==
           |Scored(reading.calls)|
  {
    var evaluated := Evaluated(reading.calls, reading.Codes(), reading.Only());
    TableAdds(reading);
    SeenParts(reading.Observed(), reading.Wanted());
    SeenTotals(evaluated, reading.details, reading.Criteria());
    CallParts(reading.calls, reading.Codes(), reading.Only());
  }

  /** An unfiltered answer is `ok` exactly when the journal was read whole, every scored call gave its
      items, and the two returned lists hold every one of those items. */
  lemma OkIffAllObservationsShown(reading: Reading)
    requires reading.requested == [] && reading.scenario == None
    ensures var answer, scored := reading.Answered(), Scored(reading.calls);
      answer.status == Ok <==>
        && reading.complete && reading.total <= |reading.calls|
        && answer.quality + answer.critical != []
        && WithoutItems(scored, reading.details) == 0
        && Observations(answer.quality) + Observations(answer.critical) == ItemCount(scored, reading.details)
  {
    hide Observations, ItemCount, Scored, Evaluated, Unplaceable, SeenOn, Split, Sorted, Cut, RowsOf, NotWanted,
      WithoutItems, PartlyUnreadable, UnreadableOn, VersionCodes, Versions, Indexed, Sound, Landed, Kept;
    var answer, table := reading.Answered(), reading.Table();
    EveryObservationLands(reading);
    EvaluatedIsScored(reading.calls, reading.Codes());
    AllWanted(Scored(reading.calls), reading);
    UnreadableCounted(Scored(reading.calls), reading.details, reading.Criteria());
    TableObserved(reading);
    SplitAdds(table);
    ListIsCut(Split(table, false), reading.place, reading.limit);
    ListIsCut(Split(table, true), reading.place, reading.limit);
    NoneUnplaceable(reading.calls, reading.Codes());
  }

  function Returned(answer: Report, critical: bool): seq<CriterionRow> {
    if critical then answer.critical else answer.quality
  }

  /** The limit never hides a worse criterion: a row left out ranks no better than any row returned,
      so a critical error left out has no more violations than each one shown. */
  lemma LimitKeepsTheWorst(reading: Reading, left: CriterionRow, kept: CriterionRow, critical: bool)
    requires reading.ScenarioReadable() && reading.Answered().status != NotAvailable
    requires left in Split(reading.Table(), critical)
    requires left !in Returned(reading.Answered(), critical) && kept in Returned(reading.Answered(), critical)
    ensures Rank(kept, reading.place) <= Rank(left, reading.place)
    ensures critical ==> left.tallied.violations <= kept.tallied.violations
  {
    var rows := Split(reading.Table(), critical);
    SortedOrders(rows, reading.place);
    CutKeepsFirst(Sorted(rows, reading.place), reading.place, reading.limit, left, kept);
    SplitKind(reading.Table(), critical);
    assert kept in rows;
  }

  lemma CutKeepsFirst(sorted: seq<CriterionRow>, place: map<Key, int>, limit: nat, left: CriterionRow,
                      kept: CriterionRow)
    requires Ordered(sorted, place)
    requires left in sorted && left !in Cut(sorted, limit) && kept in Cut(sorted, limit)
    ensures kept in sorted && Rank(kept, place) <= Rank(left, place)
  {
    var i :| 0 <= i < |sorted| && sorted[i] == left;
    var j :| 0 <= j < |Cut(sorted, limit)| && Cut(sorted, limit)[j] == kept;
    forall m | 0 <= m < |Cut(sorted, limit)| ensures sorted[m] != left {
      assert Cut(sorted, limit)[m] in Cut(sorted, limit);
    }
    assert sorted[j] == kept && j < i;
  }

  lemma {:induction false} SplitKind(rows: seq<CriterionRow>, critical: bool)
    ensures forall row :: row in Split(rows, critical) ==> row in rows && row.shown.criterion.critical == critical
  {
    if rows != [] {
      SplitKind(rows[..|rows| - 1], critical);
    }
  }

  lemma {:induction false} InsertKeeps(rows: seq<CriterionRow>, row: CriterionRow, place: map<Key, int>)
    ensures multiset(Insert(rows, row, place)) == multiset(rows) + multiset{row}
  {
    hide Rank;
    if rows != [] && Rank(rows[|rows| - 1], place) > Rank(row, place) {
      InsertKeeps(rows[..|rows| - 1], row, place);
      assert rows == rows[..|rows| - 1] + [rows[|rows| - 1]];
    }
  }

  lemma {:induction false} InsertCounts(rows: seq<CriterionRow>, row: CriterionRow, place: map<Key, int>)
    ensures Observations(Insert(rows, row, place)) == Observations(rows) + row.tallied.observations
  {
    hide Rank;
    if rows == [] || Rank(rows[|rows| - 1], place) <= Rank(row, place) {
      ObservationsAppend(rows, row);
    } else {
      InsertCounts(rows[..|rows| - 1], row, place);
      ObservationsAppend(Insert(rows[..|rows| - 1], row, place), rows[|rows| - 1]);
    }
  }

  lemma ObservationsAppend(rows: seq<CriterionRow>, row: CriterionRow)
    ensures Observations(rows + [row]) == Observations(rows) + row.tallied.observations
  {
    assert (rows + [row])[..|rows|] == rows;
  }

  lemma {:induction false} InsertOrders(rows: seq<CriterionRow>, row: CriterionRow, place: map<Key, int>)
    requires Ordered(rows, place)
    ensures Ordered(Insert(rows, row, place), place)
  {
    hide Rank;
    if rows != [] && Rank(rows[|rows| - 1], place) > Rank(row, place) {
      var rest, last := rows[..|rows| - 1], rows[|rows| - 1];
      InsertOrders(rest, row, place);
      InsertBounded(rest, row, place, Rank(last, place));
    }
  }

  lemma {:induction false} InsertBounded(rows: seq<CriterionRow>, row: CriterionRow, place: map<Key, int>, bound: int)
    requires Rank(row, place) <= bound && forall i :: 0 <= i < |rows| ==> Rank(rows[i], place) <= bound
    ensures forall i :: 0 <= i < |Insert(rows, row, place)| ==> Rank(Insert(rows, row, place)[i], place) <= bound
  {
    hide Rank;
    if rows != [] {
      InsertBounded(rows[..|rows| - 1], row, place, bound);
    }
  }

  lemma {:induction false} SortedKeeps(rows: seq<CriterionRow>, place: map<Key, int>)
    ensures multiset(Sorted(rows, place)) == multiset(rows)
    ensures Observations(Sorted(rows, place)) == Observations(rows)
  {
    hide Insert;
    if rows != [] {
      var rest, last := rows[..|rows| - 1], rows[|rows| - 1];
      SortedKeeps(rest, place);
      InsertKeeps(Sorted(rest, place), last, place);
      InsertCounts(Sorted(rest, place), last, place);
      assert rows == rest + [last];
    }
  }

  lemma {:induction false} SortedOrdered(rows: seq<CriterionRow>, place: map<Key, int>)
    ensures Ordered(Sorted(rows, place), place)
  {
    hide Insert, Rank;
    if rows != [] {
      SortedOrdered(rows[..|rows| - 1], place);
      InsertOrders(Sorted(rows[..|rows| - 1], place), rows[|rows| - 1], place);
    }
  }

  lemma SortedOrders(rows: seq<CriterionRow>, place: map<Key, int>)
    ensures Ordered(Sorted(rows, place), place)
    ensures |Sorted(rows, place)| == |rows|
    ensures Observations(Sorted(rows, place)) == Observations(rows)
    ensures forall row :: row in Sorted(rows, place) <==> row in rows
  {
    hide Sorted, Observations, Ordered;
    SortedOrdered(rows, place);
    SortedKeeps(rows, place);
    SameMembers(Sorted(rows, place), rows);
  }

  lemma SameMembers(a: seq<CriterionRow>, b: seq<CriterionRow>)
    requires multiset(a) == multiset(b)
    ensures |a| == |b| && forall row :: row in a <==> row in b
  {
    assert |multiset(a)| == |a| && |multiset(b)| == |b|;
    forall row ensures row in a <==> row in b {
      assert row in multiset(a) <==> row in multiset(b);
    }
  }

  /** What a list shows is everything exactly when the limit cut nothing. */
  lemma ListIsCut(rows: seq<CriterionRow>, place: map<Key, int>, limit: nat)
    requires AllObserved(rows)
    ensures var list := Cut(Sorted(rows, place), limit);
      && |list| <= |rows| && Observations(list) + |rows| - |list| <= Observations(rows)
      && (|list| == |rows| ==> Observations(list) == Observations(rows))
  {
    SortedOrders(rows, place);
    CutLoses(Sorted(rows, place), limit);
  }

  lemma {:induction false} CutLoses(rows: seq<CriterionRow>, limit: nat)
    requires AllObserved(rows)
    ensures Observations(Cut(rows, limit)) + |rows| - |Cut(rows, limit)| <= Observations(rows)
  {
    if |rows| > limit {
      var rest := rows[..|rows| - 1];
      CutLoses(rest, limit);
      assert rows[|rows| - 1] in rows;
      assert Cut(rest, limit) == Cut(rows, limit);
    }
  }

  lemma {:induction false} SplitAdds(rows: seq<CriterionRow>)
    ensures Observations(Split(rows, false)) + Observations(Split(rows, true)) == Observations(rows)
    ensures |Split(rows, false)| + |Split(rows, true)| == |rows|
    ensures forall row :: row in Split(rows, false) || row in Split(rows, true) ==> row in rows
  {
    if rows != [] {
      var rest, last := rows[..|rows| - 1], rows[|rows| - 1];
      SplitAdds(rest);
      assert (Split(rest, last.shown.criterion.critical) + [last])[..|Split(rest, last.shown.criterion.critical)|]
        == Split(rest, last.shown.criterion.critical);
    }
  }

  lemma TableAdds(reading: Reading)
    requires reading.ScenarioReadable()
    ensures Observations(reading.Table()) == |Landed(reading.Observed(), reading.Wanted(), false)|
  {
    var all := Landed(reading.Observed(), reading.Wanted(), false);
    RowsAdd(Firsts(all), all, Landed(reading.Observed(), reading.Wanted(), true), reading.Criteria());
    TallyIsComplete(all);
  }

  lemma {:induction false} RowsAdd(order: seq<Key>, all: seq<Key>, bad: seq<Key>, ix: Index)
    requires forall key :: key in order ==> key in ix.shown
    ensures Observations(RowsOf(order, all, bad, ix)) == SumOfCounts(all, order)
  {
    if order != [] {
      var rest := order[..|order| - 1];
      RowsAdd(rest, all, bad, ix);
      assert RowsOf(order, all, bad, ix)[..|rest|] == RowsOf(rest, all, bad, ix);
    }
  }

  lemma TableObserved(reading: Reading)
    requires reading.ScenarioReadable()
    ensures AllObserved(reading.Table())
  {
    var all := Landed(reading.Observed(), reading.Wanted(), false);
    forall row | row in reading.Table() ensures row.tallied.observations > 0 {
      var i :| 0 <= i < |reading.Table()| && reading.Table()[i] == row;
      assert Firsts(all)[i] in all;
      Met(all, Firsts(all)[i]);
    }
  }

  lemma {:induction false} SeenParts(seen: seq<Seen>, wanted: set<Key>)
    ensures |Landed(seen, wanted, false)| + Unreadable(seen) + NotWanted(seen, wanted) == |seen|
  {
    if seen != [] { SeenParts(seen[..|seen| - 1], wanted); }
  }

  lemma {:induction false} SeenTotals(calls: seq<Call>, details: map<string, seq<Item>>, ix: Index)
    ensures |SeenOn(calls, details, ix)| == ItemCount(calls, details)
    ensures Unreadable(SeenOn(calls, details, ix)) == UnreadableOn(calls, details, ix)
  {
    if calls != [] {
      var rest := calls[..|calls| - 1];
      SeenTotals(rest, details, ix);
      UnreadableAdds(SeenOn(rest, details, ix), SeenIn(Items(calls[|calls| - 1], details), ix));
    }
  }

  lemma {:induction false} UnreadableAdds(a: seq<Seen>, b: seq<Seen>)
    ensures Unreadable(a + b) == Unreadable(a) + Unreadable(b)
  {
    if b == [] {
      assert a + b == a;
    } else {
      UnreadableAdds(a, b[..|b| - 1]);
      assert (a + b)[..|a + b| - 1] == a + b[..|b| - 1];
    }
  }

  lemma {:induction false} CallParts(calls: seq<Call>, codes: map<string, string>, only: Option<string>)
    ensures |Evaluated(calls, codes, only)| + Unplaceable(calls, codes, only) + OfOthers(calls, codes, only) ==
      |Scored(calls)|
  {
    if calls != [] { CallParts(calls[..|calls| - 1], codes, only); }
  }

  lemma {:induction false} EvaluatedIsScored(calls: seq<Call>, codes: map<string, string>)
    ensures Evaluated(calls, codes, None) == Scored(calls)
  {
    if calls != [] { EvaluatedIsScored(calls[..|calls| - 1], codes); }
  }

  lemma {:induction false} NoneUnplaceable(calls: seq<Call>, codes: map<string, string>)
    ensures Unplaceable(calls, codes, None) == 0
  {
    if calls != [] { NoneUnplaceable(calls[..|calls| - 1], codes); }
  }

  /** Without a filter every readable observation is wanted. */
  lemma {:induction false} AllWanted(calls: seq<Call>, reading: Reading)
    requires reading.ScenarioReadable() && reading.requested == []
    ensures NotWanted(SeenOn(calls, reading.details, reading.Criteria()), reading.Wanted()) == 0
  {
    SeenReadable(calls, reading.details, reading.Criteria());
    NoneUnwanted(SeenOn(calls, reading.details, reading.Criteria()), reading.Wanted());
  }

  lemma {:induction false} NoneUnwanted(seen: seq<Seen>, wanted: set<Key>)
    requires forall one :: one in seen && one.key.Some? ==> one.key.value in wanted
    ensures NotWanted(seen, wanted) == 0
  {
    if seen != [] {
      NoneUnwanted(seen[..|seen| - 1], wanted);
      assert seen[|seen| - 1] in seen;
    }
  }

  lemma {:induction false} SeenReadable(calls: seq<Call>, details: map<string, seq<Item>>, ix: Index)
    ensures forall one :: one in SeenOn(calls, details, ix) && one.key.Some? ==>
      exists id :: id in ix.keys && ix.keys[id] == one.key.value
  {
    if calls != [] {
      SeenReadable(calls[..|calls| - 1], details, ix);
      ItemsReadable(Items(calls[|calls| - 1], details), ix);
    }
  }

  lemma {:induction false} ItemsReadable(items: seq<Item>, ix: Index)
    ensures forall one :: one in SeenIn(items, ix) && one.key.Some? ==>
      exists id :: id in ix.keys && ix.keys[id] == one.key.value
  {
    if items != [] { ItemsReadable(items[..|items| - 1], ix); }
  }

  /** A call is counted as partly unreadable exactly when one of its observations is excluded. */
  lemma {:induction false} UnreadableCounted(calls: seq<Call>, details: map<string, seq<Item>>, ix: Index)
    ensures PartlyUnreadable(calls, details, ix) <= UnreadableOn(calls, details, ix)
    ensures PartlyUnreadable(calls, details, ix) == 0 <==> UnreadableOn(calls, details, ix) == 0
  {
    if calls != [] { UnreadableCounted(calls[..|calls| - 1], details, ix); }
  }
}
