/** `validate_department_employee_grounding` of server/scripts/smoke_release.py, and why every report passes it. */
module ReleaseCheck {
  import opened Common
  import opened Payloads
  import opened Directory
  import opened Grounding
  import opened DepartmentReport

  datatype Refusal =
    | NotInspectable
    | NotLive
    | NotAuthoritative
    | OtherScope
    | CountsDiffer
    | DuplicateIds
    | OutsideRoster
    | UngroundedName

  /** `dict(zip(ids, names, strict=True))` */
  function Zip(ids: seq<string>, names: seq<string>): map<string, string>
    requires |ids| == |names|
  {
    if ids == [] then map[] else Zip(ids[..|ids| - 1], names[..|names| - 1])[ids[|ids| - 1] := names[|names| - 1]]
  }

  /** The employee the checker reads from a row: any of three places. */
  function CheckedId(row: Record): string {
    var id := Or(Get(row, "employee_id"), Or(Get(row, "id"), Get(Nested(row, "employee"), "id")));
    if Truthy(id) then Str(id) else ""
  }

  /** The name the checker reads from a row. */
  function CheckedName(row: Record): Value {
    Or(Get(row, "full_name"), Or(Get(row, "employee_name"), Get(Nested(row, "employee"), "full_name")))
  }

  function RowRefusal(row: Record, names: map<string, string>): Option<Refusal> {
    if CheckedId(row) !in names then Some(OutsideRoster)
    else if CheckedName(row) != Text(names[CheckedId(row)]) then Some(UngroundedName)
    else None
  }

  function RowsRefusal(rows: seq<Record>, names: map<string, string>): Option<Refusal> {
    if rows == [] then None
    else if RowRefusal(rows[0], names).Some? then RowRefusal(rows[0], names)
    else RowsRefusal(rows[1..], names)
  }

  /** The three employee lists, in the order they are inspected. */
  function Inspected(report: Report): seq<Record> {
    report.ranking + (if report.trends.Some? then report.trends.value else [])
      + (if report.plan.PlanFact? then report.plan.employees else [])
  }

  /** The first complaint, or none. */
  function Validate(report: Report): Option<Refusal> {
    if report.status != "ok" && report.status != "partial" then Some(NotInspectable)
    else if report.grounding.None? || report.grounding.value.source != LIVE then Some(NotLive)
    else
      var card := report.grounding.value;
      if !card.authoritative then Some(NotAuthoritative)
      else if card.scope != report.scope then Some(OtherScope)
      else if card.employeeCount != |card.employeeIds| || |card.employeeIds| != |card.employeeNames|
      then Some(CountsDiffer)
      else if |ElementsOf(card.employeeIds)| != |card.employeeIds| then Some(DuplicateIds)
      else RowsRefusal(Inspected(report), Zip(card.employeeIds, card.employeeNames))
  }

  /** A row speaks of somebody in the roster, by the name the roster gives. */
  predicate SpeaksOf(row: Record, card: RosterCard) {
    exists i :: 0 <= i < |card.employeeIds| == |card.employeeNames|
      && card.employeeIds[i] == CheckedId(row) && CheckedName(row) == Text(card.employeeNames[i])
  }

  /** What the checker lets through: exactly the reports whose card is live, authoritative, of the same
      scope, with matching counts and unique ids, and whose every row speaks of somebody on it. */
  lemma AcceptedIffGrounded(report: Report)
    ensures Validate(report) == None <==>
      && (report.status == "ok" || report.status == "partial")
      && report.grounding.Some?
      && var card := report.grounding.value;
      && card.source == LIVE && card.authoritative && card.scope == report.scope
      && card.employeeCount == |card.employeeIds| == |card.employeeNames|
      && (forall i, j :: 0 <= i < j < |card.employeeIds| ==> card.employeeIds[i] != card.employeeIds[j])
      && (forall row :: row in Inspected(report) ==> SpeaksOf(row, card))
  {
    if report.grounding.Some? {
      var card := report.grounding.value;
      UniqueIffAsManyIds(card.employeeIds);
      if |card.employeeIds| == |card.employeeNames| && forall i, j :: 0 <= i < j < |card.employeeIds| ==>
        card.employeeIds[i] != card.employeeIds[j] {
        RowsAccepted(Inspected(report), card);
      }
    }
  }

  lemma {:induction false} UniqueIffAsManyIds(ids: seq<string>)
    ensures |ElementsOf(ids)| <= |ids|
    ensures |ElementsOf(ids)| == |ids| <==> forall i, j :: 0 <= i < j < |ids| ==> ids[i] != ids[j]
  {
    if ids != [] {
      var rest, last := ids[..|ids| - 1], ids[|ids| - 1];
      UniqueIffAsManyIds(rest);
      assert ids == rest + [last];
      assert ElementsOf(ids) == ElementsOf(rest) + {last};
      if last in rest {
        var i :| 0 <= i < |rest| && rest[i] == last;
        assert ids[i] == ids[|rest|];
        assert ElementsOf(ids) == ElementsOf(rest);
      }
    }
  }

  lemma {:induction false} ZipAt(ids: seq<string>, names: seq<string>)
    requires |ids| == |names|
    requires forall i, j :: 0 <= i < j < |ids| ==> ids[i] != ids[j]
    ensures forall i :: 0 <= i < |ids| ==> ids[i] in Zip(ids, names) && Zip(ids, names)[ids[i]] == names[i]
    ensures forall id :: id in Zip(ids, names) ==> id in ids
  {
    if ids != [] {
      ZipAt(ids[..|ids| - 1], names[..|names| - 1]);
    }
  }

  lemma {:induction false} RowsAccepted(rows: seq<Record>, card: RosterCard)
    requires |card.employeeIds| == |card.employeeNames|
    requires forall i, j :: 0 <= i < j < |card.employeeIds| ==> card.employeeIds[i] != card.employeeIds[j]
    ensures RowsRefusal(rows, Zip(card.employeeIds, card.employeeNames)) == None <==>
      forall row :: row in rows ==> SpeaksOf(row, card)
  {
    hide Zip, CheckedId, CheckedName;
    var names := Zip(card.employeeIds, card.employeeNames);
    ZipAt(card.employeeIds, card.employeeNames);
    if rows != [] {
      RowsAccepted(rows[1..], card);
      assert RowRefusal(rows[0], names) == None <==> SpeaksOf(rows[0], card) by {
        if CheckedId(rows[0]) in names {
          var i :| 0 <= i < |card.employeeIds| && card.employeeIds[i] == CheckedId(rows[0]);
        }
      }
      assert rows == [rows[0]] + rows[1..];
    }
  }

  // ---------------------------------------------------------------- every report passes

  lemma {:induction false} AddressableHolds(employees: seq<Employee>)
    requires forall i, j :: 0 <= i < j < |employees| ==> employees[i].id != employees[j].id
    ensures forall e :: e in Addressable(employees) <==> e in employees && e.id != "" && e.fullName != ""
    ensures forall i, j :: 0 <= i < j < |Addressable(employees)| ==>
      Addressable(employees)[i].id != Addressable(employees)[j].id
  {
    if employees != [] {
      var rest, last := employees[..|employees| - 1], employees[|employees| - 1];
      AddressableHolds(rest);
      assert employees == rest + [last];
      forall e | e in rest ensures e.id != last.id {
        var i :| 0 <= i < |rest| && rest[i] == e;
        assert employees[i].id != employees[|rest|].id;
      }
    }
  }

  /** Every employee a row can name is on the card, under the name grounding writes. */
  predicate CardHolds(card: RosterCard, roster: map<string, Employee>) {
    && |card.employeeIds| == |card.employeeNames|
    && (forall id :: id in roster ==>
          && roster[id].id == id && id != "" && roster[id].fullName != ""
          && exists i ::
            0 <= i < |card.employeeIds| && card.employeeIds[i] == id && card.employeeNames[i] == roster[id].fullName)
  }

  lemma RosterIsOnTheCard(upstream: Upstream, visible: map<string, Department>, wanted: string)
    requires Proper(upstream.employees, visible, wanted)
    ensures CardHolds(Assemble(upstream).grounding.value, Roster(upstream.employees))
  {
    var card, roster := Assemble(upstream).grounding.value, Roster(upstream.employees);
    var listed := Addressable(upstream.employees);
    AddressableHolds(upstream.employees);
    forall id | id in roster
      ensures roster[id].fullName != ""
      ensures exists i ::
        0 <= i < |card.employeeIds| && card.employeeIds[i] == id && card.employeeNames[i] == roster[id].fullName
    {
      var k :| 0 <= k < |upstream.employees| && upstream.employees[k] == roster[id];
      assert Strip(upstream.employees[k].fullName) != "";
      var i :| 0 <= i < |listed| && listed[i] == roster[id];
      assert card.employeeIds[i] == id;
    }
  }

  /** Grounding and the checker read the same employee from a row. */
  lemma SameIdRead(row: Record)
    ensures CheckedId(row) == IdOf(row, RANKING_FIELDS)
  {
    assert RANKING_FIELDS[1..] == ["id"] && RANKING_FIELDS[1..][1..] == [];
    assert IdOf(row, []) == IdOf(row, RANKING_FIELDS[1..][1..]);
  }

  lemma CanonicalNameRead(row: Record, employee: Employee)
    requires employee.fullName != ""
    ensures CheckedName(Canonical(row, employee)) == Text(employee.fullName)
  {
    var once := Canonical(row, employee);
    if Nested(row, "employee") != map[] {
      assert Get(Nested(once, "employee"), "full_name") == Text(employee.fullName);
    }
  }

  lemma RankingSpeaks(rows: seq<Value>, employees: seq<Employee>, card: RosterCard, row: Record)
    requires CardHolds(card, Roster(employees))
    requires row in Grounded(rows, Roster(employees), RANKING_FIELDS)
    ensures SpeaksOf(row, card)
  {
    hide Canonical, IdOf, CheckedId, CheckedName, Grounded, SpeaksOf;
    var roster := Roster(employees);
    var at := GroundedInOrder(rows, roster, RANKING_FIELDS);
    var i :| 0 <= i < |at| && Grounded(rows, roster, RANKING_FIELDS)[i] == row;
    var source := rows[at[i]].fields;
    var employee := roster[IdOf(source, RANKING_FIELDS)];
    CanonicalKeepsId(source, employee, RANKING_FIELDS);
    SameIdRead(row);
    CanonicalNameRead(source, employee);
    OnTheCard(row, employee, card, roster);
  }

  lemma {:induction false} PlanEmployeesHaveIds(entries: seq<Value>)
    ensures forall row :: row in PlanEmployees(entries) ==>
      row.Object? && "id" !in row.fields && "employee" !in row.fields
  {
    if entries != [] { PlanEmployeesHaveIds(entries[..|entries| - 1]); }
  }

  lemma PlanSpeaks(entries: seq<Value>, employees: seq<Employee>, card: RosterCard, row: Record)
    requires CardHolds(card, Roster(employees))
    requires row in Grounded(PlanEmployees(entries), Roster(employees), PLAN_FIELDS)
    ensures SpeaksOf(row, card)
  {
    hide Canonical, IdOf, CheckedId, CheckedName, Grounded, SpeaksOf;
    var roster, rows := Roster(employees), PlanEmployees(entries);
    PlanEmployeesHaveIds(entries);
    var at := GroundedInOrder(rows, roster, PLAN_FIELDS);
    var i :| 0 <= i < |at| && Grounded(rows, roster, PLAN_FIELDS)[i] == row;
    var source := rows[at[i]].fields;
    assert rows[at[i]] in rows;
    var employee := roster[IdOf(source, PLAN_FIELDS)];
    PlanIdRead(source, employee);
    CanonicalNameRead(source, employee);
    OnTheCard(row, employee, card, roster);
  }

  lemma OnTheCard(row: Record, employee: Employee, card: RosterCard, roster: map<string, Employee>)
    requires CardHolds(card, roster) && employee.id in roster && roster[employee.id] == employee
    requires CheckedId(row) == employee.id && CheckedName(row) == Text(employee.fullName)
    ensures SpeaksOf(row, card)
  {
  }

  /** A plan row names its employee only by `employee_id`, so its narrower id fields read the same. */
  lemma PlanIdRead(source: Record, employee: Employee)
    requires "id" !in source && "employee" !in source
    requires IdOf(source, PLAN_FIELDS) == employee.id && employee.id != ""
    ensures CheckedId(Canonical(source, employee)) == employee.id
  {
    assert PLAN_FIELDS[1..] == [];
    assert IdOf(source, []) == "";
    assert Truthy(Get(source, "employee_id"));
    assert Get(Canonical(source, employee), "employee_id") == Get(source, "employee_id");
  }

  /** Taking the edit history out of a row changes nobody's identity. */
  lemma HistoryIsNoIdentity(row: Record, card: RosterCard)
    ensures SpeaksOf(WithoutPlanHistory(row), card) == SpeaksOf(row, card)
  {
    var clean := WithoutPlanHistory(row);
    assert forall field :: field != "metrics" ==> Get(clean, field) == Get(row, field);
    assert "metrics" != "employee_id" && "metrics" != "id" && "metrics" != "employee"
      && "metrics" != "full_name" && "metrics" != "employee_name";
  }

  /** Whatever rows the upstream sends, the report built on a proper directory passes. */
  lemma EveryReportPasses(upstream: Upstream, visible: map<string, Department>, wanted: string)
    requires Proper(upstream.employees, visible, wanted)
    ensures Validate(Assemble(upstream)) == None
  {
    var report, roster := Assemble(upstream), Roster(upstream.employees);
    var card := report.grounding.value;
    RosterIsOnTheCard(upstream, visible, wanted);
    AddressableHolds(upstream.employees);
    forall row | row in Inspected(report) ensures SpeaksOf(row, card) {
      EachRowSpeaks(upstream, card, row);
    }
    AcceptedIffGrounded(report);
  }

  /** From the first directory page to the last employee row: whatever the upstream answers, a report
      built on the directory it paged through passes. */
  lemma LiveReportPasses(fetch: nat -> Page, visible: map<string, Department>, wanted: string, cap: nat, last: nat,
                         complete: bool, total: nat, excluded: nat, upstream: Upstream)
    requires Reads(fetch, visible, wanted, cap, last, upstream.employees, complete, total, excluded)
    ensures Validate(Assemble(upstream)) == None
  {
    DirectoryIsSound(fetch, visible, wanted, cap, last, upstream.employees, complete, total, excluded);
    EveryReportPasses(upstream, visible, wanted);
  }

  lemma EachRowSpeaks(upstream: Upstream, card: RosterCard, row: Record)
    requires CardHolds(card, Roster(upstream.employees))
    requires row in Inspected(Assemble(upstream))
    ensures SpeaksOf(row, card)
  {
    var report := Assemble(upstream);
    if row in report.ranking {
      var kept := RankingPart(upstream).kept;
      var i :| 0 <= i < |report.ranking| && report.ranking[i] == row;
      RankingSpeaks(Rows(upstream.ranking), upstream.employees, card, kept[i]);
      HistoryIsNoIdentity(kept[i], card);
    } else if report.trends.Some? && row in report.trends.value {
      RankingSpeaks(Rows(upstream.trends.value), upstream.employees, card, row);
    } else {
      PlanSpeaks(upstream.plan.value, upstream.employees, card, row);
    }
  }
}
