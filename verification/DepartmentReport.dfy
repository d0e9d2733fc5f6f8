/** `get_department_statistics` of server/okk_mcp/backend_client.py: three employee lists under one roster. */
module DepartmentReport {
  import opened Common
  import opened Counting
  import opened Payloads
  import opened Directory
  import opened Grounding

  datatype Scope = Scope(departmentId: Value, departmentCode: Value, departmentName: Value)

  datatype RosterCard = RosterCard(source: string, authoritative: bool, scope: Scope, employeeCount: nat,
                                   employeeIds: seq<string>,
                                   employeeNames: seq<string>, sourceComplete: bool, excluded: nat, normalized: nat)

  datatype Plan = NoPlan | PlanFact(employees: seq<Record>)

  datatype Report = Report(status: string, scope: Scope, grounding: Option<RosterCard>, ranking: seq<Record>,
                           trends: Option<seq<Record>>, plan: Plan)

  /** What the upstream answered: `trends` only when asked for, `plan` only when the platform has plans. */
  datatype Upstream = Upstream(department: Department, employees: seq<Employee>, complete: bool, excluded: nat,
                               ranking: Value, trends: Option<Value>, plan: Option<seq<Value>>)

  const LIVE: string := "live_okk_employee_directory"

  /** `department_scope` */
  function DepartmentScope(department: Department): Scope {
    Scope(Text(department.id), department.code, department.name)
  }

  function Addressable(employees: seq<Employee>): seq<Employee> {
    if employees == [] then []
    else
      var before, last := Addressable(employees[..|employees| - 1]), employees[|employees| - 1];
      if last.id != "" && last.fullName != "" then before + [last] else before
  }

  function IdsOf(employees: seq<Employee>): (ids: seq<string>)
    ensures |ids| == |employees| && forall i :: 0 <= i < |employees| ==> ids[i] == employees[i].id
  {
    if employees == [] then [] else IdsOf(employees[..|employees| - 1]) + [employees[|employees| - 1].id]
  }

  function NamesOf(employees: seq<Employee>): (names: seq<string>)
    ensures |names| == |employees| && forall i :: 0 <= i < |employees| ==> names[i] == employees[i].fullName
  {
    if employees == [] then [] else NamesOf(employees[..|employees| - 1]) + [employees[|employees| - 1].fullName]
  }

  /** `employee_roster_grounding` */
  function EmployeeRosterGrounding(department: Department, employees: seq<Employee>, complete: bool, excluded: nat,
                                   normalized: nat): RosterCard {
    var roster := Addressable(employees);
    RosterCard(LIVE, true, DepartmentScope(department), |roster|, IdsOf(roster), NamesOf(roster), complete, excluded,
               normalized)
  }

  // ---------------------------------------------------------------- plan items

  const PLAN_ITEM_FIELDS: set<string> := {
    "employee_id", "direction", "clients", "counting", "min_call_duration_seconds", "plan", "fact", "fact_state",
    "contribution"}

  /** `safe_plan_item`: the plan without the history of its edits. */
  function SafePlanItem(item: Record): Record {
    (map field | field in item.Keys * PLAN_ITEM_FIELDS :: item[field])
      ["changed" := Scalar(Truthy(Get(item, "changes")), "")]
  }

  function SafePlanItems(items: seq<Value>): seq<Value> {
    if items == [] then []
    else
      var before, last := SafePlanItems(items[..|items| - 1]), items[|items| - 1];
      if last.Object? then before + [Object(SafePlanItem(last.fields), "")] else before
  }

  /** `_without_plan_history` */
  function WithoutPlanHistory(row: Record): Record {
    var metrics := Get(row, "metrics");
    if metrics.Object? && Get(metrics.fields, "plan_items").List? then
      row["metrics" :=
        Object(metrics.fields["plan_items" := List(SafePlanItems(Get(metrics.fields, "plan_items").items), "")], "")]
    else row
  }

  function AllWithoutPlanHistory(rows: seq<Record>): (clean: seq<Record>)
    ensures |clean| == |rows| && forall i :: 0 <= i < |rows| ==> clean[i] == WithoutPlanHistory(rows[i])
  {
    if rows == [] then [] else AllWithoutPlanHistory(rows[..|rows| - 1]) + [WithoutPlanHistory(rows[|rows| - 1])]
  }

  function PlanEmployee(entry: Record): Record {
    map["employee_id" := Text(Str(Get(entry, "employee_id"))), "full_name" := Get(entry, "full_name"),
        "items" := List(SafePlanItems(Rows(Get(entry, "items"))), "")]
  }

  /** The employees of `safe_plan_fact`. */
  function PlanEmployees(entries: seq<Value>): seq<Value> {
    if entries == [] then []
    else
      var before, last := PlanEmployees(entries[..|entries| - 1]), entries[|entries| - 1];
      if last.Object? && Truthy(Get(last.fields, "employee_id")) then before + [Object(PlanEmployee(last.fields), "")]
      else before
  }

  // ---------------------------------------------------------------- the report

  const RANKING_FIELDS: seq<string> := ["employee_id", "id"]
  const PLAN_FIELDS: seq<string> := ["employee_id"]

  /** What one upstream list gives under the roster. */
  datatype Part = Part(kept: seq<Record>, excluded: nat, normalized: nat)

  function PartOf(rows: seq<Value>, employees: seq<Employee>, fields: seq<string>): Part {
    var kept := Grounded(rows, Roster(employees), fields);
    Part(kept, |rows| - |kept|, Differing(rows, Roster(employees), fields))
  }

  function Finish(upstream: Upstream, ranking: Part, trends: Part, plan: Part): Report {
    var excluded := upstream.excluded + ranking.excluded + trends.excluded + plan.excluded;
    var normalized := ranking.normalized + trends.normalized + plan.normalized;
    Report(
      if !upstream.complete || excluded > 0 || normalized > 0 || upstream.plan.None? then "partial" else "ok",
      DepartmentScope(upstream.department),
      Some(EmployeeRosterGrounding(upstream.department, upstream.employees, upstream.complete && upstream.excluded == 0,
                                   excluded, normalized)),
      AllWithoutPlanHistory(ranking.kept),
      if upstream.trends.Some? then Some(trends.kept) else None,
      if upstream.plan.Some? then PlanFact(plan.kept) else NoPlan)
  }

  function RankingPart(upstream: Upstream): Part { PartOf(Rows(upstream.ranking), upstream.employees, RANKING_FIELDS) }

  function TrendsPart(upstream: Upstream): Part {
    if upstream.trends.Some? then PartOf(Rows(upstream.trends.value), upstream.employees, RANKING_FIELDS)
    else Part([], 0, 0)
  }

  function PlanPart(upstream: Upstream): Part {
    if upstream.plan.Some? then PartOf(PlanEmployees(upstream.plan.value), upstream.employees, PLAN_FIELDS)
    else Part([], 0, 0)
  }

  /** The report, from its three grounded lists. */
  function Assemble(upstream: Upstream): Report {
    Finish(upstream, RankingPart(upstream), TrendsPart(upstream), PlanPart(upstream))
  }

  method GroundPart(rows: Value, employees: seq<Employee>, fields: seq<string>) returns (part: Part)
    ensures part == PartOf(Rows(rows), employees, fields)
  {
    var kept, excluded, normalized := GroundEmployeeRows(rows, employees, fields);
    part := Part(kept, excluded, normalized);
  }

  method DepartmentStatistics(upstream: Upstream) returns (report: Report)
    ensures report == Assemble(upstream)
  {
    var ranking := GroundPart(upstream.ranking, upstream.employees, RANKING_FIELDS);
    var trends, plan := Part([], 0, 0), Part([], 0, 0);
    if upstream.trends.Some? {
      trends := GroundPart(upstream.trends.value, upstream.employees, RANKING_FIELDS);
    }
    if upstream.plan.Some? {
      plan := GroundPart(List(PlanEmployees(upstream.plan.value), ""), upstream.employees, PLAN_FIELDS);
    }
    report := Finish(upstream, ranking, trends, plan);
  }

  /** Every received row was kept, at its place, and said of its employee what the directory says. */
  predicate HidesNobody(rows: seq<Value>, kept: seq<Record>, roster: map<string, Employee>, fields: seq<string>) {
    && |kept| == |rows|
    && (forall k :: 0 <= k < |rows| ==>
          && Known(rows[k], roster, fields)
          && !Differs(rows[k].fields, roster[IdOf(rows[k].fields, fields)])
          && kept[k] == Canonical(rows[k].fields, roster[IdOf(rows[k].fields, fields)]))
  }

  /** An `ok` report hides and renames nobody: the directory was read whole with nothing excluded, the
      plan was there, and all three lists are as they came. */
  lemma OkHidesNobody(upstream: Upstream)
    requires Assemble(upstream).status == "ok"
    ensures upstream.complete && upstream.excluded == 0 && upstream.plan.Some?
    ensures var report, roster := Assemble(upstream), Roster(upstream.employees);
      && (exists kept :: HidesNobody(Rows(upstream.ranking), kept, roster, RANKING_FIELDS)
              && report.ranking == AllWithoutPlanHistory(kept))
      && (upstream.trends.Some? ==> HidesNobody(Rows(upstream.trends.value), report.trends.value, roster,
                                                RANKING_FIELDS))
      && HidesNobody(PlanEmployees(upstream.plan.value), report.plan.employees, roster, PLAN_FIELDS)
  {
    hide Grounded, Differing, Canonical, Differs, IdOf, Rows, PlanEmployees, AllWithoutPlanHistory;
    var roster := Roster(upstream.employees);
    AllKept(Rows(upstream.ranking), roster, RANKING_FIELDS);
    if upstream.trends.Some? { AllKept(Rows(upstream.trends.value), roster, RANKING_FIELDS); }
    AllKept(PlanEmployees(upstream.plan.value), roster, PLAN_FIELDS);
    assert HidesNobody(Rows(upstream.ranking), RankingPart(upstream).kept, roster, RANKING_FIELDS);
  }

  lemma {:induction false} AllKept(rows: seq<Value>, roster: map<string, Employee>, fields: seq<string>)
    requires |Grounded(rows, roster, fields)| == |rows| && Differing(rows, roster, fields) == 0
    ensures HidesNobody(rows, Grounded(rows, roster, fields), roster, fields)
  {
    hide Canonical, Differs, IdOf;
    if rows != [] {
      AllKept(rows[..|rows| - 1], roster, fields);
    }
  }

  // ---------------------------------------------------------------- the status and the counters

  /** The places of the rows that name nobody on the roster. */
  function UnknownAt(rows: seq<Value>, roster: map<string, Employee>, fields: seq<string>): set<nat> {
    set k: nat | k < |rows| && !Known(rows[k], roster, fields)
  }

  /** The row names somebody on the roster and says something else of them than the directory. */
  predicate Renamed(row: Value, roster: map<string, Employee>, fields: seq<string>) {
    Known(row, roster, fields) && Differs(row.fields, roster[IdOf(row.fields, fields)])
  }

  function RenamedAt(rows: seq<Value>, roster: map<string, Employee>, fields: seq<string>): set<nat> {
    set k: nat | k < |rows| && Renamed(rows[k], roster, fields)
  }

  lemma {:induction false} PartCounts(rows: seq<Value>, roster: map<string, Employee>, fields: seq<string>)
    ensures |rows| - |Grounded(rows, roster, fields)| == |UnknownAt(rows, roster, fields)|
    ensures Differing(rows, roster, fields) == |RenamedAt(rows, roster, fields)|
  {
    hide Known, Renamed, Grounded, Differing, UnknownAt, RenamedAt;
    if rows == [] {
      NothingGrounded(roster, fields);
    } else {
      var rest, last := rows[..|rows| - 1], rows[|rows| - 1];
      PartCounts(rest, roster, fields);
      assert rows == rest + [last];
      OneMoreRow(rest, last, roster, fields);
      OneMorePlace(rest, last, roster, fields);
    }
  }

  lemma OneMoreRow(rows: seq<Value>, row: Value, roster: map<string, Employee>, fields: seq<string>)
    ensures |Grounded(rows + [row], roster, fields)| ==
      |Grounded(rows, roster, fields)| + if Known(row, roster, fields) then 1 else 0
    ensures Differing(rows + [row], roster, fields) ==
      Differing(rows, roster, fields) + if Renamed(row, roster, fields) then 1 else 0
  {
    GroundedNext(rows, row, roster, fields);
  }

  lemma OneMorePlace(rows: seq<Value>, row: Value, roster: map<string, Employee>, fields: seq<string>)
    ensures |UnknownAt(rows + [row], roster, fields)| ==
      |UnknownAt(rows, roster, fields)| + if Known(row, roster, fields) then 0 else 1
    ensures |RenamedAt(rows + [row], roster, fields)| ==
      |RenamedAt(rows, roster, fields)| + if Renamed(row, roster, fields) then 1 else 0
  {
    hide Known, Renamed;
    var unknown, renamed := UnknownAt(rows, roster, fields), RenamedAt(rows, roster, fields);
    assert UnknownAt(rows + [row], roster, fields) ==
      if Known(row, roster, fields) then unknown else unknown + {|rows|};
    assert RenamedAt(rows + [row], roster, fields) ==
      if Renamed(row, roster, fields) then renamed + {|rows|} else renamed;
  }

  /** The rows a report is built on, list by list: those of a list that was not asked for or is missing are none. */
  function TrendRows(upstream: Upstream): seq<Value> {
    if upstream.trends.Some? then Rows(upstream.trends.value) else []
  }

  function PlanRows(upstream: Upstream): seq<Value> {
    if upstream.plan.Some? then PlanEmployees(upstream.plan.value) else []
  }

  /** The card counts exactly the rows that were left out and the rows that were renamed, in all three lists, on top of
      what the directory left out; and the report is `ok` exactly when the directory is whole, the plan is
      there and both counts are zero. */
  lemma CardCountsAndStatus(upstream: Upstream)
    ensures Assemble(upstream).grounding.Some?
    ensures var report, roster := Assemble(upstream), Roster(upstream.employees);
      var card, ranking := report.grounding.value, Rows(upstream.ranking);
      && card.excluded == upstream.excluded + |UnknownAt(ranking, roster, RANKING_FIELDS)|
           + |UnknownAt(TrendRows(upstream), roster, RANKING_FIELDS)|
           + |UnknownAt(PlanRows(upstream), roster, PLAN_FIELDS)|
      && card.normalized == |RenamedAt(ranking, roster, RANKING_FIELDS)|
           + |RenamedAt(TrendRows(upstream), roster, RANKING_FIELDS)|
           + |RenamedAt(PlanRows(upstream), roster, PLAN_FIELDS)|
      && (card.sourceComplete <==> upstream.complete && upstream.excluded == 0)
      && card.scope == report.scope ==
           Scope(Text(upstream.department.id), upstream.department.code, upstream.department.name)
      && (report.status == "ok" <==>
            upstream.complete && upstream.plan.Some? && card.excluded == 0 && card.normalized == 0)
      && (report.status != "ok" ==> report.status == "partial")
  {
    hide Grounded, Differing, UnknownAt, RenamedAt, Rows, PlanEmployees, AllWithoutPlanHistory;
    var roster := Roster(upstream.employees);
    PartCounts(Rows(upstream.ranking), roster, RANKING_FIELDS);
    PartCounts(TrendRows(upstream), roster, RANKING_FIELDS);
    PartCounts(PlanRows(upstream), roster, PLAN_FIELDS);
    NothingGrounded(roster, RANKING_FIELDS);
    NothingGrounded(roster, PLAN_FIELDS);
  }

  lemma NothingGrounded(roster: map<string, Employee>, fields: seq<string>)
    ensures Grounded([], roster, fields) == [] && Differing([], roster, fields) == 0
    ensures UnknownAt([], roster, fields) == {} && RenamedAt([], roster, fields) == {}
  {}

  /** Nobody sees who edited a plan: of a plan item only the listed fields are shown, as they came, and whether
      there were edits. */
  lemma PlanHistoryIsHidden(item: Record)
    ensures var shown := SafePlanItem(item);
      && "changes" !in shown && shown.Keys <= PLAN_ITEM_FIELDS + {"changed"}
      && (forall field :: field in item && field in PLAN_ITEM_FIELDS ==> field in shown && shown[field] == item[field])
      && Get(shown, "changed") == Scalar(Truthy(Get(item, "changes")), "")
  {}

  /** Every row of the ranking is shown without the history of its plan, and otherwise as it was grounded. */
  lemma RowsShowNoHistory(row: Record)
    ensures var clean := WithoutPlanHistory(row);
      && clean.Keys == row.Keys && (forall field :: field in row && field != "metrics" ==> clean[field] == row[field])
      && forall item :: item in Rows(Get(Nested(clean, "metrics"), "plan_items")) ==>
           item.Object? && "changes" !in item.fields
  {
    var metrics := Get(row, "metrics");
    if metrics.Object? && Get(metrics.fields, "plan_items").List? {
      ItemsShowNoHistory(Get(metrics.fields, "plan_items").items);
    }
  }

  lemma {:induction false} ItemsShowNoHistory(items: seq<Value>)
    ensures forall item :: item in SafePlanItems(items) ==> item.Object? && "changes" !in item.fields
  {
    if items != [] { ItemsShowNoHistory(items[..|items| - 1]); }
  }

  /** Which plan entries are shown: exactly those that are objects and name an employee, in their order, each with the
      id as text, the name as it came and its items without their history. */
  ghost predicate ShownAt(rows: seq<Value>, entries: seq<Value>, at: seq<nat>) {
    && Places(at, |entries|) && |at| == |rows|
    && (forall i {:trigger at[i]} :: 0 <= i < |at| ==>
          && at[i] < |entries| && NamesEmployee(entries[at[i]])
          && rows[i] == Object(PlanEmployee(entries[at[i]].fields), ""))
    && (forall k {:trigger k in at} :: 0 <= k < |entries| ==> (k in at <==> NamesEmployee(entries[k])))
  }

  predicate NamesEmployee(entry: Value) { entry.Object? && Truthy(Get(entry.fields, "employee_id")) }

  lemma {:induction false} PlanShowsTheNamed(entries: seq<Value>) returns (at: seq<nat>)
    ensures ShownAt(PlanEmployees(entries), entries, at)
  {
    hide PlanEmployee, NamesEmployee, ShownAt;
    if entries == [] {
      at := [];
      NothingShown();
    } else {
      var rest, last := entries[..|entries| - 1], entries[|entries| - 1];
      assert entries == rest + [last];
      at := PlanShowsTheNamed(rest);
      OneMoreEntry(PlanEmployees(rest), rest, at, last);
      NamedIsObject(last);
      if NamesEmployee(last) { at := at + [|rest|]; }
    }
  }

  lemma NothingShown()
    ensures PlanEmployees([]) == [] && ShownAt([], [], [])
  {}

  lemma NamedIsObject(entry: Value)
    ensures NamesEmployee(entry) <==> entry.Object? && Truthy(Get(entry.fields, "employee_id"))
  {}

  lemma OneMoreEntry(rows: seq<Value>, entries: seq<Value>, at: seq<nat>, entry: Value)
    requires ShownAt(rows, entries, at)
    ensures !NamesEmployee(entry) ==> ShownAt(rows, entries + [entry], at)
    ensures NamesEmployee(entry) ==>
      entry.Object? && ShownAt(rows + [Object(PlanEmployee(entry.fields), "")], entries + [entry], at + [|entries|])
  {
    hide PlanEmployee;
    PlacesNext(at, |entries|);
  }
}
