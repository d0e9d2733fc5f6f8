/** Employee rows are held against the live directory: `_ground_employee_rows`, `employee_roster_grounding`
    and the department report of server/okk_mcp/backend_client.py. */
module Grounding {
  import opened Counting
  import opened Payloads
  import opened Directory

  // ---------------------------------------------------------------- one row

  function Roster(employees: seq<Employee>): (roster: map<string, Employee>)
    ensures forall id :: id in roster <==> id != "" && Listed(id, employees)
    ensures forall id :: id in roster ==> roster[id].id == id && roster[id] in employees
  {
    if employees == [] then map[]
    else
      var last := employees[|employees| - 1];
      var before := Roster(employees[..|employees| - 1]);
      assert employees == employees[..|employees| - 1] + [last];
      assert Listed(last.id, employees);
      assert forall id :: Listed(id, employees[..|employees| - 1]) ==> Listed(id, employees);
      assert forall id :: Listed(id, employees) ==> id == last.id || Listed(id, employees[..|employees| - 1]);
      if last.id != "" then before[last.id := last] else before
  }

  /** The employee a row names: the first of the id fields that says something, else the nested id. */
  function IdOf(row: Record, fields: seq<string>): string {
    if fields == [] then
      (if Truthy(Get(Nested(row, "employee"), "id")) then Str(Get(Nested(row, "employee"), "id")) else "")
    else if Truthy(Get(row, fields[0])) then Str(Get(row, fields[0]))
    else IdOf(row, fields[1..])
  }

  /** A field that is there gets the value. */
  function Corrected(row: Record, field: string, value: Value): Record {
    if field in row then row[field := value] else row
  }

  /** The row as the directory knows its employee. */
  function Canonical(row: Record, employee: Employee): Record {
    var name := Text(employee.fullName);
    var named := Corrected(Corrected(row, "full_name", name), "employee_name", name);
    var nested := Nested(row, "employee");
    if nested != map[] then
      named["employee" := Get(row, "employee").(fields := nested["id" := Text(employee.id)]["full_name" := name])]
    else if "full_name" !in row && "employee_name" !in row then named["employee_name" := name]
    else named
  }

  /** The row said something else about its employee than the directory does. */
  predicate Differs(row: Record, employee: Employee) {
    var name, nested := Text(employee.fullName), Nested(row, "employee");
    || ("full_name" in row && row["full_name"] != name)
    || ("employee_name" in row && row["employee_name"] != name)
    || (nested != map[] && (Get(nested, "id") != Text(employee.id) || Get(nested, "full_name") != name))
  }

  method GroundRow(row: Record, id: string, employee: Employee) returns (canonical: Record, changed: bool)
    requires employee.id == id
    ensures canonical == Canonical(row, employee)
    ensures changed == Differs(row, employee)
  {
    var nested, name := Nested(row, "employee"), Text(employee.fullName);
    canonical, changed := row, false;
    if "full_name" in canonical && Get(canonical, "full_name") != name {
      canonical := canonical["full_name" := name];
      changed := true;
    }
    if "employee_name" in canonical && Get(canonical, "employee_name") != name {
      canonical := canonical["employee_name" := name];
      changed := true;
    }
    if nested != map[] {
      var canonicalNested := nested;
      if Get(canonicalNested, "id") != Text(id) {
        canonicalNested := canonicalNested["id" := Text(id)];
        changed := true;
      }
      if Get(canonicalNested, "full_name") != name {
        canonicalNested := canonicalNested["full_name" := name];
        changed := true;
      }
      assert canonicalNested == nested["id" := Text(id)]["full_name" := name];
      canonical := canonical["employee" := Get(row, "employee").(fields := canonicalNested)];
    } else if "full_name" !in canonical && "employee_name" !in canonical {
      canonical := canonical["employee_name" := name];
    }
    assert canonical == Canonical(row, employee);
  }

  // ---------------------------------------------------------------- all the rows

  /** `rows if isinstance(rows, list) else []` */
  function Rows(rows: Value): seq<Value> {
    if rows.List? then rows.items else []
  }

  predicate Known(row: Value, roster: map<string, Employee>, fields: seq<string>) {
    row.Object? && IdOf(row.fields, fields) in roster
  }

  function Grounded(rows: seq<Value>, roster: map<string, Employee>, fields: seq<string>): (kept: seq<Record>)
    ensures |kept| <= |rows|
  {
    if rows == [] then []
    else
      var before, row := Grounded(rows[..|rows| - 1], roster, fields), rows[|rows| - 1];
      if Known(row, roster, fields) then before + [Canonical(row.fields, roster[IdOf(row.fields, fields)])] else before
  }

  function Differing(rows: seq<Value>, roster: map<string, Employee>, fields: seq<string>): (n: nat)
    ensures n <= |Grounded(rows, roster, fields)|
  {
    if rows == [] then 0
    else
      var row := rows[|rows| - 1];
      Differing(rows[..|rows| - 1], roster, fields)
        + (if Known(row, roster, fields) && Differs(row.fields, roster[IdOf(row.fields, fields)]) then 1 else 0)
  }

  /** `_ground_employee_rows` */
  method GroundEmployeeRows(rows: Value, employees: seq<Employee>, fields: seq<string>)
    returns (kept: seq<Record>, excluded: nat, normalized: nat)
    ensures kept == Grounded(Rows(rows), Roster(employees), fields)
    ensures excluded == |Rows(rows)| - |kept|
    ensures normalized == Differing(Rows(rows), Roster(employees), fields)
  {
    var roster, items := Roster(employees), Rows(rows);
    kept, excluded, normalized := [], 0, 0;
    for i := 0 to |items|
      invariant kept == Grounded(items[..i], roster, fields)
      invariant excluded == i - |kept|
      invariant normalized == Differing(items[..i], roster, fields)
    {
      assert items[..i + 1][..i] == items[..i];
      var row := items[i];
      if !row.Object? {
        excluded := excluded + 1;
        continue;
      }
      var id := IdOf(row.fields, fields);
      if id !in roster {
        excluded := excluded + 1;
        continue;
      }
      var canonical, changed := GroundRow(row.fields, id, roster[id]);
      if changed { normalized := normalized + 1; }
      kept := kept + [canonical];
    }
    assert items[..|items|] == items;
  }

  // ---------------------------------------------------------------- what grounding promises

  /** The fields the directory speaks for. */
  const IDENTITY: seq<string> := ["full_name", "employee_name", "employee"]

  /** Id fields are never the fields grounding rewrites. */
  predicate ApartFromNames(fields: seq<string>) { forall f :: f in fields ==> f !in IDENTITY }

  lemma {:induction false} CanonicalKeepsId(row: Record, employee: Employee, fields: seq<string>)
    requires ApartFromNames(fields) && employee.id != "" && IdOf(row, fields) == employee.id
    ensures IdOf(Canonical(row, employee), fields) == employee.id
  {
    var name := Text(employee.fullName);
    if fields == [] {
      var nested := Nested(row, "employee");
      assert "id" in nested;
      assert Get(Canonical(row, employee), "employee").Object?;
    } else {
      assert fields[0] in fields && fields[0] !in IDENTITY;
      assert fields[0] != IDENTITY[0] && fields[0] != IDENTITY[1] && fields[0] != IDENTITY[2];
      assert Get(Canonical(row, employee), fields[0]) == Get(row, fields[0]);
      if !Truthy(Get(row, fields[0])) {
        assert ApartFromNames(fields[1..]) by {
          forall f | f in fields[1..] ensures f !in IDENTITY { assert f in fields; }
        }
        CanonicalKeepsId(row, employee, fields[1..]);
      }
    }
  }

  /** A canonical row agrees with the directory and is its own canonical form. */
  lemma CanonicalIsStable(row: Record, employee: Employee)
    ensures !Differs(Canonical(row, employee), employee)
    ensures Canonical(Canonical(row, employee), employee) == Canonical(row, employee)
  {
    var once, name := Canonical(row, employee), Text(employee.fullName);
    var nested := Nested(row, "employee");
    if nested != map[] {
      var inner := nested["id" := Text(employee.id)]["full_name" := name];
      assert Nested(once, "employee") == inner;
      assert inner["id" := Text(employee.id)]["full_name" := name] == inner;
      assert "id" in inner;
    } else {
      assert Nested(once, "employee") == map[];
    }
    assert Corrected(once, "full_name", name) == once;
    assert Corrected(once, "employee_name", name) == once;
    assert Canonical(once, employee) == once;
  }

  function Objects(rows: seq<Record>): (values: seq<Value>)
    ensures |values| == |rows| && forall i :: 0 <= i < |rows| ==> values[i] == Object(rows[i], "")
  {
    if rows == [] then [] else Objects(rows[..|rows| - 1]) + [Object(rows[|rows| - 1], "")]
  }

  lemma GroundedNext(rows: seq<Value>, row: Value, roster: map<string, Employee>, fields: seq<string>)
    ensures !Known(row, roster, fields) ==>
      && Grounded(rows + [row], roster, fields) == Grounded(rows, roster, fields)
      && Differing(rows + [row], roster, fields) == Differing(rows, roster, fields)
    ensures Known(row, roster, fields) ==>
      var employee := roster[IdOf(row.fields, fields)];
      && Grounded(rows + [row], roster, fields) == Grounded(rows, roster, fields) + [Canonical(row.fields, employee)]
      && Differing(rows + [row], roster, fields)
           == Differing(rows, roster, fields) + (if Differs(row.fields, employee) then 1 else 0)
  {
    hide Known, Canonical, Differs;
    assert (rows + [row])[..|rows|] == rows;
  }

  lemma ObjectsNext(rows: seq<Record>, row: Record)
    ensures Objects([]) == [] && Objects(rows + [row]) == Objects(rows) + [Object(row, "")]
  {
    assert (rows + [row])[..|rows|] == rows;
  }

  /** A grounded row, presented again, is known, unchanged and agrees with the directory. */
  lemma GroundedRowIsStable(row: Value, employees: seq<Employee>, fields: seq<string>)
    requires ApartFromNames(fields) && Known(row, Roster(employees), fields)
    ensures var employee := Roster(employees)[IdOf(row.fields, fields)];
      var once := Object(Canonical(row.fields, employee), "");
      && Known(once, Roster(employees), fields) && IdOf(once.fields, fields) == IdOf(row.fields, fields)
      && Canonical(once.fields, employee) == once.fields && !Differs(once.fields, employee)
  {
    var employee := Roster(employees)[IdOf(row.fields, fields)];
    CanonicalKeepsId(row.fields, employee, fields);
    CanonicalIsStable(row.fields, employee);
  }

  /** Grounding its own output again excludes nobody, changes nothing and gives the same rows. */
  lemma {:induction false} GroundingTwiceIsOnce(rows: seq<Value>, employees: seq<Employee>, fields: seq<string>)
    requires ApartFromNames(fields)
    ensures var roster := Roster(employees);
      var kept := Grounded(rows, roster, fields);
      Grounded(Objects(kept), roster, fields) == kept && Differing(Objects(kept), roster, fields) == 0
  {
    hide Canonical, Differs, Known, Objects, IdOf, Roster, ApartFromNames;
    var roster := Roster(employees);
    if rows == [] {
      ObjectsNext([], map[]);
    } else {
      var rest, row := rows[..|rows| - 1], rows[|rows| - 1];
      assert rows == rest + [row];
      GroundingTwiceIsOnce(rest, employees, fields);
      GroundedNext(rest, row, roster, fields);
      if Known(row, roster, fields) {
        var before := Grounded(rest, roster, fields);
        assert row.Object? && IdOf(row.fields, fields) in roster by { KnownIs(row, roster, fields); }
        var once := Canonical(row.fields, roster[IdOf(row.fields, fields)]);
        GroundedRowIsStable(row, employees, fields);
        ObjectsNext(before, once);
        GroundedNext(Objects(before), Object(once, ""), roster, fields);
      }
    }
  }

  lemma KnownIs(row: Value, roster: map<string, Employee>, fields: seq<string>)
    requires Known(row, roster, fields)
    ensures row.Object? && IdOf(row.fields, fields) in roster
  {
  }

  /** The kept rows are the canonical forms of the rows at some places, which are those of the known rows. */
  ghost predicate KeptAt(kept: seq<Record>, rows: seq<Value>, roster: map<string, Employee>, fields: seq<string>,
                         at: seq<nat>) {
    && Places(at, |rows|) && |at| == |kept|
    && (forall i {:trigger at[i]} :: 0 <= i < |at| ==>
          && at[i] < |rows| && Known(rows[at[i]], roster, fields)
          && kept[i] == Canonical(rows[at[i]].fields, roster[IdOf(rows[at[i]].fields, fields)]))
    && (forall k {:trigger k in at} :: 0 <= k < |rows| ==> (k in at <==> Known(rows[k], roster, fields)))
  }

  lemma KeptNext(kept: seq<Record>, rows: seq<Value>, roster: map<string, Employee>, fields: seq<string>, at: seq<nat>,
                 row: Value)
    requires KeptAt(kept, rows, roster, fields, at)
    ensures !Known(row, roster, fields) ==> KeptAt(kept, rows + [row], roster, fields, at)
    ensures Known(row, roster, fields) ==>
      KeptAt(kept + [Canonical(row.fields, roster[IdOf(row.fields, fields)])], rows + [row], roster, fields,
             at + [|rows|])
  {
    hide Canonical, IdOf;
    PlacesNext(at, |rows|);
  }

  /** Order is kept: the kept rows come from the known rows, in the received order, each once. */
  lemma {:induction false} GroundedInOrder(rows: seq<Value>, roster: map<string, Employee>, fields: seq<string>)
    returns (at: seq<nat>)
    ensures KeptAt(Grounded(rows, roster, fields), rows, roster, fields, at)
  {
    hide Canonical, Known, KeptAt;
    if rows == [] {
      at := [];
      NoneKept(roster, fields);
    } else {
      var rest, row := rows[..|rows| - 1], rows[|rows| - 1];
      assert rows == rest + [row];
      at := GroundedInOrder(rest, roster, fields);
      GroundedNext(rest, row, roster, fields);
      KeptNext(Grounded(rest, roster, fields), rest, roster, fields, at, row);
      if Known(row, roster, fields) {
        at := at + [|rest|];
      }
    }
  }

  lemma NoneKept(roster: map<string, Employee>, fields: seq<string>)
    ensures KeptAt([], [], roster, fields, [])
  {
  }

  /** A row that is not counted as normalized is passed on as it came, but for a name it did not have. */
  lemma UncountedIsUntouched(row: Record, employee: Employee)
    requires !Differs(row, employee)
    ensures Canonical(row, employee) == row
      || (Canonical(row, employee) == row["employee_name" := Text(employee.fullName)]
          && "employee_name" !in row && "full_name" !in row)
  {
    var name, nested := Text(employee.fullName), Nested(row, "employee");
    assert Corrected(row, "full_name", name) == row;
    assert Corrected(row, "employee_name", name) == row;
    if nested != map[] {
      assert "id" in nested && "full_name" in nested;
      assert nested["id" := Text(employee.id)]["full_name" := name] == nested;
      assert Get(row, "employee").(fields := nested) == row["employee"];
      assert row["employee" := row["employee"]] == row;
    }
  }

  /** And a row that is counted is changed in more than that. */
  lemma CountedIffChanged(row: Record, employee: Employee)
    ensures Differs(row, employee) <==>
      && Canonical(row, employee) != row
      && ("employee_name" in row || "full_name" in row
          || Canonical(row, employee) != row["employee_name" := Text(employee.fullName)])
  {
    var name, nested, once := Text(employee.fullName), Nested(row, "employee"), Canonical(row, employee);
    if !Differs(row, employee) {
      UncountedIsUntouched(row, employee);
    } else if "full_name" in row && row["full_name"] != name {
      assert once["full_name"] == name;
    } else if "employee_name" in row && row["employee_name"] != name {
      assert once["employee_name"] == name;
    } else {
      assert Nested(once, "employee") == nested["id" := Text(employee.id)]["full_name" := name];
      assert Get(Nested(once, "employee"), "id") == Text(employee.id);
      assert Get(Nested(once, "employee"), "full_name") == name;
      assert Nested(row["employee_name" := name], "employee") == nested;
    }
  }
}
