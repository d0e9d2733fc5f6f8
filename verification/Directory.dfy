/** `employees` of server/okk_mcp/backend_client.py: the live employee directory, page by page. */
module Directory {
  import opened Common
  import opened Payloads

  datatype Department = Department(id: string, name: Value, code: Value)

  datatype Employee = Employee(id: string, fullName: string, department: Department)

  datatype Page = Page(total: nat, items: seq<Record>, pages: nat)

  /** `_safe_employee`: the department a record names, if any. */
  function DepartmentOf(item: Record): Option<string> {
    var id := Or(Get(item, "department_id"), Get(Nested(item, "department"), "id"));
    if Truthy(id) then Some(Str(id)) else None
  }

  /** What a record must have to be listed, apart from not being a repetition. */
  predicate Acceptable(item: Record, visible: map<string, Department>, wanted: string) {
    && Truthy(Get(item, "id"))
    && Get(item, "full_name").Text?
    && Strip(Get(item, "full_name").text) != ""
    && DepartmentOf(item).Some? && DepartmentOf(item).value in visible
    && (wanted != "" ==> DepartmentOf(item).value == wanted)
  }

  function EmployeeOf(item: Record, visible: map<string, Department>, wanted: string): Employee
    requires Acceptable(item, visible, wanted)
  {
    Employee(Str(Get(item, "id")), Get(item, "full_name").text, visible[DepartmentOf(item).value])
  }

  predicate Listed(id: string, rows: seq<Employee>) {
    exists i :: 0 <= i < |rows| && rows[i].id == id
  }

  /** The employees of the first records: acceptable ones, the first of each id. */
  function Screen(items: seq<Record>, visible: map<string, Department>, wanted: string): (rows: seq<Employee>)
    ensures |rows| <= |items|
  {
    if items == [] then []
    else
      var before, item := Screen(items[..|items| - 1], visible, wanted), items[|items| - 1];
      if Acceptable(item, visible, wanted) && !Listed(Str(Get(item, "id")), before)
      then before + [EmployeeOf(item, visible, wanted)]
      else before
  }

  /** The records of pages 1 to `n`. */
  function Received(fetch: nat -> Page, n: nat): seq<Record> {
    if n == 0 then [] else Received(fetch, n - 1) + fetch(n).items
  }

  /** `int(payload.get("pages") or 1)` */
  function Pages(page: Page): nat { if page.pages == 0 then 1 else page.pages }

  function Capped(rows: seq<Employee>, cap: nat): seq<Employee> {
    if |rows| <= cap then rows else rows[..cap]
  }

  /** Page `n` is read after page `n - 1`: more pages are promised and the cap is not reached. */
  predicate GoesOn(fetch: nat -> Page, visible: map<string, Department>, wanted: string, cap: nat, n: nat) {
    && |Screen(Received(fetch, n), visible, wanted)| < cap
    && (n == 0 || n < Pages(fetch(n)))
  }

  /** What reading the pages up to `last` and stopping there must have given. */
  predicate Reads(fetch: nat -> Page, visible: map<string, Department>, wanted: string, cap: nat, last: nat,
                  rows: seq<Employee>, complete: bool, total: nat, excluded: nat)
  {
    var all := Screen(Received(fetch, last), visible, wanted);
    && (forall n {:trigger GoesOn(fetch, visible, wanted, cap, n)} :: 0 <= n < last ==>
          GoesOn(fetch, visible, wanted, cap, n))
    && !GoesOn(fetch, visible, wanted, cap, last)
    && rows == Capped(all, cap)
    && excluded == |Received(fetch, last)| - |all|
    && (complete <==> last > 0 && Pages(fetch(last)) <= last && |all| <= cap)
    && total == (if last > 0 && fetch(last).total != 0 then fetch(last).total else |all|)
  }

  /** `employees`. `wanted` is the department asked for, empty for none; `mayRead` is an administrator or
      an account with departments. A page is read once, so the answers OKK gives are a function of the
      page number whatever happens between the reads. `last` is the last page read. */
  method Employees(fetch: nat -> Page, visible: map<string, Department>, wanted: string, mayRead: bool, cap: nat,
                   ghost bound: nat)
    returns (rows: seq<Employee>, complete: bool, total: nat, excluded: nat, ghost last: nat)
    requires forall n :: Pages(fetch(n)) <= bound
    ensures wanted != "" && wanted !in visible ==> rows == [] && !complete && total == excluded == 0
    ensures (wanted == "" || wanted in visible) && !mayRead ==> rows == [] && complete && total == excluded == 0
    ensures (wanted == "" || wanted in visible) && mayRead ==>
      Reads(fetch, visible, wanted, cap, last, rows, complete, total, excluded)
  {
    if wanted != "" && wanted !in visible { return [], false, 0, 0, 0; }
    if !mayRead { return [], true, 0, 0, 0; }
    rows, complete, total, excluded, last := ReadPages(fetch, visible, wanted, cap, bound);
  }

  method ReadPages(fetch: nat -> Page, visible: map<string, Department>, wanted: string, cap: nat, ghost bound: nat)
    returns (rows: seq<Employee>, complete: bool, total: nat, excluded: nat, ghost last: nat)
    requires forall n :: Pages(fetch(n)) <= bound
    ensures Reads(fetch, visible, wanted, cap, last, rows, complete, total, excluded)
  {
    hide Screen;
    NothingScreened(visible, wanted);
    rows, complete, total, excluded, last := [], false, 0, 0, 0;
    var page := 1;
    while |rows| < cap
      invariant page == last + 1
      invariant rows == Screen(Received(fetch, last), visible, wanted)
      invariant excluded == |Received(fetch, last)| - |rows|
      invariant forall n {:trigger GoesOn(fetch, visible, wanted, cap, n)} :: 0 <= n < last ==>
        GoesOn(fetch, visible, wanted, cap, n)
      invariant if last > 0 then last < Pages(fetch(last)) && |rows| < cap else total == 0
      invariant !complete
      decreases bound + 1 - page
    {
      var payload := fetch(page);
      total := payload.total;
      assert GoesOn(fetch, visible, wanted, cap, last);
      rows, excluded := ScreenPage(payload.items, visible, wanted, rows, excluded, Received(fetch, last));
      assert Received(fetch, page) == Received(fetch, last) + payload.items;
      last := page;
      if |rows| >= cap && (page < Pages(payload) || |rows| > cap) {
        total := if total != 0 then total else |rows|;
        rows := Capped(rows, cap);
        return;
      }
      if page >= Pages(payload) {
        complete := true;
        total := if total != 0 then total else |rows|;
        return;
      }
      page := page + 1;
    }
    if total == 0 { total := |rows|; }
    rows := Capped(rows, cap);
  }

  /** The inner loop: the records of one page. */
  method ScreenPage(items: seq<Record>, visible: map<string, Department>, wanted: string, rows0: seq<Employee>,
                    excluded0: nat, ghost past: seq<Record>)
    returns (rows: seq<Employee>, excluded: nat)
    requires rows0 == Screen(past, visible, wanted) && excluded0 == |past| - |rows0|
    ensures rows == Screen(past + items, visible, wanted)
    ensures excluded == |past + items| - |rows|
  {
    rows, excluded := rows0, excluded0;
    assert past + items[..0] == past;
    for i := 0 to |items|
      invariant rows == Screen(past + items[..i], visible, wanted)
      invariant excluded == |past| + i - |rows|
    {
      var item := items[i];
      ScreenNext(past + items[..i], item, visible, wanted);
      assert past + items[..i + 1] == past + items[..i] + [item];
      if !Acceptable(item, visible, wanted) || Listed(Str(Get(item, "id")), rows) {
        excluded := excluded + 1;
      } else {
        rows := rows + [EmployeeOf(item, visible, wanted)];
      }
    }
    assert items[..|items|] == items;
  }

  lemma NothingScreened(visible: map<string, Department>, wanted: string)
    ensures Screen([], visible, wanted) == []
  {
  }

  lemma ScreenNext(seen: seq<Record>, item: Record, visible: map<string, Department>, wanted: string)
    ensures var before := Screen(seen, visible, wanted);
      Screen(seen + [item], visible, wanted) ==
        if Acceptable(item, visible, wanted) && !Listed(Str(Get(item, "id")), before)
        then before + [EmployeeOf(item, visible, wanted)]
        else before
  {
    assert (seen + [item])[..|seen|] == seen;
  }

  // ---------------------------------------------------------------- what the directory promises

  /** Every employee once, named, in a visible department and in the one asked for. */
  predicate Proper(rows: seq<Employee>, visible: map<string, Department>, wanted: string) {
    && (forall i, j :: 0 <= i < j < |rows| ==> rows[i].id != rows[j].id)
    && (forall i :: 0 <= i < |rows| ==>
          && Strip(rows[i].fullName) != ""
          && (exists id :: id in visible && visible[id] == rows[i].department && (wanted != "" ==> id == wanted)))
  }

  lemma {:induction false} ScreenIsProper(items: seq<Record>, visible: map<string, Department>, wanted: string)
    ensures Proper(Screen(items, visible, wanted), visible, wanted)
  {
    if items != [] {
      ScreenIsProper(items[..|items| - 1], visible, wanted);
    }
  }

  /** Nobody acceptable is lost: each id that came is listed, with what its first acceptable record said. */
  lemma {:induction false} ScreenKeepsTheFirst(items: seq<Record>, visible: map<string, Department>, wanted: string,
                                               k: nat)
    requires k < |items| && Acceptable(items[k], visible, wanted)
    requires forall j :: 0 <= j < k && Acceptable(items[j], visible, wanted) ==>
      Str(Get(items[j], "id")) != Str(Get(items[k], "id"))
    ensures EmployeeOf(items[k], visible, wanted) in Screen(items, visible, wanted)
  {
    if k < |items| - 1 {
      ScreenKeepsTheFirst(items[..|items| - 1], visible, wanted, k);
    } else {
      ScreenIsFrom(items[..k], visible, wanted);
      var id := Str(Get(items[k], "id"));
      assert items[..k] == items[..|items| - 1];
      assert !Offered(id, items[..k], visible, wanted);
      assert !Listed(id, Screen(items[..k], visible, wanted)) by {
        forall row | row in Screen(items[..k], visible, wanted) ensures row.id != id { }
      }
    }
  }

  predicate Offered(id: string, items: seq<Record>, visible: map<string, Department>, wanted: string) {
    exists j :: 0 <= j < |items| && Acceptable(items[j], visible, wanted) && Str(Get(items[j], "id")) == id
  }

  lemma {:induction false} ScreenIsFrom(items: seq<Record>, visible: map<string, Department>, wanted: string)
    ensures forall row :: row in Screen(items, visible, wanted) ==> Offered(row.id, items, visible, wanted)
  {
    if items != [] {
      var rest := items[..|items| - 1];
      ScreenIsFrom(rest, visible, wanted);
      forall row | row in Screen(items, visible, wanted) ensures Offered(row.id, items, visible, wanted) {
        if row in Screen(rest, visible, wanted) {
          assert Offered(row.id, rest, visible, wanted);
          var j :| 0 <= j < |rest| && Acceptable(rest[j], visible, wanted) && Str(Get(rest[j], "id")) == row.id;
          assert items[j] == rest[j];
        } else {
          assert Acceptable(items[|items| - 1], visible, wanted);
        }
      }
    }
  }

  lemma {:induction false} AcceptableIsListed(items: seq<Record>, visible: map<string, Department>, wanted: string,
                                              k: nat)
    requires k < |items| && Acceptable(items[k], visible, wanted)
    ensures Listed(Str(Get(items[k], "id")), Screen(items, visible, wanted))
  {
    var rest, rows := items[..|items| - 1], Screen(items, visible, wanted);
    if k < |rest| {
      AcceptableIsListed(rest, visible, wanted, k);
      var i :| 0 <= i < |Screen(rest, visible, wanted)| && Screen(rest, visible, wanted)[i].id ==
        Str(Get(items[k], "id"));
      assert rows[i].id == Str(Get(items[k], "id"));
    } else if !Listed(Str(Get(items[k], "id")), Screen(rest, visible, wanted)) {
      assert rows[|rows| - 1].id == Str(Get(items[k], "id"));
    }
  }

  /** Whatever the pages say: the directory is proper, listed and excluded records add up to the
      received ones unless the cap cut the list, and a complete directory lists everyone acceptable on
      every page up to the last one promised. */
  lemma DirectoryIsSound(fetch: nat -> Page, visible: map<string, Department>, wanted: string, cap: nat, last: nat,
                         rows: seq<Employee>, complete: bool, total: nat, excluded: nat)
    requires Reads(fetch, visible, wanted, cap, last, rows, complete, total, excluded)
    ensures Proper(rows, visible, wanted) && |rows| <= cap
    ensures |rows| < cap || complete ==> |rows| + excluded == |Received(fetch, last)|
    ensures complete ==> last >= Pages(fetch(last))
    ensures last > 0 && fetch(last).total > 0 ==> total == fetch(last).total
    ensures last == 0 || fetch(last).total == 0 ==> total >= |rows| && (total > |rows| ==> !complete)
    ensures complete ==>
      forall k :: 0 <= k < |Received(fetch, last)| && Acceptable(Received(fetch, last)[k], visible, wanted) ==>
                           Listed(Str(Get(Received(fetch, last)[k], "id")), rows)
  {
    var items := Received(fetch, last);
    ScreenIsProper(items, visible, wanted);
    if complete {
      forall k | 0 <= k < |items| && Acceptable(items[k], visible, wanted)
        ensures Listed(Str(Get(items[k], "id")), rows)
      {
        AcceptableIsListed(items, visible, wanted, k);
      }
    }
  }

  // ---------------------------------------------------------------- who is listed

  /** The record names the department: in its own field, or in the nested object when that field says nothing. */
  predicate NamesDepartment(item: Record, id: string) {
    if Truthy(Get(item, "department_id")) then Str(Get(item, "department_id")) == id
    else
      && Get(item, "department").Object? && Truthy(Get(Get(item, "department").fields, "id"))
      && Str(Get(Get(item, "department").fields, "id")) == id
  }

  /** The record has an id, a name that is not blank, and a department the account sees and asked for. */
  predicate Belongs(item: Record, visible: map<string, Department>, wanted: string) {
    && Truthy(Get(item, "id"))
    && Get(item, "full_name").Text? && (exists c :: c in Get(item, "full_name").text && !IsSpace(c))
    && (exists id :: id in visible && NamesDepartment(item, id) && (wanted == "" || wanted == id))
  }

  lemma {:induction false} BlankIff(s: string)
    ensures Strip(s) == "" <==> forall c :: c in s ==> IsSpace(c)
    decreases |s|
  {
    if s != [] && IsSpace(s[0]) {
      BlankIff(s[1..]);
      assert s == [s[0]] + s[1..];
    } else if s != [] && IsSpace(s[|s| - 1]) {
      BlankIff(s[..|s| - 1]);
      assert s == s[..|s| - 1] + [s[|s| - 1]];
    } else if s != [] {
      assert s[0] in s;
    }
  }

  lemma AcceptedIff(item: Record, visible: map<string, Department>, wanted: string)
    ensures Acceptable(item, visible, wanted) <==> Belongs(item, visible, wanted)
  {
    if Get(item, "full_name").Text? { BlankIff(Get(item, "full_name").text); }
    forall id ensures NamesDepartment(item, id) <==> DepartmentOf(item) == Some(id) {}
    hide Strip, Truthy, Str, NamesDepartment, DepartmentOf;
    if DepartmentOf(item).Some? { assert NamesDepartment(item, DepartmentOf(item).value); }
  }

  /** A complete directory lists exactly the people who belong on it, and whatever it says of one it has from a
      record that belongs. */
  lemma CompleteListsExactly(fetch: nat -> Page, visible: map<string, Department>, wanted: string, cap: nat, last: nat,
                             rows: seq<Employee>, complete: bool, total: nat, excluded: nat, id: string)
    requires Reads(fetch, visible, wanted, cap, last, rows, complete, total, excluded) && complete
    ensures Listed(id, rows) <==>
      exists k :: 0 <= k < |Received(fetch, last)| && Belongs(Received(fetch, last)[k], visible, wanted)
                  && Str(Get(Received(fetch, last)[k], "id")) == id
    ensures forall row :: row in rows ==>
      exists k :: 0 <= k < |Received(fetch, last)| && Acceptable(Received(fetch, last)[k], visible, wanted)
                  && EmployeeOf(Received(fetch, last)[k], visible, wanted) == row
  {
    hide Acceptable, Belongs, Screen, Received;
    assert rows == Screen(Received(fetch, last), visible, wanted);
    ListedIff(Received(fetch, last), visible, wanted, id);
    RowsAreRecords(Received(fetch, last), visible, wanted);
  }

  lemma ListedIff(items: seq<Record>, visible: map<string, Department>, wanted: string, id: string)
    ensures Listed(id, Screen(items, visible, wanted)) <==>
      exists k :: 0 <= k < |items| && Belongs(items[k], visible, wanted) && Str(Get(items[k], "id")) == id
  {
    hide Acceptable, Belongs, Screen;
    if Listed(id, Screen(items, visible, wanted)) {
      ScreenIsFrom(items, visible, wanted);
      var i :| 0 <= i < |Screen(items, visible, wanted)| && Screen(items, visible, wanted)[i].id == id;
      assert Offered(id, items, visible, wanted);
      var k :| 0 <= k < |items| && Acceptable(items[k], visible, wanted) && Str(Get(items[k], "id")) == id;
      AcceptedIff(items[k], visible, wanted);
    }
    if k :| 0 <= k < |items| && Belongs(items[k], visible, wanted) && Str(Get(items[k], "id")) == id {
      AcceptedIff(items[k], visible, wanted);
      AcceptableIsListed(items, visible, wanted, k);
    }
  }

  lemma {:induction false} RowsAreRecords(items: seq<Record>, visible: map<string, Department>, wanted: string)
    ensures forall row :: row in Screen(items, visible, wanted) ==>
      exists k :: 0 <= k < |items| && Acceptable(items[k], visible, wanted)
                  && EmployeeOf(items[k], visible, wanted) == row
  {
    hide Acceptable;
    if items != [] {
      var rest, last := items[..|items| - 1], |items| - 1;
      RowsAreRecords(rest, visible, wanted);
      forall row | row in Screen(items, visible, wanted)
        ensures exists k :: 0 <= k < |items| && Acceptable(items[k], visible, wanted)
                            && EmployeeOf(items[k], visible, wanted) == row
      {
        if row in Screen(rest, visible, wanted) {
          var k :| 0 <= k < |rest| && Acceptable(rest[k], visible, wanted)
                   && EmployeeOf(rest[k], visible, wanted) == row;
          assert items[k] == rest[k];
        } else {
          assert Acceptable(items[last], visible, wanted) && EmployeeOf(items[last], visible, wanted) == row;
        }
      }
    }
  }
}
