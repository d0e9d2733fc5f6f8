/** `tools_selected` of evals/run.py: did a model call the expected tools. */
module OrderedTools {
  datatype Mode = Free | NoTool | Any | All | InOrder

  datatype Verdict = NotJudged | Judged(ok: bool)

  const CONNECTION_CHECK: string := "get_access_context"

  /** The names are called at the increasing places `at`. */
  ghost predicate CalledAt(names: seq<string>, called: seq<string>, at: seq<nat>) {
    && |at| == |names|
    && (forall i :: 0 <= i < |at| ==> at[i] < |called| && called[at[i]] == names[i])
    && (forall i, j :: 0 <= i < j < |at| ==> at[i] < at[j])
  }

  /** The names are called in this order, other calls may come between. */
  ghost predicate CalledInOrder(names: seq<string>, called: seq<string>) {
    exists at: seq<nat> :: CalledAt(names, called, at)
  }

  /** How many of the names the greedy reading meets. */
  function Met(names: seq<string>, called: seq<string>): (n: nat)
    ensures n <= |names|
  {
    if called == [] then 0
    else
      var n := Met(names, called[..|called| - 1]);
      if n < |names| && called[|called| - 1] == names[n] then n + 1 else n
  }

  method ToolsSelected(mode: Mode, names: seq<string>, called: seq<string>) returns (verdict: Verdict)
    ensures mode.Free? ==> verdict == NotJudged
    ensures mode.NoTool? ==> verdict == Judged(forall name :: name in called ==> name == CONNECTION_CHECK)
    ensures mode.Any? ==> verdict == Judged(exists name :: name in called && name in names)
    ensures mode.All? ==> verdict == Judged(forall name :: name in names ==> name in called)
    ensures mode.InOrder? ==> verdict.Judged? && (verdict.ok <==> CalledInOrder(names, called))
  {
    match mode {
      case Free => return NotJudged;
      case NoTool => return Judged(forall name :: name in called ==> name == CONNECTION_CHECK);
      case Any => return Judged(exists name :: name in called && name in names);
      case All => return Judged(forall name :: name in names ==> name in called);
      case InOrder =>
        var position := 0;
        for i := 0 to |called|
          invariant position == Met(names, called[..i])
        {
          assert called[..i + 1][..i] == called[..i];
          if position < |names| && called[i] == names[position] {
            position := position + 1;
          }
        }
        assert called[..|called|] == called;
        GreedyFindsTheOrder(names, called);
        return Judged(position == |names|);
    }
  }

  /** The names met are called in order. */
  lemma {:induction false} MetAreCalled(names: seq<string>, called: seq<string>) returns (at: seq<nat>)
    ensures CalledAt(names[..Met(names, called)], called, at)
  {
    at := [];
    if called != [] {
      var rest := called[..|called| - 1];
      var n := Met(names, rest);
      at := MetAreCalled(names, rest);
      if n < |names| && called[|called| - 1] == names[n] {
        at := at + [|called| - 1];
      }
    }
  }

  /** No reading meets more names than the greedy one. */
  lemma {:induction false} GreedyMeetsMost(names: seq<string>, called: seq<string>, k: nat, at: seq<nat>)
    requires k <= |names| && CalledAt(names[..k], called, at)
    ensures k <= Met(names, called)
  {
    if k > 0 {
      assert at[k - 1] < |called| && called[at[k - 1]] == names[k - 1];
      var last := |called| - 1;
      if at[k - 1] == last {
        assert CalledAt(names[..k - 1], called[..last], at[..k - 1]);
        GreedyMeetsMost(names, called[..last], k - 1, at[..k - 1]);
      } else {
        assert forall i :: 0 <= i < k ==> at[i] <= at[k - 1];
        assert CalledAt(names[..k], called[..last], at);
        GreedyMeetsMost(names, called[..last], k, at);
      }
    }
  }

  /** Greedy reading decides the order exactly. */
  lemma GreedyFindsTheOrder(names: seq<string>, called: seq<string>)
    ensures Met(names, called) == |names| <==> CalledInOrder(names, called)
  {
    if Met(names, called) == |names| {
      var at := MetAreCalled(names, called);
      assert names[..|names|] == names;
    }
    if CalledInOrder(names, called) {
      var at :| CalledAt(names, called, at);
      assert names[..|names|] == names;
      GreedyMeetsMost(names, called, |names|, at);
    }
  }
}
