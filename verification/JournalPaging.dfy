/** Reading a journal page by page while calls keep arriving: `_journal_pages` of
    server/okk_mcp/backend_client.py. */
module JournalPaging {
  import opened Common
  import opened Counting

  type CallId = nat

  /** A call as a page lists it; `shown` is the rest of the row. */
  datatype Call = Call(id: CallId, shown: string)

  /** One answer of OKK; a missing number of pages reads as 0. */
  datatype Page = Page(items: seq<Call>, total: nat, pages: nat) {
    /** `int(payload.get("pages") or 1)` */
    function Pages(): nat { if pages == 0 then 1 else pages }
  }

  const PAGE_SIZE: nat := 100

  datatype Reading = Reading(rows: seq<Call>, total: nat, complete: bool)

  function Ids(rows: seq<Call>): (ids: seq<CallId>)
    ensures |ids| == |rows| && forall i :: 0 <= i < |rows| ==> ids[i] == rows[i].id
  {
    seq(|rows|, i requires 0 <= i < |rows| => rows[i].id)
  }

  /** The rows of one page whose id no earlier page listed. */
  function NotSeen(items: seq<Call>, seen: set<CallId>): (unseen: seq<Call>)
    ensures forall r :: r in unseen <==> r in items && r.id !in seen
    ensures |unseen| <= |items|
  {
    if items == [] then []
    else if items[0].id in seen then NotSeen(items[1..], seen)
    else [items[0]] + NotSeen(items[1..], seen)
  }

  ghost predicate Bounded(fetch: nat -> Page, bound: nat) {
    forall p :: fetch(p).Pages() <= bound
  }

  /** What the loop answers from page `page` on, with `rows` already read. */
  ghost function Collect(fetch: nat -> Page, cap: nat, page: nat, rows: seq<Call>, bound: nat): Reading
    requires Bounded(fetch, bound) && page <= bound + 1
    decreases bound + 1 - page
  {
    var payload := fetch(page);
    var all := rows + NotSeen(payload.items, ElementsOf(Ids(rows)));
    if |all| >= cap && (page < payload.Pages() || |all| > cap) then Reading(all[..cap], payload.total, false)
    else if page >= payload.Pages() then Reading(all, payload.total, true)
    else Collect(fetch, cap, page + 1, all, bound)
  }

  /** The loop. It ends because OKK never announces more than `bound` pages. */
  method JournalPages(fetch: nat -> Page, cap: nat, ghost bound: nat)
    returns (rows: seq<Call>, total: nat, complete: bool)
    requires Bounded(fetch, bound)
    ensures Reading(rows, total, complete) == Collect(fetch, cap, 1, [], bound)
  {
    rows := [];
    var seen: set<CallId> := {};
    var page := 1;
    while true
      invariant 1 <= page <= bound + 1
      invariant seen == ElementsOf(Ids(rows))
      invariant Collect(fetch, cap, page, rows, bound) == Collect(fetch, cap, 1, [], bound)
      decreases bound + 1 - page
    {
      var payload := fetch(page);
      total := payload.total;
      var pages := payload.Pages();
      var unseen := NotSeen(payload.items, seen);
      seen := seen + ElementsOf(Ids(unseen));
      IdsAppend(rows, unseen);
      rows := rows + unseen;
      if |rows| >= cap && (page < pages || |rows| > cap) {
        return rows[..cap], total, false;
      }
      if page >= pages {
        return rows, total, true;
      }
      page := page + 1;
    }
  }

  lemma IdsAppend(a: seq<Call>, b: seq<Call>)
    ensures Ids(a + b) == Ids(a) + Ids(b)
    ensures ElementsOf(Ids(a + b)) == ElementsOf(Ids(a)) + ElementsOf(Ids(b))
  {}

  // ---------------------------------------------------------------- no call twice, never over the cap

  /** Whatever OKK answers: the reading stays within the cap, and if each page lists distinct ids no call
      is in it twice. */
  lemma {:induction false} NeverTwiceNeverOver(fetch: nat -> Page, cap: nat, page: nat, rows: seq<Call>, bound: nat)
    requires Bounded(fetch, bound) && page <= bound + 1
    ensures |Collect(fetch, cap, page, rows, bound).rows| <= cap
    ensures Distinct(Ids(rows)) && (forall p :: Distinct(Ids(fetch(p).items))) ==>
      Distinct(Ids(Collect(fetch, cap, page, rows, bound).rows))
    decreases bound + 1 - page
  {
    var payload := fetch(page);
    var all := rows + NotSeen(payload.items, ElementsOf(Ids(rows)));
    if Distinct(Ids(rows)) && (forall p :: Distinct(Ids(fetch(p).items))) {
      PageAddsNoRepeat(rows, payload.items);
      if |all| >= cap {
        assert forall i :: 0 <= i < cap ==> Ids(all[..cap])[i] == Ids(all)[i];
      }
    }
    if !(|all| >= cap && (page < payload.Pages() || |all| > cap)) && page < payload.Pages() {
      NeverTwiceNeverOver(fetch, cap, page + 1, all, bound);
    }
  }

  /** Each row was listed by the page it is put down to, pages in the order they were read, and rows of one
      call by one page. */
  ghost predicate FromPages(fetch: nat -> Page, rows: seq<Call>, pages: seq<nat>, next: nat) {
    && |pages| == |rows|
    && (forall i :: 0 <= i < |rows| ==> 1 <= pages[i] < next && rows[i] in fetch(pages[i]).items)
    && (forall i, j :: 0 <= i < j < |rows| ==> pages[i] <= pages[j])
    && (forall i, j :: 0 <= i < j < |rows| && rows[i].id == rows[j].id ==> pages[i] == pages[j])
  }

  /** Whatever OKK answers, even pages that list a call twice: no call is counted from two pages. */
  lemma {:induction false} NoCallFromTwoPages(fetch: nat -> Page, cap: nat, page: nat, rows: seq<Call>, bound: nat,
                                              pages: seq<nat>)
    returns (all: seq<nat>, next: nat)
    requires Bounded(fetch, bound) && 1 <= page <= bound + 1 && FromPages(fetch, rows, pages, page)
    ensures FromPages(fetch, Collect(fetch, cap, page, rows, bound).rows, all, next)
    decreases bound + 1 - page
  {
    hide FromPages, NotSeen;
    var payload := fetch(page);
    var more := rows + NotSeen(payload.items, ElementsOf(Ids(rows)));
    all := PageAddsItsOwn(fetch, page, rows, pages);
    next := page + 1;
    if |more| >= cap && (page < payload.Pages() || |more| > cap) {
      CutFromPages(fetch, more, all, next, cap);
      all := all[..cap];
    } else if page < payload.Pages() {
      all, next := NoCallFromTwoPages(fetch, cap, page + 1, more, bound, all);
    }
  }

  lemma PageAddsItsOwn(fetch: nat -> Page, page: nat, rows: seq<Call>, pages: seq<nat>) returns (all: seq<nat>)
    requires 1 <= page && FromPages(fetch, rows, pages, page)
    ensures FromPages(fetch, rows + NotSeen(fetch(page).items, ElementsOf(Ids(rows))), all, page + 1)
  {
    hide NotSeen;
    var news := NotSeen(fetch(page).items, ElementsOf(Ids(rows)));
    all := pages + seq(|news|, _ => page);
    forall i | 0 <= i < |rows| ensures rows[i].id in ElementsOf(Ids(rows)) { assert Ids(rows)[i] in Ids(rows); }
    forall j | 0 <= j < |news|
      ensures news[j] in fetch(page).items && news[j].id !in ElementsOf(Ids(rows))
    {
      assert news[j] in news;
    }
  }

  lemma CutFromPages(fetch: nat -> Page, rows: seq<Call>, pages: seq<nat>, next: nat, cap: nat)
    requires FromPages(fetch, rows, pages, next) && cap <= |rows|
    ensures |pages| == |rows| && FromPages(fetch, rows[..cap], pages[..cap], next)
  {}

  lemma PageAddsNoRepeat(rows: seq<Call>, items: seq<Call>)
    requires Distinct(Ids(rows)) && Distinct(Ids(items))
    ensures Distinct(Ids(rows + NotSeen(items, ElementsOf(Ids(rows)))))
  {
    var seen := ElementsOf(Ids(rows));
    var news := NotSeen(items, seen);
    NotSeenNoRepeat(items, seen);
    var ids := Ids(rows + news);
    IdsAppend(rows, news);
    forall i, j | 0 <= i < j < |ids| ensures ids[i] != ids[j] {
      if i < |rows| <= j {
        assert Ids(rows)[i] in Ids(rows);
        assert news[j - |rows|] in news;
      } else if j < |rows| {
        assert Ids(rows)[i] != Ids(rows)[j];
      } else {
        assert Ids(news)[i - |rows|] != Ids(news)[j - |rows|];
      }
    }
  }

  lemma {:induction false} NotSeenNoRepeat(items: seq<Call>, seen: set<CallId>)
    requires Distinct(Ids(items))
    ensures Distinct(Ids(NotSeen(items, seen)))
  {
    if items != [] {
      var rest := items[1..];
      assert forall i :: 0 <= i < |rest| ==> Ids(rest)[i] == Ids(items)[i + 1];
      NotSeenNoRepeat(rest, seen);
      var unseen := NotSeen(rest, seen);
      forall i | 0 <= i < |unseen| ensures unseen[i].id != items[0].id {
        assert unseen[i] in unseen;
        var j :| 0 <= j < |rest| && rest[j] == unseen[i];
        assert Ids(items)[0] != Ids(items)[j + 1];
      }
    }
  }

  // ---------------------------------------------------------------- a journal that only grows in front

  /** The ids of `ids` that are in `keep`, in order. */
  function Only(ids: seq<CallId>, keep: set<CallId>): seq<CallId> {
    if ids == [] then []
    else if ids[0] in keep then [ids[0]] + Only(ids[1..], keep)
    else Only(ids[1..], keep)
  }

  function Slice(ids: seq<CallId>, lo: nat, hi: nat): seq<CallId>
    requires lo <= hi
  {
    if |ids| <= lo then [] else if |ids| <= hi then ids[lo..] else ids[lo..hi]
  }

  /** `journal(p)` is the journal, newest first, when page `p` is read: calls only arrive in front of it,
      and the page lists its place in that journal. */
  ghost predicate GrowsAt(journal: nat -> seq<CallId>, fetch: nat -> Page, p: nat) {
    && |journal(p)| <= |journal(p + 1)| && journal(p + 1)[|journal(p + 1)| - |journal(p)|..] == journal(p)
    && Distinct(journal(p)) && Distinct(journal(p + 1))
    && (1 <= p ==>
          && Ids(fetch(p).items) == Slice(journal(p), (p - 1) * PAGE_SIZE, p * PAGE_SIZE)
          && fetch(p).Pages() * PAGE_SIZE >= |journal(p)|)
  }

  ghost predicate Grows(journal: nat -> seq<CallId>, fetch: nat -> Page) {
    forall p {:trigger GrowsAt(journal, fetch, p)} :: 1 <= p ==> GrowsAt(journal, fetch, p)
  }

  lemma OnlyCons(x: CallId, rest: seq<CallId>, keep: set<CallId>)
    ensures Only([], keep) == []
    ensures x in keep ==> Only([x] + rest, keep) == [x] + Only(rest, keep)
    ensures x !in keep ==> Only([x] + rest, keep) == Only(rest, keep)
  {
    assert ([x] + rest)[1..] == rest;
  }

  lemma {:induction false} OnlyAppend(a: seq<CallId>, b: seq<CallId>, keep: set<CallId>)
    ensures Only(a + b, keep) == Only(a, keep) + Only(b, keep)
  {
    hide Only;
    if a == [] {
      OnlyCons(0, [], keep);
      assert a + b == b;
    } else {
      assert a == [a[0]] + a[1..] && a + b == [a[0]] + (a[1..] + b);
      OnlyCons(a[0], a[1..], keep);
      OnlyCons(a[0], a[1..] + b, keep);
      OnlyAppend(a[1..], b, keep);
    }
  }

  lemma {:induction false} OnlyNone(a: seq<CallId>, keep: set<CallId>)
    requires forall i :: 0 <= i < |a| ==> a[i] !in keep
    ensures Only(a, keep) == []
  {
    if a != [] { OnlyNone(a[1..], keep); }
  }

  lemma {:induction false} OnlyAll(a: seq<CallId>, keep: set<CallId>)
    requires forall i :: 0 <= i < |a| ==> a[i] in keep
    ensures Only(a, keep) == a
  {
    if a != [] { OnlyAll(a[1..], keep); }
  }

  lemma IdsCons(x: Call, rest: seq<Call>)
    ensures Ids([]) == [] && Ids([x] + rest) == [x.id] + Ids(rest)
  {
  }

  /** Dropping the seen rows of a page and keeping those of `keep` is keeping `keep - seen`. */
  lemma {:induction false} OnlyNotSeen(items: seq<Call>, seen: set<CallId>, keep: set<CallId>)
    ensures Only(Ids(NotSeen(items, seen)), keep) == Only(Ids(items), keep - seen)
  {
    hide Only, Ids;
    if items == [] {
      IdsCons(Call(0, ""), []);
      OnlyCons(0, [], keep);
      OnlyCons(0, [], keep - seen);
    } else {
      var x, rest := items[0], items[1..];
      OnlyNotSeen(rest, seen, keep);
      assert items == [x] + rest;
      IdsCons(x, rest);
      IdsCons(x, NotSeen(rest, seen));
      OnlyCons(x.id, Ids(rest), keep - seen);
      OnlyCons(x.id, Ids(NotSeen(rest, seen)), keep);
    }
  }

  /** `Only` of the places `lo` to `hi`. */
  function OnlyFrom(ids: seq<CallId>, lo: nat, hi: nat, keep: set<CallId>): seq<CallId>
    requires lo <= hi <= |ids|
    decreases hi - lo
  {
    if lo == hi then []
    else if ids[lo] in keep then [ids[lo]] + OnlyFrom(ids, lo + 1, hi, keep)
    else OnlyFrom(ids, lo + 1, hi, keep)
  }

  lemma OnlyStep(ids: seq<CallId>, lo: nat, hi: nat, keep: set<CallId>)
    requires lo <= hi <= |ids|
    ensures lo == hi ==> OnlyFrom(ids, lo, hi, keep) == []
    ensures lo < hi && ids[lo] in keep ==> OnlyFrom(ids, lo, hi, keep) == [ids[lo]] + OnlyFrom(ids, lo + 1, hi, keep)
    ensures lo < hi && ids[lo] !in keep ==> OnlyFrom(ids, lo, hi, keep) == OnlyFrom(ids, lo + 1, hi, keep)
  {}

  lemma {:induction false} OnlySlice(ids: seq<CallId>, lo: nat, hi: nat, keep: set<CallId>)
    requires lo <= hi <= |ids|
    ensures Only(ids[lo..hi], keep) == OnlyFrom(ids, lo, hi, keep)
    decreases hi - lo
  {
    if lo < hi {
      assert ids[lo..hi][1..] == ids[lo + 1..hi];
      OnlySlice(ids, lo + 1, hi, keep);
    }
  }

  /** `now` is `first` behind `|now| - |first|` newer calls. */
  ghost predicate Behind(first: seq<CallId>, now: seq<CallId>) {
    && |first| <= |now|
    && (forall i {:trigger first[i]} :: 0 <= i < |first| ==> now[|now| - |first| + i] == first[i])
    && (forall i {:trigger now[i]} :: 0 <= i < |now| - |first| ==> now[i] !in first)
  }

  lemma {:induction false} OnlyNewer(now: seq<CallId>, lo: nat, hi: nat, extra: nat, keep: set<CallId>)
    requires lo <= hi <= |now| && forall i :: 0 <= i < extra && i < |now| ==> now[i] !in keep
    ensures OnlyFrom(now, lo, hi, keep) ==
      if hi <= extra then [] else OnlyFrom(now, if lo <= extra then extra else lo, hi, keep)
    decreases hi - lo
  {
    hide OnlyFrom;
    OnlyStep(now, lo, hi, keep);
    if lo < hi && lo < extra { OnlyNewer(now, lo + 1, hi, extra, keep); }
  }

  lemma {:induction false} OnlyShifted(first: seq<CallId>, now: seq<CallId>, extra: nat, lo: nat, hi: nat,
                                       keep: set<CallId>)
    requires |now| == extra + |first| && lo <= hi <= |first|
    requires forall i :: 0 <= i < |first| ==> first[i] == now[extra + i]
    ensures OnlyFrom(now, extra + lo, extra + hi, keep) == OnlyFrom(first, lo, hi, keep)
    decreases hi - lo
  {
    hide OnlyFrom;
    OnlyStep(first, lo, hi, keep);
    OnlyStep(now, extra + lo, extra + hi, keep);
    if lo < hi {
      OnlyShifted(first, now, extra, lo + 1, hi, keep);
      assert first[lo] == now[extra + lo];
    }
  }

  /** A call of a journal without repetitions is among its first `m` exactly when it stands there. */
  lemma AmongFirst(first: seq<CallId>, lo: nat, m: nat)
    requires Distinct(first) && lo < |first| && m <= |first|
    ensures first[lo] in ElementsOf(first) - ElementsOf(first[..m]) <==> m <= lo
  {
    assert first[lo] in first;
    if lo < m {
      assert first[..m][lo] == first[lo];
    } else {
      forall j | 0 <= j < m ensures first[..m][j] != first[lo] {}
    }
  }

  /** Of the calls from `lo` on, those not among the first `m` are the ones from `m` on. */
  lemma {:induction false} OnlyBeyond(first: seq<CallId>, lo: nat, hi: nat, m: nat)
    requires Distinct(first) && lo <= hi <= |first| && m <= |first|
    ensures OnlyFrom(first, lo, hi, ElementsOf(first) - ElementsOf(first[..m]))
      == if hi <= m then [] else first[if lo <= m then m else lo..hi]
    decreases hi - lo
  {
    hide OnlyFrom, Distinct, ElementsOf;
    OnlyStep(first, lo, hi, ElementsOf(first) - ElementsOf(first[..m]));
    if lo < hi {
      OnlyBeyond(first, lo + 1, hi, m);
      AmongFirst(first, lo, m);
      if m <= lo { assert first[lo..hi] == [first[lo]] + first[lo + 1..hi]; }
    }
  }

  /** Where the first journal ends on a page that starts at `lo`, behind `extra` newer calls. */
  function EndOnPage(lo: nat, extra: nat, count: nat): nat {
    if lo + PAGE_SIZE < extra then 0 else if lo + PAGE_SIZE - extra < count then lo + PAGE_SIZE - extra else count
  }

  /** The places `lo` to `end` of the later journal, as far as they show the first one beyond its first `m`. */
  lemma OldOnRange(first: seq<CallId>, now: seq<CallId>, lo: nat, end: nat, m: nat)
    requires Behind(first, now) && Distinct(first) && m <= |first| && lo <= end <= |now|
    requires lo <= m + (|now| - |first|) || m == |first|
    ensures OnlyFrom(now, lo, end, ElementsOf(first) - ElementsOf(first[..m]))
      == if end - (|now| - |first|) <= m then [] else first[m..end - (|now| - |first|)]
  {
    hide OnlyFrom;
    var keep := ElementsOf(first) - ElementsOf(first[..m]);
    var extra := |now| - |first|;
    OnlyNewer(now, lo, end, extra, keep);
    if extra < end {
      var start := if lo <= extra then 0 else lo - extra;
      OnlyShifted(first, now, extra, start, end - extra, keep);
      OnlyBeyond(first, start, end - extra, m);
    }
  }

  lemma SliceRange(ids: seq<CallId>, lo: nat)
    requires lo <= |ids|
    ensures Slice(ids, lo, lo + PAGE_SIZE) == ids[lo..if |ids| <= lo + PAGE_SIZE then |ids| else lo + PAGE_SIZE]
  {}

  /** What a page shows of the first journal beyond its first `m` calls, when newer calls stand in front. */
  lemma PageOfOld(first: seq<CallId>, now: seq<CallId>, lo: nat, m: nat)
    requires Behind(first, now) && Distinct(first) && m <= |first| && (lo <= m + (|now| - |first|) || m == |first|)
    ensures var hi := EndOnPage(lo, |now| - |first|, |first|);
      Only(Slice(now, lo, lo + PAGE_SIZE), ElementsOf(first) - ElementsOf(first[..m])) ==
        if hi <= m then [] else first[m..hi]
  {
    if lo <= |now| {
      var end := if |now| <= lo + PAGE_SIZE then |now| else lo + PAGE_SIZE;
      SliceRange(now, lo);
      OnlySlice(now, lo, end, ElementsOf(first) - ElementsOf(first[..m]));
      OldOnRange(first, now, lo, end, m);
    }
  }

  /** The calls of the first journal among the rows read before page `page` are its first `m`, and no
      older call stands before the place where the page begins. */
  ghost predicate ReadSoFar(journal: nat -> seq<CallId>, rows: seq<Call>, page: nat, m: nat) {
    && 1 <= page
    && m <= |journal(1)|
    && Distinct(journal(1)) && Behind(journal(1), journal(page))
    && ((page - 1) * PAGE_SIZE <= m + (|journal(page)| - |journal(1)|) || m == |journal(1)|)
    && Only(Ids(rows), ElementsOf(journal(1))) == journal(1)[..m]
  }

  lemma SeenOld(ids: seq<CallId>, first: seq<CallId>, m: nat)
    requires m <= |first| && Only(ids, ElementsOf(first)) == first[..m]
    ensures ElementsOf(first) - ElementsOf(ids) == ElementsOf(first) - ElementsOf(first[..m])
  {
    OnlyMembers(ids, ElementsOf(first));
    forall x ensures x in first && x !in ids <==> x in first && x !in first[..m] {}
  }

  lemma {:induction false} OnlyMembers(ids: seq<CallId>, keep: set<CallId>)
    ensures forall x :: x in Only(ids, keep) <==> x in ids && x in keep
  {
    if ids != [] {
      OnlyMembers(ids[1..], keep);
      assert forall x :: x in ids <==> x == ids[0] || x in ids[1..];
    }
  }

  /** The calls of the first journal after a page: those read before, then those the page adds. */
  lemma OldAfterPage(first: seq<CallId>, items: seq<Call>, rows: seq<Call>, m: nat)
    requires m <= |first| && Only(Ids(rows), ElementsOf(first)) == first[..m]
    ensures Only(Ids(rows + NotSeen(items, ElementsOf(Ids(rows)))), ElementsOf(first))
      == first[..m] + Only(Ids(items), ElementsOf(first) - ElementsOf(first[..m]))
  {
    var news := NotSeen(items, ElementsOf(Ids(rows)));
    IdsAppend(rows, news);
    OnlyAppend(Ids(rows), Ids(news), ElementsOf(first));
    OnlyNotSeen(items, ElementsOf(Ids(rows)), ElementsOf(first));
    SeenOld(Ids(rows), first, m);
  }

  /** One page brings the reading of the first journal up to where the page ends. */
  lemma OnePage(journal: nat -> seq<CallId>, items: seq<Call>, page: nat, rows: seq<Call>, m: nat)
    requires ReadSoFar(journal, rows, page, m)
    requires Ids(items) == Slice(journal(page), (page - 1) * PAGE_SIZE, page * PAGE_SIZE)
    ensures var hi := EndOnPage((page - 1) * PAGE_SIZE, |journal(page)| - |journal(1)|, |journal(1)|);
      Only(Ids(rows + NotSeen(items, ElementsOf(Ids(rows)))), ElementsOf(journal(1))) ==
        journal(1)[..if hi <= m then m else hi]
  {
    hide Only, Slice, NotSeen;
    var first := journal(1);
    var hi := EndOnPage((page - 1) * PAGE_SIZE, |journal(page)| - |first|, |first|);
    OldAfterPage(first, items, rows, m);
    PageOfOld(first, journal(page), (page - 1) * PAGE_SIZE, m);
    if m < hi { Joined(first, m, hi); } else { assert first[..m] + [] == first[..m]; }
  }

  lemma Joined(first: seq<CallId>, m: nat, hi: nat)
    requires m <= hi <= |first|
    ensures first[..m] + first[m..hi] == first[..hi]
  {}

  lemma NextBehind(journal: nat -> seq<CallId>, fetch: nat -> Page, page: nat)
    requires Grows(journal, fetch) && 1 <= page && Behind(journal(1), journal(page))
    ensures Behind(journal(1), journal(page + 1)) && |journal(page)| <= |journal(page + 1)|
  {
    assert GrowsAt(journal, fetch, page);
    BehindTransitive(journal(1), journal(page), journal(page + 1));
  }

  lemma BehindTransitive(first: seq<CallId>, now: seq<CallId>, later: seq<CallId>)
    requires Behind(first, now) && |now| <= |later| && later[|later| - |now|..] == now && Distinct(later)
    ensures Behind(first, later)
  {
    var gap, extra := |later| - |now|, |now| - |first|;
    forall i | 0 <= i < |now| ensures later[gap + i] == now[i] { assert later[gap..][i] == later[gap + i]; }
    forall i | 0 <= i < |first| ensures later[|later| - |first| + i] == first[i] { assert now[extra + i] == first[i]; }
    forall i | 0 <= i < |later| - |first| ensures later[i] !in first {
      forall j | 0 <= j < |first|
        ensures first[j] != later[i]
      {
        assert later[gap + extra + j] == now[extra + j] == first[j];
      }
    }
  }

  lemma {:induction false} CompleteHoldsAll(journal: nat -> seq<CallId>, fetch: nat -> Page, cap: nat, page: nat,
                                            rows: seq<Call>, bound: nat, m: nat)
    requires Bounded(fetch, bound) && page <= bound + 1 && Grows(journal, fetch) && ReadSoFar(journal, rows, page, m)
    ensures var out := Collect(fetch, cap, page, rows, bound);
      out.complete ==> Only(Ids(out.rows), ElementsOf(journal(1))) == journal(1)
    decreases bound + 1 - page
  {
    var payload := fetch(page);
    var all := rows + NotSeen(payload.items, ElementsOf(Ids(rows)));
    var hi := EndOnPage((page - 1) * PAGE_SIZE, |journal(page)| - |journal(1)|, |journal(1)|);
    assert GrowsAt(journal, fetch, page);
    OnePage(journal, payload.items, page, rows, m);
    if page >= payload.Pages() {
      assert hi == |journal(1)|;
    } else if !(|all| >= cap && (page < payload.Pages() || |all| > cap)) {
      NextBehind(journal, fetch, page);
      CompleteHoldsAll(journal, fetch, cap, page + 1, all, bound, if hi <= m then m else hi);
    }
  }

  /** While the journal only gains newer calls in front, a reading marked complete holds every call that
      was there at the first read, each exactly once and in OKK's order; newer calls may stand between. */
  lemma CompleteReading(journal: nat -> seq<CallId>, fetch: nat -> Page, cap: nat, bound: nat)
    requires Bounded(fetch, bound) && Grows(journal, fetch)
    ensures var out := Collect(fetch, cap, 1, [], bound);
      out.complete ==> Only(Ids(out.rows), ElementsOf(journal(1))) == journal(1)
  {
    assert GrowsAt(journal, fetch, 1);
    CompleteHoldsAll(journal, fetch, cap, 1, [], bound, 0);
  }

  // ---------------------------------------------------------------- when a reading is complete

  /** The calls the pages 1 to `n` list, each put down to the first page that lists it. */
  function ReadUpTo(fetch: nat -> Page, n: nat): seq<Call> {
    if n == 0 then []
    else
      var before := ReadUpTo(fetch, n - 1);
      before + NotSeen(fetch(n).items, ElementsOf(Ids(before)))
  }

  /** No call a page lists is missing, and none comes from nowhere. */
  lemma {:induction false} ReadHoldsEveryId(fetch: nat -> Page, n: nat, id: CallId)
    ensures id in Ids(ReadUpTo(fetch, n)) <==> exists p :: 1 <= p <= n && id in Ids(fetch(p).items)
  {
    if n > 0 {
      var before, items := ReadUpTo(fetch, n - 1), fetch(n).items;
      ReadHoldsEveryId(fetch, n - 1, id);
      IdsAppend(before, NotSeen(items, ElementsOf(Ids(before))));
      NotSeenIds(items, ElementsOf(Ids(before)), id);
      assert id in Ids(ReadUpTo(fetch, n)) <==> id in Ids(before) || id in Ids(items);
    }
  }

  lemma NotSeenIds(items: seq<Call>, seen: set<CallId>, id: CallId)
    ensures id in Ids(NotSeen(items, seen)) <==> id in Ids(items) && id !in seen
  {
    var unseen := NotSeen(items, seen);
    if id in Ids(unseen) {
      var i :| 0 <= i < |unseen| && unseen[i].id == id;
      assert unseen[i] in items;
      var j :| 0 <= j < |items| && items[j] == unseen[i];
      assert Ids(items)[j] == id;
    }
    if id in Ids(items) && id !in seen {
      var j :| 0 <= j < |items| && items[j].id == id;
      assert items[j] in unseen;
      var i :| 0 <= i < |unseen| && unseen[i] == items[j];
      assert Ids(unseen)[i] == id;
    }
  }

  /** A reading ends on page `n`: before it more pages were promised and the cap was not reached. It is complete
      exactly when no page is promised after `n` and everything read is within the cap; then it
      is all of it. Otherwise it is cut at the cap, which was reached. */
  lemma CompleteIffAllRead(fetch: nat -> Page, cap: nat, bound: nat) returns (n: nat)
    requires Bounded(fetch, bound)
    ensures 1 <= n && forall p :: 1 <= p < n ==> p < fetch(p).Pages() && |ReadUpTo(fetch, p)| < cap
    ensures var out, all := Collect(fetch, cap, 1, [], bound), ReadUpTo(fetch, n);
      && (out.complete <==> fetch(n).Pages() <= n && |all| <= cap)
      && (out.complete ==> out.rows == all)
      && (!out.complete ==> |all| >= cap && out.rows == all[..cap])
      && out.total == fetch(n).total
  {
    n := EndsOn(fetch, cap, 1, bound);
  }

  lemma {:induction false} EndsOn(fetch: nat -> Page, cap: nat, page: nat, bound: nat) returns (n: nat)
    requires Bounded(fetch, bound) && 1 <= page <= bound + 1
    ensures page <= n && forall p :: page <= p < n ==> p < fetch(p).Pages() && |ReadUpTo(fetch, p)| < cap
    ensures var out, all := Collect(fetch, cap, page, ReadUpTo(fetch, page - 1), bound), ReadUpTo(fetch, n);
      && (out.complete <==> fetch(n).Pages() <= n && |all| <= cap)
      && (out.complete ==> out.rows == all)
      && (!out.complete ==> |all| >= cap && out.rows == all[..cap])
      && out.total == fetch(n).total
    decreases bound + 1 - page
  {
    hide NotSeen;
    n := page;
    var all, pages := ReadUpTo(fetch, page), fetch(page).Pages();
    if !(|all| >= cap && (page < pages || |all| > cap)) && page < pages {
      n := EndsOn(fetch, cap, page + 1, bound);
    }
  }
}
