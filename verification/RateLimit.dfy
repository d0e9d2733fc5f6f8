/** Fixed-window limits: `_count_tool_call` of backend_client.py, the login and registration limiters of oauth.py. */
module RateLimit {
  /** Time is counted in ticks, `window` and `ttl` are in ticks. */
  datatype Rules = Rules(window: nat, ttl: nat, limit: nat) {
    predicate Valid() { window > 0 }

    function Window(now: nat): nat
      requires Valid()
    {
      now / window
    }
  }

  datatype Key = Key(name: string, window: nat)

  datatype Counter = Counter(count: nat, expiresAt: nat)

  type Redis = map<Key, Counter>

  /** One request; it counts under every name: one for a tool call, address and account for a login. */
  datatype Attempt = Attempt(now: nat, names: seq<string>)

  datatype Verdict = Admitted | Limited | Unavailable

  // ---------------------------------------------------------------- Redis

  /** Expired keys are gone. */
  function Alive(redis: Redis, now: nat): Redis {
    map key | key in redis && now < redis[key].expiresAt :: redis[key]
  }

  function Value(redis: Redis, key: Key, now: nat): nat {
    if key in redis && now < redis[key].expiresAt then redis[key].count else 0
  }

  /** INCR and EXPIRE of one key. */
  function Incremented(redis: Redis, key: Key, now: nat, ttl: nat): Redis {
    Alive(redis, now)[key := Counter(Value(redis, key, now) + 1, now + ttl)]
  }

  /** The pipeline of an attempt. */
  function Counted(rules: Rules, redis: Redis, attempt: Attempt): Redis
    requires rules.Valid()
    decreases |attempt.names|
  {
    if attempt.names == [] then redis
    else
      var last := |attempt.names| - 1;
      Incremented(Counted(rules, redis, attempt.(names := attempt.names[..last])),
                  Key(attempt.names[last], rules.Window(attempt.now)),
                  attempt.now, rules.ttl)
  }

  /** No name is above the limit. */
  predicate Admits(rules: Rules, redis: Redis, attempt: Attempt)
    requires rules.Valid()
  {
    var after := Counted(rules, redis, attempt);
    forall name :: name in attempt.names ==>
      var key := Key(name, rules.Window(attempt.now)); key in after ==> after[key].count <= rules.limit
  }

  // ---------------------------------------------------------------- the limiters

  const TOOL_TTL: nat := 120
  const LOGIN_TTL: nat := 120
  const REGISTRATION_TTL: nat := 7200

  function Minute(limit: nat): Rules { Rules(60, TOOL_TTL, limit) }

  function Hour(limit: nat): Rules { Rules(3600, REGISTRATION_TTL, limit) }

  class Limiters {
    var redis: Redis

    constructor ()
      ensures redis == map[]
    {
      redis := map[];
    }

    method Increment(key: Key, now: nat, ttl: nat) returns (count: nat)
      modifies this
      ensures redis == Incremented(old(redis), key, now, ttl)
      ensures count == redis[key].count
    {
      count := Value(redis, key, now) + 1;
      redis := Alive(redis, now)[key := Counter(count, now + ttl)];
    }

    /** `_count_tool_call`: with Redis down the call passes uncounted. */
    method CountToolCall(now: nat, up: bool, subject: string, limit: nat) returns (verdict: Verdict)
      modifies this
      ensures !up ==> verdict == Admitted && redis == old(redis)
      ensures up ==> var attempt := Attempt(now, ["tools:" + subject]);
        && redis == Counted(Minute(limit), old(redis), attempt)
        && verdict == if Admits(Minute(limit), old(redis), attempt) then Admitted else Limited
    {
      if !up { return Admitted; }
      ghost var before := redis;
      OneName(Minute(limit), before, now, "tools:" + subject);
      var calls := Increment(Key("tools:" + subject, now / 60), now, TOOL_TTL);
      verdict := if calls > limit then Limited else Admitted;
    }

    /** `_check_registration_rate_limit`: with Redis down nobody registers. */
    method CheckRegistration(now: nat, up: bool, bucket: string, limit: nat) returns (verdict: Verdict)
      modifies this
      ensures !up ==> verdict == Unavailable && redis == old(redis)
      ensures up ==> var attempt := Attempt(now, ["register:" + bucket]);
        && redis == Counted(Hour(limit), old(redis), attempt)
        && verdict == if Admits(Hour(limit), old(redis), attempt) then Admitted else Limited
    {
      if !up { return Unavailable; }
      OneName(Hour(limit), redis, now, "register:" + bucket);
      var count := Increment(Key("register:" + bucket, now / 3600), now, REGISTRATION_TTL);
      verdict := if count > limit then Limited else Admitted;
    }

    /** `_check_login_rate_limit`: an attempt counts under its address and under its account. */
    method CheckLogin(now: nat, up: bool, host: string, account: string, limit: nat) returns (verdict: Verdict)
      modifies this
      ensures !up ==> verdict == Unavailable && redis == old(redis)
      ensures up ==> var attempt := Attempt(now, ["login:ip:" + host, "login:account:" + account]);
        && redis == Counted(Minute(limit), old(redis), attempt)
        && verdict == if Admits(Minute(limit), old(redis), attempt) then Admitted else Limited
    {
      if !up { return Unavailable; }
      var address, person := "login:ip:" + host, "login:account:" + account;
      assert address[6] == 'i' && person[6] == 'a';
      TwoNames(Minute(limit), redis, now, address, person);
      var first := Increment(Key(address, now / 60), now, LOGIN_TTL);
      var second := Increment(Key(person, now / 60), now, LOGIN_TTL);
      verdict := if first > limit || second > limit then Limited else Admitted;
    }
  }

  lemma OneName(rules: Rules, redis: Redis, now: nat, name: string)
    requires rules.Valid()
    ensures var after := Incremented(redis, Key(name, rules.Window(now)), now, rules.ttl);
      && Counted(rules, redis, Attempt(now, [name])) == after
      && (Admits(rules, redis, Attempt(now, [name])) <==> after[Key(name, rules.Window(now))].count <= rules.limit)
  {
    var attempt := Attempt(now, [name]);
    assert attempt.names[..0] == [];
    assert Counted(rules, redis, attempt.(names := [])) == redis;
    assert name in attempt.names;
  }

  lemma TwoNames(rules: Rules, redis: Redis, now: nat, a: string, b: string)
    requires rules.Valid() && a != b && rules.ttl > 0
    ensures var w := rules.Window(now);
      var first := Incremented(redis, Key(a, w), now, rules.ttl);
      var second := Incremented(first, Key(b, w), now, rules.ttl);
      && Counted(rules, redis, Attempt(now, [a, b])) == second
      && (Admits(rules, redis, Attempt(now, [a, b])) <==>
            first[Key(a, w)].count <= rules.limit && second[Key(b, w)].count <= rules.limit)
  {
    var attempt := Attempt(now, [a, b]);
    assert attempt.names[..1] == [a];
    OneName(rules, redis, now, a);
    assert Counted(rules, redis, attempt) == Incremented(Counted(rules, redis, Attempt(now, [a])),
                                                         Key(b, rules.Window(now)), now, rules.ttl);
    assert a in attempt.names && b in attempt.names;
  }

  // ---------------------------------------------------------------- runs

  /** The attempts of a run, in the order Redis serves them, by one clock that never goes back. */
  predicate Run(run: seq<Attempt>) {
    && (forall i, j :: 0 <= i < j < |run| ==> run[i].now <= run[j].now)
    && (forall i {:trigger run[i]} :: 0 <= i < |run| ==>
          forall j, k :: 0 <= j < k < |run[i].names| ==> run[i].names[j] != run[i].names[k])
  }

  function After(rules: Rules, run: seq<Attempt>): Redis
    requires rules.Valid()
  {
    if run == [] then map[] else Counted(rules, After(rules, run[..|run| - 1]), run[|run| - 1])
  }

  predicate On(rules: Rules, attempt: Attempt, key: Key)
    requires rules.Valid()
  {
    key.name in attempt.names && rules.Window(attempt.now) == key.window
  }

  function AttemptsOn(rules: Rules, run: seq<Attempt>, key: Key): nat
    requires rules.Valid()
  {
    if run == [] then 0
    else AttemptsOn(rules, run[..|run| - 1], key) + (if On(rules, run[|run| - 1], key) then 1 else 0)
  }

  function AdmittedOn(rules: Rules, run: seq<Attempt>, key: Key): nat
    requires rules.Valid()
  {
    if run == [] then 0
    else
      var rest, last := run[..|run| - 1], run[|run| - 1];
      AdmittedOn(rules, rest, key) + (if On(rules, last, key) && Admits(rules, After(rules, rest), last) then 1 else 0)
  }

  /** Requests of `name` admitted at times from `start` to before `end`. */
  function AdmittedBetween(rules: Rules, run: seq<Attempt>, name: string, start: nat, end: nat): nat
    requires rules.Valid()
  {
    if run == [] then 0
    else
      var rest, last := run[..|run| - 1], run[|run| - 1];
      AdmittedBetween(rules, rest, name, start, end)
        + (if name in last.names && start <= last.now < end && Admits(rules, After(rules, rest), last) then 1 else 0)
  }

  /** What the pipeline leaves under a key. */
  predicate Leaves(redis: Redis, key: Key, now: nat, ttl: nat, hit: bool, after: Redis) {
    if hit then key in after && after[key] == Counter(Value(redis, key, now) + 1, now + ttl)
    else
      && (key in redis && now < redis[key].expiresAt ==> key in after && after[key] == redis[key])
      && (key in after ==> key in redis && after[key] == redis[key])
  }

  lemma IncrementLeaves(redis: Redis, before: Redis, key: Key, now: nat, ttl: nat, hit: bool, next: Key)
    requires ttl > 0 && Leaves(redis, key, now, ttl, hit, before)
    requires !(hit && next == key)
    ensures Leaves(redis, key, now, ttl, hit || next == key, Incremented(before, next, now, ttl))
  {
  }

  lemma {:induction false} CountedAt(rules: Rules, redis: Redis, attempt: Attempt, key: Key)
    requires rules.Valid() && rules.ttl > 0
    requires forall j, k :: 0 <= j < k < |attempt.names| ==> attempt.names[j] != attempt.names[k]
    ensures Leaves(redis, key, attempt.now, rules.ttl, On(rules, attempt, key), Counted(rules, redis, attempt))
    decreases |attempt.names|
  {
    if attempt.names != [] {
      var last := |attempt.names| - 1;
      var before, next := attempt.(names := attempt.names[..last]), Key(attempt.names[last], rules.Window(attempt.now));
      CountedAt(rules, redis, before, key);
      assert attempt.names == before.names + [attempt.names[last]];
      assert On(rules, attempt, key) <==> On(rules, before, key) || next == key;
      IncrementLeaves(redis, Counted(rules, redis, before), key, attempt.now, rules.ttl, On(rules, before, key), next);
    }
  }

  /** The counter of a window that has not ended counts its attempts: the key outlives its window. */
  predicate Exact(rules: Rules, redis: Redis, run: seq<Attempt>, key: Key)
    requires rules.Valid()
  {
    if key in redis then redis[key].count == AttemptsOn(rules, run, key) && redis[key].expiresAt >= End(rules, key)
    else AttemptsOn(rules, run, key) == 0 || (run != [] && run[|run| - 1].now >= End(rules, key))
  }

  function End(rules: Rules, key: Key): nat { key.window * rules.window + rules.window }

  lemma InWindow(rules: Rules, now: nat)
    requires rules.Valid()
    ensures rules.Window(now) * rules.window <= now < rules.Window(now) * rules.window + rules.window
  {
  }

  lemma {:induction false} CountersAreExact(rules: Rules, run: seq<Attempt>, key: Key)
    requires rules.Valid() && rules.window <= rules.ttl && Run(run)
    ensures Exact(rules, After(rules, run), run, key)
  {
    if run != [] {
      var rest, last := run[..|run| - 1], run[|run| - 1];
      CountersAreExact(rules, rest, key);
      assert last == run[|run| - 1];
      CountedAt(rules, After(rules, rest), last, key);
      InWindow(rules, last.now);
      assert rest == [] || rest[|rest| - 1].now <= last.now;
    }
  }

  /** An admitted attempt is among the first `limit` of each of its keys. */
  lemma AdmittedEarly(rules: Rules, run: seq<Attempt>, key: Key)
    requires rules.Valid() && rules.window <= rules.ttl && Run(run) && run != []
    requires On(rules, run[|run| - 1], key) && Admits(rules, After(rules, run[..|run| - 1]), run[|run| - 1])
    ensures AttemptsOn(rules, run, key) <= rules.limit
  {
    CountersAreExact(rules, run, key);
    CountedAt(rules, After(rules, run[..|run| - 1]), run[|run| - 1], key);
  }

  /** At most `limit` requests are admitted under a key in its window. */
  lemma {:induction false} WindowBound(rules: Rules, run: seq<Attempt>, key: Key)
    requires rules.Valid() && rules.window <= rules.ttl && Run(run)
    ensures AdmittedOn(rules, run, key) <= rules.limit && AdmittedOn(rules, run, key) <= AttemptsOn(rules, run, key)
  {
    if run != [] {
      var rest, last := run[..|run| - 1], run[|run| - 1];
      WindowBound(rules, rest, key);
      if On(rules, last, key) && Admits(rules, After(rules, rest), last) {
        AdmittedEarly(rules, run, key);
      }
    }
  }

  /** Nobody is refused early: where every attempt of a key counts under it alone, as tool calls and
      registrations do, exactly the first `limit` of a window are admitted. */
  lemma {:induction false} FirstOnesAdmitted(rules: Rules, run: seq<Attempt>, key: Key)
    requires rules.Valid() && rules.window <= rules.ttl && Run(run)
    requires forall i :: 0 <= i < |run| && key.name in run[i].names ==> run[i].names == [key.name]
    ensures AdmittedOn(rules, run, key) ==
      if AttemptsOn(rules, run, key) < rules.limit then AttemptsOn(rules, run, key) else rules.limit
  {
    if run != [] {
      var rest, last := run[..|run| - 1], run[|run| - 1];
      FirstOnesAdmitted(rules, rest, key);
      CountersAreExact(rules, run, key);
      if On(rules, last, key) {
        assert run[|run| - 1].names == [key.name];
        OneName(rules, After(rules, rest), last.now, key.name);
        CountedAt(rules, After(rules, rest), last, key);
      }
    }
  }

  /** At most twice the limit is admitted of one name in any stretch as long as the window, wherever it
      starts. */
  lemma IntervalBound(rules: Rules, run: seq<Attempt>, name: string, start: nat)
    requires rules.Valid() && rules.window <= rules.ttl && Run(run)
    ensures AdmittedBetween(rules, run, name, start, start + rules.window) <= 2 * rules.limit
  {
    var w := rules.Window(start);
    StretchOverWindows(rules, run, name, start);
    WindowBound(rules, run, Key(name, w));
    WindowBound(rules, run, Key(name, w + 1));
  }

  lemma TwoWindows(rules: Rules, start: nat, now: nat)
    requires rules.Valid() && start <= now < start + rules.window
    ensures rules.Window(now) == rules.Window(start) || rules.Window(now) == rules.Window(start) + 1
  {
    var a, b, w := rules.Window(start), rules.Window(now), rules.window;
    InWindow(rules, start);
    InWindow(rules, now);
    Steps(b + 1, a, w);
    Steps(a + 2, b, w);
  }

  lemma Steps(a: nat, b: nat, w: nat)
    ensures a <= b ==> a * w <= b * w
  {
  }

  lemma {:induction false} StretchOverWindows(rules: Rules, run: seq<Attempt>, name: string, start: nat)
    requires rules.Valid()
    ensures var w := rules.Window(start);
      AdmittedBetween(rules, run, name, start, start + rules.window) <=
        AdmittedOn(rules, run, Key(name, w)) + AdmittedOn(rules, run, Key(name, w + 1))
  {
    if run != [] {
      StretchOverWindows(rules, run[..|run| - 1], name, start);
      var last := run[|run| - 1];
      if start <= last.now < start + rules.window {
        TwoWindows(rules, start, last.now);
      }
    }
  }

  // ---------------------------------------------------------------- why the key must outlive its window

  function Burst(n: nat, name: string): (run: seq<Attempt>)
    ensures |run| == n && forall i :: 0 <= i < n ==> run[i] == Attempt(0, [name])
  {
    if n == 0 then [] else Burst(n - 1, name) + [Attempt(0, [name])]
  }

  /** A key met at most `n` times so far that dies at `ttl`. */
  predicate Young(rules: Rules, redis: Redis, key: Key, n: nat) {
    key in redis ==> redis[key].count <= n && redis[key].expiresAt == rules.ttl
  }

  lemma BurstStep(rules: Rules, redis: Redis, n: nat, name: string)
    requires rules.Valid() && n < rules.limit && Young(rules, redis, Key(name, 0), n)
    ensures Admits(rules, redis, Attempt(0, [name]))
    ensures Young(rules, Counted(rules, redis, Attempt(0, [name])), Key(name, 0), n + 1)
  {
    hide Admits, Counted, Alive;
    OneName(rules, redis, 0, name);
  }

  lemma FirstWindow(rules: Rules, now: nat)
    requires rules.Valid() && now < rules.window
    ensures rules.Window(now) == 0
  {
  }

  lemma BurstNext(n: nat, name: string)
    ensures Burst(0, name) == [] && Burst(n + 1, name) == Burst(n, name) + [Attempt(0, [name])]
  {
  }

  lemma NoneYet(rules: Rules, key: Key)
    requires rules.Valid()
    ensures After(rules, []) == map[] && AdmittedOn(rules, [], key) == 0
  {
  }

  lemma {:induction false} BurstAdmitted(rules: Rules, n: nat, name: string)
    requires rules.Valid() && n <= rules.limit
    ensures AdmittedOn(rules, Burst(n, name), Key(name, 0)) == n
    ensures Young(rules, After(rules, Burst(n, name)), Key(name, 0), n)
  {
    hide Admits, Counted, Rules.Window, AdmittedOn, After, Burst;
    if n == 0 {
      BurstNext(0, name);
      NoneYet(rules, Key(name, 0));
    } else {
      BurstNext(n - 1, name);
      BurstAdmitted(rules, n - 1, name);
      BurstStep(rules, After(rules, Burst(n - 1, name)), n - 1, name);
      FirstWindow(rules, 0);
      OneMore(rules, Burst(n - 1, name), Attempt(0, [name]), Key(name, 0));
    }
  }

  lemma OneMore(rules: Rules, run: seq<Attempt>, last: Attempt, key: Key)
    requires rules.Valid()
    ensures After(rules, run + [last]) == Counted(rules, After(rules, run), last)
    ensures AdmittedOn(rules, run + [last], key)
      == AdmittedOn(rules, run, key) + (if On(rules, last, key) && Admits(rules, After(rules, run), last) then 1 else 0)
  {
    hide Admits, Counted, On;
    assert (run + [last])[..|run|] == run;
  }

  /** The limit holds in every run exactly when a key lives at least as long as its window. */
  lemma LimitHoldsIffKeyOutlivesWindow(rules: Rules, name: string)
    requires rules.Valid() && rules.limit > 0
    ensures (forall run, key :: Run(run) ==> AdmittedOn(rules, run, key) <= rules.limit) <==> rules.window <= rules.ttl
  {
    if rules.window <= rules.ttl {
      forall run, key | Run(run) ensures AdmittedOn(rules, run, key) <= rules.limit { WindowBound(rules, run, key); }
    } else {
      var run := OneTooMany(rules, name);
      assert Run(run) && AdmittedOn(rules, run, Key(name, 0)) > rules.limit;
    }
  }

  /** A full burst, and one more request when its key is gone but its window is not over. */
  lemma OneTooMany(rules: Rules, name: string) returns (run: seq<Attempt>)
    requires rules.Valid() && rules.limit > 0 && rules.ttl < rules.window
    ensures Run(run) && AdmittedOn(rules, run, Key(name, 0)) == rules.limit + 1
  {
    hide Admits, Counted, Rules.Window, AdmittedOn;
    var burst, last := Burst(rules.limit, name), Attempt(rules.ttl, [name]);
    run := burst + [last];
    BurstAdmitted(rules, rules.limit, name);
    FirstWindow(rules, rules.ttl);
    LateIsAdmitted(rules, After(rules, burst), name);
    OneMore(rules, burst, last, Key(name, 0));
  }

  lemma LateIsAdmitted(rules: Rules, redis: Redis, name: string)
    requires rules.Valid() && rules.limit > 0 && rules.ttl < rules.window
    requires Young(rules, redis, Key(name, 0), rules.limit)
    ensures Admits(rules, redis, Attempt(rules.ttl, [name]))
  {
    hide Admits, Counted, Rules.Window;
    FirstWindow(rules, rules.ttl);
    OneName(rules, redis, rules.ttl, name);
  }

  // ---------------------------------------------------------------- the limits in force

  /** Tool calls and logins: at most `limit` of one name are admitted in a calendar minute and twice as many in any
      sixty seconds, and of a name counted alone exactly the first `limit` of a minute are. */
  lemma MinuteLimit(limit: nat, run: seq<Attempt>, name: string, minute: nat, start: nat)
    requires Run(run)
    ensures AdmittedOn(Minute(limit), run, Key(name, minute)) <= limit
    ensures AdmittedBetween(Minute(limit), run, name, start, start + 60) <= 2 * limit
    ensures AdmittedBetween(Minute(limit), run, name, minute * 60, minute * 60 + 60) <= limit
    ensures (forall i :: 0 <= i < |run| && name in run[i].names ==> run[i].names == [name]) ==>
      AdmittedOn(Minute(limit), run, Key(name, minute)) ==
        Least(AttemptsOn(Minute(limit), run, Key(name, minute)), limit)
  {
    LimitOf(Minute(limit), run, name, minute, start);
  }

  /** Registrations: the same by the hour. */
  lemma HourLimit(limit: nat, run: seq<Attempt>, name: string, hour: nat, start: nat)
    requires Run(run)
    ensures AdmittedOn(Hour(limit), run, Key(name, hour)) <= limit
    ensures AdmittedBetween(Hour(limit), run, name, start, start + 3600) <= 2 * limit
    ensures AdmittedBetween(Hour(limit), run, name, hour * 3600, hour * 3600 + 3600) <= limit
    ensures (forall i :: 0 <= i < |run| && name in run[i].names ==> run[i].names == [name]) ==>
      AdmittedOn(Hour(limit), run, Key(name, hour)) == Least(AttemptsOn(Hour(limit), run, Key(name, hour)), limit)
  {
    LimitOf(Hour(limit), run, name, hour, start);
  }

  function Least(a: nat, b: nat): nat { if a < b then a else b }

  lemma LimitOf(rules: Rules, run: seq<Attempt>, name: string, w: nat, start: nat)
    requires rules.Valid() && rules.window <= rules.ttl && Run(run)
    ensures AdmittedOn(rules, run, Key(name, w)) <= rules.limit
    ensures AdmittedBetween(rules, run, name, start, start + rules.window) <= 2 * rules.limit
    ensures AdmittedBetween(rules, run, name, w * rules.window, w * rules.window + rules.window) <= rules.limit
    ensures (forall i :: 0 <= i < |run| && name in run[i].names ==> run[i].names == [name]) ==>
      AdmittedOn(rules, run, Key(name, w)) == Least(AttemptsOn(rules, run, Key(name, w)), rules.limit)
  {
    WindowBound(rules, run, Key(name, w));
    IntervalBound(rules, run, name, start);
    WholeWindow(rules, run, name, w);
    if forall i :: 0 <= i < |run| && name in run[i].names ==> run[i].names == [name] {
      FirstOnesAdmitted(rules, run, Key(name, w));
    }
  }

  lemma {:induction false} WholeWindow(rules: Rules, run: seq<Attempt>, name: string, w: nat)
    requires rules.Valid()
    ensures AdmittedBetween(rules, run, name, w * rules.window, w * rules.window + rules.window) ==
      AdmittedOn(rules, run, Key(name, w))
  {
    if run != [] {
      WholeWindow(rules, run[..|run| - 1], name, w);
      WindowIs(rules, run[|run| - 1].now, w);
    }
  }

  lemma WindowIs(rules: Rules, now: nat, w: nat)
    requires rules.Valid()
    ensures w * rules.window <= now < w * rules.window + rules.window <==> rules.Window(now) == w
  {
    InWindow(rules, now);
    Steps(rules.Window(now) + 1, w, rules.window);
    Steps(w + 1, rules.Window(now), rules.window);
  }
}
