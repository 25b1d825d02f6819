/** The store as the server changes it: one statement after another. */
module Storage {
  import opened Basics
  import opened Clock
  import opened Rows
  import opened Retention
  import opened Sets
  import Metrics
  import RequestLog

  function Size(db: Db): int { |db.metrics| + |db.events| + |db.failures| + |db.sessions| }

  /** The statements of the long sweep. */
  function LongSweep(readAt: int, now: int): seq<Op> {
    [PurgeSamples(readAt), PurgeFailures(readAt), PurgeSessions(true, now), PurgeSessions(false, now)]
  }

  /** A tick of one of the two tickers: the clock as the sweep reads it, and how
      many statements succeed before one fails. */
  datatype Tick = LongTick(readAt: int, now: int, succeed: nat) | LogTick(readAt: int, succeed: nat)

  function Statements(t: Tick): seq<Op> {
    match t
    case LongTick(readAt, now, succeed) => LongSweep(readAt, now)[..Min(succeed, 4)]
    case LogTick(readAt, succeed) => [PurgeEvents(readAt)][..Min(succeed, 1)]
  }

  function AllStatements(ticks: seq<Tick>): seq<Op> {
    if ticks == [] then [] else AllStatements(ticks[..|ticks| - 1]) + Statements(ticks[|ticks| - 1])
  }

  // What the sweeps leave.

  /** Each tick whose statement succeeded has a cutoff; a row survives them all. */
  predicate SampleSurvives(ts: int, ticks: seq<Tick>) {
    forall t :: t in ticks && t.LongTick? && 1 <= t.succeed ==> Unix(t.readAt - RETENTION) <= ts
  }

  predicate FailureSurvives(ts: int, ticks: seq<Tick>) {
    forall t :: t in ticks && t.LongTick? && 2 <= t.succeed ==> Unix(t.readAt - RETENTION) <= ts
  }

  predicate SessionSurvives(key: SessionKey, s: Session, ticks: seq<Tick>) {
    forall t :: t in ticks && t.LongTick? && (if key.AdminSession? then 3 else 4) <= t.succeed ==> !Expired(s, t.now)
  }

  predicate EventSurvives(ts: int, ticks: seq<Tick>) {
    forall t :: t in ticks && t.LogTick? && 1 <= t.succeed ==> Unix(t.readAt - LOG_RETENTION) <= ts
  }

  function SamplesLeft(rows: seq<Metrics.Sample>, ticks: seq<Tick>): seq<Metrics.Sample> {
    Keep(rows, (s: Metrics.Sample) => SampleSurvives(s.ts, ticks))
  }

  function FailuresLeft(times: seq<int>, ticks: seq<Tick>): seq<int> {
    Keep(times, (t: int) => FailureSurvives(t, ticks))
  }

  function EventsLeft(events: seq<RequestLog.Event>, ticks: seq<Tick>): seq<RequestLog.Event> {
    Keep(events, (e: RequestLog.Event) => EventSurvives(e.ts, ticks))
  }

  function SessionsLeft(sessions: map<SessionKey, Session>, ticks: seq<Tick>): map<SessionKey, Session> {
    map k | k in sessions && SessionSurvives(k, sessions[k], ticks) :: sessions[k]
  }

  /** What the statements of one tick do to each table. */
  lemma OneTick(db: Db, t: Tick)
    ensures var d := Run(db, Statements(t));
            var n := if t.LongTick? then t.succeed else 0;
            && d.metrics == (if 1 <= n then NewerSamples(db.metrics, Unix(t.readAt - RETENTION)) else db.metrics)
            && d.failures == (if 2 <= n then NewerTimes(db.failures, Unix(t.readAt - RETENTION)) else db.failures)
            && d.sessions == SessionsLeft(db.sessions, [t])
            && d.events == (if t.LogTick? && 1 <= t.succeed
                            then NewerEvents(db.events, Unix(t.readAt - LOG_RETENTION)) else db.events)
            && (d.lastEventId, d.admins, d.clients) == (db.lastEventId, db.admins, db.clients)
  {
    hide Apply, Unix, Keep, Unexpired, SessionsLeft;
    NothingForLogTick(db.sessions, t);
    if t.LogTick? {
      if 1 <= t.succeed { RunOne(db, [], PurgeEvents(t.readAt)); }
      EventsPurged(db, t.readAt);
      assert 1 <= t.succeed ==> Statements(t) == [] + [PurgeEvents(t.readAt)];
    } else {
      LongTickRuns(db, t.readAt, t.now);
      SessionsOfOne(db.sessions, t);
    }
  }

  lemma NothingForLogTick(sessions: map<SessionKey, Session>, t: Tick)
    ensures t.LogTick? ==> SessionsLeft(sessions, [t]) == sessions
  {
  }

  lemma EventsPurged(db: Db, readAt: int)
    ensures Apply(db, PurgeEvents(readAt)).0 == db.(events := NewerEvents(db.events, Unix(readAt - LOG_RETENTION)))
  {
  }

  /** The store after each number of statements of a long sweep. */
  lemma LongTickRuns(db: Db, readAt: int, now: int)
    ensures var all, cut := LongSweep(readAt, now), Unix(readAt - RETENTION);
            var d1 := db.(metrics := NewerSamples(db.metrics, cut));
            var d2 := d1.(failures := NewerTimes(db.failures, cut));
            var d3 := d2.(sessions := Unexpired(db.sessions, true, now));
            && Run(db, all[..0]) == db && Run(db, all[..1]) == d1 && Run(db, all[..2]) == d2 && Run(db, all[..3]) == d3
            && Run(db, all[..4]) == d3.(sessions := Unexpired(d3.sessions, false, now))
  {
    hide Unix, Keep, Unexpired, Run;
    var all := LongSweep(readAt, now);
    RunNone(db);
    assert all[..0] == [] && all[..1] == [] + [all[0]] && all[..2] == all[..1] + [all[1]];
    assert all[..3] == all[..2] + [all[2]] && all[..4] == all[..3] + [all[3]];
    RunOne(db, [], all[0]);
    RunOne(db, all[..1], all[1]);
    RunOne(db, all[..2], all[2]);
    RunOne(db, all[..3], all[3]);
  }

  lemma RunNone(db: Db)
    ensures Run(db, []) == db
  {
  }

  lemma SessionsOfOne(sessions: map<SessionKey, Session>, t: Tick)
    requires t.LongTick?
    ensures t.succeed < 3 ==> SessionsLeft(sessions, [t]) == sessions
    ensures t.succeed == 3 ==> SessionsLeft(sessions, [t]) == Unexpired(sessions, true, t.now)
    ensures 4 <= t.succeed ==> SessionsLeft(sessions, [t]) == Unexpired(Unexpired(sessions, true, t.now), false, t.now)
  {
    assert t in [t];
  }

  lemma {:induction false} KeepAgain<T>(rows: seq<T>, p: T -> bool, q: T -> bool, both: T -> bool)
    requires forall r :: r in rows ==> (both(r) <==> p(r) && q(r))
    ensures Keep(Keep(rows, p), q) == Keep(rows, both)
  {
    if rows != [] {
      KeepAgain(rows[1..], p, q, both);
      KeepAppend(if p(rows[0]) then [rows[0]] else [], Keep(rows[1..], p), q);
      KeepOne(rows[0], q);
    }
  }

  lemma SamplesLeftAfter(rows: seq<Metrics.Sample>, ticks: seq<Tick>, t: Tick)
    ensures SamplesLeft(rows, ticks + [t])
         == if t.LongTick? && 1 <= t.succeed then NewerSamples(SamplesLeft(rows, ticks), Unix(t.readAt - RETENTION))
            else SamplesLeft(rows, ticks)
  {
    hide Unix;
    var cut := Unix(t.readAt - RETENTION);
    assert t in ticks + [t] && forall u :: u in ticks + [t] <==> u in ticks || u == t;
    if t.LongTick? && 1 <= t.succeed {
      KeepAgain(rows, (s: Metrics.Sample) => SampleSurvives(s.ts, ticks), (s: Metrics.Sample) => cut <= s.ts,
                (s: Metrics.Sample) => SampleSurvives(s.ts, ticks + [t]));
    } else {
      KeepSame(rows, (s: Metrics.Sample) => SampleSurvives(s.ts, ticks),
               (s: Metrics.Sample) => SampleSurvives(s.ts, ticks + [t]));
    }
  }

  lemma FailuresLeftAfter(times: seq<int>, ticks: seq<Tick>, t: Tick)
    ensures FailuresLeft(times, ticks + [t])
         == if t.LongTick? && 2 <= t.succeed then NewerTimes(FailuresLeft(times, ticks), Unix(t.readAt - RETENTION))
            else FailuresLeft(times, ticks)
  {
    hide Unix;
    var cut := Unix(t.readAt - RETENTION);
    assert t in ticks + [t] && forall u :: u in ticks + [t] <==> u in ticks || u == t;
    if t.LongTick? && 2 <= t.succeed {
      KeepAgain(times, (x: int) => FailureSurvives(x, ticks), (x: int) => cut <= x,
                (x: int) => FailureSurvives(x, ticks + [t]));
    } else {
      KeepSame(times, (x: int) => FailureSurvives(x, ticks), (x: int) => FailureSurvives(x, ticks + [t]));
    }
  }

  lemma EventsLeftAfter(events: seq<RequestLog.Event>, ticks: seq<Tick>, t: Tick)
    ensures EventsLeft(events, ticks + [t])
         == if t.LogTick? && 1 <= t.succeed then NewerEvents(EventsLeft(events, ticks), Unix(t.readAt - LOG_RETENTION))
            else EventsLeft(events, ticks)
  {
    hide Unix;
    var cut := Unix(t.readAt - LOG_RETENTION);
    assert t in ticks + [t] && forall u :: u in ticks + [t] <==> u in ticks || u == t;
    if t.LogTick? && 1 <= t.succeed {
      KeepAgain(events, (e: RequestLog.Event) => EventSurvives(e.ts, ticks), (e: RequestLog.Event) => cut <= e.ts,
                (e: RequestLog.Event) => EventSurvives(e.ts, ticks + [t]));
    } else {
      KeepSame(events, (e: RequestLog.Event) => EventSurvives(e.ts, ticks),
               (e: RequestLog.Event) => EventSurvives(e.ts, ticks + [t]));
    }
  }

  lemma SessionsLeftAfter(sessions: map<SessionKey, Session>, ticks: seq<Tick>, t: Tick)
    ensures SessionsLeft(SessionsLeft(sessions, ticks), [t]) == SessionsLeft(sessions, ticks + [t])
  {
    hide Expired;
    assert t in ticks + [t] && forall u :: u in ticks + [t] <==> u in ticks || u == t;
  }

  /** Whatever the ticks and failures, the sweeps leave exactly the rows that are
      not older than any cutoff whose statement succeeded, and exactly the
      sessions that had not expired at any such reading, and change nothing else. */
  lemma {:induction false} SweepsLeaveTheNewer(db: Db, ticks: seq<Tick>)
    ensures Run(db, AllStatements(ticks))
         == db.(metrics := SamplesLeft(db.metrics, ticks), failures := FailuresLeft(db.failures, ticks),
                events := EventsLeft(db.events, ticks), sessions := SessionsLeft(db.sessions, ticks))
  {
    if ticks == [] {
      KeepAll(db.metrics, (s: Metrics.Sample) => SampleSurvives(s.ts, []));
      KeepAll(db.failures, (x: int) => FailureSurvives(x, []));
      KeepAll(db.events, (e: RequestLog.Event) => EventSurvives(e.ts, []));
      assert SessionsLeft(db.sessions, []) == db.sessions;
    } else {
      hide SamplesLeft, FailuresLeft, EventsLeft, SessionsLeft, Statements, Unix;
      var front, t := ticks[..|ticks| - 1], ticks[|ticks| - 1];
      assert ticks == front + [t];
      SweepsLeaveTheNewer(db, front);
      RunAppend(db, AllStatements(front), Statements(t));
      OneTick(Run(db, AllStatements(front)), t);
      SamplesLeftAfter(db.metrics, front, t);
      FailuresLeftAfter(db.failures, front, t);
      EventsLeftAfter(db.events, front, t);
      SessionsLeftAfter(db.sessions, front, t);
    }
  }

  // The loop's statements in a run with other operations.

  function Sweeps(ops: seq<Op>): seq<Op> {
    Keep(ops, (op: Op) => IsSweep(op))
  }

  /** The loop reads the clock anew at every tick, and twice in a long sweep. */
  predicate ReadInOrder(ticks: seq<Tick>) {
    && (forall i :: 0 <= i < |ticks| && ticks[i].LongTick? ==> ticks[i].readAt <= ticks[i].now)
    && (forall i, j :: 0 <= i < j < |ticks| ==> LastReading(ticks[i]) <= ticks[j].readAt)
  }

  function LastReading(t: Tick): int { if t.LongTick? then t.now else t.readAt }

  /** The one reading of a sweep statement. */
  function Reading(op: Op): int
    requires IsSweep(op)
  {
    if op.PurgeSessions? then op.now else op.readAt
  }

  predicate SweepsAscend(ops: seq<Op>) {
    forall i, j :: 0 <= i < j < |ops| && IsSweep(ops[i]) && IsSweep(ops[j]) ==> Reading(ops[i]) <= Reading(ops[j])
  }

  lemma StatementsReadings(t: Tick)
    requires t.LongTick? ==> t.readAt <= t.now
    ensures SweepsAscend(Statements(t))
    ensures forall i :: 0 <= i < |Statements(t)| ==>
              IsSweep(Statements(t)[i]) && t.readAt <= Reading(Statements(t)[i]) <= LastReading(t)
  {
  }

  lemma {:induction false} LoopAscends(ticks: seq<Tick>)
    requires ReadInOrder(ticks)
    ensures SweepsAscend(AllStatements(ticks))
    ensures forall i :: 0 <= i < |AllStatements(ticks)| ==>
              && IsSweep(AllStatements(ticks)[i]) && ticks != []
              && Reading(AllStatements(ticks)[i]) <= LastReading(ticks[|ticks| - 1])
  {
    if ticks != [] {
      var front, t := ticks[..|ticks| - 1], ticks[|ticks| - 1];
      LoopAscends(front);
      StatementsReadings(t);
      assert front != [] ==> LastReading(front[|front| - 1]) <= t.readAt;
    }
  }

  lemma {:induction false} SweepsAscendInRun(ops: seq<Op>)
    requires SweepsAscend(Sweeps(ops))
    ensures SweepsAscend(ops)
  {
    if ops != [] {
      var rest := ops[1..];
      KeepMembers(rest, (op: Op) => IsSweep(op));
      if IsSweep(ops[0]) {
        assert Sweeps(ops) == [ops[0]] + Sweeps(rest) && Sweeps(ops)[0] == ops[0];
        forall j | 0 <= j < |rest| && IsSweep(rest[j]) ensures Reading(ops[0]) <= Reading(rest[j]) {
          assert rest[j] in Sweeps(rest);
          var k :| 0 <= k < |Sweeps(rest)| && Sweeps(rest)[k] == rest[j];
          assert Sweeps(ops)[k + 1] == rest[j] && 0 < k + 1 < |Sweeps(ops)|;
        }
        assert forall i :: 0 <= i < |Sweeps(rest)| ==> Sweeps(rest)[i] == Sweeps(ops)[i + 1];
      } else {
        assert Sweeps(ops) == Sweeps(rest);
      }
      SweepsAscendInRun(rest);
      assert forall i :: 0 < i < |ops| ==> ops[i] == rest[i - 1];
    }
  }

  /** An operation reads the clock no earlier than the sweep statement before it. */
  predicate ReadsAfterSweep(ops: seq<Op>) {
    forall i, j :: 0 <= i < j < |ops| && IsSweep(ops[i]) && !IsSweep(ops[j]) && NoneBetween(ops, i, j) ==>
      NotBefore(ops[i], ops[j])
  }

  predicate NoneBetween(ops: seq<Op>, i: int, j: int)
    requires 0 <= i < j < |ops|
  {
    forall k :: i < k < j ==> !IsSweep(ops[k])
  }

  lemma {:induction false} LastSweepBefore(ops: seq<Op>, i: nat, j: nat) returns (k: nat)
    requires i < j < |ops| && IsSweep(ops[i])
    ensures i <= k < j && IsSweep(ops[k]) && NoneBetween(ops, k, j)
    decreases j - i
  {
    if NoneBetween(ops, i, j) {
      k := i;
    } else {
      var m :| i < m < j && IsSweep(ops[m]);
      k := LastSweepBefore(ops, m, j);
    }
  }

  lemma EarlierStatement(a: Op, b: Op, c: Op)
    requires IsSweep(a) && IsSweep(b) && Reading(a) <= Reading(b) && (c == b || NotBefore(b, c))
    ensures NotBefore(a, c)
  {
    assert Readings(a) == [Reading(a)] && Readings(b) == [Reading(b)];
    if c != b {
      forall j | 0 <= j < |Readings(c)| ensures Reading(a) <= Readings(c)[j] {
        assert Readings(b)[0] <= Readings(c)[j];
      }
    }
  }

  /** Run the loop beside any other operations: if each of them reads the clock no
      earlier than the sweep statement before it, no chart goes back more than 30
      days and no client logs in once it is to be deleted, then all but deletions
      are answered as if there were no sweeps, failed sweeps included. */
  lemma LoopIsNeverNoticed(db: Db, ticks: seq<Tick>, ops: seq<Op>)
    requires ReadInOrder(ticks) && Sweeps(ops) == AllStatements(ticks) && ReadsAfterSweep(ops)
    requires forall i :: 0 <= i < |ops| ==> WithinRetention(ops[i])
    requires FreshSessions(db, ops) && NoLoginAfterDeletion(ops)
    ensures Answers(db, ops, BUT_DELETIONS) == Answers(db, WithoutSweeps(ops), BUT_DELETIONS)
  {
    hide Answers, WithoutSweeps, FreshSessions, AllStatements, NoLoginAfterDeletion, NotBefore, Sweeps, WithinRetention;
    LoopAscends(ticks);
    SweepsAscendInRun(ops);
    forall i, j | 0 <= i < j < |ops| && IsSweep(ops[i]) ensures NotBefore(ops[i], ops[j]) {
      if IsSweep(ops[j]) {
        EarlierStatement(ops[i], ops[j], ops[j]);
      } else {
        var k := LastSweepBefore(ops, i, j);
        assert NotBefore(ops[k], ops[j]);
        EarlierStatement(ops[i], ops[k], ops[j]);
      }
    }
    SweepsAreNeverNoticed(db, ops);
  }

  /** A lookup deletes a session that it has found to be expired. */
  function LookupStatements(key: SessionKey, now: int, expired: bool): seq<Op> {
    if expired then [LookupSession(key, now), DeleteSession(key)] else [LookupSession(key, now)]
  }

  class Store {
    var metrics: seq<Metrics.Sample>
    var events: seq<RequestLog.Event>
    var lastEventId: int
    var failures: seq<int>
    var sessions: map<SessionKey, Session>
    var admins: set<int>
    var clients: set<int>

    function View(): Db
      reads this
    {
      Db(metrics, events, lastEventId, failures, sessions, admins, clients)
    }

    constructor ()
      ensures View() == EMPTY
    {
      metrics, events, lastEventId, failures := [], [], 0, [];
      sessions, admins, clients := map[], {}, {};
    }

    method AddMetricSample(client: int, at: int, report: Metrics.Report)
      modifies this
      ensures View() == Apply(old(View()), AddSample(client, at, report)).0
    {
      var ts := Unix(Truncate(at, MINUTE));
      metrics := Metrics.Upsert(metrics, Metrics.Sample(client, ts, report.delta, report.conns));
    }

    method InsertProxyEvent(event: RequestLog.Event, stamp: Option<int>, now: int) returns (id: int)
      modifies this
      ensures View() == Apply(old(View()), LogEvent(event, stamp, now)).0
      ensures Inserted(id) == Apply(old(View()), LogEvent(event, stamp, now)).1
      ensures id == old(lastEventId) + 1 == lastEventId && events[..|old(events)|] == old(events)
      ensures |events| == |old(events)| + 1
      ensures var e := events[|old(events)|];
              && e.id == id && e.ts == (if stamp.Some? then stamp.value else now) / 1_000_000_000
              && e.userId == event.userId && e.clientId == event.clientId && e.target == event.target
              && e.protocol == event.protocol && e.outcome == (if event.outcome == "" then "ok" else event.outcome)
              && e.bytesIn == event.bytesIn && e.bytesOut == event.bytesOut && e.durationMs == event.durationMs
    {
      var e := event;
      if e.outcome == "" {
        e := e.(outcome := "ok");
      }
      var ts := now;
      if stamp.Some? {
        ts := stamp.value;
      }
      id := lastEventId + 1;
      lastEventId := id;
      events := events + [e.(id := id, ts := Unix(ts))];
    }

    /** INSERT, refused by the primary key and by the foreign key. */
    method InsertSession(key: SessionKey, owner: int, expires: int) returns (ok: bool)
      modifies this
      ensures View() == Apply(old(View()), CreateSession(key, owner, expires)).0
      ensures ok <==> Apply(old(View()), CreateSession(key, owner, expires)).1 == Done
      ensures ok <==> key !in old(sessions) && (if key.AdminSession? then owner in admins else owner in clients)
      ensures ok ==> sessions.Keys == old(sessions).Keys + {key}
                     && sessions[key].owner == owner && sessions[key].expires == expires
      ensures forall k :: k in old(sessions) ==> k in sessions && sessions[k] == old(sessions)[k]
    {
      ok := key !in sessions && (if key.AdminSession? then owner in admins else owner in clients);
      if ok {
        sessions := sessions[key := Session(owner, expires)];
      }
    }

    method RemoveSession(key: SessionKey)
      modifies this
      ensures View() == Apply(old(View()), DeleteSession(key)).0
      ensures sessions == old(sessions) - {key}
    {
      sessions := sessions - {key};
    }

    /** Finds the owner of a session; one that has expired is deleted, by a
        statement of its own, and not found. */
    method FindSession(key: SessionKey, now: int) returns (found: Option<int>)
      modifies this
      ensures Owner(found) == Apply(old(View()), LookupSession(key, now)).1
      ensures View() == Run(old(View()), LookupStatements(key, now, key in old(sessions) && found.None?))
      ensures found == if key in old(sessions) && now / 1_000_000_000 <= old(sessions)[key].expires
                       then Some(old(sessions)[key].owner) else None
      ensures View() == old(View()).(sessions := if found.None? then old(sessions) - {key} else old(sessions))
    {
      ghost var db := View();
      RunOne(db, [], LookupSession(key, now));
      RunOne(db, [LookupSession(key, now)], DeleteSession(key));
      assert [] + [LookupSession(key, now)] == [LookupSession(key, now)];
      assert [LookupSession(key, now)] + [DeleteSession(key)] == [LookupSession(key, now), DeleteSession(key)];
      if key !in sessions {
        return None;
      }
      var s := sessions[key];
      if Unix(now) > s.expires {
        RemoveSession(key);
        return None;
      }
      return Some(s.owner);
    }

    /** DELETE, refused by the foreign key of the token sessions. */
    method RemoveClient(id: int) returns (ok: bool)
      modifies this
      ensures View() == Apply(old(View()), DeleteClient(id)).0
      ensures ok <==> forall k :: k in sessions && k.TokenSession? ==> sessions[k].owner != id
      ensures View() == old(View()).(clients := if ok then old(clients) - {id} else old(clients))
    {
      ok := !exists k :: k in sessions && k.TokenSession? && sessions[k].owner == id;
      if ok {
        clients := clients - {id};
      }
    }

    method Execute(statement: Op) returns (deleted: int)
      requires IsSweep(statement)
      modifies this
      ensures View() == Apply(old(View()), statement).0
      ensures deleted == Size(old(View())) - Size(View()) && 0 <= deleted
    {
      hide Keep, Unix, Unexpired, NewerSamples, NewerTimes, NewerEvents, HasOwner, Referred;
      hide RequestLog.Count, RequestLog.List, Metrics.Query, Metrics.AddSample;
      SweepShrinks(View(), statement);
      match statement {
        case PurgeSamples(readAt) =>
          var kept := NewerSamples(metrics, Unix(readAt - RETENTION));
          deleted := |metrics| - |kept|;
          metrics := kept;
        case PurgeFailures(readAt) =>
          var kept := NewerTimes(failures, Unix(readAt - RETENTION));
          deleted := |failures| - |kept|;
          failures := kept;
        case PurgeSessions(admin, now) =>
          var kept := Unexpired(sessions, admin, now);
          deleted := |sessions| - |kept|;
          sessions := kept;
        case PurgeEvents(readAt) =>
          var kept := NewerEvents(events, Unix(readAt - LOG_RETENTION));
          deleted := |events| - |kept|;
          events := kept;
      }
    }

    /** The long sweep: it stops at the first statement that fails, and reports
        how many rows are gone all the same. */
    method PurgeOldData(readAt: int, now: int, succeed: nat) returns (total: int, failed: bool)
      modifies this
      ensures View() == Run(old(View()), Statements(LongTick(readAt, now, succeed)))
      ensures total == Size(old(View())) - Size(View())
      ensures failed <==> succeed < 4
    {
      var statements := LongSweep(readAt, now);
      ghost var start := View();
      var i := 0;
      total := 0;
      while i < |statements|
        invariant 0 <= i <= |statements| && i <= succeed
        invariant View() == Run(start, statements[..i])
        invariant total == Size(start) - Size(View())
      {
        if i == succeed {
          return total, true;
        }
        var n := Execute(statements[i]);
        RunOne(start, statements[..i], statements[i]);
        assert statements[..i + 1] == statements[..i] + [statements[i]];
        total := total + n;
        i := i + 1;
      }
      failed := false;
    }

    method PurgeProxyEventsOlderThan(readAt: int, succeed: nat) returns (total: int, failed: bool)
      modifies this
      ensures View() == Run(old(View()), Statements(LogTick(readAt, succeed)))
      ensures total == Size(old(View())) - Size(View())
      ensures failed <==> succeed < 1
    {
      ghost var start := View();
      if succeed == 0 {
        return 0, true;
      }
      total := Execute(PurgeEvents(readAt));
      failed := false;
      RunOne(start, [], PurgeEvents(readAt));
      assert [] + [PurgeEvents(readAt)] == [PurgeEvents(readAt)];
    }

    /** The background loop, which sweeps both ways at the start and then at every
        tick; a sweep that fails does not end it. */
    method RunRetentionSweep(first: Tick, second: Tick, ticks: seq<Tick>)
      requires first.LongTick? && second.LogTick?
      modifies this
      ensures View() == Run(old(View()), AllStatements([first, second] + ticks))
      ensures metrics == SamplesLeft(old(metrics), [first, second] + ticks)
      ensures events == EventsLeft(old(events), [first, second] + ticks)
      ensures sessions == SessionsLeft(old(sessions), [first, second] + ticks)
    {
      hide Statements, SamplesLeft, EventsLeft, SessionsLeft, FailuresLeft;
      ghost var start := View();
      var all, i := [first, second] + ticks, 0;
      while i < |all|
        invariant 0 <= i <= |all|
        invariant View() == Run(start, AllStatements(all[..i]))
      {
        match all[i] {
          case LongTick(readAt, now, succeed) =>
            var _, _ := PurgeOldData(readAt, now, succeed);
          case LogTick(readAt, succeed) =>
            var _, _ := PurgeProxyEventsOlderThan(readAt, succeed);
        }
        assert all[..i + 1][..i] == all[..i];
        RunAppend(start, AllStatements(all[..i]), Statements(all[i]));
        i := i + 1;
      }
      assert all[..i] == all;
      SweepsLeaveTheNewer(start, all);
    }
  }

  lemma SweepShrinks(db: Db, sweep: Op)
    requires IsSweep(sweep)
    ensures Size(Apply(db, sweep).0) <= Size(db)
  {
    hide Keep, Unix, HasOwner, Referred, RequestLog.Count, RequestLog.List, Metrics.Query, Metrics.AddSample;
    if sweep.PurgeSamples? {
      KeepIsShorter(db.metrics, (s: Metrics.Sample) => Unix(sweep.readAt - RETENTION) <= s.ts);
    } else if sweep.PurgeFailures? {
      KeepIsShorter(db.failures, (t: int) => Unix(sweep.readAt - RETENTION) <= t);
    } else if sweep.PurgeSessions? {
      KeptAmong(db.sessions, Unexpired(db.sessions, sweep.admin, sweep.now));
    } else {
      KeepIsShorter(db.events, (e: RequestLog.Event) => Unix(sweep.readAt - LOG_RETENTION) <= e.ts);
    }
  }

  lemma KeptAmong(all: map<SessionKey, Session>, kept: map<SessionKey, Session>)
    requires forall k :: k in kept ==> k in all
    ensures |kept| <= |all|
  {
    FitsInside(kept.Keys, all.Keys);
    assert |kept| == |kept.Keys| && |all| == |all.Keys|;
  }
}
