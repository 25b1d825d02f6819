/** The store with its retention sweeps.  Every operation is one atomic step; it
    carries the clock readings it uses, in nanoseconds.  A sweep consists of
    several DELETE statements, and each of them is a step of its own, so that
    other operations may come in between and a sweep may stop half way. */
module Retention {
  import opened Basics
  import opened Clock
  import opened Rows
  import D = Dashboard
  import Metrics
  import RequestLog

  const RETENTION := 30 * DAY
  const LOG_RETENTION := DAY

  /** An admin session or a token session; their tables are alike. */
  datatype SessionKey = AdminSession(id: string) | TokenSession(id: string)

  datatype Session = Session(owner: int, expires: int)

  /** failures holds the times of old rows of a table that is no longer written. */
  datatype Db = Db(
    metrics: seq<Metrics.Sample>,
    events: seq<RequestLog.Event>,
    lastEventId: int,
    failures: seq<int>,
    sessions: map<SessionKey, Session>,
    admins: set<int>,
    clients: set<int>)

  datatype Op =
    | AddSample(client: int, at: int, report: Metrics.Report)
    | LogEvent(event: RequestLog.Event, stamp: Option<int>, now: int)
    | AddAdmin(id: int)
    | AddClient(id: int)
    | DeleteClient(id: int)
    | CreateSession(key: SessionKey, owner: int, expires: int)
    | DeleteSession(key: SessionKey)
    | LookupSession(key: SessionKey, now: int)
    | Dashboard(readAt: int, duration: int, bucketSeconds: int, client: int, clients: seq<int>, now: int)
    | CountLogs(readAt: int, userId: int, clientId: int, search: string)
    | ListLogs(readAt: int, userId: int, clientId: int, search: string, limit: int, offset: int)
    | PurgeSamples(readAt: int)
    | PurgeFailures(readAt: int)
    | PurgeSessions(admin: bool, now: int)
    | PurgeEvents(readAt: int)

  datatype Answer =
    | Done
    | Refused
    | Inserted(id: int)
    | Owner(found: Option<int>)
    | Points(points: seq<Metrics.Point>)
    | Count(count: nat)
    | Events(events: seq<RequestLog.Event>)

  predicate ReadsLog(op: Op) { op.CountLogs? || op.ListLogs? }

  function DashboardFilter(op: Op): Metrics.Filter
    requires op.Dashboard?
  {
    Metrics.Filter(op.readAt - op.duration, None, op.client, op.clients, op.bucketSeconds)
  }

  function LogFilter(op: Op): RequestLog.Filter
    requires ReadsLog(op)
  {
    RequestLog.Filter(Unix(op.readAt - LOG_RETENTION), op.userId, op.clientId, op.search)
  }

  function NewerSamples(rows: seq<Metrics.Sample>, ts: int): seq<Metrics.Sample> {
    Keep(rows, (s: Metrics.Sample) => ts <= s.ts)
  }

  function NewerEvents(events: seq<RequestLog.Event>, ts: int): seq<RequestLog.Event> {
    Keep(events, (e: RequestLog.Event) => ts <= e.ts)
  }

  function NewerTimes(times: seq<int>, ts: int): seq<int> {
    Keep(times, (t: int) => ts <= t)
  }

  /** Expired sessions are those the lookup would refuse. */
  predicate Expired(s: Session, now: int) { s.expires < Unix(now) }

  /** Without the expired sessions of one of the two tables. */
  function Unexpired(sessions: map<SessionKey, Session>, admin: bool, now: int): map<SessionKey, Session> {
    map k | k in sessions && !(k.AdminSession? == admin && Expired(sessions[k], now)) :: sessions[k]
  }

  /** The row of an event: no time means now, no outcome means "ok". */
  function Recorded(e: RequestLog.Event, at: Option<int>, now: int, id: int): RequestLog.Event {
    e.(id := id, ts := Unix(if at.Some? then at.value else now), outcome := if e.outcome == "" then "ok" else e.outcome)
  }

  /** The foreign keys: a session's owner is in its table. */
  predicate HasOwner(db: Db, key: SessionKey, owner: int) {
    if key.AdminSession? then owner in db.admins else owner in db.clients
  }

  /** Some token session, expired or not, refers to the client. */
  predicate Referred(sessions: map<SessionKey, Session>, client: int) {
    exists k :: k in sessions && k.TokenSession? && sessions[k].owner == client
  }

  function Apply(db: Db, op: Op): (Db, Answer) {
    match op
    case AddSample(client, at, report) =>
      (db.(metrics := Metrics.AddSample(db.metrics, client, at, report)), Done)
    case LogEvent(event, at, now) =>
      var id := db.lastEventId + 1;
      (db.(events := db.events + [Recorded(event, at, now, id)], lastEventId := id), Inserted(id))
    case AddAdmin(id) => (db.(admins := db.admins + {id}), Done)
    case AddClient(id) => (db.(clients := db.clients + {id}), Done)
    case DeleteClient(id) =>
      if Referred(db.sessions, id) then (db, Refused) else (db.(clients := db.clients - {id}), Done)
    case CreateSession(key, owner, expires) =>
      if key in db.sessions || !HasOwner(db, key, owner) then (db, Refused)
      else (db.(sessions := db.sessions[key := Session(owner, expires)]), Done)
    case DeleteSession(key) =>
      (db.(sessions := db.sessions - {key}), Done)
    case LookupSession(key, now) =>
      (db, Owner(if key !in db.sessions || Expired(db.sessions[key], now) then None else Some(db.sessions[key].owner)))
    case Dashboard(_, _, _, _, _, now) =>
      (db, Points(Metrics.Query(db.metrics, DashboardFilter(op), now)))
    case CountLogs(_, _, _, _) =>
      (db, Count(RequestLog.Count(db.events, LogFilter(op))))
    case ListLogs(_, _, _, _, limit, offset) =>
      (db, Events(RequestLog.List(db.events, LogFilter(op), limit, offset)))
    case PurgeSamples(readAt) =>
      (db.(metrics := NewerSamples(db.metrics, Unix(readAt - RETENTION))), Done)
    case PurgeFailures(readAt) =>
      (db.(failures := NewerTimes(db.failures, Unix(readAt - RETENTION))), Done)
    case PurgeSessions(admin, now) =>
      (db.(sessions := Unexpired(db.sessions, admin, now)), Done)
    case PurgeEvents(readAt) =>
      (db.(events := NewerEvents(db.events, Unix(readAt - LOG_RETENTION))), Done)
  }

  predicate IsSweep(op: Op) { op.PurgeSamples? || op.PurgeFailures? || op.PurgeSessions? || op.PurgeEvents? }

  function Run(db: Db, ops: seq<Op>): Db {
    if ops == [] then db else Apply(Run(db, ops[..|ops| - 1]), ops[|ops| - 1]).0
  }

  lemma RunOne(db: Db, ops: seq<Op>, op: Op)
    ensures Run(db, ops + [op]) == Apply(Run(db, ops), op).0
  {
    assert (ops + [op])[..|ops|] == ops;
  }

  lemma {:induction false} RunAppend(db: Db, a: seq<Op>, b: seq<Op>)
    ensures Run(db, a + b) == Run(Run(db, a), b)
  {
    if b == [] {
      assert a + b == a;
    } else {
      hide Apply, Run;
      var front, last := b[..|b| - 1], b[|b| - 1];
      assert b == front + [last] && a + b == a + front + [last];
      RunAppend(db, a, front);
      RunOne(db, a + front, last);
      RunOne(Run(db, a), front, last);
    }
  }

  /** What callers see of a run: the answers to everything but the sweeps, as far
      as they are looked at. */
  function Answers(db: Db, ops: seq<Op>, seen: Op -> bool): seq<Answer> {
    if ops == [] then []
    else
      var front, last := ops[..|ops| - 1], ops[|ops| - 1];
      Answers(db, front, seen) + if !IsSweep(last) && seen(last) then [Apply(Run(db, front), last).1] else []
  }

  lemma AnswersOne(db: Db, front: seq<Op>, op: Op, seen: Op -> bool)
    ensures Answers(db, front + [op], seen)
         == Answers(db, front, seen) + if !IsSweep(op) && seen(op) then [Apply(Run(db, front), op).1] else []
  {
    hide Run, Apply, IsSweep;
    assert (front + [op])[..|front|] == front;
  }

  function WithoutSweeps(ops: seq<Op>): seq<Op> {
    Keep(ops, (op: Op) => !IsSweep(op))
  }

  lemma WithoutSweepsNone()
    ensures WithoutSweeps([]) == []
  {
  }

  lemma WithoutSweepsOne(ops: seq<Op>, op: Op)
    ensures WithoutSweeps(ops + [op]) == if IsSweep(op) then WithoutSweeps(ops) else WithoutSweeps(ops) + [op]
  {
    KeepAppend(ops, [op], (x: Op) => !IsSweep(x));
    KeepOne(op, (x: Op) => !IsSweep(x));
    assert WithoutSweeps(ops) + [] == WithoutSweeps(ops);
  }

  // When a sweep cannot be noticed.

  /** The later operation b does not look back beyond what the sweep a has kept.
      Deleting a client looks at all token sessions, expired ones included. */
  predicate Harmless(a: Op, b: Op) {
    && (a.PurgeSamples? && b.Dashboard? ==>
          var since := Unix(b.readAt - b.duration);
          Unix(a.readAt - RETENTION) <= since || Unix(b.now) <= since)
    && (a.PurgeSessions? && b.LookupSession? ==> b.key.AdminSession? != a.admin || Unix(a.now) <= Unix(b.now))
    && (a.PurgeSessions? && b.DeleteClient? ==> a.admin)
    && (a.PurgeEvents? && ReadsLog(b) ==> Unix(a.readAt - LOG_RETENTION) <= Unix(b.readAt - LOG_RETENTION))
  }

  /** Session ids are drawn at random and taken to be new every time. */
  predicate FreshSessions(db: Db, ops: seq<Op>) {
    forall j :: 0 <= j < |ops| && ops[j].CreateSession? ==> ops[j].key !in db.sessions && !Created(ops, j, ops[j].key)
  }

  /** A session with this id was to be created by one of the first j operations. */
  predicate Created(ops: seq<Op>, j: int, key: SessionKey)
    requires 0 <= j <= |ops|
  {
    exists i :: 0 <= i < j && ops[i].CreateSession? && ops[i].key == key
  }

  predicate SweepsTokens(op: Op) { op.PurgeSessions? && !op.admin }

  predicate TokensSwept(ops: seq<Op>, j: int)
    requires 0 <= j <= |ops|
  {
    exists i :: 0 <= i < j && SweepsTokens(ops[i])
  }

  /** One of the first j operations asked to delete the client, after a sweep of
      the token sessions. */
  predicate Gone(ops: seq<Op>, j: int, client: int)
    requires 0 <= j <= |ops|
  {
    exists k :: 0 <= k < j && ops[k] == DeleteClient(client) && TokensSwept(ops, k)
  }

  /** No client logs in after that: it may still be there only in the full store. */
  predicate NoLoginAfterDeletion(ops: seq<Op>) {
    forall j :: 0 <= j < |ops| && ops[j].CreateSession? && ops[j].key.TokenSession? ==> !Gone(ops, j, ops[j].owner)
  }

  // The simulation: the swept store agrees with the full one on everything
  // that an operation still to come can look at.

  predicate SamplesAgree(swept: seq<Metrics.Sample>, full: seq<Metrics.Sample>, op: Op) {
    op.Dashboard? ==>
      var since := Unix(op.readAt - op.duration);
      Unix(op.now) <= since || NewerSamples(swept, since) == NewerSamples(full, since)
  }

  predicate EventsAgree(swept: seq<RequestLog.Event>, full: seq<RequestLog.Event>, op: Op) {
    ReadsLog(op) ==>
      var since := Unix(op.readAt - LOG_RETENTION);
      NewerEvents(swept, since) == NewerEvents(full, since)
  }

  /** Sessions missing from the swept store are expired for the lookups to come. */
  predicate SessionsAgree(swept: map<SessionKey, Session>, full: map<SessionKey, Session>, op: Op) {
    && (op.LookupSession? && op.key in full && op.key !in swept ==> Expired(full[op.key], op.now))
    && (op.DeleteClient? ==> forall k :: k in full && k.TokenSession? ==> k in swept)
  }

  predicate Agree(swept: Db, full: Db, op: Op) {
    && SamplesAgree(swept.metrics, full.metrics, op)
    && EventsAgree(swept.events, full.events, op)
    && SessionsAgree(swept.sessions, full.sessions, op)
  }

  /** What holds of the two stores after j operations, whatever comes next: they
      differ only in sessions that were swept and in clients that were deleted
      after token sessions had been swept. */
  predicate Related(db: Db, ops: seq<Op>, j: int, swept: Db, full: Db)
    requires 0 <= j <= |ops|
  {
    && swept.lastEventId == full.lastEventId && swept.admins == full.admins
    && (forall k :: k in swept.sessions ==> k in full.sessions && swept.sessions[k] == full.sessions[k])
    && (forall k :: k in full.sessions ==> k in db.sessions || Created(ops, j, k))
    && (forall c :: c in swept.clients ==> c in full.clients)
    && (forall c :: c in full.clients ==> c in swept.clients || Gone(ops, j, c))
    && (!TokensSwept(ops, j) ==> forall k :: k in full.sessions && k.TokenSession? ==> k in swept.sessions)
  }

  lemma NewerCons(r: Metrics.Sample, rest: seq<Metrics.Sample>, ts: int)
    ensures NewerSamples([r] + rest, ts) == if ts <= r.ts then [r] + NewerSamples(rest, ts) else NewerSamples(rest, ts)
  {
    assert ([r] + rest)[1..] == rest;
  }

  lemma UpsertCons(r: Metrics.Sample, rest: seq<Metrics.Sample>, s: Metrics.Sample)
    ensures Metrics.Upsert([r] + rest, s)
         == if Metrics.SameKey(r, s) then [s.(volume := r.volume.Plus(s.volume))] + rest
           else [r] + Metrics.Upsert(rest, s)
  {
    assert ([r] + rest)[1..] == rest;
  }

  /** An upsert acts on the newer rows as it would act on the newer rows alone. */
  lemma {:induction false} UpsertAmongNewer(rows: seq<Metrics.Sample>, s: Metrics.Sample, ts: int)
    ensures ts <= s.ts ==> NewerSamples(Metrics.Upsert(rows, s), ts) == Metrics.Upsert(NewerSamples(rows, ts), s)
    ensures s.ts < ts ==> NewerSamples(Metrics.Upsert(rows, s), ts) == NewerSamples(rows, ts)
  {
    if rows == [] {
      NewerCons(s, [], ts);
      assert [s] + [] == [s];
    } else {
      var r, rest := rows[0], rows[1..];
      assert rows == [r] + rest;
      NewerCons(r, rest, ts);
      UpsertCons(r, rest, s);
      if Metrics.SameKey(r, s) {
        NewerCons(s.(volume := r.volume.Plus(s.volume)), rest, ts);
        UpsertCons(r, NewerSamples(rest, ts), s);
      } else {
        UpsertAmongNewer(rest, s, ts);
        NewerCons(r, Metrics.Upsert(rest, s), ts);
        UpsertCons(r, NewerSamples(rest, ts), s);
      }
    }
  }

  lemma SampleKeepsAgreement(swept: seq<Metrics.Sample>, full: seq<Metrics.Sample>, s: Metrics.Sample, op: Op)
    requires SamplesAgree(swept, full, op)
    ensures SamplesAgree(Metrics.Upsert(swept, s), Metrics.Upsert(full, s), op)
  {
    if op.Dashboard? {
      UpsertAmongNewer(swept, s, Unix(op.readAt - op.duration));
      UpsertAmongNewer(full, s, Unix(op.readAt - op.duration));
    }
  }

  lemma EventKeepsAgreement(swept: seq<RequestLog.Event>, full: seq<RequestLog.Event>, e: RequestLog.Event, op: Op)
    requires EventsAgree(swept, full, op)
    ensures EventsAgree(swept + [e], full + [e], op)
  {
    if ReadsLog(op) {
      var since := Unix(op.readAt - LOG_RETENTION);
      KeepAppend(swept, [e], (e: RequestLog.Event) => since <= e.ts);
      KeepAppend(full, [e], (e: RequestLog.Event) => since <= e.ts);
    }
  }

  lemma NewerTwice(rows: seq<Metrics.Sample>, cut: int, since: int)
    requires cut <= since
    ensures NewerSamples(NewerSamples(rows, cut), since) == NewerSamples(rows, since)
  {
    KeepTwice(rows, (s: Metrics.Sample) => cut <= s.ts, (s: Metrics.Sample) => since <= s.ts);
  }

  lemma NewerEventsTwice(events: seq<RequestLog.Event>, cut: int, since: int)
    requires cut <= since
    ensures NewerEvents(NewerEvents(events, cut), since) == NewerEvents(events, since)
  {
    KeepTwice(events, (e: RequestLog.Event) => cut <= e.ts, (e: RequestLog.Event) => since <= e.ts);
  }

  /** A query looks only at the rows newer than its start, and at none if its
      end is not after its start. */
  lemma QueryLooksAtNewer(rows: seq<Metrics.Sample>, f: Metrics.Filter, now: int)
    ensures Metrics.Query(NewerSamples(rows, Unix(f.since)), f, now) == Metrics.Query(rows, f, now)
    ensures Metrics.Until(f, now) <= Unix(f.since) ==> Metrics.Selected(rows, f, now) == []
  {
    var matches := (s: Metrics.Sample) => Metrics.Matches(s, f, now);
    KeepTwice(rows, (s: Metrics.Sample) => Unix(f.since) <= s.ts, matches);
    if Metrics.Until(f, now) <= Unix(f.since) { NothingSelected(rows, f, now); }
  }

  lemma {:induction false} NothingSelected(rows: seq<Metrics.Sample>, f: Metrics.Filter, now: int)
    requires Metrics.Until(f, now) <= Unix(f.since)
    ensures Metrics.Selected(rows, f, now) == []
  {
    if rows != [] { NothingSelected(rows[1..], f, now); }
  }

  lemma LogLooksAtNewer(events: seq<RequestLog.Event>, f: RequestLog.Filter)
    ensures RequestLog.Matching(NewerEvents(events, f.since), f) == RequestLog.Matching(events, f)
  {
    KeepTwice(events, (e: RequestLog.Event) => f.since <= e.ts, (e: RequestLog.Event) => RequestLog.Matches(e, f));
  }

  /** Related stores that agree on the next operation give it the same answer. */
  lemma SameAnswer(db: Db, ops: seq<Op>, j: nat, swept: Db, full: Db)
    requires j < |ops| && Related(db, ops, j, swept, full) && Agree(swept, full, ops[j])
    requires FreshSessions(db, ops) && NoLoginAfterDeletion(ops)
    ensures Apply(swept, ops[j]).1 == Apply(full, ops[j]).1
  {
    hide Keep, Unix, HasOwner, Created, Gone, TokensSwept, Metrics.AddSample;
    var op := ops[j];
    if op.CreateSession? { LoginIsAnsweredAlike(db, ops, j, swept, full); }
    if op.Dashboard? {
      QueryLooksAtNewer(swept.metrics, DashboardFilter(op), op.now);
      QueryLooksAtNewer(full.metrics, DashboardFilter(op), op.now);
    } else if ReadsLog(op) {
      LogLooksAtNewer(swept.events, LogFilter(op));
      LogLooksAtNewer(full.events, LogFilter(op));
    }
  }

  lemma CreatedNext(ops: seq<Op>, j: nat, key: SessionKey)
    requires j < |ops|
    ensures Created(ops, j + 1, key) <==> Created(ops, j, key) || (ops[j].CreateSession? && ops[j].key == key)
  {
    if ops[j].CreateSession? && ops[j].key == key {
      assert Created(ops, j + 1, key);
    }
  }

  lemma GoneNext(ops: seq<Op>, j: nat, client: int)
    requires j < |ops|
    ensures Gone(ops, j + 1, client) <==>
              Gone(ops, j, client) || (ops[j] == DeleteClient(client) && TokensSwept(ops, j))
  {
    if k :| 0 <= k < j && ops[k] == DeleteClient(client) && TokensSwept(ops, k) {
      assert Gone(ops, j + 1, client);
    }
  }

  lemma SweptNext(ops: seq<Op>, j: nat)
    requires j < |ops|
    ensures TokensSwept(ops, j + 1) <==> TokensSwept(ops, j) || SweepsTokens(ops[j])
  {
    if i :| 0 <= i < j && SweepsTokens(ops[i]) {
      assert TokensSwept(ops, j + 1);
    }
  }

  lemma SoFar(ops: seq<Op>, j: nat)
    requires j < |ops|
    ensures forall k :: Created(ops, j + 1, k) <==> Created(ops, j, k) || (ops[j].CreateSession? && ops[j].key == k)
    ensures forall c :: Gone(ops, j + 1, c) <==> Gone(ops, j, c) || (ops[j] == DeleteClient(c) && TokensSwept(ops, j))
    ensures TokensSwept(ops, j + 1) <==> TokensSwept(ops, j) || SweepsTokens(ops[j])
  {
    hide Created, Gone, TokensSwept;
    forall k ensures Created(ops, j + 1, k) <==> Created(ops, j, k) || (ops[j].CreateSession? && ops[j].key == k) {
      CreatedNext(ops, j, k);
    }
    forall c ensures Gone(ops, j + 1, c) <==> Gone(ops, j, c) || (ops[j] == DeleteClient(c) && TokensSwept(ops, j)) {
      GoneNext(ops, j, c);
    }
    SweptNext(ops, j);
  }

  lemma SweepKeepsRelated(db: Db, ops: seq<Op>, j: nat, swept: Db, full: Db)
    requires j < |ops| && Related(db, ops, j, swept, full) && IsSweep(ops[j])
    ensures Related(db, ops, j + 1, Apply(swept, ops[j]).0, full)
  {
    hide Created, Gone, TokensSwept, Keep, Unix;
    SoFar(ops, j);
  }

  lemma CreationKeepsRelated(db: Db, ops: seq<Op>, j: nat, swept: Db, full: Db)
    requires j < |ops| && Related(db, ops, j, swept, full) && ops[j].CreateSession?
    requires FreshSessions(db, ops) && NoLoginAfterDeletion(ops)
    ensures Related(db, ops, j + 1, Apply(swept, ops[j]).0, Apply(full, ops[j]).0)
  {
    hide Created, Gone, TokensSwept, HasOwner, Referred, Unix, Keep;
    hide RequestLog.Count, RequestLog.List, Metrics.Query, Metrics.AddSample;
    SoFar(ops, j);
    LoginIsAnsweredAlike(db, ops, j, swept, full);
  }

  lemma DeletionKeepsRelated(db: Db, ops: seq<Op>, j: nat, swept: Db, full: Db)
    requires j < |ops| && Related(db, ops, j, swept, full) && ops[j].DeleteClient?
    ensures Related(db, ops, j + 1, Apply(swept, ops[j]).0, Apply(full, ops[j]).0)
  {
    hide Created, Gone, TokensSwept, Keep, Unix;
    hide RequestLog.Count, RequestLog.List, Metrics.Query, Metrics.AddSample;
    SoFar(ops, j);
    assert Referred(swept.sessions, ops[j].id) ==> Referred(full.sessions, ops[j].id);
    assert !TokensSwept(ops, j) && Referred(full.sessions, ops[j].id) ==> Referred(swept.sessions, ops[j].id);
  }

  lemma OtherKeepsRelated(db: Db, ops: seq<Op>, j: nat, swept: Db, full: Db)
    requires j < |ops| && Related(db, ops, j, swept, full)
    requires !IsSweep(ops[j]) && !ops[j].CreateSession? && !ops[j].DeleteClient?
    ensures Related(db, ops, j + 1, Apply(swept, ops[j]).0, Apply(full, ops[j]).0)
  {
    hide Created, Gone, TokensSwept, Unix, Keep, RequestLog.Count, RequestLog.List, Metrics.Query, Metrics.AddSample;
    SoFar(ops, j);
  }

  /** One step of a run, which the full store takes only if it is no sweep. */
  lemma StepKeepsRelated(db: Db, ops: seq<Op>, j: nat, swept: Db, full: Db)
    requires j < |ops| && Related(db, ops, j, swept, full)
    requires FreshSessions(db, ops) && NoLoginAfterDeletion(ops)
    ensures Related(db, ops, j + 1, Apply(swept, ops[j]).0, if IsSweep(ops[j]) then full else Apply(full, ops[j]).0)
  {
    hide Related, Apply, FreshSessions, NoLoginAfterDeletion;
    if IsSweep(ops[j]) {
      SweepKeepsRelated(db, ops, j, swept, full);
    } else if ops[j].CreateSession? {
      CreationKeepsRelated(db, ops, j, swept, full);
    } else if ops[j].DeleteClient? {
      DeletionKeepsRelated(db, ops, j, swept, full);
    } else {
      OtherKeepsRelated(db, ops, j, swept, full);
    }
  }

  lemma LoginIsAnsweredAlike(db: Db, ops: seq<Op>, j: nat, swept: Db, full: Db)
    requires j < |ops| && ops[j].CreateSession? && Related(db, ops, j, swept, full)
    requires FreshSessions(db, ops) && NoLoginAfterDeletion(ops)
    ensures ops[j].key !in swept.sessions && ops[j].key !in full.sessions
    ensures HasOwner(swept, ops[j].key, ops[j].owner) == HasOwner(full, ops[j].key, ops[j].owner)
  {
    hide Created, Gone, TokensSwept;
  }

  lemma StepKeepsSessions(db: Db, ops: seq<Op>, j: nat, swept: Db, full: Db, later: Op)
    requires j < |ops| && !IsSweep(ops[j]) && Related(db, ops, j, swept, full)
    requires FreshSessions(db, ops) && NoLoginAfterDeletion(ops) && SessionsAgree(swept.sessions, full.sessions, later)
    ensures SessionsAgree(Apply(swept, ops[j]).0.sessions, Apply(full, ops[j]).0.sessions, later)
  {
    hide Unix, Keep, HasOwner, Referred, Created, Gone, TokensSwept;
    hide RequestLog.Count, RequestLog.List, Metrics.Query, Metrics.AddSample;
    if ops[j].CreateSession? { LoginIsAnsweredAlike(db, ops, j, swept, full); }
  }

  /** An operation done in both stores keeps them in agreement on any other. */
  lemma StepKeepsAgreement(db: Db, ops: seq<Op>, j: nat, swept: Db, full: Db, later: Op)
    requires j < |ops| && !IsSweep(ops[j]) && Related(db, ops, j, swept, full) && Agree(swept, full, later)
    requires FreshSessions(db, ops) && NoLoginAfterDeletion(ops)
    ensures Agree(Apply(swept, ops[j]).0, Apply(full, ops[j]).0, later)
  {
    hide Unix, Keep, Truncate, RequestLog.Count, RequestLog.List, Metrics.Query, HasOwner, Referred, SessionsAgree;
    hide Created, Gone, TokensSwept, FreshSessions, NoLoginAfterDeletion;
    StepKeepsSessions(db, ops, j, swept, full, later);
    match ops[j]
    case AddSample(client, at, report) =>
      SampleKeepsAgreement(swept.metrics, full.metrics,
                           Metrics.Sample(client, Metrics.Minute(at), report.delta, report.conns), later);
    case LogEvent(event, stamp, now) =>
      EventKeepsAgreement(swept.events, full.events, Recorded(event, stamp, now, swept.lastEventId + 1), later);
    case _ =>
  }

  /** A sweep in one of them keeps the agreement on the operations it is harmless to. */
  lemma SweepKeepsAgreement(swept: Db, full: Db, sweep: Op, later: Op)
    requires IsSweep(sweep) && Agree(swept, full, later) && Harmless(sweep, later)
    requires forall k :: k in swept.sessions ==> k in full.sessions && swept.sessions[k] == full.sessions[k]
    ensures Agree(Apply(swept, sweep).0, full, later)
  {
    if sweep.PurgeSamples? && later.Dashboard? {
      var since := Unix(later.readAt - later.duration);
      if since < Unix(later.now) { NewerTwice(swept.metrics, Unix(sweep.readAt - RETENTION), since); }
    } else if sweep.PurgeEvents? && ReadsLog(later) {
      NewerEventsTwice(swept.events, Unix(sweep.readAt - LOG_RETENTION), Unix(later.readAt - LOG_RETENTION));
    }
  }

  /** The run and the run without sweeps, after j operations, seen from an
      operation that the sweeps so far are harmless to. */
  lemma {:induction false} RunsAgree(db: Db, ops: seq<Op>, j: nat, later: Op)
    requires j <= |ops| && FreshSessions(db, ops) && NoLoginAfterDeletion(ops)
    requires forall i :: 0 <= i < j && IsSweep(ops[i]) ==> Harmless(ops[i], later)
    ensures Related(db, ops, j, Run(db, ops[..j]), Run(db, WithoutSweeps(ops[..j])))
    ensures Agree(Run(db, ops[..j]), Run(db, WithoutSweeps(ops[..j])), later)
  {
    if j == 0 {
      assert ops[..0] == [];
    } else {
      hide Apply, Agree, Related, Run, WithoutSweeps, FreshSessions, NoLoginAfterDeletion;
      var front, op := ops[..j - 1], ops[j - 1];
      var swept, full := Run(db, front), Run(db, WithoutSweeps(front));
      RunsAgree(db, ops, j - 1, later);
      StepKeepsRelated(db, ops, j - 1, swept, full);
      assert ops[..j] == front + [op];
      RunOne(db, front, op);
      WithoutSweepsOne(front, op);
      RunOne(db, WithoutSweeps(front), op);
      if IsSweep(op) {
        SessionsAreContained(db, ops, j - 1, swept, full);
        SweepKeepsAgreement(swept, full, op, later);
      } else {
        StepKeepsAgreement(db, ops, j - 1, swept, full, later);
      }
    }
  }

  lemma SessionsAreContained(db: Db, ops: seq<Op>, j: nat, swept: Db, full: Db)
    requires j <= |ops| && Related(db, ops, j, swept, full)
    ensures forall k :: k in swept.sessions ==> k in full.sessions && swept.sessions[k] == full.sessions[k]
  {
  }

  /** An operation that all earlier sweeps are harmless to has the answer that it
      has in the run without sweeps, whatever other operations there are. */
  lemma OperationIsAnsweredAlike(db: Db, ops: seq<Op>, j: nat)
    requires j < |ops| && FreshSessions(db, ops) && NoLoginAfterDeletion(ops)
    requires forall i :: 0 <= i < j && IsSweep(ops[i]) ==> Harmless(ops[i], ops[j])
    ensures Apply(Run(db, ops[..j]), ops[j]).1 == Apply(Run(db, WithoutSweeps(ops[..j])), ops[j]).1
  {
    RunsAgree(db, ops, j, ops[j]);
    SameAnswer(db, ops, j, Run(db, ops[..j]), Run(db, WithoutSweeps(ops[..j])));
  }

  /** Sweeps are harmless to every later operation that is looked at. */
  predicate HarmlessTo(ops: seq<Op>, seen: Op -> bool) {
    forall i, j :: 0 <= i < j < |ops| && IsSweep(ops[i]) && seen(ops[j]) ==> Harmless(ops[i], ops[j])
  }

  lemma {:induction false} SameAnswersUpTo(db: Db, ops: seq<Op>, seen: Op -> bool, j: nat)
    requires j <= |ops| && FreshSessions(db, ops) && NoLoginAfterDeletion(ops) && HarmlessTo(ops, seen)
    ensures Answers(db, ops[..j], seen) == Answers(db, WithoutSweeps(ops[..j]), seen)
  {
    hide Answers, Run, Apply, WithoutSweeps, FreshSessions, NoLoginAfterDeletion, Harmless, IsSweep;
    if j == 0 {
      assert ops[..j] == [];
      WithoutSweepsNone();
    } else {
      var front, op := ops[..j - 1], ops[j - 1];
      SameAnswersUpTo(db, ops, seen, j - 1);
      assert ops[..j] == front + [op];
      WithoutSweepsOne(front, op);
      AnswersOne(db, front, op, seen);
      if !IsSweep(op) {
        AnswersOne(db, WithoutSweeps(front), op, seen);
        if seen(op) { OperationIsAnsweredAlike(db, ops, j - 1); }
      }
    }
  }

  /** Sweeps are never noticed by operations they are harmless to: whichever of
      those one looks at, a run shows the answers of the run without sweeps. */
  lemma RetentionIsUnobservable(db: Db, ops: seq<Op>, seen: Op -> bool)
    requires FreshSessions(db, ops) && NoLoginAfterDeletion(ops) && HarmlessTo(ops, seen)
    ensures Answers(db, ops, seen) == Answers(db, WithoutSweeps(ops), seen)
  {
    SameAnswersUpTo(db, ops, seen, |ops|);
    assert ops[..|ops|] == ops;
  }

  // A clock that does not run backwards makes every sweep harmless.

  function Readings(op: Op): seq<int> {
    match op
    case AddSample(_, at, _) => [at]
    case LookupSession(_, now) => [now]
    case Dashboard(readAt, _, _, _, _, now) => [readAt, now]
    case CountLogs(readAt, _, _, _) => [readAt]
    case ListLogs(readAt, _, _, _, _, _) => [readAt]
    case PurgeSamples(readAt) => [readAt]
    case PurgeFailures(readAt) => [readAt]
    case PurgeSessions(_, now) => [now]
    case PurgeEvents(readAt) => [readAt]
    case _ => []
  }

  predicate NotBefore(earlier: Op, later: Op) {
    forall i, j :: 0 <= i < |Readings(earlier)| && 0 <= j < |Readings(later)| ==>
      Readings(earlier)[i] <= Readings(later)[j]
  }

  /** What a sweep read from the clock is not after what later operations read.
      Nothing is asked about the order of the other operations' readings. */
  predicate ClockMovesForward(ops: seq<Op>) {
    forall i, j :: 0 <= i < j < |ops| && IsSweep(ops[i]) ==> NotBefore(ops[i], ops[j])
  }

  predicate WithinRetention(op: Op) { op.Dashboard? ==> op.duration <= RETENTION }

  /** All answers but those to deletions of clients, which look at all sessions. */
  const BUT_DELETIONS: Op -> bool := (op: Op) => !op.DeleteClient?

  lemma LaterIsHarmless(a: Op, b: Op)
    requires (IsSweep(a) ==> NotBefore(a, b)) && WithinRetention(b)
    requires SweepsTokens(a) ==> !b.DeleteClient?
    ensures Harmless(a, b)
  {
    if a.PurgeSamples? && b.Dashboard? {
      assert Readings(a)[0] <= Readings(b)[0];
      DivisionMonotone(a.readAt - RETENTION, b.readAt - b.duration, NANO);
    } else if a.PurgeSessions? && b.LookupSession? {
      assert Readings(a)[0] <= Readings(b)[0];
      DivisionMonotone(a.now, b.now, NANO);
    } else if a.PurgeEvents? && ReadsLog(b) {
      assert Readings(a)[0] <= Readings(b)[0];
      DivisionMonotone(a.readAt - LOG_RETENTION, b.readAt - LOG_RETENTION, NANO);
    }
  }

  /** With a clock that moves forward, charts of at most 30 days and clients that
      do not log in once they are to be deleted, the sweeps are never noticed,
      wherever in the run they fall, except by deletions of clients. */
  lemma SweepsAreNeverNoticed(db: Db, ops: seq<Op>)
    requires ClockMovesForward(ops) && FreshSessions(db, ops) && NoLoginAfterDeletion(ops)
    requires forall i :: 0 <= i < |ops| ==> WithinRetention(ops[i])
    ensures Answers(db, ops, BUT_DELETIONS) == Answers(db, WithoutSweeps(ops), BUT_DELETIONS)
  {
    forall i, j | 0 <= i < j < |ops| && IsSweep(ops[i]) && BUT_DELETIONS(ops[j]) ensures Harmless(ops[i], ops[j]) {
      LaterIsHarmless(ops[i], ops[j]);
    }
    RetentionIsUnobservable(db, ops, BUT_DELETIONS);
  }

  /** A deletion notices a sweep exactly in the stores in which token sessions
      refer to the client and all of them have expired. */
  lemma DeletionNoticesIff(db: Db, now: int, id: int)
    ensures Notices(db, PurgeSessions(false, now), DeleteClient(id))
       <==> && Referred(db.sessions, id)
            && forall k :: k in db.sessions && k.TokenSession? && db.sessions[k].owner == id ==>
                 Expired(db.sessions[k], now)
  {
    var swept := Apply(db, PurgeSessions(false, now)).0;
    if k :| k in db.sessions && k.TokenSession? && db.sessions[k].owner == id && !Expired(db.sessions[k], now) {
      assert k in swept.sessions;
    }
  }

  /** And a client that logs in after such a deletion notices it again: it is gone
      only where the sweep has let the deletion through. */
  lemma LoginAfterDeletionNotices(now: int, later: int)
    ensures var db := OneSession(TokenSession("old"), 1, Unix(now) - 1);
            var login := CreateSession(TokenSession("new"), 1, later);
            var ops := [PurgeSessions(false, now), DeleteClient(1), login];
            && FreshSessions(db, ops) && !NoLoginAfterDeletion(ops)
            && Apply(Run(db, ops[..2]), login).1 == Refused
            && Apply(Run(db, WithoutSweeps(ops[..2])), login).1 == Done
  {
    hide Run, WithoutSweeps, FreshSessions, NoLoginAfterDeletion;
    var db := OneSession(TokenSession("old"), 1, Unix(now) - 1);
    var sweep, delete := PurgeSessions(false, now), DeleteClient(1);
    var login := CreateSession(TokenSession("new"), 1, later);
    var ops := [sweep, delete, login];
    TwoSteps(db, sweep, delete);
    assert ops[..2] == [sweep, delete];
    assert TokenSession("old") in db.sessions && Referred(db.sessions, 1);
    assert !Referred(Apply(db, sweep).0.sessions, 1);
    LoginAfterDeletion(db, sweep, login);
  }

  lemma TwoSteps(db: Db, sweep: Op, op: Op)
    requires IsSweep(sweep) && !IsSweep(op)
    ensures Run(db, [sweep, op]) == Apply(Apply(db, sweep).0, op).0
    ensures Run(db, WithoutSweeps([sweep, op])) == Apply(db, op).0
  {
    hide Apply;
    assert [sweep, op] == [sweep] + [op] && [sweep] == [] + [sweep];
    RunOne(db, [], sweep);
    RunOne(db, [sweep], op);
    WithoutSweepsOne([], sweep);
    WithoutSweepsOne([sweep], op);
    assert [] + [op] == [op];
    RunOne(db, [], op);
  }

  lemma LoginAfterDeletion(db: Db, sweep: Op, login: Op)
    requires SweepsTokens(sweep) && login.CreateSession? && login.key.TokenSession? && login.key !in db.sessions
    ensures var ops := [sweep, DeleteClient(login.owner), login];
            FreshSessions(db, ops) && !NoLoginAfterDeletion(ops)
  {
    var ops := [sweep, DeleteClient(login.owner), login];
    assert SweepsTokens(ops[0]) && TokensSwept(ops, 1);
    assert ops[1] == DeleteClient(login.owner) && Gone(ops, 2, login.owner);
    assert ops[2] == login;
    forall j | 0 <= j < |ops| && ops[j].CreateSession? ensures !Created(ops, j, ops[j].key) {
      assert j == 2;
    }
  }

  // Exactly when a sweep can be noticed.

  lemma {:induction false} ContainsItself(s: string)
    ensures RequestLog.Like(s, s + "%")
  {
    if s != "" {
      ContainsItself(s[1..]);
      assert (s + "%")[1..] == s[1..] + "%";
    }
  }

  const EMPTY := Db([], [], 0, [], map[], {}, {})

  /** One row in the window of a query; clients are numbered from 1. */
  function RowAt(b: Op, ts: int): Metrics.Sample
    requires b.Dashboard?
  {
    var client := if 0 < b.client then b.client else if b.clients != [] then b.clients[0] else 1;
    Metrics.Sample(client, ts, Metrics.Volume(1, 0), 0)
  }

  /** Matching events at the start of the window, one more than are skipped. */
  function SomeEvents(b: Op): seq<RequestLog.Event>
    requires ReadsLog(b)
  {
    var n := if b.ListLogs? && 0 < b.offset then b.offset + 1 else 1;
    var ts := Unix(b.readAt - LOG_RETENTION);
    seq(n, i => RequestLog.Event(i + 1, ts, b.userId, b.clientId, b.search, "", "", 0, 0, 0))
  }

  function OneSession(key: SessionKey, owner: int, expires: int): Db {
    EMPTY.(sessions := map[key := Session(owner, expires)], admins := {owner}, clients := {owner})
  }

  /** Operations whose answers could depend on what a sweep removes. */
  predicate LooksBack(op: Op) { op.Dashboard? || ReadsLog(op) || op.LookupSession? || op.DeleteClient? }

  /** Does a store answer b differently once it has been swept by a? */
  predicate Notices(db: Db, a: Op, b: Op) { Apply(Apply(db, a).0, b).1 != Apply(db, b).1 }

  lemma GroupOfOne(r: Metrics.Sample, bucket: int -> int)
    ensures |Metrics.Group([r], bucket)| == 1
  {
    assert [r][1..] == [];
  }

  /** A row in the window that the sweep takes away is missed. */
  lemma DashboardNotices(a: Op, b: Op, ts: int)
    requires a.PurgeSamples? && b.Dashboard?
    requires Unix(b.readAt - b.duration) <= ts < Unix(a.readAt - RETENTION) && ts < Unix(b.now)
    ensures Notices(EMPTY.(metrics := [RowAt(b, ts)]), a, b)
  {
    hide Unix, DashboardFilter, RowAt, Referred, HasOwner;
    hide RequestLog.Count, RequestLog.List, Metrics.Query, Metrics.AddSample;
    RowIsSwept(b, ts, Unix(a.readAt - RETENTION));
    RowIsPlotted(b, ts);
  }

  lemma RowIsSwept(b: Op, ts: int, cutoff: int)
    requires b.Dashboard? && ts < cutoff
    ensures NewerSamples([RowAt(b, ts)], cutoff) == []
  {
    KeepOne(RowAt(b, ts), (s: Metrics.Sample) => cutoff <= s.ts);
  }

  lemma RowIsPlotted(b: Op, ts: int)
    requires b.Dashboard? && Unix(b.readAt - b.duration) <= ts < Unix(b.now)
    ensures Metrics.Query([RowAt(b, ts)], DashboardFilter(b), b.now) != Metrics.Query([], DashboardFilter(b), b.now)
  {
    var r, f := RowAt(b, ts), DashboardFilter(b);
    assert Metrics.Matches(r, f, b.now);
    KeepOne(r, (s: Metrics.Sample) => Metrics.Matches(s, f, b.now));
    GroupOfOne(r, Metrics.Buckets(Metrics.Width(f)));
  }

  lemma LogNotices(a: Op, b: Op)
    requires a.PurgeEvents? && ReadsLog(b) && !Harmless(a, b)
    ensures Notices(EMPTY.(events := SomeEvents(b)), a, b)
  {
    hide NewerEvents, SomeEvents, LogFilter, Unix, Referred, HasOwner;
    hide RequestLog.Count, RequestLog.List, Metrics.Query, Metrics.AddSample;
    SomeEventsAreSwept(a, b);
    SomeEventsAreListed(b);
  }

  lemma SomeEventsAreSwept(a: Op, b: Op)
    requires a.PurgeEvents? && ReadsLog(b) && !Harmless(a, b)
    ensures NewerEvents(SomeEvents(b), Unix(a.readAt - LOG_RETENTION)) == []
  {
    KeepNone(SomeEvents(b), (x: RequestLog.Event) => Unix(a.readAt - LOG_RETENTION) <= x.ts);
  }

  lemma SomeEventsMatch(b: Op)
    requires ReadsLog(b)
    ensures |RequestLog.Matching(SomeEvents(b), LogFilter(b))| == |SomeEvents(b)|
  {
    var events, f := SomeEvents(b), LogFilter(b);
    ContainsItself(b.search);
    assert ("%" + b.search + "%")[1..] == b.search + "%";
    forall e | e in events ensures RequestLog.Matches(e, f) {
    }
    KeepIsShorter(events, (x: RequestLog.Event) => RequestLog.Matches(x, f));
  }

  lemma SomeEventsAreListed(b: Op)
    requires ReadsLog(b)
    ensures var f := LogFilter(b);
            && RequestLog.Count(SomeEvents(b), f) != RequestLog.Count([], f)
            && (b.ListLogs? ==>
                  RequestLog.List(SomeEvents(b), f, b.limit, b.offset) != RequestLog.List([], f, b.limit, b.offset))
  {
    var f := LogFilter(b);
    SomeEventsMatch(b);
    assert RequestLog.Matching([], f) == [] && RequestLog.Ordered([]) == [];
    RequestLog.OrderedLength(RequestLog.Matching(SomeEvents(b), f));
  }

  lemma SessionNotices(a: Op, b: Op)
    requires a.PurgeSessions? && (b.LookupSession? || b.DeleteClient?) && !Harmless(a, b)
    ensures b.LookupSession? ==> Notices(OneSession(b.key, 0, Unix(b.now)), a, b)
    ensures b.DeleteClient? ==> Notices(OneSession(TokenSession(""), b.id, Unix(a.now) - 1), a, b)
  {
    if b.DeleteClient? {
      var db := OneSession(TokenSession(""), b.id, Unix(a.now) - 1);
      assert TokenSession("") in db.sessions && Referred(db.sessions, b.id);
      assert !Referred(Apply(db, a).0.sessions, b.id);
    }
  }

  lemma OneSweepIsNotNoticed(db: Db, a: Op, b: Op)
    requires IsSweep(a) && LooksBack(b) && Harmless(a, b)
    ensures !Notices(db, a, b)
  {
    var ops := [a, b];
    OperationIsAnsweredAlike(db, ops, 1);
    assert ops[..1] == [] + [a];
    RunOne(db, [], a);
    WithoutSweepsOne([], a);
  }

  /** No store notices the sweep exactly if the condition holds, which compares
      clock readings only. */
  lemma NobodyNoticesIff(a: Op, b: Op)
    requires IsSweep(a) && LooksBack(b)
    ensures (forall db: Db :: !Notices(db, a, b)) <==> Harmless(a, b)
  {
    if Harmless(a, b) {
      forall db: Db ensures !Notices(db, a, b) {
        OneSweepIsNotNoticed(db, a, b);
      }
    } else if b.Dashboard? {
      DashboardNotices(a, b, Unix(b.readAt - b.duration));
    } else if ReadsLog(b) {
      LogNotices(a, b);
    } else {
      SessionNotices(a, b);
    }
  }

  // The dashboard as it is: its rows stand at full minutes.

  function DashboardOp(key: string, readAt: int, now: int): Op {
    var p := D.PeriodOf(key);
    Dashboard(readAt, p.duration, p.bucket / NANO, 0, [], now)
  }

  lemma DashboardOpQueries(key: string, readAt: int, now: int)
    ensures DashboardFilter(DashboardOp(key, readAt, now)) == D.QueryFor(D.PeriodOf(key), readAt)
    ensures WithinRetention(DashboardOp(key, readAt, now))
  {
    D.PeriodsAreCommensurable(key);
  }

  function AtMinute(m: int): int { m * 60 }

  ghost predicate IsMinute(ts: int) { exists m :: ts == AtMinute(m) }

  /** What the table can hold: rows of clients, which are numbered from 1, at minutes. */
  ghost predicate Stored(rows: seq<Metrics.Sample>) {
    forall s :: s in rows ==> 1 <= s.client && IsMinute(s.ts)
  }

  lemma SamplesAreStored(rows: seq<Metrics.Sample>, client: int, at: int, report: Metrics.Report)
    requires Stored(rows) && 1 <= client
    ensures Stored(Metrics.AddSample(rows, client, at, report))
  {
    var q := D.GridStart(at, 60);
    var s := Metrics.Sample(client, Metrics.Minute(at), report.delta, report.conns);
    assert s.ts == AtMinute(q);
    Metrics.UpsertKeys(rows, s);
  }

  /** Some full minute lies in the window, before the sweep's cutoff. */
  ghost predicate MinuteInGap(since: int, cut: int, until: int) {
    exists m :: since <= AtMinute(m) < cut && AtMinute(m) < until
  }

  /** A sweep can take a row from the dashboard exactly if a full minute of its
      window has passed the sweep's cutoff. */
  lemma DashboardNoticesIff(key: string, readAt: int, sweptAt: int, now: int)
    ensures var a, b := PurgeSamples(sweptAt), DashboardOp(key, readAt, now);
            (exists db: Db :: Stored(db.metrics) && Notices(db, a, b))
            <==> MinuteInGap(Unix(readAt - D.PeriodOf(key).duration), Unix(sweptAt - RETENTION), Unix(now))
  {
    hide D.PeriodOf, Unix, Keep, Metrics.Query;
    var a, b := PurgeSamples(sweptAt), DashboardOp(key, readAt, now);
    var since, cut := Unix(readAt - D.PeriodOf(key).duration), Unix(sweptAt - RETENTION);
    if MinuteInGap(since, cut, Unix(now)) {
      var m :| since <= AtMinute(m) < cut && AtMinute(m) < Unix(now);
      DashboardNotices(a, b, AtMinute(m));
      assert Stored([RowAt(b, AtMinute(m))]);
      assert EMPTY.(metrics := [RowAt(b, AtMinute(m))]).metrics == [RowAt(b, AtMinute(m))];
    } else {
      forall db: Db | Stored(db.metrics) ensures !Notices(db, a, b) {
        NothingMissing(db.metrics, DashboardFilter(b), cut, now);
      }
    }
  }

  lemma NothingMissing(rows: seq<Metrics.Sample>, f: Metrics.Filter, cut: int, now: int)
    requires Stored(rows) && !MinuteInGap(Unix(f.since), cut, Metrics.Until(f, now))
    ensures Metrics.Query(NewerSamples(rows, cut), f, now) == Metrics.Query(rows, f, now)
  {
    var matches := (s: Metrics.Sample) => Metrics.Matches(s, f, now);
    forall s | s in rows && matches(s) ensures cut <= s.ts {
      var m :| s.ts == AtMinute(m);
      assert !(Unix(f.since) <= AtMinute(m) < cut && AtMinute(m) < Metrics.Until(f, now));
    }
    KeepTwice(rows, (s: Metrics.Sample) => cut <= s.ts, matches);
  }

  lemma MinuteWithin(lo: int) returns (m: int)
    ensures lo <= AtMinute(m) < lo + 60
  {
    m := (lo + 59) / 60;
  }

  /** A sweep whose clock reading is a minute or more after that of a 30-day
      chart, and that runs before the chart's query, can take a row from it;
      one that reads the clock no later than the chart cannot. */
  lemma SweepBetweenReadingAndQuery(readAt: int, sweptAt: int, now: int)
    requires sweptAt <= now
    ensures DashboardFilter(DashboardOp("30d", readAt, now)) == D.QueryFor(D.PeriodOf("30d"), readAt)
    ensures readAt + MINUTE <= sweptAt ==>
              exists db: Db :: Stored(db.metrics) && Notices(db, PurgeSamples(sweptAt), DashboardOp("30d", readAt, now))
    ensures sweptAt <= readAt ==> forall db: Db :: !Notices(db, PurgeSamples(sweptAt), DashboardOp("30d", readAt, now))
  {
    var since, cut := Unix(readAt - RETENTION), Unix(sweptAt - RETENTION);
    DashboardOpQueries("30d", readAt, now);
    if readAt + MINUTE <= sweptAt {
      var m := MinuteWithin(since);
      assert since + 60 <= cut <= Unix(now);
      assert MinuteInGap(since, cut, Unix(now));
      DashboardNoticesIff("30d", readAt, sweptAt, now);
    } else if sweptAt <= readAt {
      DivisionMonotone(sweptAt - RETENTION, readAt - RETENTION, NANO);
      NobodyNoticesIff(PurgeSamples(sweptAt), DashboardOp("30d", readAt, now));
    }
  }

  // What the operations mean, in the columns of the tables.

  /** Each DELETE keeps exactly the rows of the last 30 days, the events of the
      last 24 hours, or the sessions that have not expired. */
  lemma SweepMeaning(db: Db, sweep: Op)
    requires IsSweep(sweep)
    ensures var d := Apply(db, sweep).0;
            && (sweep.PurgeSamples? ==>
                  d == db.(metrics := Keep(db.metrics, (s: Metrics.Sample) =>
                             sweep.readAt / 1_000_000_000 - 2_592_000 <= s.ts)))
            && (sweep.PurgeFailures? ==>
                  d == db.(failures := Keep(db.failures, (t: int) => sweep.readAt / 1_000_000_000 - 2_592_000 <= t)))
            && (sweep.PurgeEvents? ==>
                  d == db.(events := Keep(db.events, (e: RequestLog.Event) =>
                             sweep.readAt / 1_000_000_000 - 86_400 <= e.ts)))
            && (sweep.PurgeSessions? ==>
                  d == db.(sessions := map k | k in db.sessions
                             && (k.AdminSession? != sweep.admin || sweep.now / 1_000_000_000 <= db.sessions[k].expires)
                             :: db.sessions[k]))
  {
    if sweep.PurgeSamples? {
      KeepSame(db.metrics, (s: Metrics.Sample) => Unix(sweep.readAt - RETENTION) <= s.ts,
               (s: Metrics.Sample) => sweep.readAt / 1_000_000_000 - 2_592_000 <= s.ts);
    } else if sweep.PurgeFailures? {
      KeepSame(db.failures, (t: int) => Unix(sweep.readAt - RETENTION) <= t,
               (t: int) => sweep.readAt / 1_000_000_000 - 2_592_000 <= t);
    } else if sweep.PurgeEvents? {
      KeepSame(db.events, (e: RequestLog.Event) => Unix(sweep.readAt - LOG_RETENTION) <= e.ts,
               (e: RequestLog.Event) => sweep.readAt / 1_000_000_000 - 86_400 <= e.ts);
    }
  }

  /** The operation takes away a session with this key and time of expiry. */
  predicate EndsSession(op: Op, key: SessionKey, expires: int) {
    || op == DeleteSession(key)
    || (op.PurgeSessions? && op.admin == key.AdminSession? && expires < op.now / 1_000_000_000)
  }

  predicate Touched(ops: seq<Op>, key: SessionKey, expires: int) {
    exists i :: 0 <= i < |ops| && EndsSession(ops[i], key, expires)
  }

  predicate NotCreated(ops: seq<Op>, key: SessionKey) {
    forall i :: 0 <= i < |ops| && ops[i].CreateSession? ==> ops[i].key != key
  }

  lemma SessionAfterStep(db: Db, op: Op, key: SessionKey, s: Session)
    requires !op.CreateSession? || op.key != key
    requires key in db.sessions ==> db.sessions[key] == s
    ensures var d := Apply(db, op).0;
            && (key in d.sessions <==> key in db.sessions && !EndsSession(op, key, s.expires))
            && (key in d.sessions ==> d.sessions[key] == s)
  {
    hide Keep, HasOwner, Referred, RequestLog.Count, RequestLog.List, Metrics.Query, Metrics.AddSample;
  }

  lemma {:induction false} SessionAfterRun(db: Db, ops: seq<Op>, key: SessionKey, s: Session)
    requires NotCreated(ops, key) && key in db.sessions && db.sessions[key] == s
    ensures var d := Run(db, ops);
            && (key in d.sessions <==> !Touched(ops, key, s.expires))
            && (key in d.sessions ==> d.sessions[key] == s)
  {
    if ops != [] {
      hide Apply, EndsSession;
      var front, last := ops[..|ops| - 1], ops[|ops| - 1];
      SessionAfterRun(db, front, key, s);
      SessionAfterStep(Run(db, front), last, key, s);
      assert Touched(ops, key, s.expires) <==> Touched(front, key, s.expires) || EndsSession(last, key, s.expires) by {
        if i :| 0 <= i < |ops| && EndsSession(ops[i], key, s.expires) {
          assert i == |ops| - 1 || EndsSession(front[i], key, s.expires);
        }
        if i :| 0 <= i < |front| && EndsSession(front[i], key, s.expires) {
          assert EndsSession(ops[i], key, s.expires);
        }
      }
    }
  }

  /** A session is created for an owner in the table, under an id that is not
      taken; whatever happens then, it is found with its owner exactly until it has
      expired, is deleted, or is swept, which only happens to it once it has
      expired. */
  lemma SessionIsFoundIff(db: Db, key: SessionKey, owner: int, expires: int, ops: seq<Op>, now: int)
    requires key !in db.sessions && (if key.AdminSession? then owner in db.admins else owner in db.clients)
    requires NotCreated(ops, key)
    ensures var (created, answer) := Apply(db, CreateSession(key, owner, expires));
            && answer == Done
            && Apply(Run(created, ops), LookupSession(key, now)).1
                 == Owner(if now / 1_000_000_000 <= expires && !Touched(ops, key, expires) then Some(owner) else None)
  {
    var created := Apply(db, CreateSession(key, owner, expires)).0;
    SessionAfterRun(created, ops, key, created.sessions[key]);
    hide Run, Touched;
  }

  /** It is refused if the id is taken or the owner unknown, and says nothing about
      other ids. */
  lemma OtherSessionsAreFound(db: Db, key: SessionKey, owner: int, expires: int, other: SessionKey, now: int)
    ensures var (created, answer) := Apply(db, CreateSession(key, owner, expires));
            && (answer == Refused <==>
                  key in db.sessions || !(if key.AdminSession? then owner in db.admins else owner in db.clients))
            && (answer == Refused ==> created == db)
            && created.(sessions := db.sessions) == db
            && (other != key ==>
                  Apply(created, LookupSession(other, now)).1 == Apply(db, LookupSession(other, now)).1)
  {
    hide Keep, RequestLog.Count, RequestLog.List, Metrics.Query, Metrics.AddSample;
  }

  lemma OwnerAfterStep(db: Db, op: Op, id: int)
    ensures op != DeleteClient(id) ==>
              (id in Apply(db, op).0.clients <==> id in db.clients || op == AddClient(id))
    ensures id in Apply(db, op).0.admins <==> id in db.admins || op == AddAdmin(id)
  {
    hide Keep, HasOwner, Referred, RequestLog.Count, RequestLog.List, Metrics.Query, Metrics.AddSample;
  }

  /** Admins and clients can own sessions from when they are added; clients as long
      as nobody asks to delete them. */
  lemma {:induction false} OwnersAfterRun(db: Db, ops: seq<Op>, id: int)
    ensures id in Run(db, ops).admins <==> id in db.admins || AddAdmin(id) in ops
    ensures DeleteClient(id) !in ops ==> (id in Run(db, ops).clients <==> id in db.clients || AddClient(id) in ops)
  {
    if ops != [] {
      hide Apply;
      var front, last := ops[..|ops| - 1], ops[|ops| - 1];
      OwnersAfterRun(db, front, id);
      OwnerAfterStep(Run(db, front), last, id);
      assert ops == front + [last];
    }
  }

  /** A deletion takes exactly the client, unless a token session refers to it. */
  lemma DeletionMeaning(db: Db, id: int)
    ensures var referred := exists k :: k in db.sessions && k.TokenSession? && db.sessions[k].owner == id;
            Apply(db, DeleteClient(id)) == if referred then (db, Refused) else (db.(clients := db.clients - {id}), Done)
  {
    hide Keep, RequestLog.Count, RequestLog.List, Metrics.Query, Metrics.AddSample;
  }

  /** The filter of a page of the log, and of its count. */
  lemma LogFilterMeaning(op: Op)
    requires ReadsLog(op)
    ensures LogFilter(op) == RequestLog.Filter(op.readAt / 1_000_000_000 - 86_400, op.userId, op.clientId, op.search)
  {
  }

  /** What the log's count answers: how many events of the last 24 hours are of the
      user and of the client asked for, if any, and to targets that contain the
      search text. */
  lemma CountMeaning(db: Db, op: Op)
    requires op.CountLogs? && RequestLog.DistinctIds(db.events) && RequestLog.Plain(op.search)
    ensures Apply(db, op) == (db, Count(|set e | e in db.events
              && op.readAt / 1_000_000_000 - 86_400 <= e.ts
              && (op.userId <= 0 || op.userId == e.userId) && (op.clientId <= 0 || op.clientId == e.clientId)
              && (op.search == "" || exists i: nat :: RequestLog.OccursAt(e.target, op.search, i))|))
  {
    LogFilterMeaning(op);
    RequestLog.CountIsWanted(db.events, LogFilter(op));
    assert (set e | e in db.events && RequestLog.Wanted(e, LogFilter(op)))
        == set e | e in db.events
             && op.readAt / 1_000_000_000 - 86_400 <= e.ts
             && (op.userId <= 0 || op.userId == e.userId) && (op.clientId <= 0 || op.clientId == e.clientId)
             && (op.search == "" || exists i: nat :: RequestLog.OccursAt(e.target, op.search, i));
  }

  /** What a chart's query answers: under each bucket the traffic of the period, of
      the client or clients asked for. */
  lemma ChartMeaning(db: Db, op: Op, b: int)
    requires op.Dashboard? && 0 < op.bucketSeconds
    ensures Apply(db, op).0 == db && Apply(db, op).1.Points?
    ensures Metrics.VolumeAt(Apply(db, op).1.points, b)
         == Metrics.SumWhere(db.metrics, (s: Metrics.Sample) =>
              && (op.readAt - op.duration) / 1_000_000_000 <= s.ts
              && s.ts < op.now / 1_000_000_000
              && (op.client <= 0 || s.client == op.client)
              && (0 < op.client || op.clients == [] || s.client in op.clients)
              && Metrics.Bucket(s.ts, op.bucketSeconds) == b)
  {
    hide Keep, HasOwner, Referred, RequestLog.Count, RequestLog.List, Metrics.Query, Metrics.AddSample;
    hide Metrics.VolumeAt, Metrics.Bucket;
    var f := DashboardFilter(op);
    Metrics.AnswerMeaning(db.metrics, f, op.now, b);
    Metrics.SumSame(db.metrics, (s: Metrics.Sample) =>
        && f.since / 1_000_000_000 <= s.ts
        && s.ts < (if f.until.Some? then f.until.value else op.now) / 1_000_000_000
        && (f.client <= 0 || s.client == f.client)
        && (0 < f.client || f.clients == [] || s.client in f.clients)
        && Metrics.Bucket(s.ts, if f.bucketSeconds <= 0 then 60 else f.bucketSeconds) == b,
      (s: Metrics.Sample) =>
        && (op.readAt - op.duration) / 1_000_000_000 <= s.ts
        && s.ts < op.now / 1_000_000_000
        && (op.client <= 0 || s.client == op.client)
        && (0 < op.client || op.clients == [] || s.client in op.clients)
        && Metrics.Bucket(s.ts, op.bucketSeconds) == b);
  }
}
