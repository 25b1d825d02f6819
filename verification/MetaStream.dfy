/** The metadata stream of a control session: the server reads the agent's
    messages, stores the traffic reports and announces them on the hub. */
module MetaStream {
  import opened EventHub
  import opened Metrics
  import opened Storage

  /** Agents send a heartbeat first and then a report per tick. */
  datatype Message = Other | Traffic(report: Report)

  datatype Announcement = Announcement(client: int, delta: Volume)

  /** A message, when it arrives, and whether storing it succeeds. */
  datatype Arrival = Arrival(message: Message, at: int, stored: bool)

  function StoredReport(a: Arrival): seq<Report> {
    if a.message.Traffic? && a.stored then [a.message.report] else []
  }

  function StoredReports(arrivals: seq<Arrival>): seq<Report> {
    if arrivals == [] then [] else StoredReport(arrivals[0]) + StoredReports(arrivals[1..])
  }

  /** The table after the reports have been stored one after the other. */
  function StoreOne(rows: seq<Sample>, client: int, a: Arrival): seq<Sample> {
    if a.message.Traffic? && a.stored then AddSample(rows, client, a.at, a.message.report) else rows
  }

  function StoreAll(rows: seq<Sample>, client: int, arrivals: seq<Arrival>): seq<Sample>
    decreases |arrivals|
  {
    if arrivals == [] then rows else StoreAll(StoreOne(rows, client, arrivals[0]), client, arrivals[1..])
  }

  /** What is announced: every report, stored or not. */
  function Announced(client: int, a: Arrival): seq<Announcement> {
    if a.message.Traffic? then [Announcement(client, a.message.report.delta)] else []
  }

  function Announcements(client: int, arrivals: seq<Arrival>): seq<Announcement> {
    if arrivals == [] then [] else Announced(client, arrivals[0]) + Announcements(client, arrivals[1..])
  }

  /** A buffer after several offers: the first ones, as many as fit. */
  function OfferAll<E>(buffer: seq<E>, es: seq<E>): seq<E>
    requires |buffer| <= CAPACITY
  {
    buffer + if |es| <= CAPACITY - |buffer| then es else es[..CAPACITY - |buffer|]
  }

  lemma OfferMore<E>(buffer: seq<E>, es: seq<E>, more: seq<E>)
    requires |buffer| <= CAPACITY
    ensures |OfferAll(buffer, es)| <= CAPACITY
    ensures OfferAll(OfferAll(buffer, es), more) == OfferAll(buffer, es + more)
  {
  }

  /** One message: the hook stores a report, and it is announced in any case. */
  method Handle(store: Store, hub: Hub<Announcement>, client: int, a: Arrival)
    requires hub.Valid()
    modifies store, hub.subs
    ensures store.View() == old(store.View()).(metrics := StoreOne(old(store.metrics), client, a))
    ensures hub.Valid() && hub.subs == old(hub.subs)
    ensures forall ch :: ch in hub.subs ==>
              |old(ch.buffer)| <= CAPACITY && ch.buffer == OfferAll(old(ch.buffer), Announced(client, a))
    ensures store.metrics == if a.message.Traffic? && a.stored then
                               AddSample(old(store.metrics), client, a.at, a.message.report)
                             else old(store.metrics)
    ensures forall ch :: ch in hub.subs ==>
              ch.buffer == if a.message.Traffic? && |old(ch.buffer)| < 64 then
                             old(ch.buffer) + [Announcement(client, a.message.report.delta)]
                           else old(ch.buffer)
  {
    if a.message.Traffic? {
      if a.stored {
        store.AddMetricSample(client, a.at, a.message.report);
      }
      hub.Publish(Announcement(client, a.message.report.delta));
    }
  }

  /** The reading loop, up to the end of the stream.  Subscribers that read
      nothing meanwhile find the first announcements that fitted. */
  method ReadMetaStream(store: Store, hub: Hub<Announcement>, client: int, arrivals: seq<Arrival>)
    requires hub.Valid()
    modifies store, hub.subs
    ensures store.View() == old(store.View()).(metrics := StoreAll(old(store.metrics), client, arrivals))
    ensures hub.Valid() && hub.subs == old(hub.subs)
    ensures forall ch :: ch in hub.subs ==>
              |old(ch.buffer)| <= CAPACITY && ch.buffer == OfferAll(old(ch.buffer), Announcements(client, arrivals))
  {
    var i := 0;
    while i < |arrivals|
      invariant 0 <= i <= |arrivals|
      invariant store.View() == old(store.View()).(metrics := store.metrics)
      invariant StoreAll(store.metrics, client, arrivals[i..]) == StoreAll(old(store.metrics), client, arrivals)
      invariant hub.Valid() && hub.subs == old(hub.subs)
      invariant forall ch :: ch in hub.subs ==>
                  OfferAll(ch.buffer, Announcements(client, arrivals[i..]))
                    == OfferAll(old(ch.buffer), Announcements(client, arrivals))
    {
      AnnouncementsFrom(client, arrivals, i);
      label Before:
      Handle(store, hub, client, arrivals[i]);
      forall ch | ch in hub.subs
        ensures OfferAll(ch.buffer, Announcements(client, arrivals[i + 1..]))
             == OfferAll(old(ch.buffer), Announcements(client, arrivals))
      {
        OfferMore(old@Before(ch.buffer), Announced(client, arrivals[i]), Announcements(client, arrivals[i + 1..]));
      }
      i := i + 1;
    }
  }

  lemma AnnouncementsFrom(client: int, arrivals: seq<Arrival>, i: nat)
    requires i < |arrivals|
    ensures Announcements(client, arrivals[i..])
         == Announced(client, arrivals[i]) + Announcements(client, arrivals[i + 1..])
  {
    assert arrivals[i..][1..] == arrivals[i + 1..];
  }

  lemma OneMessageGains(rows: seq<Sample>, client: int, a: Arrival, c: int)
    ensures IsSum(ClientTotal(StoreOne(rows, client, a), c), ClientTotal(rows, c),
                  if c == client then Reported(StoredReport(a)) else NOTHING)
  {
    hide Minute, ClientTotal, Upsert;
    if a.message.Traffic? && a.stored {
      UpsertConserves(rows, Sample(client, Minute(a.at), a.message.report.delta, a.message.report.conns), c);
      assert [a.message.report][1..] == [];
    }
  }

  lemma ReportedFirst(a: Arrival, rest: seq<Report>)
    ensures IsSum(Reported(StoredReport(a) + rest), Reported(StoredReport(a)), Reported(rest))
  {
    if a.message.Traffic? && a.stored {
      assert ([a.message.report] + rest)[1..] == rest && [a.message.report][1..] == [];
    } else {
      assert [] + rest == rest;
    }
  }

  /** The table gains for the client what was stored, and nothing for others. */
  lemma {:induction false} TableGainsWhatIsStored(rows: seq<Sample>, client: int, arrivals: seq<Arrival>, c: int)
    ensures IsSum(ClientTotal(StoreAll(rows, client, arrivals), c), ClientTotal(rows, c),
                  if c == client then Reported(StoredReports(arrivals)) else NOTHING)
    decreases |arrivals|
  {
    hide StoreOne, ClientTotal, Reported, StoredReport;
    if arrivals == [] {
      NothingReported();
    } else {
      OneMessageGains(rows, client, arrivals[0], c);
      ReportedFirst(arrivals[0], StoredReports(arrivals[1..]));
      TableGainsWhatIsStored(StoreOne(rows, client, arrivals[0]), client, arrivals[1..], c);
    }
  }

  lemma NothingReported()
    ensures Reported([]) == NOTHING
  {
  }

  /** From the agent's counters to the server's table: if the reports of a
      session are all stored, its client's rows gain exactly the counters at the
      last tick, at whatever moments the reports arrive and whatever other
      messages come in between, and no other client's rows gain anything. */
  lemma CountersReachTheTable(rows: seq<Sample>, client: int, ticks: seq<Reading>, arrivals: seq<Arrival>, c: int)
    requires StoredReports(arrivals) == Reports(NOTHING, ticks)
    ensures IsSum(ClientTotal(StoreAll(rows, client, arrivals), c), ClientTotal(rows, c),
                  if c == client && ticks != [] then ticks[|ticks| - 1].volume else NOTHING)
  {
    TableGainsWhatIsStored(rows, client, arrivals, c);
    ReportsTelescope(NOTHING, ticks);
  }

  // Several agents at once, and several sessions of one agent: their messages
  // arrive in any interleaving.

  datatype AgentSession = AgentSession(client: int, ticks: seq<Reading>)

  datatype Tagged = Tagged(session: nat, arrival: Arrival)

  predicate Tags(all: seq<Tagged>, n: nat) {
    forall i :: 0 <= i < |all| ==> all[i].session < n
  }

  function StoreMixed(rows: seq<Sample>, sessions: seq<AgentSession>, all: seq<Tagged>): seq<Sample>
    requires Tags(all, |sessions|)
    decreases |all|
  {
    if all == [] then rows
    else StoreMixed(StoreOne(rows, sessions[all[0].session].client, all[0].arrival), sessions, all[1..])
  }

  /** What arrives from one session. */
  function Of(all: seq<Tagged>, k: nat): seq<Arrival> {
    if all == [] then [] else (if all[0].session == k then [all[0].arrival] else []) + Of(all[1..], k)
  }

  /** What is stored for client c from session k. */
  function Part(sessions: seq<AgentSession>, all: seq<Tagged>, c: int, k: nat): Volume
    requires k < |sessions|
  {
    if sessions[k].client == c then Reported(StoredReports(Of(all, k))) else NOTHING
  }

  /** What is stored for a client from the first n sessions. */
  function Gains(sessions: seq<AgentSession>, all: seq<Tagged>, c: int, n: nat): Volume
    requires n <= |sessions|
  {
    if n == 0 then NOTHING
    else Gains(sessions, all, c, n - 1).Plus(Part(sessions, all, c, n - 1))
  }

  lemma GainsUpTo(sessions: seq<AgentSession>, all: seq<Tagged>, c: int, n: nat)
    requires 0 < n <= |sessions|
    ensures IsSum(Gains(sessions, all, c, n), Gains(sessions, all, c, n - 1), Part(sessions, all, c, n - 1))
  {
    hide Part;
  }

  lemma OneMoreOf(all: seq<Tagged>, k: nat)
    requires all != []
    ensures IsSum(Reported(StoredReports(Of(all, k))), Reported(StoredReports(Of(all[1..], k))),
                  if all[0].session == k then Reported(StoredReport(all[0].arrival)) else NOTHING)
  {
    var rest := Of(all[1..], k);
    hide Reported, StoredReport;
    if all[0].session == k {
      assert ([all[0].arrival] + rest)[1..] == rest;
      ReportedFirst(all[0].arrival, StoredReports(rest));
    } else {
      assert [] + rest == rest;
    }
  }

  lemma PartOfFirst(sessions: seq<AgentSession>, all: seq<Tagged>, c: int, k: nat)
    requires k < |sessions| && all != []
    ensures IsSum(Part(sessions, all, c, k), Part(sessions, all[1..], c, k),
                  if all[0].session == k && sessions[k].client == c then Reported(StoredReport(all[0].arrival))
                  else NOTHING)
  {
    hide Reported, StoredReport, StoredReports, Of;
    OneMoreOf(all, k);
  }

  lemma {:induction false} GainsOfFirst(sessions: seq<AgentSession>, all: seq<Tagged>, c: int, n: nat)
    requires n <= |sessions| && Tags(all, |sessions|) && all != []
    ensures var k := all[0].session;
            IsSum(Gains(sessions, all, c, n), Gains(sessions, all[1..], c, n),
                  if k < n && sessions[k].client == c then Reported(StoredReport(all[0].arrival)) else NOTHING)
  {
    hide Reported, StoredReport, Part;
    if n > 0 {
      hide Gains;
      GainsUpTo(sessions, all, c, n);
      GainsUpTo(sessions, all[1..], c, n);
      GainsOfFirst(sessions, all, c, n - 1);
      PartOfFirst(sessions, all, c, n - 1);
    }
  }

  lemma NothingFrom(sessions: seq<AgentSession>, c: int, k: nat)
    requires k < |sessions|
    ensures Part(sessions, [], c, k) == NOTHING
  {
  }

  lemma {:induction false} NothingGained(sessions: seq<AgentSession>, none: seq<Tagged>, c: int, n: nat)
    requires n <= |sessions| && none == []
    ensures Gains(sessions, none, c, n) == NOTHING
  {
    hide Part;
    if n > 0 {
      GainsUpTo(sessions, none, c, n);
      NothingFrom(sessions, c, n - 1);
      NothingGained(sessions, none, c, n - 1);
    }
  }

  /** Whatever the interleaving, each client's rows gain exactly what was stored
      from its own sessions. */
  lemma {:induction false} MixedGains(rows: seq<Sample>, sessions: seq<AgentSession>, all: seq<Tagged>, c: int)
    requires Tags(all, |sessions|)
    ensures IsSum(ClientTotal(StoreMixed(rows, sessions, all), c), ClientTotal(rows, c),
                  Gains(sessions, all, c, |sessions|))
    decreases |all|
  {
    hide StoreOne, ClientTotal, Reported, StoredReport, Gains;
    if all == [] {
      NothingGained(sessions, all, c, |sessions|);
    } else {
      var client := sessions[all[0].session].client;
      OneMessageGains(rows, client, all[0].arrival, c);
      GainsOfFirst(sessions, all, c, |sessions|);
      MixedGains(StoreOne(rows, client, all[0].arrival), sessions, all[1..], c);
    }
  }

  /** The counters of a client's first n sessions at their last ticks, summed up. */
  function LastCounters(sessions: seq<AgentSession>, c: int, n: nat): Volume
    requires n <= |sessions|
  {
    if n == 0 then NOTHING
    else LastCounters(sessions, c, n - 1).Plus(LastPart(sessions, c, n - 1))
  }

  function LastPart(sessions: seq<AgentSession>, c: int, k: nat): Volume
    requires k < |sessions|
  {
    if sessions[k].client == c then LastTick(sessions[k].ticks) else NOTHING
  }

  lemma LastCountersUpTo(sessions: seq<AgentSession>, c: int, n: nat)
    requires 0 < n <= |sessions|
    ensures IsSum(LastCounters(sessions, c, n), LastCounters(sessions, c, n - 1), LastPart(sessions, c, n - 1))
  {
    hide LastPart;
  }

  function LastTick(ticks: seq<Reading>): Volume {
    if ticks == [] then NOTHING else ticks[|ticks| - 1].volume
  }

  lemma PartIsLastPart(sessions: seq<AgentSession>, all: seq<Tagged>, c: int, k: nat)
    requires k < |sessions| && StoredReports(Of(all, k)) == Reports(NOTHING, sessions[k].ticks)
    ensures IsSum(Part(sessions, all, c, k), LastPart(sessions, c, k), NOTHING)
  {
    hide Reported, StoredReports, Of, Reports;
    ReportsTelescope(NOTHING, sessions[k].ticks);
  }

  lemma {:induction false} GainsAreCounters(sessions: seq<AgentSession>, all: seq<Tagged>, c: int, n: nat)
    requires n <= |sessions|
    requires forall k :: 0 <= k < |sessions| ==> StoredReports(Of(all, k)) == Reports(NOTHING, sessions[k].ticks)
    ensures IsSum(Gains(sessions, all, c, n), LastCounters(sessions, c, n), NOTHING)
  {
    hide StoredReports, Of, Reports, Part, LastPart;
    if n > 0 {
      hide Gains, LastCounters;
      GainsUpTo(sessions, all, c, n);
      LastCountersUpTo(sessions, c, n);
      GainsAreCounters(sessions, all, c, n - 1);
      PartIsLastPart(sessions, all, c, n - 1);
    }
  }

  /** From many agents' counters to one table: if every session's reports are all
      stored, in whatever interleaving, each client's rows gain exactly the sum of
      its sessions' counters at their last ticks. */
  lemma AllCountersReachTheTable(rows: seq<Sample>, sessions: seq<AgentSession>, all: seq<Tagged>, c: int)
    requires Tags(all, |sessions|)
    requires forall k :: 0 <= k < |sessions| ==> StoredReports(Of(all, k)) == Reports(NOTHING, sessions[k].ticks)
    ensures IsSum(ClientTotal(StoreMixed(rows, sessions, all), c), ClientTotal(rows, c),
                  LastCounters(sessions, c, |sessions|))
  {
    hide StoreMixed, ClientTotal, Gains, LastCounters, Of, StoredReports, Reports;
    MixedGains(rows, sessions, all, c);
    GainsAreCounters(sessions, all, c, |sessions|);
  }
}
