/** Every interleaving of the control connections (one serve call each), of
    sessions dying, of tokens being replaced, of clients being deleted, of
    Disconnect calls and of picks.  The registry's critical sections are single
    steps; Disconnect takes two, because it closes the session after it has let
    go of the lock. */
module ControlSessions {
  import opened Basics
  import opened AgentRegistry
  import opened RoundRobin

  /** How far a serve call has come: Connected before Add, Serving while it waits
      for its session to close, Ending after that, Returned after Remove. */
  datatype Phase = Connected | Serving | Ending | Returned

  /** A serve call whose agent has authenticated, with the token of its client
      that was in force then: tokens are counted. */
  datatype Serve = Serve(client: int, phase: Phase, token: nat)

  /** A Disconnect call: the session it found, and how many sessions had been
      added when it looked. */
  datatype Lookup = Lookup(id: int, found: Option<nat>, position: nat, finished: bool)

  /** Sessions are numbered; added lists them in the order of their Add.  The
      rows of the deleted clients are gone, and their ids are not used again. */
  datatype State = State(
    agents: map<int, nat>,
    last: int,
    open: set<nat>,
    serves: map<nat, Serve>,
    added: seq<nat>,
    lookups: map<nat, Lookup>,
    tokens: map<int, nat>,
    deleted: set<int>)

  const INITIAL := State(map[], 0, {}, map[], [], map[], map[], {})

  datatype Step =
    | Connect(s: nat, client: int)
    | Add(s: nat)
    | Die(s: nat)
    | NoticeClose(s: nat)
    | Remove(s: nat)
    | LookUp(d: nat, id: int)
    | CloseFound(d: nat)
    | Replace(id: int)
    | Delete(id: int)
    | Pick

  function Token(st: State, id: int): nat {
    if id in st.tokens then st.tokens[id] else 0
  }

  predicate InPhase(st: State, s: nat, p: Phase) {
    s in st.serves && st.serves[s].phase == p
  }

  predicate Enabled(st: State, step: Step) {
    match step
    case Connect(s, client) => s !in st.serves && client !in st.deleted
    case Add(s) => InPhase(st, s, Connected)
    case Die(_) => true
    case NoticeClose(s) => InPhase(st, s, Serving) && s !in st.open
    case Remove(s) => InPhase(st, s, Ending)
    case LookUp(d, _) => d !in st.lookups
    case CloseFound(d) => d in st.lookups && !st.lookups[d].finished
    case Replace(id) => id !in st.deleted
    case Delete(id) => id !in st.deleted
    case Pick => st.agents.Keys != {}
  }

  ghost function Apply(st: State, step: Step): State
    requires Enabled(st, step)
  {
    match step
    case Connect(s, client) =>
      st.(open := st.open + {s}, serves := st.serves[s := Serve(client, Connected, Token(st, client))])
    case Add(s) =>
      var client := st.serves[s].client;
      st.(agents := st.agents[client := s],
          open := if client in st.agents then st.open - {st.agents[client]} else st.open,
          serves := st.serves[s := st.serves[s].(phase := Serving)],
          added := st.added + [s])
    case Die(s) => st.(open := st.open - {s})
    case NoticeClose(s) => st.(serves := st.serves[s := st.serves[s].(phase := Ending)])
    case Remove(s) =>
      st.(agents := Without(st.agents, st.serves[s].client, s),
          serves := st.serves[s := st.serves[s].(phase := Returned)])
    case LookUp(d, id) =>
      var found := if id in st.agents then Some(st.agents[id]) else None;
      st.(lookups := st.lookups[d := Lookup(id, found, |st.added|, false)])
    case CloseFound(d) =>
      var l := st.lookups[d];
      st.(open := if l.found.Some? then st.open - {l.found.value} else st.open,
          lookups := st.lookups[d := l.(finished := true)])
    case Replace(id) => st.(tokens := st.tokens[id := Token(st, id) + 1])
    case Delete(id) => st.(deleted := st.deleted + {id})
    case Pick => st.(last := Successor(st.agents.Keys, st.last))
  }

  ghost predicate IsRun(st: State, steps: seq<Step>)
    decreases |steps|
  {
    steps == [] || (Enabled(st, steps[0]) && IsRun(Apply(st, steps[0]), steps[1..]))
  }

  ghost function Final(st: State, steps: seq<Step>): State
    requires IsRun(st, steps)
    decreases |steps|
  {
    if steps == [] then st else Final(Apply(st, steps[0]), steps[1..])
  }

  // What every step keeps.

  ghost predicate Bookkeeping(st: State) {
    && (forall s :: s in st.open ==> s in st.serves)
    && (forall i :: 0 <= i < |st.added| ==> st.added[i] in st.serves)
    && (forall i, j :: 0 <= i < j < |st.added| ==> st.added[i] != st.added[j])
    && (forall s :: s in st.serves ==> (s in st.added <==> st.serves[s].phase != Connected))
    && (forall s :: s in st.serves && st.serves[s].phase in {Ending, Returned} ==> s !in st.open)
  }

  predicate Registered(st: State, s: nat)
    requires s in st.serves
  {
    st.serves[s].client in st.agents && st.agents[st.serves[s].client] == s
  }

  predicate SameClient(st: State, s: nat, t: nat)
    requires s in st.serves && t in st.serves
  {
    st.serves[s].client == st.serves[t].client
  }

  /** A session that has been added and is still open is the registered one. */
  ghost predicate OpenIsRegistered(st: State)
    requires Bookkeeping(st)
  {
    forall s :: s in st.added && s in st.open ==> Registered(st, s)
  }

  /** The registered session of a client is its own and is still being served. */
  ghost predicate RegisteredIsServed(st: State)
    requires Bookkeeping(st)
  {
    forall id :: id in st.agents ==>
      && st.agents[id] in st.added
      && st.serves[st.agents[id]].client == id
      && st.serves[st.agents[id]].phase in {Serving, Ending}
  }

  /** And no session of that client was added after it. */
  ghost predicate RegisteredIsLatest(st: State)
    requires Bookkeeping(st)
  {
    forall i, j :: 0 <= i < j < |st.added| && SameClient(st, st.added[i], st.added[j]) ==> !Registered(st, st.added[i])
  }

  /** Of the sessions a Disconnect call could have seen, only the one it found
      may still be open, and not even that one once the call has returned. */
  ghost predicate LookupsHold(st: State)
    requires Bookkeeping(st)
  {
    forall d :: d in st.lookups ==> LookupHolds(st, st.lookups[d])
  }

  ghost predicate LookupHolds(st: State, l: Lookup)
    requires Bookkeeping(st)
  {
    && l.position <= |st.added|
    && forall j :: 0 <= j < l.position && st.added[j] in st.open && st.serves[st.added[j]].client == l.id ==>
         l.found == Some(st.added[j]) && !l.finished
  }

  /** What a Disconnect call found had been added when it looked. */
  ghost predicate FoundWasAdded(st: State) {
    forall d :: d in st.lookups && st.lookups[d].found.Some? ==>
      st.lookups[d].position <= |st.added| && st.lookups[d].found.value in st.added[..st.lookups[d].position]
  }

  ghost predicate Inv(st: State) {
    && Bookkeeping(st) && OpenIsRegistered(st) && RegisteredIsServed(st) && RegisteredIsLatest(st)
    && LookupsHold(st) && FoundWasAdded(st)
  }

  lemma StepKeepsBookkeeping(st: State, step: Step)
    requires Inv(st) && Enabled(st, step)
    ensures Bookkeeping(Apply(st, step))
  {
    hide OpenIsRegistered, RegisteredIsLatest, LookupsHold, FoundWasAdded, Without, Token;
  }

  lemma StepKeepsOpenIsRegistered(st: State, step: Step)
    requires Inv(st) && Enabled(st, step)
    ensures Bookkeeping(Apply(st, step)) && OpenIsRegistered(Apply(st, step))
  {
    hide RegisteredIsLatest, LookupsHold, FoundWasAdded, Token;
    StepKeepsBookkeeping(st, step);
  }

  lemma StepKeepsRegisteredIsServed(st: State, step: Step)
    requires Inv(st) && Enabled(st, step)
    ensures Bookkeeping(Apply(st, step)) && RegisteredIsServed(Apply(st, step))
  {
    hide RegisteredIsLatest, LookupsHold, FoundWasAdded, Token;
    StepKeepsBookkeeping(st, step);
  }

  lemma OlderIsNotRegistered(st: State, step: Step, i: nat, j: nat)
    requires Inv(st) && Enabled(st, step) && Bookkeeping(Apply(st, step))
    requires i < j < |Apply(st, step).added|
               && SameClient(Apply(st, step), Apply(st, step).added[i], Apply(st, step).added[j])
    ensures !Registered(Apply(st, step), Apply(st, step).added[i])
  {
    hide LookupsHold, FoundWasAdded, Token;
    if j < |st.added| {
      assert SameClient(st, st.added[i], st.added[j]);
    }
  }

  lemma StepKeepsRegisteredIsLatest(st: State, step: Step)
    requires Inv(st) && Enabled(st, step)
    ensures Bookkeeping(Apply(st, step)) && RegisteredIsLatest(Apply(st, step))
  {
    StepKeepsBookkeeping(st, step);
    var st' := Apply(st, step);
    forall i, j | 0 <= i < j < |st'.added| && SameClient(st', st'.added[i], st'.added[j])
      ensures !Registered(st', st'.added[i])
    {
      OlderIsNotRegistered(st, step, i, j);
    }
  }

  lemma StepKeepsLookups(st: State, step: Step)
    requires Inv(st) && Enabled(st, step)
    ensures Bookkeeping(Apply(st, step)) && LookupsHold(Apply(st, step))
  {
    hide RegisteredIsServed, RegisteredIsLatest, FoundWasAdded, Without, Token;
    StepKeepsBookkeeping(st, step);
    var st' := Apply(st, step);
    forall d | d in st'.lookups ensures LookupHolds(st', st'.lookups[d]) {
      assert d in st.lookups ==> LookupHolds(st, st.lookups[d]);
    }
  }

  lemma StepKeepsFoundWasAdded(st: State, step: Step)
    requires Inv(st) && Enabled(st, step)
    ensures FoundWasAdded(Apply(st, step))
  {
    if step.Add? {
      forall d | d in st.lookups && st.lookups[d].found.Some?
        ensures (st.added + [step.s])[..st.lookups[d].position] == st.added[..st.lookups[d].position]
      {
      }
    } else if step.LookUp? {
      assert st.added[..|st.added|] == st.added;
    }
  }

  lemma StepKeepsInv(st: State, step: Step)
    requires Inv(st) && Enabled(st, step)
    ensures Inv(Apply(st, step))
  {
    hide Apply, Enabled, OpenIsRegistered, RegisteredIsServed, RegisteredIsLatest, LookupsHold, FoundWasAdded;
    StepKeepsOpenIsRegistered(st, step);
    StepKeepsRegisteredIsServed(st, step);
    StepKeepsRegisteredIsLatest(st, step);
    StepKeepsLookups(st, step);
    StepKeepsFoundWasAdded(st, step);
  }

  lemma {:induction false} RunKeepsInv(st: State, steps: seq<Step>)
    requires Inv(st) && IsRun(st, steps)
    ensures Inv(Final(st, steps))
    decreases |steps|
  {
    if steps != [] {
      StepKeepsInv(st, steps[0]);
      RunKeepsInv(Apply(st, steps[0]), steps[1..]);
    }
  }

  // What this means for every run of the server.

  /** At any moment a client has at most one open added session, and it is the
      registered one; the registered session is the latest added. */
  lemma SessionSafety(steps: seq<Step>)
    requires IsRun(INITIAL, steps)
    ensures var st := Final(INITIAL, steps);
            && Bookkeeping(st)
            && (forall s, t | s in st.added && t in st.added && SameClient(st, s, t) ::
                  s in st.open && t in st.open ==> s == t)
            && (forall s :: s in st.added && !Registered(st, s) ==> s !in st.open)
            && (forall i, j :: 0 <= i < j < |st.added| && SameClient(st, st.added[i], st.added[j]) ==>
                  !Registered(st, st.added[i]))
  {
    RunKeepsInv(INITIAL, steps);
  }

  /** The latest session of a client is still registered, unless it has returned. */
  ghost predicate LatestIsRegistered(st: State)
    requires Bookkeeping(st)
  {
    forall i :: 0 <= i < |st.added| && IsLatest(st, i) && st.serves[st.added[i]].phase != Returned ==>
      Registered(st, st.added[i])
  }

  /** No session of the same client was added after added[i]. */
  predicate IsLatest(st: State, i: nat)
    requires i < |st.added| && forall j :: 0 <= j < |st.added| ==> st.added[j] in st.serves
  {
    forall j :: i < j < |st.added| ==> !SameClient(st, st.added[i], st.added[j])
  }

  lemma StepKeepsLatest(st: State, step: Step)
    requires Inv(st) && Enabled(st, step) && LatestIsRegistered(st)
    ensures Bookkeeping(Apply(st, step)) && LatestIsRegistered(Apply(st, step))
  {
    hide LookupsHold, FoundWasAdded, Token, RegisteredIsLatest, OpenIsRegistered, IsLatest;
    StepKeepsBookkeeping(st, step);
    var st' := Apply(st, step);
    forall i | 0 <= i < |st'.added| && IsLatest(st', i) && st'.serves[st'.added[i]].phase != Returned
      ensures Registered(st', st'.added[i])
    {
      if i < |st.added| { WasLatest(st, step, i); }
    }
  }

  lemma WasLatest(st: State, step: Step, i: nat)
    requires Inv(st) && Enabled(st, step) && Bookkeeping(Apply(st, step)) && i < |st.added|
    requires IsLatest(Apply(st, step), i)
    ensures IsLatest(st, i) && (step.Add? ==> st.serves[step.s].client != st.serves[st.added[i]].client)
  {
    hide LookupsHold, FoundWasAdded, Token, RegisteredIsLatest, RegisteredIsServed, OpenIsRegistered, Without;
    var st' := Apply(st, step);
    assert st'.added[i] == st.added[i];
    forall j | i < j < |st.added| ensures !SameClient(st, st.added[i], st.added[j]) {
      assert !SameClient(st', st'.added[i], st'.added[j]);
    }
    if step.Add? { assert !SameClient(st', st'.added[i], st'.added[|st.added|]); }
  }

  lemma {:induction false} RunKeepsLatest(st: State, steps: seq<Step>)
    requires Inv(st) && LatestIsRegistered(st) && IsRun(st, steps)
    ensures Bookkeeping(Final(st, steps)) && LatestIsRegistered(Final(st, steps))
    decreases |steps|
  {
    if steps != [] {
      hide LatestIsRegistered, Apply, Enabled;
      StepKeepsLatest(st, steps[0]);
      StepKeepsInv(st, steps[0]);
      RunKeepsLatest(Apply(st, steps[0]), steps[1..]);
    }
  }

  /** Who is registered: exactly the sessions that are their client's latest and
      have not returned yet. */
  lemma RegisteredIff(steps: seq<Step>, i: nat)
    requires IsRun(INITIAL, steps) && i < |Final(INITIAL, steps).added|
    ensures var st := Final(INITIAL, steps);
            && (forall j :: 0 <= j < |st.added| ==> st.added[j] in st.serves)
            && (Registered(st, st.added[i]) <==>
                  st.serves[st.added[i]].phase != Returned && IsLatest(st, i))
  {
    RunKeepsInv(INITIAL, steps);
    RunKeepsLatest(INITIAL, steps);
  }

  /** A client that reconnects takes over at once, whatever is registered: its
      authenticated session can be added, and is then the one that is registered
      and, of all that were added before, the only one of its client still open;
      other clients' agents stay. */
  lemma ReconnectTakesOver(steps: seq<Step>, s: nat)
    requires IsRun(INITIAL, steps) && InPhase(Final(INITIAL, steps), s, Connected)
    ensures var st := Final(INITIAL, steps);
            && Enabled(st, Add(s))
            && var st' := Apply(st, Add(s));
               && s in st'.serves && Registered(st', s) && (s in st.open ==> s in st'.open)
               && (forall t :: t in st.added && t in st.serves && SameClient(st, s, t) ==> t !in st'.open)
               && (forall id :: id != st.serves[s].client ==>
                     (id in st'.agents <==> id in st.agents)
                     && (id in st.agents ==> st'.agents[id] == st.agents[id]
                                             && (st.agents[id] in st.open ==> st'.agents[id] in st'.open)))
  {
    RunKeepsInv(INITIAL, steps);
    var st := Final(INITIAL, steps);
    hide LookupsHold, FoundWasAdded, Token;
    forall t | t in st.added && SameClient(st, s, t) ensures t !in Apply(st, Add(s)).open {
      assert t in st.open ==> Registered(st, t);
    }
  }

  /** The run in which an agent connects a second time while its first session,
      which the server still takes to be open, is registered. */
  lemma SecondSessionReplacesTheFirst(id: int)
    ensures var steps := [Connect(0, id), Add(0), Connect(1, id), Add(1)];
            && IsRun(INITIAL, steps)
            && var st := Final(INITIAL, steps);
               0 !in st.open && 1 in st.open && 1 in st.serves && Registered(st, 1)
  {
    var s1 := Apply(INITIAL, Connect(0, id));
    var s2 := Apply(s1, Add(0));
    var s3 := Apply(s2, Connect(1, id));
    var s4 := Apply(s3, Add(1));
    RunFrom(s3, Add(1), [], s4);
    RunFrom(s2, Connect(1, id), [Add(1)], s4);
    RunFrom(s1, Add(0), [Connect(1, id), Add(1)], s4);
    RunFrom(INITIAL, Connect(0, id), [Add(0), Connect(1, id), Add(1)], s4);
  }

  /** Once every serve call that added its agent has returned, nothing is left behind. */
  lemma DrainedRegistryIsEmpty(steps: seq<Step>)
    requires IsRun(INITIAL, steps)
    requires forall s :: s in Final(INITIAL, steps).added ==> InPhase(Final(INITIAL, steps), s, Returned)
    ensures Final(INITIAL, steps).agents == map[]
  {
    RunKeepsInv(INITIAL, steps);
    var st := Final(INITIAL, steps);
    assert forall id :: id !in st.agents;
  }

  /** A registration ends only by the session's own Remove, after the session
      has closed, or by a newer Add for the same client.  In particular the
      late Remove of a superseded session changes nothing. */
  lemma RegistrationEnds(steps: seq<Step>, step: Step, s: nat)
    requires IsRun(INITIAL, steps) && Enabled(Final(INITIAL, steps), step)
    requires s in Final(INITIAL, steps).serves && Registered(Final(INITIAL, steps), s)
    ensures var st := Final(INITIAL, steps);
            var st' := Apply(st, step);
            s in st'.serves && !Registered(st', s) ==>
              && s !in st'.open
              && (step == Remove(s) || (step.Add? && SameClient(st, step.s, s)))
  {
    RunKeepsInv(INITIAL, steps);
  }

  /** When a Disconnect call for a client has returned, every session of that
      client that is still open was added after the call looked. */
  lemma DisconnectIsEffective(steps: seq<Step>, d: nat, j: nat)
    requires IsRun(INITIAL, steps)
    requires d in Final(INITIAL, steps).lookups && Final(INITIAL, steps).lookups[d].finished
    requires j < |Final(INITIAL, steps).added|
    requires var st := Final(INITIAL, steps);
             && st.added[j] in st.open && st.added[j] in st.serves
             && st.serves[st.added[j]].client == st.lookups[d].id
    ensures Final(INITIAL, steps).lookups[d].position <= j
  {
    RunKeepsInv(INITIAL, steps);
  }

  // What replacing a token achieves: the handler replaces it, and then calls
  // Disconnect, while serve calls authenticate first and add their session later.

  /** The session authenticated with a token that has been replaced. */
  predicate Outdated(st: State, s: nat) {
    s in st.serves && st.serves[s].token < Token(st, st.serves[s].client)
  }

  /** While a Disconnect call is between its halves, what it looked up stays. */
  lemma {:induction false} LookupStays(st: State, steps: seq<Step>, d: nat)
    requires IsRun(st, steps) && d in st.lookups
    ensures var fin := Final(st, steps);
            && d in fin.lookups && fin.lookups[d].(finished := false) == st.lookups[d].(finished := false)
            && |st.added| <= |fin.added| && fin.added[..|st.added|] == st.added
    decreases |steps|
  {
    if steps != [] {
      LookupStays(Apply(st, steps[0]), steps[1..], d);
      assert Final(st, steps).added[..|Apply(st, steps[0]).added|][..|st.added|]
               == Final(st, steps).added[..|st.added|];
    }
  }

  lemma {:induction false} RunOfConcat(st: State, a: seq<Step>, b: seq<Step>)
    requires IsRun(st, a) && IsRun(Final(st, a), b)
    ensures IsRun(st, a + b) && Final(st, a + b) == Final(Final(st, a), b)
    decreases |a|
  {
    if a == [] {
      assert a + b == b;
    } else {
      assert (a + b)[1..] == a[1..] + b;
      RunOfConcat(Apply(st, a[0]), a[1..], b);
    }
  }

  ghost predicate IsDisconnect(before: seq<Step>, d: nat, id: int, during: seq<Step>) {
    && IsRun(INITIAL, before) && Enabled(Final(INITIAL, before), LookUp(d, id))
    && IsRun(Apply(Final(INITIAL, before), LookUp(d, id)), during)
    && Enabled(Final(Apply(Final(INITIAL, before), LookUp(d, id)), during), CloseFound(d))
  }

  ghost function Closing(before: seq<Step>, d: nat, id: int, during: seq<Step>): State
    requires IsDisconnect(before, d, id, during)
  {
    Final(Apply(Final(INITIAL, before), LookUp(d, id)), during)
  }

  /** A session of the client, authenticated with whichever token, that is added
      and open when the Disconnect call closes what it found survives exactly if
      its Add came after that call had looked. */
  lemma SurvivesDisconnectIff(before: seq<Step>, d: nat, id: int, during: seq<Step>, s: nat)
    requires IsDisconnect(before, d, id, during)
    requires var st := Closing(before, d, id, during);
             s in st.serves && st.serves[s].client == id && s in st.added && s in st.open
    ensures s in Apply(Closing(before, d, id, during), CloseFound(d)).open <==> s !in Final(INITIAL, before).added
  {
    var looked := Final(INITIAL, before);
    var mid, st := Apply(looked, LookUp(d, id)), Closing(before, d, id, during);
    LookupStays(mid, during, d);
    assert [LookUp(d, id)][1..] == [];
    RunOfConcat(INITIAL, before, [LookUp(d, id)]);
    RunOfConcat(INITIAL, before + [LookUp(d, id)], during);
    RunKeepsInv(INITIAL, before + [LookUp(d, id)] + during);
    hide Inv, Apply;
    FoundIsClosed(st, d, s);
  }

  /** A Disconnect call closes just the session it found. */
  lemma FoundIsClosed(st: State, d: nat, s: nat)
    requires Inv(st) && Enabled(st, CloseFound(d)) && st.lookups[d].position <= |st.added|
    requires s in st.added && s in st.open && s in st.serves && st.serves[s].client == st.lookups[d].id
    ensures s in Apply(st, CloseFound(d)).open <==> s !in st.added[..st.lookups[d].position]
  {
    assert LookupHolds(st, st.lookups[d]);
    var j :| 0 <= j < |st.added| && st.added[j] == s;
    if j < st.lookups[d].position {
      assert st.added[..st.lookups[d].position][j] == s;
    }
  }

  /** It can happen: an agent that has authenticated but is not yet added when
      its token is replaced stays connected and registered. */
  lemma OutdatedSessionSurvives(id: int)
    ensures var steps := [Connect(0, id), Replace(id), LookUp(0, id), Add(0), CloseFound(0)];
            && IsRun(INITIAL, steps)
            && var st := Final(INITIAL, steps);
               Outdated(st, 0) && 0 in st.open && Registered(st, 0)
  {
    var s1 := Apply(INITIAL, Connect(0, id));
    var s2 := Apply(s1, Replace(id));
    var s3 := Apply(s2, LookUp(0, id));
    var s4 := Apply(s3, Add(0));
    var s5 := Apply(s4, CloseFound(0));
    RunFrom(s4, CloseFound(0), [], s5);
    RunFrom(s3, Add(0), [CloseFound(0)], s5);
    RunFrom(s2, LookUp(0, id), [Add(0), CloseFound(0)], s5);
    RunFrom(s1, Replace(id), [LookUp(0, id), Add(0), CloseFound(0)], s5);
    RunFrom(INITIAL, Connect(0, id), [Replace(id), LookUp(0, id), Add(0), CloseFound(0)], s5);
  }

  lemma RunFrom(st: State, step: Step, rest: seq<Step>, fin: State)
    requires Enabled(st, step) && IsRun(Apply(st, step), rest) && Final(Apply(st, step), rest) == fin
    ensures IsRun(st, [step] + rest) && Final(st, [step] + rest) == fin
  {
    assert ([step] + rest)[1..] == rest;
  }

  // Picks inside a run: the registry's keys and picks form a pool history.

  ghost function StepEvents(st: State, step: Step): seq<Event>
    requires Enabled(st, step)
  {
    match step
    case Add(s) => [Joined(st.serves[s].client)]
    case Remove(s) => if Registered(st, s) then [Left(st.serves[s].client)] else []
    case Pick => [Picked(Successor(st.agents.Keys, st.last))]
    case _ => []
  }

  ghost function PoolEvents(st: State, steps: seq<Step>): seq<Event>
    requires IsRun(st, steps)
    decreases |steps|
  {
    if steps == [] then [] else StepEvents(st, steps[0]) + PoolEvents(Apply(st, steps[0]), steps[1..])
  }

  lemma {:induction false} RunIsPoolHistory(st: State, steps: seq<Step>)
    requires IsRun(st, steps)
    ensures IsHistory(st.agents.Keys, st.last, PoolEvents(st, steps))
    decreases |steps|
  {
    if steps != [] {
      var st', rest := Apply(st, steps[0]), steps[1..];
      RunIsPoolHistory(st', rest);
      var tail := PoolEvents(st', rest);
      match steps[0] {
        case Add(s) =>
          assert st'.agents.Keys == After(st.agents.Keys, Joined(st.serves[s].client));
          assert PoolEvents(st, steps)[1..] == tail;
        case Remove(s) =>
          if Registered(st, s) {
            assert st'.agents.Keys == After(st.agents.Keys, Left(st.serves[s].client));
            assert PoolEvents(st, steps)[1..] == tail;
          } else {
            assert PoolEvents(st, steps) == tail;
          }
        case Pick => assert PoolEvents(st, steps)[1..] == tail;
        case _ => assert PoolEvents(st, steps) == tail;
      }
    }
  }

  ghost predicate StaysRegistered(st: State, steps: seq<Step>, x: int)
    requires IsRun(st, steps)
    decreases |steps|
  {
    x in st.agents && (steps == [] || StaysRegistered(Apply(st, steps[0]), steps[1..], x))
  }

  lemma {:induction false} StayingMeansNotLeaving(st: State, steps: seq<Step>, x: int)
    requires IsRun(st, steps) && StaysRegistered(st, steps, x)
    ensures Left(x) !in PoolEvents(st, steps)
    decreases |steps|
  {
    if steps != [] {
      StayingMeansNotLeaving(Apply(st, steps[0]), steps[1..], x);
    }
  }

  /** Bounded bypass in the running server, from any state and under any churn:
      while client x stays registered without being picked, every other client
      is picked at most once. */
  lemma NoClientIsBypassedTwice(st: State, steps: seq<Step>, x: int)
    requires IsRun(st, steps) && StaysRegistered(st, steps, x)
    requires x !in Picks(PoolEvents(st, steps))
    ensures Distinct(Picks(PoolEvents(st, steps)))
    ensures |Picks(PoolEvents(st, steps))| <= |EverRegistered(st.agents.Keys, PoolEvents(st, steps)) - {x}|
  {
    RunIsPoolHistory(st, steps);
    StayingMeansNotLeaving(st, steps, x);
    BoundedBypass(st.agents.Keys, st.last, PoolEvents(st, steps), x);
  }

  // What deleting a client achieves: the handler deletes the row and does not
  // call Disconnect.

  function WithoutDeletes(steps: seq<Step>): seq<Step> {
    if steps == [] then []
    else if steps[0].Delete? then WithoutDeletes(steps[1..])
    else [steps[0]] + WithoutDeletes(steps[1..])
  }

  lemma StepIgnoresDeletions(st: State, step: Step, kept: set<int>)
    requires Enabled(st, step) && kept <= st.deleted
    ensures if step.Delete? then
              && Apply(st, step).(deleted := kept) == st.(deleted := kept)
              && StepEvents(st, step) == []
            else
              && Enabled(st.(deleted := kept), step)
              && Apply(st.(deleted := kept), step) == Apply(st, step).(deleted := kept)
              && StepEvents(st.(deleted := kept), step) == StepEvents(st, step)
    ensures kept <= Apply(st, step).deleted
  {
  }

  /** Without the deletions a run is still one, with the same sessions, the same
      registry and the same picks: deletions close nothing and unregister nobody. */
  lemma {:induction false} DeletionsGoUnnoticed(st: State, steps: seq<Step>, kept: set<int>)
    requires IsRun(st, steps) && kept <= st.deleted
    ensures var t, rest := st.(deleted := kept), WithoutDeletes(steps);
            && IsRun(t, rest) && Final(t, rest) == Final(st, steps).(deleted := kept)
            && PoolEvents(t, rest) == PoolEvents(st, steps)
    decreases |steps|
  {
    if steps != [] {
      hide Enabled, Apply, StepEvents;
      StepIgnoresDeletions(st, steps[0], kept);
      DeletionsGoUnnoticed(Apply(st, steps[0]), steps[1..], kept);
      assert ([steps[0]] + WithoutDeletes(steps[1..]))[1..] == WithoutDeletes(steps[1..]);
    }
  }

  /** A session of the client has authenticated and is not added yet. */
  ghost predicate Awaited(st: State, id: int) {
    exists s :: InPhase(st, s, Connected) && st.serves[s].client == id
  }

  /** Nobody can connect as a deleted client any more: what can be registered for
      it is what was registered or under way when it was deleted. */
  lemma {:induction false} DeletedStaysOut(st: State, steps: seq<Step>, id: int)
    requires IsRun(st, steps) && id in st.deleted && id !in st.agents && !Awaited(st, id)
    ensures id !in Final(st, steps).agents
    decreases |steps|
  {
    if steps != [] {
      var st' := Apply(st, steps[0]);
      forall s | InPhase(st', s, Connected)
        ensures st'.serves[s].client != id
      {
        assert InPhase(st, s, Connected) || steps[0].Connect?;
      }
      DeletedStaysOut(st', steps[1..], id);
    }
  }

  ghost predicate CanBeRegistered(st: State, id: int) {
    exists steps :: IsRun(st, steps) && id in Final(st, steps).agents
  }

  /** Exactly when a deleted client can have an agent in the registry, now or later. */
  lemma DeletedCanBeRegisteredIff(st: State, id: int)
    requires id in st.deleted
    ensures CanBeRegistered(st, id) <==> id in st.agents || Awaited(st, id)
  {
    if id in st.agents {
      assert IsRun(st, []) && id in Final(st, []).agents;
    } else if Awaited(st, id) {
      var s :| InPhase(st, s, Connected) && st.serves[s].client == id;
      RunFrom(st, Add(s), [], Apply(st, Add(s)));
      assert id in Final(st, [Add(s)] + []).agents;
    } else if CanBeRegistered(st, id) {
      var steps :| IsRun(st, steps) && id in Final(st, steps).agents;
      DeletedStaysOut(st, steps, id);
    }
  }

  /** The step may close the session or take it from the registry. */
  predicate Ends(st: State, step: Step, s: nat)
    requires Enabled(st, step) && s in st.serves
  {
    match step
    case Die(t) => t == s
    case Add(t) => st.serves[t].client == st.serves[s].client
    case CloseFound(d) => st.lookups[d].found == Some(s)
    case _ => false
  }

  ghost predicate NothingEnds(st: State, steps: seq<Step>, s: nat)
    requires IsRun(st, steps) && s in st.serves
    decreases |steps|
  {
    steps == [] || (!Ends(st, steps[0], s) && NothingEnds(Apply(st, steps[0]), steps[1..], s))
  }

  /** While a session neither dies nor is superseded or closed by a Disconnect, its
      client stays registered, deleted or not. */
  lemma {:induction false} OpenSessionStaysRegistered(st: State, steps: seq<Step>, s: nat)
    requires Inv(st) && IsRun(st, steps)
    requires s in st.added && s in st.open && NothingEnds(st, steps, s)
    ensures StaysRegistered(st, steps, st.serves[s].client)
    decreases |steps|
  {
    if steps != [] {
      StepKeepsInv(st, steps[0]);
      OpenSessionStaysRegistered(Apply(st, steps[0]), steps[1..], s);
    }
  }

  /** So the agent of a deleted client goes on being picked, in its turn. */
  lemma DeletedClientIsPicked(before: seq<Step>, steps: seq<Step>, s: nat)
    requires IsRun(INITIAL, before) && s in Final(INITIAL, before).added && s in Final(INITIAL, before).open
    requires var st := Final(INITIAL, before);
             s in st.serves && st.serves[s].client in st.deleted && IsRun(st, steps) && NothingEnds(st, steps, s)
    requires var st := Final(INITIAL, before);
             var evs := PoolEvents(st, steps);
             |EverRegistered(st.agents.Keys, evs) - {st.serves[s].client}| < |Picks(evs)|
    ensures var st := Final(INITIAL, before);
            st.serves[s].client in Picks(PoolEvents(st, steps))
  {
    var st := Final(INITIAL, before);
    var id := st.serves[s].client;
    RunKeepsInv(INITIAL, before);
    OpenSessionStaysRegistered(st, steps, s);
    RunIsPoolHistory(st, steps);
    StayingMeansNotLeaving(st, steps, id);
    NoStarvation(st.agents.Keys, st.last, PoolEvents(st, steps), id);
  }

  /** The shortest such run. */
  lemma DeletedClientServes(id: int)
    ensures var steps := [Connect(0, id), Add(0), Delete(id), Pick];
            && IsRun(INITIAL, steps)
            && var st := Final(INITIAL, steps);
               id in st.deleted && 0 in st.serves && 0 in st.open && Registered(st, 0) && st.last == id
  {
    var s1 := Apply(INITIAL, Connect(0, id));
    var s2 := Apply(s1, Add(0));
    var s3 := Apply(s2, Delete(id));
    assert s3.agents.Keys == {id};
    var s4 := Apply(s3, Pick);
    RunFrom(s3, Pick, [], s4);
    RunFrom(s2, Delete(id), [Pick], s4);
    RunFrom(s1, Add(0), [Delete(id), Pick], s4);
    RunFrom(INITIAL, Connect(0, id), [Add(0), Delete(id), Pick], s4);
  }
}
