/** The event hub as an object: a set of buffered channels. */
module EventHub {
  import opened Sets

  const CAPACITY := 64

  /** A non-blocking send: the event is dropped when the buffer is full. */
  function Offer<E>(buffer: seq<E>, e: E): seq<E> {
    if |buffer| < CAPACITY then buffer + [e] else buffer
  }

  class Channel<E> {
    var buffer: seq<E>
    var closed: bool

    constructor ()
      ensures buffer == [] && !closed
    {
      buffer, closed := [], false;
    }
  }

  class Hub<E> {
    var subs: set<Channel<E>>

    /** No subscribed channel is closed, and no buffer is overfull. */
    ghost predicate Valid()
      reads this, subs
    {
      forall ch :: ch in subs ==> !ch.closed && |ch.buffer| <= CAPACITY
    }

    constructor ()
      ensures Valid() && subs == {}
    {
      subs := {};
    }

    method Publish(e: E)
      requires Valid()
      modifies subs
      ensures Valid() && subs == old(subs)
      ensures forall ch :: ch in subs ==> ch.buffer == Offer(old(ch.buffer), e)
      ensures forall ch :: ch in subs ==>
                ch.buffer == if |old(ch.buffer)| < 64 then old(ch.buffer) + [e] else old(ch.buffer)
    {
      var rest := subs;
      while rest != {}
        invariant rest <= subs == old(subs)
        invariant forall ch :: ch in subs ==> !ch.closed
        invariant forall ch :: ch in subs ==>
                    ch.buffer == if ch in rest then old(ch.buffer) else Offer(old(ch.buffer), e)
        decreases rest
      {
        ghost var some := Element(rest);
        var ch :| ch in rest;
        if |ch.buffer| < CAPACITY {
          ch.buffer := ch.buffer + [e];
        }
        rest := rest - {ch};
      }
    }

    method Subscribe() returns (ch: Channel<E>)
      requires Valid()
      modifies this
      ensures Valid() && fresh(ch) && ch.buffer == []
      ensures subs == old(subs) + {ch}
    {
      ch := new Channel<E>();
      subs := subs + {ch};
    }

    /** The function Subscribe hands out: it unsubscribes, then closes. */
    method Cancel(ch: Channel<E>)
      requires Valid() && ch in subs
      modifies this, ch
      ensures Valid() && subs == old(subs) - {ch}
      ensures ch.closed && ch.buffer == old(ch.buffer)
    {
      subs := subs - {ch};
      ch.closed := true;
    }
  }
}

/** Every interleaving of publishers, subscriptions and cancellations.
    Publishers hold the read lock from Begin to End and may overlap each other;
    Subscribe and the first half of a cancellation need the write lock; the
    channel is closed after that lock has been released. */
module HubInterleavings {
  import opened EventHub
  import opened Sets

  /** The n-th event of one publisher. */
  datatype Tag = Tag(publisher: nat, n: nat)

  datatype Chan = Chan(received: seq<Tag>, buffer: seq<Tag>, missed: set<Tag>, subscribed: bool, closed: bool)
  {
    /** Everything the channel accepted, in order. */
    function Log(): seq<Tag> { received + buffer }
  }

  /** begun counts each publisher's events; sending holds, for the publishers
      inside the lock, the channels not yet served; targets remembers who was
      subscribed when an event was published. */
  datatype State = State(
    chans: map<nat, Chan>,
    begun: map<nat, nat>,
    sending: map<nat, set<nat>>,
    targets: map<Tag, set<nat>>)

  const INITIAL := State(map[], map[], map[], map[])

  datatype Step =
    | Subscribe(ch: nat)
    | Begin(p: nat)
    | Send(p: nat, ch: nat)
    | End(p: nat)
    | Unsubscribe(ch: nat)
    | Close(ch: nat)
    | Receive(ch: nat)

  function Begun(st: State, p: nat): nat {
    if p in st.begun then st.begun[p] else 0
  }

  ghost function Subscribers(st: State): set<nat> {
    set ch | ch in st.chans && st.chans[ch].subscribed
  }

  predicate Enabled(st: State, step: Step) {
    match step
    case Subscribe(ch) => st.sending == map[] && ch !in st.chans
    case Begin(p) => p !in st.sending
    case Send(p, ch) => p in st.sending && ch in st.sending[p] && ch in st.chans && Begun(st, p) > 0
    case End(p) => p in st.sending && st.sending[p] == {}
    case Unsubscribe(ch) => st.sending == map[] && ch in st.chans && st.chans[ch].subscribed
    case Close(ch) => ch in st.chans && !st.chans[ch].subscribed && !st.chans[ch].closed
    case Receive(ch) => ch in st.chans && st.chans[ch].buffer != []
  }

  function Deliver(c: Chan, t: Tag): Chan {
    if |c.buffer| < CAPACITY then c.(buffer := Offer(c.buffer, t)) else c.(missed := c.missed + {t})
  }

  ghost function Apply(st: State, step: Step): State
    requires Enabled(st, step)
  {
    match step
    case Subscribe(ch) => st.(chans := st.chans[ch := Chan([], [], {}, true, false)])
    case Begin(p) =>
      st.(begun := st.begun[p := Begun(st, p) + 1],
          sending := st.sending[p := Subscribers(st)],
          targets := st.targets[Tag(p, Begun(st, p)) := Subscribers(st)])
    case Send(p, ch) =>
      st.(chans := st.chans[ch := Deliver(st.chans[ch], Tag(p, Begun(st, p) - 1))],
          sending := st.sending[p := st.sending[p] - {ch}])
    case End(p) => st.(sending := st.sending - {p})
    case Unsubscribe(ch) => st.(chans := st.chans[ch := st.chans[ch].(subscribed := false)])
    case Close(ch) => st.(chans := st.chans[ch := st.chans[ch].(closed := true)])
    case Receive(ch) =>
      var c := st.chans[ch];
      st.(chans := st.chans[ch := c.(received := c.received + [c.buffer[0]], buffer := c.buffer[1..])])
  }

  ghost predicate IsRun(st: State, steps: seq<Step>)
    decreases |steps|
  {
    steps == [] || (Enabled(st, steps[0]) && IsRun(Apply(st, steps[0]), steps[1..]))
  }

  ghost function Final(st: State, steps: seq<Step>): State
    requires IsRun(st, steps)
    decreases |steps|
  {
    if steps == [] then st else Final(Apply(st, steps[0]), steps[1..])
  }

  /** Channels that a publisher still has to serve are subscribed, subscribed
      channels are open, and buffers never exceed their capacity. */
  ghost predicate LockDiscipline(st: State) {
    && (forall p, ch :: p in st.sending && ch in st.sending[p] ==> ch in st.chans && st.chans[ch].subscribed)
    && (forall p :: p in st.sending ==> Begun(st, p) > 0)
    && (forall ch :: ch in st.chans ==> |st.chans[ch].buffer| <= CAPACITY)
    && (forall ch :: ch in st.chans && st.chans[ch].subscribed ==> !st.chans[ch].closed)
  }

  /** The publisher is still to send its current event to ch. */
  predicate Pending(st: State, t: Tag, ch: nat) {
    t.publisher in st.sending && ch in st.sending[t.publisher] && t.n == Begun(st, t.publisher) - 1
  }

  /** Nothing is logged or missed before it is sent, and nothing both. */
  ghost predicate SentAt(st: State, ch: nat, t: Tag)
    requires ch in st.chans
  {
    t in st.chans[ch].Log() || t in st.chans[ch].missed ==>
      && t.n < Begun(st, t.publisher)
      && !Pending(st, t, ch)
      && !(t in st.chans[ch].Log() && t in st.chans[ch].missed)
  }

  ghost predicate OnlyWhatWasSent(st: State) {
    forall ch, t :: ch in st.chans ==> SentAt(st, ch, t)
  }

  /** Each publisher's events are in the order of publication. */
  predicate Ordered(log: seq<Tag>) {
    forall i, j :: 0 <= i < j < |log| && log[i].publisher == log[j].publisher ==> log[i].n < log[j].n
  }

  ghost predicate InOrder(st: State) {
    forall ch :: ch in st.chans ==> Ordered(st.chans[ch].Log())
  }

  ghost predicate AccountedAt(st: State, ch: nat, t: Tag) {
    && ch in st.chans
    && (Pending(st, t, ch) || t in st.chans[ch].Log() || t in st.chans[ch].missed)
  }

  /** Every event is accounted for at each channel subscribed when it was published. */
  ghost predicate Accounted(st: State) {
    && (forall t :: t in st.targets ==> t.n < Begun(st, t.publisher))
    && (forall t, ch :: t in st.targets && ch in st.targets[t] ==> AccountedAt(st, ch, t))
  }

  ghost predicate Inv(st: State) {
    LockDiscipline(st) && OnlyWhatWasSent(st) && InOrder(st) && Accounted(st)
  }

  lemma StepKeepsLockDiscipline(st: State, step: Step)
    requires LockDiscipline(st) && Enabled(st, step)
    ensures LockDiscipline(Apply(st, step))
  {
    hide Chan.Log;
  }

  lemma LogAfterDeliver(c: Chan, t: Tag)
    ensures Deliver(c, t).Log() == if |c.buffer| < CAPACITY then c.Log() + [t] else c.Log()
  {
    assert c.received + (c.buffer + [t]) == c.Log() + [t];
  }

  lemma LogAfterReceive(c: Chan)
    requires c.buffer != []
    ensures c.received + [c.buffer[0]] + c.buffer[1..] == c.Log()
  {
  }

  /** What a step does to the log of a channel. */
  lemma LogAfter(st: State, step: Step, ch: nat)
    requires Enabled(st, step) && ch in Apply(st, step).chans
    ensures var log := Apply(st, step).chans[ch].Log();
            if step == Subscribe(ch) then log == []
            else
              && ch in st.chans
              && (match step
                  case Send(p, to) =>
                    var tag := Tag(p, Begun(st, p) - 1);
                    var fits := to == ch && |st.chans[ch].buffer| < CAPACITY;
                    log == if fits then st.chans[ch].Log() + [tag] else st.chans[ch].Log()
                  case _ => log == st.chans[ch].Log())
  {
    if step.Send? && step.ch == ch {
      LogAfterDeliver(st.chans[ch], Tag(step.p, Begun(st, step.p) - 1));
    } else if step.Receive? && step.ch == ch {
      LogAfterReceive(st.chans[ch]);
    }
  }

  lemma SentAtAfter(st: State, step: Step, ch: nat, t: Tag)
    requires Inv(st) && Enabled(st, step) && ch in Apply(st, step).chans
    ensures SentAt(Apply(st, step), ch, t)
  {
    hide Chan.Log, InOrder, Accounted;
    LogAfter(st, step, ch);
    if step != Subscribe(ch) {
      assert SentAt(st, ch, t);
    }
  }

  lemma StepKeepsOnlyWhatWasSent(st: State, step: Step)
    requires Inv(st) && Enabled(st, step)
    ensures OnlyWhatWasSent(Apply(st, step))
  {
    forall ch, t | ch in Apply(st, step).chans ensures SentAt(Apply(st, step), ch, t) {
      SentAtAfter(st, step, ch, t);
    }
  }

  lemma OrderedAfterSend(log: seq<Tag>, t: Tag)
    requires Ordered(log) && forall u :: u in log && u.publisher == t.publisher ==> u.n < t.n
    ensures Ordered(log + [t])
  {
  }

  lemma StepKeepsInOrder(st: State, step: Step)
    requires Inv(st) && Enabled(st, step)
    ensures InOrder(Apply(st, step))
  {
    forall ch | ch in Apply(st, step).chans ensures Ordered(Apply(st, step).chans[ch].Log()) {
      LogAfter(st, step, ch);
      if step.Send? && step.ch == ch {
        var log, tag := st.chans[ch].Log(), Tag(step.p, Begun(st, step.p) - 1);
        forall u | u in log && u.publisher == step.p ensures u.n < tag.n {
          assert SentAt(st, ch, u) && Pending(st, tag, ch);
        }
        OrderedAfterSend(log, tag);
      }
    }
  }

  lemma AccountedAtAfter(st: State, step: Step, ch: nat, t: Tag)
    requires Inv(st) && Enabled(st, step)
    requires t in Apply(st, step).targets && ch in Apply(st, step).targets[t]
    ensures AccountedAt(Apply(st, step), ch, t)
  {
    hide Chan.Log, OnlyWhatWasSent, InOrder;
    if t in st.targets && !(step.Begin? && t == Tag(step.p, Begun(st, step.p))) {
      assert AccountedAt(st, ch, t);
      LogAfter(st, step, ch);
    }
  }

  lemma StepKeepsAccounted(st: State, step: Step)
    requires Inv(st) && Enabled(st, step)
    ensures Accounted(Apply(st, step))
  {
    var st' := Apply(st, step);
    forall t, ch | t in st'.targets && ch in st'.targets[t] ensures AccountedAt(st', ch, t) {
      AccountedAtAfter(st, step, ch, t);
    }
  }

  lemma {:induction false} RunKeepsInv(st: State, steps: seq<Step>)
    requires Inv(st) && IsRun(st, steps)
    ensures Inv(Final(st, steps))
    decreases |steps|
  {
    if steps != [] {
      StepKeepsLockDiscipline(st, steps[0]);
      StepKeepsOnlyWhatWasSent(st, steps[0]);
      StepKeepsInOrder(st, steps[0]);
      StepKeepsAccounted(st, steps[0]);
      RunKeepsInv(Apply(st, steps[0]), steps[1..]);
    }
  }

  /** No send ever reaches a closed channel, and no buffer is overfull. */
  lemma SendsReachOpenChannels(steps: seq<Step>, p: nat, ch: nat)
    requires IsRun(INITIAL, steps)
    requires p in Final(INITIAL, steps).sending && ch in Final(INITIAL, steps).sending[p]
    ensures ch in Final(INITIAL, steps).chans
    ensures !Final(INITIAL, steps).chans[ch].closed && |Final(INITIAL, steps).chans[ch].buffer| <= 64
  {
    RunKeepsInv(INITIAL, steps);
  }

  /** A subscriber reads, of every single publisher, a part of its events in
      the order of publication and without repetition. */
  lemma ReceivedInOrder(steps: seq<Step>, ch: nat, i: nat, j: nat)
    requires IsRun(INITIAL, steps) && ch in Final(INITIAL, steps).chans
    requires i < j < |Final(INITIAL, steps).chans[ch].received|
    ensures var got := Final(INITIAL, steps).chans[ch].received;
            got[i].publisher == got[j].publisher ==>
              got[i].n < got[j].n < Begun(Final(INITIAL, steps), got[j].publisher)
  {
    RunKeepsInv(INITIAL, steps);
    var c := Final(INITIAL, steps).chans[ch];
    assert c.Log()[i] == c.received[i] && c.Log()[j] == c.received[j];
    assert c.Log()[j] in c.Log() && SentAt(Final(INITIAL, steps), ch, c.Log()[j]);
  }

  /** Once its publisher has left the lock, an event has either been accepted or
      been missed at each channel that was subscribed when it was published. */
  lemma EveryEventIsAcceptedOrMissed(steps: seq<Step>, t: Tag, ch: nat)
    requires IsRun(INITIAL, steps)
    requires t in Final(INITIAL, steps).targets && ch in Final(INITIAL, steps).targets[t]
    requires t.publisher !in Final(INITIAL, steps).sending
    ensures ch in Final(INITIAL, steps).chans
    ensures t in Final(INITIAL, steps).chans[ch].Log() <==> t !in Final(INITIAL, steps).chans[ch].missed
  {
    RunKeepsInv(INITIAL, steps);
    assert AccountedAt(Final(INITIAL, steps), ch, t) && SentAt(Final(INITIAL, steps), ch, t);
  }

  // The fate of an event over a whole run.

  lemma {:induction false} RunPrefix(st: State, steps: seq<Step>, k: nat)
    requires IsRun(st, steps) && k <= |steps|
    ensures IsRun(st, steps[..k])
    ensures k < |steps| ==>
              && Enabled(Final(st, steps[..k]), steps[k]) && IsRun(st, steps[..k + 1])
              && Final(st, steps[..k + 1]) == Apply(Final(st, steps[..k]), steps[k])
    decreases |steps|
  {
    if k > 0 {
      RunPrefix(Apply(st, steps[0]), steps[1..], k - 1);
      assert steps[..k][1..] == steps[1..][..k - 1];
      if k < |steps| { assert steps[..k + 1][1..] == steps[1..][..k]; }
    } else if steps != [] {
      assert steps[..1][1..] == [];
    }
  }

  /** The state after the first k steps. */
  ghost function StateAt(steps: seq<Step>, k: nat): State
    requires IsRun(INITIAL, steps) && k <= |steps|
  {
    RunPrefix(INITIAL, steps, k);
    Final(INITIAL, steps[..k])
  }

  /** Step k sends event t to channel ch. */
  ghost predicate SendsTo(steps: seq<Step>, k: nat, t: Tag, ch: nat)
    requires IsRun(INITIAL, steps)
  {
    k < |steps| && steps[k] == Send(t.publisher, ch) && t.n == Begun(StateAt(steps, k), t.publisher) - 1
  }

  ghost predicate FullAt(steps: seq<Step>, k: nat, ch: nat)
    requires IsRun(INITIAL, steps) && k <= |steps|
  {
    ch in StateAt(steps, k).chans && |StateAt(steps, k).chans[ch].buffer| == 64
  }

  predicate MissedBy(st: State, t: Tag, ch: nat) { ch in st.chans && t in st.chans[ch].missed }

  predicate LoggedBy(st: State, t: Tag, ch: nat) { ch in st.chans && t in st.chans[ch].Log() }

  lemma MissedAfterStep(st: State, step: Step, t: Tag, ch: nat)
    requires LockDiscipline(st) && Enabled(st, step)
    ensures MissedBy(Apply(st, step), t, ch) <==>
              || MissedBy(st, t, ch)
              || (step == Send(t.publisher, ch) && t.n == Begun(st, t.publisher) - 1
                   && |st.chans[ch].buffer| == CAPACITY)
  {
    hide Chan.Log;
  }

  lemma LoggedAfterStep(st: State, step: Step, t: Tag, ch: nat)
    requires LockDiscipline(st) && Enabled(st, step)
    ensures LoggedBy(Apply(st, step), t, ch) <==>
              || LoggedBy(st, t, ch)
              || (step == Send(t.publisher, ch) && t.n == Begun(st, t.publisher) - 1
                   && |st.chans[ch].buffer| < CAPACITY)
  {
    hide Chan.Log;
    if ch in Apply(st, step).chans {
      LogAfter(st, step, ch);
    }
  }

  /** One more step changes an event's fate at a channel exactly by sending it. */
  lemma FateAfter(steps: seq<Step>, k: nat, t: Tag, ch: nat)
    requires IsRun(INITIAL, steps) && k < |steps|
    ensures MissedBy(StateAt(steps, k + 1), t, ch) <==>
              MissedBy(StateAt(steps, k), t, ch) || (SendsTo(steps, k, t, ch) && FullAt(steps, k, ch))
    ensures LoggedBy(StateAt(steps, k + 1), t, ch) <==>
              LoggedBy(StateAt(steps, k), t, ch) || (SendsTo(steps, k, t, ch) && !FullAt(steps, k, ch))
  {
    hide Chan.Log, Apply, MissedBy, LoggedBy, OnlyWhatWasSent, InOrder, Accounted;
    RunPrefix(INITIAL, steps, k);
    RunPrefix(INITIAL, steps, k + 1);
    var st := StateAt(steps, k);
    RunKeepsInv(INITIAL, steps[..k]);
    MissedAfterStep(st, steps[k], t, ch);
    LoggedAfterStep(st, steps[k], t, ch);
  }

  lemma {:induction false} FateAt(steps: seq<Step>, k: nat, t: Tag, ch: nat)
    requires IsRun(INITIAL, steps) && k <= |steps|
    ensures MissedBy(StateAt(steps, k), t, ch) <==>
              exists i :: 0 <= i < k && SendsTo(steps, i, t, ch) && FullAt(steps, i, ch)
    ensures LoggedBy(StateAt(steps, k), t, ch) <==>
              exists i :: 0 <= i < k && SendsTo(steps, i, t, ch) && !FullAt(steps, i, ch)
  {
    hide Apply, Final, MissedBy, LoggedBy, SendsTo, FullAt, StateAt;
    if k == 0 {
      NoFateYet(steps, t, ch);
    } else {
      FateAt(steps, k - 1, t, ch);
      FateAfter(steps, k - 1, t, ch);
    }
  }

  lemma NoFateYet(steps: seq<Step>, t: Tag, ch: nat)
    requires IsRun(INITIAL, steps)
    ensures !MissedBy(StateAt(steps, 0), t, ch) && !LoggedBy(StateAt(steps, 0), t, ch)
  {
    assert steps[..0] == [];
  }

  /** An event is sent to a channel at most once. */
  lemma SentOnce(steps: seq<Step>, i: nat, k: nat, t: Tag, ch: nat)
    requires IsRun(INITIAL, steps) && SendsTo(steps, i, t, ch) && SendsTo(steps, k, t, ch)
    ensures i == k
  {
    if i < k {
      SentBefore(steps, i, k, t, ch);
    } else if k < i {
      SentBefore(steps, k, i, t, ch);
    }
  }

  lemma SentBefore(steps: seq<Step>, i: nat, k: nat, t: Tag, ch: nat)
    requires IsRun(INITIAL, steps) && i < k && SendsTo(steps, i, t, ch)
    ensures !SendsTo(steps, k, t, ch)
  {
    if k < |steps| {
      FateAt(steps, k, t, ch);
      RunPrefix(INITIAL, steps, k);
      RunKeepsInv(INITIAL, steps[..k]);
      var st := StateAt(steps, k);
      assert MissedBy(st, t, ch) || LoggedBy(st, t, ch);
      assert SentAt(st, ch, t);
    }
  }

  /** At the end of a run a channel has missed an event exactly if it was sent
      the event at some step at which its buffer held 64 events, and accepted it
      exactly if it was sent it at one at which there was room; there is at most
      one such step. */
  lemma MissedExactlyWhenFull(steps: seq<Step>, t: Tag, ch: nat)
    requires IsRun(INITIAL, steps)
    ensures MissedBy(Final(INITIAL, steps), t, ch) <==> exists k :: SendsTo(steps, k, t, ch) && FullAt(steps, k, ch)
    ensures LoggedBy(Final(INITIAL, steps), t, ch) <==> exists k :: SendsTo(steps, k, t, ch) && !FullAt(steps, k, ch)
    ensures forall i, k :: SendsTo(steps, i, t, ch) && SendsTo(steps, k, t, ch) ==> i == k
  {
    FateAt(steps, |steps|, t, ch);
    assert steps[..|steps|] == steps;
    forall i, k | SendsTo(steps, i, t, ch) && SendsTo(steps, k, t, ch) ensures i == k {
      SentOnce(steps, i, k, t, ch);
    }
  }

  // Who gets an event: exactly the channels subscribed when it is published.

  /** Publishers still serve only targets. */
  ghost predicate SendsToTargets(st: State) {
    forall p :: p in st.sending ==>
      && Begun(st, p) > 0 && Tag(p, Begun(st, p) - 1) in st.targets
      && st.sending[p] <= st.targets[Tag(p, Begun(st, p) - 1)]
  }

  /** And nothing else was logged or missed. */
  ghost predicate SentToTargets(st: State) {
    && SendsToTargets(st)
    && (forall ch, t :: ch in st.chans && (t in st.chans[ch].Log() || t in st.chans[ch].missed) ==>
          t in st.targets && ch in st.targets[t])
  }

  lemma StepSendsToTargets(st: State, step: Step)
    requires LockDiscipline(st) && SendsToTargets(st) && Enabled(st, step)
    ensures SendsToTargets(Apply(st, step))
  {
    hide Deliver;
  }

  lemma LogIsSentToTarget(st: State, step: Step, ch: nat, t: Tag)
    requires Inv(st) && SentToTargets(st) && Enabled(st, step) && ch in Apply(st, step).chans
    requires t in Apply(st, step).chans[ch].Log() || t in Apply(st, step).chans[ch].missed
    ensures t in Apply(st, step).targets && ch in Apply(st, step).targets[t]
  {
    hide Chan.Log, OnlyWhatWasSent, InOrder, Accounted;
    LogAfter(st, step, ch);
    if step.Begin? { NoTagTwice(st, ch, t); }
  }

  /** What was logged or missed was published before. */
  lemma NoTagTwice(st: State, ch: nat, t: Tag)
    requires Inv(st) && ch in st.chans && (t in st.chans[ch].Log() || t in st.chans[ch].missed)
    ensures t.n < Begun(st, t.publisher)
  {
    assert SentAt(st, ch, t);
  }

  lemma StepKeepsTargets(st: State, step: Step)
    requires Inv(st) && SentToTargets(st) && Enabled(st, step)
    ensures SentToTargets(Apply(st, step))
    ensures forall t :: t in st.targets ==> t in Apply(st, step).targets && Apply(st, step).targets[t] == st.targets[t]
  {
    hide Chan.Log, OnlyWhatWasSent, InOrder, AccountedAt, SendsToTargets, Deliver;
    StepSendsToTargets(st, step);
    forall ch, t | ch in Apply(st, step).chans
                   && (t in Apply(st, step).chans[ch].Log() || t in Apply(st, step).chans[ch].missed)
      ensures t in Apply(st, step).targets && ch in Apply(st, step).targets[t]
    {
      LogIsSentToTarget(st, step, ch, t);
    }
  }

  lemma {:induction false} RunKeepsTargets(st: State, steps: seq<Step>)
    requires Inv(st) && SentToTargets(st) && IsRun(st, steps)
    ensures SentToTargets(Final(st, steps))
    ensures forall t :: t in st.targets ==>
              t in Final(st, steps).targets && Final(st, steps).targets[t] == st.targets[t]
    decreases |steps|
  {
    if steps != [] {
      hide Apply, SentToTargets, LockDiscipline, OnlyWhatWasSent, InOrder, Accounted;
      StepKeepsTargets(st, steps[0]);
      StepKeepsLockDiscipline(st, steps[0]);
      StepKeepsOnlyWhatWasSent(st, steps[0]);
      StepKeepsInOrder(st, steps[0]);
      StepKeepsAccounted(st, steps[0]);
      RunKeepsTargets(Apply(st, steps[0]), steps[1..]);
    }
  }

  lemma {:induction false} RunSplits(st: State, steps: seq<Step>, k: nat)
    requires IsRun(st, steps) && k <= |steps| && IsRun(st, steps[..k])
    ensures IsRun(Final(st, steps[..k]), steps[k..]) && Final(Final(st, steps[..k]), steps[k..]) == Final(st, steps)
    decreases |steps|
  {
    if k > 0 {
      assert steps[..k][1..] == steps[1..][..k - 1] && steps[1..][k - 1..] == steps[k..];
      RunSplits(Apply(st, steps[0]), steps[1..], k - 1);
    } else {
      assert steps[..0] == [] && steps[0..] == steps;
    }
  }

  /** An event reaches exactly the channels that are subscribed when its publisher
      enters the lock: once the publisher has left it, each of them has accepted
      the event or has missed it, not both, and no other channel has either. */
  lemma SubscribersGetTheEvent(steps: seq<Step>, k: nat, p: nat, ch: nat)
    requires IsRun(INITIAL, steps) && k < |steps| && steps[k] == Begin(p)
    requires p !in Final(INITIAL, steps).sending
    ensures var st, fin := StateAt(steps, k), Final(INITIAL, steps);
            var t := Tag(p, Begun(st, p));
            && ((ch in st.chans && st.chans[ch].subscribed)
                  <==> (ch in fin.chans && (t in fin.chans[ch].Log() || t in fin.chans[ch].missed)))
            && (ch in fin.chans ==> !(t in fin.chans[ch].Log() && t in fin.chans[ch].missed))
  {
    hide Chan.Log, Apply, Inv, SentToTargets;
    var st := StateAt(steps, k);
    var t := Tag(p, Begun(st, p));
    RunPrefix(INITIAL, steps, k);
    TargetsAtBegin(st, p, ch);
    TargetsStay(steps, k + 1);
    TargetsAtEnd(Final(INITIAL, steps), t, ch);
  }

  lemma TargetsStay(steps: seq<Step>, k: nat)
    requires IsRun(INITIAL, steps) && k <= |steps|
    ensures Inv(Final(INITIAL, steps)) && SentToTargets(Final(INITIAL, steps)) && IsRun(INITIAL, steps[..k])
    ensures var st, fin := Final(INITIAL, steps[..k]), Final(INITIAL, steps);
            forall t :: t in st.targets ==> t in fin.targets && fin.targets[t] == st.targets[t]
  {
    hide Apply;
    RunPrefix(INITIAL, steps, k);
    RunSplits(INITIAL, steps, k);
    RunKeepsInv(INITIAL, steps);
    RunKeepsInv(INITIAL, steps[..k]);
    RunKeepsTargets(INITIAL, steps[..k]);
    RunKeepsTargets(Final(INITIAL, steps[..k]), steps[k..]);
  }

  lemma TargetsAtBegin(st: State, p: nat, ch: nat)
    requires Enabled(st, Begin(p))
    ensures var t := Tag(p, Begun(st, p));
            && t in Apply(st, Begin(p)).targets
            && (ch in Apply(st, Begin(p)).targets[t] <==> ch in st.chans && st.chans[ch].subscribed)
  {
  }

  lemma TargetsAtEnd(fin: State, t: Tag, ch: nat)
    requires Inv(fin) && SentToTargets(fin) && t in fin.targets && t.publisher !in fin.sending
    ensures ch in fin.targets[t] <==> ch in fin.chans && (t in fin.chans[ch].Log() || t in fin.chans[ch].missed)
    ensures ch in fin.chans ==> !(t in fin.chans[ch].Log() && t in fin.chans[ch].missed)
  {
    if ch in fin.targets[t] { assert AccountedAt(fin, ch, t); }
    if ch in fin.chans { assert SentAt(fin, ch, t); }
  }

  // Nobody is stuck: publishers never wait for a subscriber.

  /** A publisher inside the lock can finish by steps of its own, whatever the
      subscribers do, and however full their buffers are. */
  lemma {:induction false} PublisherCanFinish(st: State, p: nat) returns (more: seq<Step>)
    requires LockDiscipline(st) && p in st.sending
    ensures IsRun(st, more) && forall i :: 0 <= i < |more| ==> more[i] == End(p) || (more[i].Send? && more[i].p == p)
    ensures Final(st, more).sending == st.sending - {p} && LockDiscipline(Final(st, more))
    decreases |st.sending[p]|
  {
    if st.sending[p] == {} {
      more := [End(p)];
      StepKeepsLockDiscipline(st, End(p));
      OneMoreStep(st, End(p), []);
    } else {
      ghost var ch := Element(st.sending[p]);
      var st' := Apply(st, Send(p, ch));
      StepKeepsLockDiscipline(st, Send(p, ch));
      var rest := PublisherCanFinish(st', p);
      more := [Send(p, ch)] + rest;
      OneMoreStep(st, Send(p, ch), rest);
      assert st'.sending - {p} == st.sending - {p};
    }
  }

  lemma OneMoreStep(st: State, step: Step, rest: seq<Step>)
    requires Enabled(st, step) && IsRun(Apply(st, step), rest)
    ensures IsRun(st, [step] + rest) && Final(st, [step] + rest) == Final(Apply(st, step), rest)
  {
    assert ([step] + rest)[1..] == rest;
  }

  lemma {:induction false} RunOfConcat(st: State, a: seq<Step>, b: seq<Step>)
    requires IsRun(st, a) && IsRun(Final(st, a), b)
    ensures IsRun(st, a + b) && Final(st, a + b) == Final(Final(st, a), b)
    decreases |a|
  {
    if a == [] {
      assert a + b == b;
    } else {
      assert (a + b)[1..] == a[1..] + b;
      RunOfConcat(Apply(st, a[0]), a[1..], b);
    }
  }

  /** And it need not wait for another publisher to leave. */
  lemma PublishersOverlap(st: State, p: nat, q: nat)
    requires p !in st.sending && q in st.sending
    ensures Enabled(st, Begin(p))
    ensures p in Apply(st, Begin(p)).sending && q in Apply(st, Begin(p)).sending
  {
  }

  /** So from every reachable state the lock can be freed without any subscriber
      reading, and then channels can be subscribed and cancelled. */
  lemma LockCanBeFreed(steps: seq<Step>) returns (more: seq<Step>)
    requires IsRun(INITIAL, steps)
    ensures IsRun(Final(INITIAL, steps), more)
    ensures forall i :: 0 <= i < |more| ==> more[i].Send? || more[i].End?
    ensures var st := Final(Final(INITIAL, steps), more);
            && (forall ch :: ch !in st.chans ==> Enabled(st, Subscribe(ch)))
            && (forall ch :: ch in st.chans && st.chans[ch].subscribed ==> Enabled(st, Unsubscribe(ch)))
  {
    RunKeepsInv(INITIAL, steps);
    more := AllCanFinish(Final(INITIAL, steps));
  }

  lemma {:induction false} AllCanFinish(st: State) returns (more: seq<Step>)
    requires LockDiscipline(st)
    ensures IsRun(st, more) && Final(st, more).sending == map[]
    ensures forall i :: 0 <= i < |more| ==> more[i].Send? || more[i].End?
    decreases |st.sending|
  {
    if st.sending == map[] {
      more := [];
    } else {
      assert st.sending.Keys != {};
      var p := Element(st.sending.Keys);
      var first := PublisherCanFinish(st, p);
      assert p !in Final(st, first).sending && |Final(st, first).sending| < |st.sending| by {
        assert st.sending.Keys == (st.sending - {p}).Keys + {p};
        assert |st.sending| == |st.sending.Keys| && |st.sending - {p}| == |(st.sending - {p}).Keys|;
      }
      var rest := AllCanFinish(Final(st, first));
      more := first + rest;
      RunOfConcat(st, first, rest);
    }
  }
}
