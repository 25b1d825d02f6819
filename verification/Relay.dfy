/** The relay: a client's bytes go through the server to an agent and on to the
    target, and the target's bytes come back.  Both programs first talk in
    messages, through buffered readers, and then copy raw bytes, so each has to
    hand over what its reader had buffered. */
module Relay {
  import opened Basics
  import opened Streams
  import opened Socks

  /** The two ends of a connection as one program sees them. */
  class Conn {
    const incoming: Source
    const outgoing: Sink

    constructor (incoming: Source, outgoing: Sink)
      ensures this.incoming == incoming && this.outgoing == outgoing
    {
      this.incoming, this.outgoing := incoming, outgoing;
    }
  }

  /** The JSON documents exchanged on a stream, kept abstract: a request names a
      target, a reply says whether the target was reached. */
  datatype Codec = Codec(
    request: Bytes -> Bytes,
    parseRequest: Bytes -> Option<Bytes>,
    reply: bool -> Bytes,
    parseReply: Bytes -> Option<bool>)
  {
    /** The request for a target is one line, and reads back as one for dialled.
        The two are the same for text in UTF-8; JSON replaces other bytes. */
    predicate Carries(target: Bytes, dialled: Bytes) {
      NEWLINE !in request(target) && parseRequest(request(target) + [NEWLINE]) == Some(dialled)
    }

    /** The reply that a target was reached is one line, and reads back as that. */
    predicate Confirms() {
      NEWLINE !in reply(true) && parseReply(reply(true) + [NEWLINE]) == Some(true)
    }
  }

  lemma DocumentIsLine(doc: Bytes)
    requires NEWLINE !in doc
    ensures IsLine(doc + [NEWLINE])
  {
    var l := doc + [NEWLINE];
    assert l[|doc|] == NEWLINE;
    assert forall k :: 0 <= k < |doc| ==> l[k] == doc[k] && doc[k] in doc;
  }

  /** Writes the document and its newline in one piece. */
  method WriteJsonLine(w: Sink, doc: Bytes) returns (ok: bool)
    modifies w
    ensures var line := doc + [NEWLINE];
            && w.data == old(w.data) + Fitting(line, old(w.room))
            && w.room == old(w.room) - |Fitting(line, old(w.room))|
            && (ok <==> |line| <= old(w.room))
  {
    var n := w.Write(doc + [NEWLINE]);
    ok := n == |doc| + 1;
  }

  /** Hands over what the reader has buffered.  The count is the buffer's length
      even if the write fails. */
  method Drain(br: BufReader, to: Sink) returns (n: nat)
    modifies br, br.source, to
    ensures n == |old(br.buf)| && br.buf == [] && br.source.chunks == old(br.source.chunks)
    ensures to.data == old(to.data) + Fitting(old(br.buf), old(to.room))
    ensures to.room == old(to.room) - |Fitting(old(br.buf), old(to.room))|
  {
    n := 0;
    var buffered := |br.buf|;
    if buffered > 0 {
      assert br.Pending()[..buffered] == br.buf;
      var ok, buf := br.ReadFull(buffered);
      if ok {
        var _ := to.Write(buf);
        n := buffered;
      }
    }
  }

  /** One read and one write of io.Copy; live is false at end-of-file or after a
      failed write. */
  method CopyOnce(src: Source, dst: Sink) returns (n: nat, live: bool)
    modifies src, dst
    ensures n == |dst.data| - |old(dst.data)|
    ensures live ==> |src.chunks| < |old(src.chunks)|
    ensures dst.data + (if live then Fitting(Flatten(src.chunks), dst.room) else [])
         == old(dst.data) + Fitting(Flatten(old(src.chunks)), old(dst.room))
  {
    if src.chunks == [] {
      return 0, false;
    }
    var chunk := src.chunks[0];
    src.chunks := src.chunks[1..];
    n := dst.Write(chunk);
    live := n == |chunk|;
    FittingConcat(chunk, Flatten(src.chunks), old(dst.room));
  }

  /** Copies both ways until both directions have ended, in any interleaving. */
  method Pipe(client: Conn, upstream: Conn, inSeed: nat, outSeed: nat) returns (bytesIn: nat, bytesOut: nat)
    requires client.incoming != upstream.incoming && client.outgoing != upstream.outgoing
    modifies client.incoming, client.outgoing, upstream.incoming, upstream.outgoing
    ensures var up := Fitting(Flatten(old(client.incoming.chunks)), old(upstream.outgoing.room));
            upstream.outgoing.data == old(upstream.outgoing.data) + up && bytesOut == outSeed + |up|
    ensures var down := Fitting(Flatten(old(upstream.incoming.chunks)), old(client.outgoing.room));
            client.outgoing.data == old(client.outgoing.data) + down && bytesIn == inSeed + |down|
  {
    bytesIn, bytesOut := inSeed, outSeed;
    var inLive, outLive := true, true;
    while inLive || outLive
      invariant upstream.outgoing.data
                  + (if outLive then Fitting(Flatten(client.incoming.chunks), upstream.outgoing.room) else [])
             == old(upstream.outgoing.data) + Fitting(Flatten(old(client.incoming.chunks)), old(upstream.outgoing.room))
      invariant client.outgoing.data
                  + (if inLive then Fitting(Flatten(upstream.incoming.chunks), client.outgoing.room) else [])
             == old(client.outgoing.data) + Fitting(Flatten(old(upstream.incoming.chunks)), old(client.outgoing.room))
      invariant bytesOut == outSeed + |upstream.outgoing.data| - |old(upstream.outgoing.data)|
      invariant bytesIn == inSeed + |client.outgoing.data| - |old(client.outgoing.data)|
      decreases inLive, outLive, |client.incoming.chunks| + |upstream.incoming.chunks|
    {
      var n;
      if {
        case outLive =>
          n, outLive := CopyOnce(client.incoming, upstream.outgoing);
          bytesOut := bytesOut + n;
        case inLive =>
          n, inLive := CopyOnce(upstream.incoming, client.outgoing);
          bytesIn := bytesIn + n;
      }
    }
  }

  /** What is counted for handing over a reader's buffer and copying the rest:
      the whole buffer, even if writing it fails, and what else goes through. */
  function HandedOver(fed: Feed, room: nat): nat {
    |fed.buffered| + |Fitting(Flatten(fed.chunks), room - |Fitting(fed.buffered, room)|)|
  }

  // The server's side.

  /** What happens once the agent has confirmed the target: the bytes the client
      reader had buffered go first, then both directions are copied.  The reader
      that read the agent's reply is not drained. */
  method Tunnel(br: BufReader, client: Conn, upstream: Conn) returns (bytesIn: nat, bytesOut: nat)
    requires br.source == client.incoming
    requires client.incoming != upstream.incoming && client.outgoing != upstream.outgoing
    modifies br, client.incoming, client.outgoing, upstream.incoming, upstream.outgoing
    ensures var up := Fitting(old(br.Pending()), old(upstream.outgoing.room));
            && upstream.outgoing.data == old(upstream.outgoing.data) + up
            && bytesOut == HandedOver(old(br.Fed()), old(upstream.outgoing.room))
    ensures var down := Fitting(Flatten(old(upstream.incoming.chunks)), old(client.outgoing.room));
            client.outgoing.data == old(client.outgoing.data) + down && bytesIn == |down|
  {
    FittingConcat(br.buf, Flatten(client.incoming.chunks), upstream.outgoing.room);
    var n := Drain(br, upstream.outgoing);
    bytesIn, bytesOut := Pipe(client, upstream, 0, n);
  }

  /** Why a target could not be reached. */
  datatype Failure = NoAgent | StreamFailed | BadReply | TargetRefused

  /** How a front end reports success and failure to its client. */
  datatype Dialect = Dialect(success: Bytes, failure: Failure -> Bytes)

  datatype Outcome =
    | Dropped
    | NoAcceptableMethod
    | Denied
    | Failed(why: Failure)
    | Relayed(bytesIn: nat, bytesOut: nat)

  datatype Progress<+T> = Continue(value: T) | Stop(outcome: Outcome)

  function RequestLine(target: Bytes, codec: Codec): Bytes {
    codec.request(target) + [NEWLINE]
  }

  /** What stands in the way of a target, if anything: no agent is online, the
      request cannot be written, the agent's answer is missing or unreadable, or
      it says no. */
  function Obstacle(online: bool, line: Bytes, room: nat, answer: LineRead, codec: Codec): Option<Failure> {
    if !online then Some(NoAgent)
    else if room < |line| then Some(StreamFailed)
    else if answer.Eof? || codec.parseReply(answer.line).None? then Some(BadReply)
    else if !codec.parseReply(answer.line).value then Some(TargetRefused)
    else None
  }

  /** What the client hears: a failure, or success and then what is read from
      the agent after the read that completed its answer. */
  function Heard(d: Dialect, obstacle: Option<Failure>, answer: LineRead): Bytes {
    match obstacle
    case Some(why) => d.failure(why)
    case None => d.success + if answer.Line? then Flatten(answer.chunks) else []
  }

  /** What a sink held, how much more it could take, and what it holds now. */
  datatype Written = Written(before: Bytes, room: nat, after: Bytes)

  predicate Got(w: Written, b: Bytes) { w.after == w.before + Fitting(b, w.room) }

  /** All that comes of a known target.  The agent gets the request and, if the
      session is relayed, the rest of the client's bytes, fed as it is. */
  ghost predicate Serves(out: Outcome, obstacle: Option<Failure>, online: bool, line: Bytes, rest: Bytes, fed: Feed,
                         toAgent: Written, room: nat, success: Bytes, relayed: Bytes) {
    && fed.All() == rest
    && (obstacle.Some? ==> out == Failed(obstacle.value))
    && (obstacle.None? && room < |success| ==> out == Dropped)
    && (obstacle.None? && |success| <= room ==>
          && out.Relayed?
          && |line| <= toAgent.room && out.bytesOut == HandedOver(fed, toAgent.room - |line|)
          && out.bytesIn == |Fitting(relayed, room - |success|)|)
    && Got(toAgent, if !online then [] else if out.Relayed? then line + rest else line)
  }

  /** Asks an agent for the target and reads its answer. */
  method Open(target: Bytes, upstream: Conn, conn: Sink, online: bool, codec: Codec, d: Dialect)
      returns (r: Progress<()>)
    requires conn != upstream.outgoing
    modifies upstream.incoming, upstream.outgoing, conn
    ensures var line, answer := RequestLine(target, codec), NextLine([], old(upstream.incoming.chunks));
            var obstacle := Obstacle(online, line, old(upstream.outgoing.room), answer, codec);
            && upstream.outgoing.data
                 == old(upstream.outgoing.data) + (if online then Fitting(line, old(upstream.outgoing.room)) else [])
            && match obstacle
               case Some(why) =>
                 r == Stop(Failed(why)) && conn.data == old(conn.data) + Fitting(d.failure(why), old(conn.room))
               case None =>
                 && conn.data == old(conn.data) + Fitting(d.success, old(conn.room))
                 && r == (if old(conn.room) < |d.success| then Stop(Dropped) else Continue(()))
                 && answer.Line? && upstream.incoming.chunks == answer.chunks
                 && upstream.outgoing.room == old(upstream.outgoing.room) - |line|
                 && conn.room == old(conn.room) - |Fitting(d.success, old(conn.room))|
  {
    if !online {
      var _ := conn.Write(d.failure(NoAgent));
      return Stop(Failed(NoAgent));
    }
    var ok := WriteJsonLine(upstream.outgoing, codec.request(target));
    if !ok {
      var _ := conn.Write(d.failure(StreamFailed));
      return Stop(Failed(StreamFailed));
    }
    var upReader := new BufReader(upstream.incoming);
    var line;
    ok, line := upReader.ReadLine();
    if !ok || codec.parseReply(line).None? {
      var _ := conn.Write(d.failure(BadReply));
      return Stop(Failed(BadReply));
    }
    if !codec.parseReply(line).value {
      var _ := conn.Write(d.failure(TargetRefused));
      return Stop(Failed(TargetRefused));
    }
    var n := conn.Write(d.success);
    r := if n < |d.success| then Stop(Dropped) else Continue(());
  }

  lemma FittingAfter(a: Bytes, b: Bytes, room: nat)
    requires |a| <= room
    ensures Fitting(a + b, room) == a + Fitting(b, room - |a|)
  {
    FittingConcat(a, b, room);
  }

  lemma FittingAll(b: Bytes, room: nat)
    requires |b| <= room
    ensures Fitting(b, room) == b
  {
  }

  lemma FittingNothing(room: nat)
    ensures Fitting([], room) == []
  {
  }

  lemma FittingBefore(a: Bytes, b: Bytes, room: nat)
    requires room <= |a|
    ensures Fitting(a + b, room) == Fitting(a, room)
  {
  }

  /** From the known target to the end of the relay. */
  method Serve(br: BufReader, target: Bytes, client: Conn, upstream: Conn, online: bool, codec: Codec, d: Dialect)
      returns (out: Outcome)
    requires br.source == client.incoming
    requires client.incoming != upstream.incoming && client.outgoing != upstream.outgoing
    modifies br, client.incoming, client.outgoing, upstream.incoming, upstream.outgoing
    ensures var line, answer := RequestLine(target, codec), NextLine([], old(upstream.incoming.chunks));
            var obstacle := Obstacle(online, line, old(upstream.outgoing.room), answer, codec);
            && client.outgoing.data
                 == old(client.outgoing.data) + Fitting(Heard(d, obstacle, answer), old(client.outgoing.room))
            && Serves(out, obstacle, online, line, old(br.Pending()), old(br.Fed()),
                      Written(old(upstream.outgoing.data), old(upstream.outgoing.room), upstream.outgoing.data),
                      old(client.outgoing.room), d.success, if answer.Line? then Flatten(answer.chunks) else [])
  {
    hide NextLine, Flatten, Fitting, HandedOver, RequestLine;
    FittingNothing(old(upstream.outgoing.room));
    var reached := Open(target, upstream, client.outgoing, online, codec, d);
    ghost var answer := NextLine([], old(upstream.incoming.chunks));
    if reached.Stop? {
      if old(client.outgoing.room) <= |d.success| {
        FittingBefore(d.success, if answer.Line? then Flatten(answer.chunks) else [], old(client.outgoing.room));
      }
      return reached.outcome;
    }
    FittingAll(RequestLine(target, codec), old(upstream.outgoing.room));
    FittingAll(d.success, old(client.outgoing.room));
    FittingAfter(RequestLine(target, codec), br.Pending(), old(upstream.outgoing.room));
    FittingAfter(d.success, Flatten(answer.chunks), old(client.outgoing.room));
    var bytesIn, bytesOut := Tunnel(br, client, upstream);
    out := Relayed(bytesIn, bytesOut);
  }

  // The HTTP CONNECT front end: net/http has read the head; br holds the rest.

  const CONNECT_OK: Bytes := Ascii("HTTP/1.1 200 Connection Established\r\n\r\n")

  function Ascii(s: string): Bytes
    requires forall i :: 0 <= i < |s| ==> s[i] as int < 256
  {
    seq(|s|, i requires 0 <= i < |s| => s[i] as int as byte)
  }

  const COLON: byte := 58

  /** A host without a port gets the default one. */
  function ConnectTarget(host: Bytes): Bytes {
    if COLON in host then host else host + Ascii(":443")
  }

  method HandleConnect(br: BufReader, host: Bytes, client: Conn, upstream: Conn, online: bool, codec: Codec,
                       failure: Failure -> Bytes) returns (out: Outcome)
    requires br.source == client.incoming
    requires client.incoming != upstream.incoming && client.outgoing != upstream.outgoing
    modifies br, client.incoming, client.outgoing, upstream.incoming, upstream.outgoing
    ensures var line, answer := RequestLine(ConnectTarget(host), codec), NextLine([], old(upstream.incoming.chunks));
            var obstacle := Obstacle(online, line, old(upstream.outgoing.room), answer, codec);
            && client.outgoing.data == old(client.outgoing.data)
                                    + Fitting(Heard(Dialect(CONNECT_OK, failure), obstacle, answer),
                                              old(client.outgoing.room))
            && Serves(out, obstacle, online, line, old(br.Pending()), old(br.Fed()),
                      Written(old(upstream.outgoing.data), old(upstream.outgoing.room), upstream.outgoing.data),
                      old(client.outgoing.room), CONNECT_OK, if answer.Line? then Flatten(answer.chunks) else [])
  {
    out := Serve(br, ConnectTarget(host), client, upstream, online, codec, Dialect(CONNECT_OK, failure));
  }

  // The SOCKS front end.

  /** The gate's and the pool's decisions, and the text of a target. */
  datatype Env = Env(
    verify: Credentials -> bool,
    allow: Credentials -> bool,
    online: bool,
    text: Request -> Bytes,
    codec: Codec)

  const SOCKS: Dialect := Dialect(Reply(REP_SUCCESS), SocksFailure)

  function SocksFailure(f: Failure): Bytes {
    match f
    case NoAgent => Reply(REP_NET_UNREACHABLE)
    case StreamFailed => Reply(REP_HOST_UNREACHABLE)
    case BadReply => Reply(REP_GENERAL)
    case TargetRefused => Reply(REP_REFUSED)
  }

  /** The client's three messages. */
  datatype Session = Session(login: Login, request: Request)

  datatype Login = Login(methods: Bytes, credentials: Credentials)

  /** One exchange: what the server tells the client in answer to a message,
      and, if the session goes on, the message and the bytes after it. */
  datatype Talk<+T> = Talk(told: Bytes, next: Option<(T, Bytes)>)

  function GreetingTalk(b: Bytes): Talk<Bytes> {
    match ParseGreeting(b)
    case Good(methods, rest) =>
      if AUTH_USER_PASS in methods then Talk([VERSION, AUTH_USER_PASS], Some((methods, rest)))
      else Talk([VERSION, AUTH_NONE_ACCEPTABLE], None)
    case _ => Talk([], None)
  }

  function LoginTalk(b: Bytes, env: Env): Talk<Credentials> {
    match ParseUserPass(b)
    case Good(c, rest) =>
      if env.verify(c) && env.allow(c) then Talk([AUTH_VERSION, 0], Some((c, rest))) else Talk([AUTH_VERSION, 1], None)
    case _ => Talk([], None)
  }

  function RequestTalk(b: Bytes): Talk<Request> {
    match ParseRequest(b)
    case Good(r, rest) => Talk([], Some((r, rest)))
    case Refused(code) => Talk(Reply(code), None)
    case Bad => Talk([], None)
  }

  /** The exchange that follows an accepted greeting. */
  function OrderTalk(b: Bytes, env: Env): Talk<(Credentials, Request)> {
    var l := LoginTalk(b, env);
    if l.next.None? then Talk(l.told, None)
    else
      var r := RequestTalk(l.next.value.1);
      Talk(l.told + r.told, if r.next.None? then None else Some(((l.next.value.0, r.next.value.0), r.next.value.1)))
  }

  /** The client's three messages, answered up to the request. */
  function SessionTalk(b: Bytes, env: Env): Talk<Session> {
    var g := GreetingTalk(b);
    if g.next.None? then Talk(g.told, None)
    else
      var o := OrderTalk(g.next.value.1, env);
      Talk(g.told + o.told,
           if o.next.None? then None
           else Some((Session(Login(g.next.value.0, o.next.value.0.0), o.next.value.0.1), o.next.value.1)))
  }

  /** The talk took place as far as the client could take it, and went on if it
      took everything. */
  twostate predicate Took(told: Bytes, more: bool, conn: Sink, goes: bool)
    reads conn
  {
    && conn.data == old(conn.data) + Fitting(told, old(conn.room))
    && conn.room == old(conn.room) - |Fitting(told, old(conn.room))|
    && (goes <==> more && |told| <= old(conn.room))
  }

  method Greet(br: BufReader, conn: Sink) returns (r: Option<Bytes>, why: Outcome)
    modifies br, br.source, conn
    ensures var talk := GreetingTalk(old(br.Pending()));
            && Took(talk.told, talk.next.Some?, conn, r.Some?)
            && (r.Some? ==> talk.next == Some((r.value, br.Pending())) && br.Advanced())
    ensures !why.Relayed? && !why.Failed?
  {
    why := Dropped;
    r := ReadGreeting(br);
    if r.None? {
      return;
    }
    if AUTH_USER_PASS !in r.value {
      var _ := conn.Write([VERSION, AUTH_NONE_ACCEPTABLE]);
      return None, NoAcceptableMethod;
    }
    var n := conn.Write([VERSION, AUTH_USER_PASS]);
    if n < 2 {
      r := None;
    }
  }

  method LogIn(br: BufReader, conn: Sink, env: Env) returns (r: Option<Credentials>, why: Outcome)
    modifies br, br.source, conn
    ensures var talk := LoginTalk(old(br.Pending()), env);
            && Took(talk.told, talk.next.Some?, conn, r.Some?)
            && (r.Some? ==> talk.next == Some((r.value, br.Pending())) && br.Advanced())
    ensures !why.Relayed? && !why.Failed?
  {
    why := Dropped;
    r := ReadUserPass(br);
    if r.None? {
      return;
    }
    if !env.verify(r.value) || !env.allow(r.value) {
      var _ := conn.Write([AUTH_VERSION, 1]);
      return None, Denied;
    }
    var n := conn.Write([AUTH_VERSION, 0]);
    if n < 2 {
      r := None;
    }
  }

  method AcceptRequest(br: BufReader, conn: Sink) returns (r: Option<Request>)
    modifies br, br.source, conn
    ensures var talk := RequestTalk(old(br.Pending()));
            && Took(talk.told, talk.next.Some?, conn, r.Some?)
            && (r.Some? ==> talk.next == Some((r.value, br.Pending())) && br.Advanced())
  {
    r := ReadRequest(br, conn);
  }

  method TakeOrder(br: BufReader, conn: Sink, env: Env) returns (r: Option<(Credentials, Request)>, why: Outcome)
    modifies br, br.source, conn
    ensures var talk := OrderTalk(old(br.Pending()), env);
            && Took(talk.told, talk.next.Some?, conn, r.Some?)
            && (r.Some? ==> talk.next == Some((r.value, br.Pending())) && br.Advanced())
    ensures !why.Relayed? && !why.Failed?
  {
    hide LoginTalk, RequestTalk, Advance, Flatten;
    ghost var l, fed := LoginTalk(br.Pending(), env), br.Fed();
    var c;
    c, why := LogIn(br, conn, env);
    if c.None? {
      if l.next.Some? { FittingConcat(l.told, RequestTalk(l.next.value.1).told, old(conn.room)); }
      return None, why;
    }
    FittingConcat(l.told, RequestTalk(br.Pending()).told, old(conn.room));
    ghost var taken := |fed.All()| - |br.Pending()|;
    var q := AcceptRequest(br, conn);
    if q.Some? { AdvanceTwice(fed, taken, |fed.All()| - |br.Pending()| - taken); }
    r := if q.None? then None else Some((c.value, q.value));
  }

  function SessionLine(s: Session, env: Env): Bytes {
    RequestLine(env.text(s.request), env.codec)
  }

  function SessionObstacle(s: Session, env: Env, room: nat, answer: LineRead): Option<Failure> {
    Obstacle(env.online, SessionLine(s, env), room, answer, env.codec)
  }

  /** Everything a client hears if no write to it fails; room is the agent's. */
  function Transcript(talk: Talk<Session>, env: Env, room: nat, answer: LineRead): Bytes {
    talk.told
    + if talk.next.None? then []
      else Heard(SOCKS, SessionObstacle(talk.next.value.0, env, room, answer), answer)
  }

  /** All that comes of a connection at the agent and in the server's counts:
      only a session whose messages were answered gets anywhere.  The client's
      bytes are b, fed as they are. */
  ghost predicate ServesSession(out: Outcome, talk: Talk<Session>, b: Bytes, fed: Feed, env: Env, answer: LineRead,
                                toAgent: Written, room: nat) {
    if talk.next.Some? && |talk.told| <= room then
      var (s, rest) := talk.next.value;
      && |rest| <= |b|
      && Serves(out, SessionObstacle(s, env, toAgent.room, answer), env.online, SessionLine(s, env), rest,
                Advance(fed, |b| - |rest|),
                toAgent, room - |talk.told|, Reply(REP_SUCCESS), if answer.Line? then Flatten(answer.chunks) else [])
    else
      !out.Relayed? && !out.Failed? && toAgent.after == toAgent.before
  }

  method ReadSession(br: BufReader, conn: Sink, env: Env) returns (r: Option<Session>, why: Outcome)
    modifies br, br.source, conn
    ensures var talk := SessionTalk(old(br.Pending()), env);
            && Took(talk.told, talk.next.Some?, conn, r.Some?)
            && (r.Some? ==> talk.next == Some((r.value, br.Pending())) && br.Advanced())
    ensures !why.Relayed? && !why.Failed?
  {
    hide GreetingTalk, OrderTalk, Advance, Flatten;
    ghost var g, fed := GreetingTalk(br.Pending()), br.Fed();
    var methods;
    methods, why := Greet(br, conn);
    if methods.None? {
      if g.next.Some? { FittingConcat(g.told, OrderTalk(g.next.value.1, env).told, old(conn.room)); }
      return None, why;
    }
    FittingConcat(g.told, OrderTalk(br.Pending(), env).told, old(conn.room));
    ghost var taken := |fed.All()| - |br.Pending()|;
    var order;
    order, why := TakeOrder(br, conn, env);
    if order.Some? { AdvanceTwice(fed, taken, |fed.All()| - |br.Pending()| - taken); }
    r := if order.None? then None else Some(Session(Login(methods.value, order.value.0), order.value.1));
  }

  /** One SOCKS connection, from the greeting to the end of the relay. */
  method HandleSocks(client: Conn, upstream: Conn, env: Env) returns (out: Outcome)
    requires client.incoming != upstream.incoming && client.outgoing != upstream.outgoing
    modifies client.incoming, client.outgoing, upstream.incoming, upstream.outgoing
    ensures var b, answer := Flatten(old(client.incoming.chunks)), NextLine([], old(upstream.incoming.chunks));
            var talk := SessionTalk(b, env);
            && client.outgoing.data == old(client.outgoing.data)
                                    + Fitting(Transcript(talk, env, old(upstream.outgoing.room), answer),
                                              old(client.outgoing.room))
            && ServesSession(out, talk, b, Feed([], old(client.incoming.chunks)), env, answer,
                             Written(old(upstream.outgoing.data), old(upstream.outgoing.room), upstream.outgoing.data),
                             old(client.outgoing.room))
  {
    hide SessionTalk, Transcript, Heard, Obstacle, Serves, NextLine, Reply, Advance, Fitting;
    var br := new BufReader(client.incoming);
    ghost var b := Flatten(client.incoming.chunks);
    assert br.Pending() == b;
    ghost var talk, answer := SessionTalk(b, env), NextLine([], upstream.incoming.chunks);
    var session, why := ReadSession(br, client.outgoing, env);
    TranscriptGoesOn(talk, env, old(upstream.outgoing.room), answer, old(client.outgoing.room));
    if session.None? {
      return why;
    }
    out := Serve(br, env.text(session.value.request), client, upstream, env.online, env.codec, SOCKS);
  }

  /** A client hears first the answers to its messages, then the rest. */
  lemma TranscriptGoesOn(talk: Talk<Session>, env: Env, agentRoom: nat, answer: LineRead, room: nat)
    ensures |Fitting(talk.told, room)| == Min(|talk.told|, room)
    ensures Fitting(Transcript(talk, env, agentRoom, answer), room)
         == Fitting(talk.told, room)
            + if talk.next.None? || room < |talk.told| then []
              else Fitting(Heard(SOCKS, SessionObstacle(talk.next.value.0, env, agentRoom, answer), answer),
                           room - |talk.told|)
  {
    hide SessionObstacle, Heard;
    if talk.next.Some? {
      FittingConcat(talk.told, Heard(SOCKS, SessionObstacle(talk.next.value.0, env, agentRoom, answer), answer), room);
    }
  }

  // The agent's side.

  class Counters {
    var bytesIn: nat
    var bytesOut: nat

    constructor ()
      ensures bytesIn == 0 && bytesOut == 0
    {
      bytesIn, bytesOut := 0, 0;
    }
  }

  function ReplyLine(ok: bool, codec: Codec): Bytes {
    codec.reply(ok) + [NEWLINE]
  }

  /** The agent will reach the target this stream asks for. */
  predicate Reachable(request: LineRead, codec: Codec, allowed: Bytes -> bool, dials: Bytes -> bool) {
    && request.Line?
    && var t := codec.parseRequest(request.line);
       t.Some? && allowed(t.value) && dials(t.value)
  }

  /** The target that the agent dials, if the request can be read and is allowed. */
  function Dialled(request: LineRead, codec: Codec, allowed: Bytes -> bool): Option<Bytes> {
    if request.Eof? then None
    else
      var t := codec.parseRequest(request.line);
      if t.Some? && allowed(t.value) then t else None
  }

  /** The agent's answer: none to a request it cannot read. */
  function AgentAnswer(request: LineRead, codec: Codec, allowed: Bytes -> bool, dials: Bytes -> bool): Bytes {
    if request.Eof? || codec.parseRequest(request.line).None? then []
    else ReplyLine(Reachable(request, codec, allowed, dials), codec)
  }

  /** The agent's copy of the server's hand-over, counted as it goes. */
  method AgentTunnel(br: BufReader, stream: Conn, target: Conn, c: Counters)
    requires br.source == stream.incoming
    requires stream.incoming != target.incoming && stream.outgoing != target.outgoing
    modifies br, stream.incoming, stream.outgoing, target.incoming, target.outgoing, c
    ensures var up := Fitting(old(br.Pending()), old(target.outgoing.room));
            && target.outgoing.data == old(target.outgoing.data) + up
            && c.bytesOut == old(c.bytesOut) + HandedOver(old(br.Fed()), old(target.outgoing.room))
    ensures var down := Fitting(Flatten(old(target.incoming.chunks)), old(stream.outgoing.room));
            && stream.outgoing.data == old(stream.outgoing.data) + down
            && c.bytesIn == old(c.bytesIn) + |down|
  {
    FittingConcat(br.buf, Flatten(stream.incoming.chunks), target.outgoing.room);
    var n := Drain(br, target.outgoing);
    c.bytesOut := c.bytesOut + n;
    var i, o := Pipe(stream, target, 0, 0);
    c.bytesIn, c.bytesOut := c.bytesIn + i, c.bytesOut + o;
  }

  /** Reads the request and answers it; the reader may have buffered more. */
  method ReadProxyRequest(stream: Conn, codec: Codec, allowed: Bytes -> bool, dials: Bytes -> bool)
      returns (ready: bool, br: BufReader, dialled: Option<Bytes>)
    modifies stream.incoming, stream.outgoing
    ensures fresh(br) && br.source == stream.incoming
    ensures dialled == Dialled(NextLine([], old(stream.incoming.chunks)), codec, allowed)
    ensures ready <==>
              && Reachable(NextLine([], old(stream.incoming.chunks)), codec, allowed, dials)
              && |ReplyLine(true, codec)| <= old(stream.outgoing.room)
    ensures ready ==>
              var request := NextLine([], old(stream.incoming.chunks));
              && br.buf == request.buffered && stream.incoming.chunks == request.chunks
              && stream.outgoing.room == old(stream.outgoing.room) - |ReplyLine(true, codec)|
    ensures stream.outgoing.data == old(stream.outgoing.data)
              + Fitting(AgentAnswer(NextLine([], old(stream.incoming.chunks)), codec, allowed, dials),
                        old(stream.outgoing.room))
  {
    br := new BufReader(stream.incoming);
    dialled := None;
    var ok, line := br.ReadLine();
    if !ok || codec.parseRequest(line).None? {
      return false, br, None;
    }
    var t := codec.parseRequest(line).value;
    if !allowed(t) {
      ok := WriteJsonLine(stream.outgoing, codec.reply(false));
      return false, br, None;
    }
    dialled := Some(t);
    if !dials(t) {
      ok := WriteJsonLine(stream.outgoing, codec.reply(false));
      return false, br, dialled;
    }
    ready := WriteJsonLine(stream.outgoing, codec.reply(true));
  }

  /** One stream from the server: target stands for the connection that dialing
      would give. */
  method HandleStream(stream: Conn, target: Conn, codec: Codec, allowed: Bytes -> bool, dials: Bytes -> bool,
                      c: Counters)
      returns (served: bool, dialled: Option<Bytes>)
    requires stream.incoming != target.incoming && stream.outgoing != target.outgoing
    modifies stream.incoming, stream.outgoing, target.incoming, target.outgoing, c
    ensures dialled == Dialled(NextLine([], old(stream.incoming.chunks)), codec, allowed)
    ensures served <==>
              && Reachable(NextLine([], old(stream.incoming.chunks)), codec, allowed, dials)
              && |ReplyLine(true, codec)| <= old(stream.outgoing.room)
    ensures served ==>
              var request := NextLine([], old(stream.incoming.chunks));
              var rest := request.buffered + Flatten(request.chunks);
              var up := Fitting(rest, old(target.outgoing.room));
              && target.outgoing.data == old(target.outgoing.data) + up
              && c.bytesOut
                   == old(c.bytesOut) + HandedOver(Feed(request.buffered, request.chunks), old(target.outgoing.room))
              && c.bytesIn
                   == old(c.bytesIn) + |stream.outgoing.data| - |old(stream.outgoing.data)| - |ReplyLine(true, codec)|
    ensures var request := NextLine([], old(stream.incoming.chunks));
            stream.outgoing.data == old(stream.outgoing.data)
              + Fitting(AgentAnswer(request, codec, allowed, dials)
                        + (if Reachable(request, codec, allowed, dials) then Flatten(old(target.incoming.chunks))
                          else []),
                        old(stream.outgoing.room))
    ensures !served ==> c.bytesIn == old(c.bytesIn) && c.bytesOut == old(c.bytesOut)
                        && target.outgoing.data == old(target.outgoing.data)
  {
    hide NextLine, Flatten, HandedOver, Dialled, RequestLine;
    ghost var request := NextLine([], stream.incoming.chunks);
    var br;
    served, br, dialled := ReadProxyRequest(stream, codec, allowed, dials);
    if served {
      FittingAfter(ReplyLine(true, codec), Flatten(target.incoming.chunks), old(stream.outgoing.room));
      AgentTunnel(br, stream, target, c);
    } else if Reachable(request, codec, allowed, dials) {
      FittingBefore(ReplyLine(true, codec), Flatten(target.incoming.chunks), old(stream.outgoing.room));
    } else {
      assert AgentAnswer(request, codec, allowed, dials) + [] == AgentAnswer(request, codec, allowed, dials);
    }
  }
}
