/** Both hops together: what a whole SOCKS or CONNECT relay moves in each
    direction, for every way each stream is cut into reads. */
module TwoHops {
  import opened Basics
  import opened Streams
  import opened Socks
  import opened Relay

  /** The reply line comes first on the stream from the agent; what the server
      passes on is what it reads after the read that completed that line. */
  function PassedOn(chunks: seq<Bytes>): Bytes {
    match NextLine([], chunks)
    case Line(_, _, later) => Flatten(later)
    case Eof => []
  }

  /** Upstream nothing is lost: whatever the chunks, the buffered bytes and the
      later reads together are exactly what followed the line. */
  lemma UpstreamIsConserved(chunks: seq<Bytes>, line: Bytes, rest: Bytes)
    requires IsLine(line) && Flatten(chunks) == line + rest
    ensures var r := NextLine([], chunks);
            r.Line? && r.line == line && r.buffered + Flatten(r.chunks) == rest
  {
    assert [] + Flatten(chunks) == Flatten(chunks);
    NextLineIsChunkIndependent([], chunks, line, rest);
  }

  /** Downstream exactly the bytes that the reply reader had buffered are lost. */
  lemma DownstreamLosesTheBuffer(chunks: seq<Bytes>, line: Bytes, rest: Bytes)
    requires IsLine(line) && Flatten(chunks) == line + rest
    ensures var r := NextLine([], chunks);
            r.Line? && |r.buffered| <= |rest| && PassedOn(chunks) == rest[|r.buffered|..]
  {
    UpstreamIsConserved(chunks, line, rest);
  }

  /** So everything is passed on exactly when some read ended with the reply line. */
  lemma DownstreamIsCompleteIff(chunks: seq<Bytes>, line: Bytes, rest: Bytes)
    requires IsLine(line) && Flatten(chunks) == line + rest
    ensures PassedOn(chunks) == rest <==> BoundaryAfter([], chunks, line)
  {
    DownstreamLosesTheBuffer(chunks, line, rest);
    assert [] + Flatten(chunks) == Flatten(chunks);
    BufferedIffNoBoundary([], chunks, line, rest);
  }

  /** For instance nothing at all is passed on when the reply and the target's
      bytes arrive in one read. */
  lemma OneReadLosesEverything(line: Bytes, rest: Bytes)
    requires IsLine(line) && rest != []
    ensures PassedOn([line + rest]) == [] != rest
  {
    assert Flatten([line + rest]) == line + rest;
    DownstreamLosesTheBuffer([line + rest], line, rest);
    LineEndOfConcat(line, rest);
    assert [] + (line + rest) == line + rest;
    assert NextLine([] + (line + rest), []) == NextLine([], [line + rest]);
  }

  /** Any way of cutting the data into reads. */
  method Cut(data: Bytes) returns (chunks: seq<Bytes>)
    ensures Flatten(chunks) == data
  {
    assert Flatten([data]) == data;
    chunks :| Flatten(chunks) == data;
  }

  /** A connection that will deliver chunks and never breaks before room bytes. */
  method Connect(chunks: seq<Bytes>, room: nat) returns (c: Conn)
    ensures fresh(c) && fresh(c.incoming) && fresh(c.outgoing)
    ensures c.incoming.chunks == chunks && c.outgoing.data == [] && c.outgoing.room == room
  {
    var incoming := new Source(chunks);
    var outgoing := new Sink(room);
    c := new Conn(incoming, outgoing);
  }

  /** The agent's reply line says that the target was reached. */
  predicate Confirmed(answer: LineRead, codec: Codec) {
    answer.Line? && codec.parseReply(answer.line) == Some(true)
  }

  /** What comes of a target when an agent confirms it and no write fails. */
  lemma ServedInFull(out: Outcome, line: Bytes, rest: Bytes, fed: Feed, toAgent: Written, codec: Codec,
                     answer: LineRead, room: nat, d: Dialect)
    requires Confirmed(answer, codec)
    requires Serves(out, Obstacle(true, line, toAgent.room, answer, codec), true, line, rest, fed, toAgent, room,
                    d.success, Flatten(answer.chunks))
    requires |line + rest| <= toAgent.room && |d.success + Flatten(answer.chunks)| <= room
    ensures Heard(d, Obstacle(true, line, toAgent.room, answer, codec), answer) == d.success + Flatten(answer.chunks)
    ensures out == Relayed(|Flatten(answer.chunks)|, |rest|) && toAgent.after == toAgent.before + (line + rest)
  {
    hide Flatten;
  }

  /** The server's hop of a SOCKS session when no write fails. */
  method ServerHop(clientChunks: seq<Bytes>, agentChunks: seq<Bytes>, env: Env)
      returns (outcome: Outcome, toAgent: Bytes, toClient: Bytes)
    requires SessionTalk(Flatten(clientChunks), env).next.Some?
    requires env.online && Confirmed(NextLine([], agentChunks), env.codec)
    ensures var talk := SessionTalk(Flatten(clientChunks), env);
            var (s, rest) := talk.next.value;
            && toAgent == SessionLine(s, env) + rest
            && outcome == Relayed(|PassedOn(agentChunks)|, |rest|)
            && toClient == talk.told + (Reply(REP_SUCCESS) + PassedOn(agentChunks))
  {
    hide SessionTalk, Serves, Obstacle, Heard, Flatten, NextLine, Reply, Advance, Fitting, SessionLine;
    var talk := SessionTalk(Flatten(clientChunks), env);
    var (s, rest) := talk.next.value;
    var room := |SessionLine(s, env) + rest| + |talk.told| + |Reply(REP_SUCCESS) + PassedOn(agentChunks)|;
    var client := Connect(clientChunks, room);
    var upstream := Connect(agentChunks, room);
    outcome := HandleSocks(client, upstream, env);
    toAgent, toClient := upstream.outgoing.data, client.outgoing.data;
    var answer := NextLine([], agentChunks);
    ServedInFull(outcome, SessionLine(s, env), rest,
                 Advance(Feed([], clientChunks), |Flatten(clientChunks)| - |rest|), Written([], room, toAgent),
                 env.codec, answer, room - |talk.told|, SOCKS);
    FittingAll(Transcript(talk, env, room, answer), room);
  }

  /** The same for CONNECT; early is what arrived together with the head. */
  method ConnectHop(early: Bytes, clientChunks: seq<Bytes>, agentChunks: seq<Bytes>, host: Bytes, codec: Codec,
                    failure: Failure -> Bytes) returns (outcome: Outcome, toAgent: Bytes, toClient: Bytes)
    requires Confirmed(NextLine([], agentChunks), codec)
    ensures var rest := early + Flatten(clientChunks);
            && toAgent == RequestLine(ConnectTarget(host), codec) + rest
            && outcome == Relayed(|PassedOn(agentChunks)|, |rest|)
    ensures toClient == CONNECT_OK + PassedOn(agentChunks)
  {
    hide Serves, Obstacle, Heard, Flatten, NextLine, Fitting, RequestLine, ConnectTarget;
    var rest, line := early + Flatten(clientChunks), RequestLine(ConnectTarget(host), codec);
    var room := |line + rest| + |CONNECT_OK + PassedOn(agentChunks)|;
    var client := Connect(clientChunks, room);
    var upstream := Connect(agentChunks, room);
    var br := new BufReader(client.incoming);
    br.buf := early;
    outcome := HandleConnect(br, host, client, upstream, true, codec, failure);
    toAgent, toClient := upstream.outgoing.data, client.outgoing.data;
    var answer, d := NextLine([], agentChunks), Dialect(CONNECT_OK, failure);
    ServedInFull(outcome, line, rest, Feed(early, clientChunks), Written([], room, toAgent), codec, answer, room, d);
    FittingAll(CONNECT_OK + Flatten(answer.chunks), room);
  }

  /** The agent's hop when no write fails, with its counters.  The request is for
      target, and reads back as one for t, which the agent can reach. */
  method AgentHop(streamChunks: seq<Bytes>, targetChunks: seq<Bytes>, codec: Codec,
                  allowed: Bytes -> bool, dials: Bytes -> bool, ghost target: Bytes, ghost t: Bytes, ghost rest: Bytes)
      returns (dialled: Option<Bytes>, toTarget: Bytes, toServer: Bytes, bytesIn: nat, bytesOut: nat)
    requires codec.Carries(target, t) && allowed(t) && dials(t)
    requires Flatten(streamChunks) == RequestLine(target, codec) + rest
    ensures dialled == Some(t) && toTarget == rest && bytesOut == |rest|
    ensures toServer == ReplyLine(true, codec) + Flatten(targetChunks) && bytesIn == |Flatten(targetChunks)|
  {
    DocumentIsLine(codec.request(target));
    UpstreamIsConserved(streamChunks, RequestLine(target, codec), rest);
    var room := |Flatten(streamChunks)| + |ReplyLine(true, codec) + Flatten(targetChunks)|;
    var stream := Connect(streamChunks, room);
    var conn := Connect(targetChunks, room);
    var counters := new Counters();
    var served;
    served, dialled := HandleStream(stream, conn, codec, allowed, dials, counters);
    toTarget, toServer := conn.outgoing.data, stream.outgoing.data;
    bytesIn, bytesOut := counters.bytesIn, counters.bytesOut;
  }

  lemma ReplyIsRead(agentChunks: seq<Bytes>, fromTarget: Bytes, codec: Codec)
    requires codec.Confirms() && Flatten(agentChunks) == ReplyLine(true, codec) + fromTarget
    ensures IsLine(ReplyLine(true, codec)) && Confirmed(NextLine([], agentChunks), codec)
  {
    DocumentIsLine(codec.reply(true));
    UpstreamIsConserved(agentChunks, ReplyLine(true, codec), fromTarget);
  }

  /** A client's three messages, as the RFCs lay them out, and what follows them. */
  function Sent(s: Session, reserved: byte, rest: Bytes): Bytes
    requires Encodes(s)
  {
    EncodeGreeting(s.login.methods)
      + (EncodeUserPass(s.login.credentials) + (EncodeRequest(s.request, reserved) + rest))
  }

  predicate Encodes(s: Session) {
    && |s.login.methods| < 256 && |s.login.credentials.username| < 256 && |s.login.credentials.password| < 256
    && Encodable(s.request)
  }

  predicate LetIn(s: Session, env: Env) {
    AUTH_USER_PASS in s.login.methods && env.verify(s.login.credentials) && env.allow(s.login.credentials)
  }

  lemma GreetingAnswered(methods: Bytes, b: Bytes)
    requires |methods| < 256 && AUTH_USER_PASS in methods
    ensures GreetingTalk(EncodeGreeting(methods) + b) == Talk([VERSION, AUTH_USER_PASS], Some((methods, b)))
  {
    GreetingInvertsEncoding(EncodeGreeting(methods) + b, methods, b);
  }

  lemma OrderAnswered(c: Credentials, r: Request, reserved: byte, rest: Bytes, env: Env)
    requires |c.username| < 256 && |c.password| < 256 && Encodable(r)
    requires env.verify(c) && env.allow(c)
    ensures OrderTalk(EncodeUserPass(c) + (EncodeRequest(r, reserved) + rest), env)
         == Talk([AUTH_VERSION, 0], Some(((c, r), rest)))
  {
    hide ParseUserPass, ParseRequest, EncodeUserPass, EncodeRequest;
    var b := EncodeRequest(r, reserved) + rest;
    UserPassInvertsEncoding(EncodeUserPass(c) + b, c, b);
    RequestParses(r, reserved, rest);
    assert [AUTH_VERSION, 0] + [] == [AUTH_VERSION, 0];
  }

  const LOGIN_REPLIES: Bytes := [VERSION, AUTH_USER_PASS, AUTH_VERSION, 0]

  /** What the server tells a client before it relays. */
  const WELCOME: Bytes := LOGIN_REPLIES + Reply(REP_SUCCESS)

  /** A client that sends its three messages as the RFCs lay them out and is let
      in has them answered and read back, and everything it sends afterwards is
      left over. */
  lemma SessionInvertsEncoding(s: Session, reserved: byte, rest: Bytes, env: Env)
    requires Encodes(s) && LetIn(s, env)
    ensures SessionTalk(Sent(s, reserved, rest), env) == Talk(LOGIN_REPLIES, Some((s, rest)))
  {
    hide GreetingTalk, OrderTalk, EncodeGreeting, EncodeUserPass, EncodeRequest;
    GreetingAnswered(s.login.methods,
                     EncodeUserPass(s.login.credentials) + (EncodeRequest(s.request, reserved) + rest));
    OrderAnswered(s.login.credentials, s.request, reserved, rest, env);
  }

  lemma GreetingWasEncoded(b: Bytes)
    requires GreetingTalk(b).next.Some?
    ensures var (methods, rest) := GreetingTalk(b).next.value;
            |methods| < 256 && AUTH_USER_PASS in methods && b == EncodeGreeting(methods) + rest
  {
    var (methods, rest) := GreetingTalk(b).next.value;
    GreetingInvertsEncoding(b, methods, rest);
  }

  lemma LoginWasEncoded(b: Bytes, env: Env)
    requires LoginTalk(b, env).next.Some?
    ensures var (c, rest) := LoginTalk(b, env).next.value;
            && |c.username| < 256 && |c.password| < 256 && env.verify(c) && env.allow(c)
            && b == EncodeUserPass(c) + rest
  {
    CountedParsesOnlyItself(b[1..]);
    CountedParsesOnlyItself(ParseCounted(b[1..]).rest);
    var (c, rest) := LoginTalk(b, env).next.value;
    UserPassInvertsEncoding(b, c, rest);
  }

  /** And only such clients get through: every session the server accepts was
      sent that way and let in. */
  lemma AcceptedSessionWasSent(b: Bytes, env: Env) returns (reserved: byte)
    requires SessionTalk(b, env).next.Some?
    ensures var (s, rest) := SessionTalk(b, env).next.value;
            Encodes(s) && LetIn(s, env) && b == Sent(s, reserved, rest)
  {
    var (methods, b1) := GreetingTalk(b).next.value;
    var (c, b2) := LoginTalk(b1, env).next.value;
    GreetingWasEncoded(b);
    LoginWasEncoded(b1, env);
    RequestParsesOnlyItself(b2);
    reserved := b2[2];
  }

  // Such codecs exist: this one escapes newlines, and carries every target unchanged.

  function EscapeByte(x: byte): Bytes {
    if x == NEWLINE then [0, 1] else if x == 0 then [0, 0] else [x]
  }

  function Escape(b: Bytes): Bytes {
    if b == [] then [] else EscapeByte(b[0]) + Escape(b[1..])
  }

  function Unescape(s: Bytes): Option<Bytes>
    decreases |s|
  {
    if s == [NEWLINE] then Some([])
    else if |s| < 2 then None
    else
      var n := if s[0] == 0 then 2 else 1;
      var first := if s[0] == 0 && s[1] == 1 then NEWLINE else s[0];
      match Unescape(s[n..])
      case Some(b) => Some([first] + b)
      case None => None
  }

  lemma UnescapeByte(x: byte, tail: Bytes, b: Bytes)
    requires tail != [] && Unescape(tail) == Some(b)
    ensures Unescape(EscapeByte(x) + tail) == Some([x] + b)
  {
    var s := EscapeByte(x) + tail;
    assert s[|EscapeByte(x)|..] == tail;
  }

  lemma {:induction false} EscapedHasNoNewline(b: Bytes)
    ensures NEWLINE !in Escape(b)
  {
    if b != [] { EscapedHasNoNewline(b[1..]); }
  }

  lemma {:induction false} EscapedIsRead(b: Bytes)
    ensures Unescape(Escape(b) + [NEWLINE]) == Some(b)
  {
    if b == [] {
      assert Escape(b) + [NEWLINE] == [NEWLINE];
    } else {
      var tail := Escape(b[1..]) + [NEWLINE];
      EscapedIsRead(b[1..]);
      UnescapeByte(b[0], tail, b[1..]);
      assert Escape(b) + [NEWLINE] == EscapeByte(b[0]) + tail;
      assert [b[0]] + b[1..] == b;
    }
  }

  lemma CodecExists() returns (c: Codec)
    ensures c.Confirms() && forall t: Bytes :: c.Carries(t, t)
  {
    c := Codec(Escape, Unescape,
               (ok: bool) => if ok then [65] else [66],
               (s: Bytes) => if s == [65, NEWLINE] then Some(true)
                             else if s == [66, NEWLINE] then Some(false) else None);
    forall t: Bytes ensures c.Carries(t, t) {
      EscapedHasNoNewline(t);
      EscapedIsRead(t);
    }
  }

  datatype Transfer = Transfer(
    dialled: Option<Bytes>, toTarget: Bytes, toClient: Bytes, outcome: Outcome, agentIn: nat, agentOut: nat)

  /** What an unbroken relay moves.  Upstream: exactly the bytes after the
      request, counted alike on both sides.  Downstream: what the server passed
      on of the target's bytes; the agent counts all of them, the server only
      those, and they are all of them exactly when a read ended with the reply. */
  ghost predicate Conserved(t: Transfer, rest: Bytes, greeting: Bytes, agentChunks: seq<Bytes>, reply: Bytes,
                            fromTarget: Bytes) {
    && t.toTarget == rest && t.agentOut == |rest| && t.agentIn == |fromTarget|
    && t.outcome == Relayed(|PassedOn(agentChunks)|, |rest|)
    && t.toClient == greeting + PassedOn(agentChunks)
    && (PassedOn(agentChunks) == fromTarget <==> BoundaryAfter([], agentChunks, reply))
  }

  /** A SOCKS session through server and agent.  The server reads the agent's
      stream in the pieces agentChunks; the result says that these are indeed the
      bytes the agent sends. */
  method SocksSession(clientChunks: seq<Bytes>, targetChunks: seq<Bytes>, agentChunks: seq<Bytes>, env: Env,
                      allowed: Bytes -> bool, dials: Bytes -> bool,
                      ghost s: Session, ghost reserved: byte, ghost rest: Bytes, ghost target: Bytes)
      returns (t: Transfer, fromAgent: Bytes)
    requires Encodes(s) && LetIn(s, env) && Flatten(clientChunks) == Sent(s, reserved, rest)
    requires env.codec.Carries(env.text(s.request), target) && env.codec.Confirms()
    requires env.online && allowed(target) && dials(target)
    requires Flatten(agentChunks) == ReplyLine(true, env.codec) + Flatten(targetChunks)
    ensures fromAgent == Flatten(agentChunks)
    ensures t.dialled == Some(target)
    ensures Conserved(t, rest, WELCOME, agentChunks, ReplyLine(true, env.codec), Flatten(targetChunks))
  {
    hide SessionTalk, Sent, Encodes, LetIn, Reply, ReplyLine, PassedOn, NextLine, Flatten, BoundaryAfter;
    SessionInvertsEncoding(s, reserved, rest, env);
    ReplyIsRead(agentChunks, Flatten(targetChunks), env.codec);
    DownstreamIsCompleteIff(agentChunks, ReplyLine(true, env.codec), Flatten(targetChunks));
    var outcome, toAgent, toClient := ServerHop(clientChunks, agentChunks, env);
    var streamChunks := Cut(toAgent);
    var dialled, toTarget, toServer, i, o :=
      AgentHop(streamChunks, targetChunks, env.codec, allowed, dials, env.text(s.request), target, rest);
    assert LOGIN_REPLIES + (Reply(REP_SUCCESS) + PassedOn(agentChunks)) == WELCOME + PassedOn(agentChunks);
    fromAgent, t := toServer, Transfer(dialled, toTarget, toClient, outcome, i, o);
  }

  /** A CONNECT tunnel through server and agent. */
  method ConnectSession(early: Bytes, clientChunks: seq<Bytes>, targetChunks: seq<Bytes>, agentChunks: seq<Bytes>,
                        host: Bytes, codec: Codec, failure: Failure -> Bytes,
                        allowed: Bytes -> bool, dials: Bytes -> bool, ghost target: Bytes)
      returns (t: Transfer, fromAgent: Bytes)
    requires codec.Carries(ConnectTarget(host), target) && codec.Confirms() && allowed(target) && dials(target)
    requires Flatten(agentChunks) == ReplyLine(true, codec) + Flatten(targetChunks)
    ensures fromAgent == Flatten(agentChunks)
    ensures t.dialled == Some(target)
    ensures Conserved(t, early + Flatten(clientChunks), CONNECT_OK,
                      agentChunks, ReplyLine(true, codec), Flatten(targetChunks))
  {
    ReplyIsRead(agentChunks, Flatten(targetChunks), codec);
    DownstreamIsCompleteIff(agentChunks, ReplyLine(true, codec), Flatten(targetChunks));
    var outcome, toAgent, toClient := ConnectHop(early, clientChunks, agentChunks, host, codec, failure);
    var streamChunks := Cut(toAgent);
    var dialled, toTarget, toServer, i, o :=
      AgentHop(streamChunks, targetChunks, codec, allowed, dials,
               ConnectTarget(host), target, early + Flatten(clientChunks));
    fromAgent, t := toServer, Transfer(dialled, toTarget, toClient, outcome, i, o);
  }
}
