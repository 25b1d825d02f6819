/** Relays that come to nothing: what the client hears, byte by byte, and what
    the agent and the target get, for every answer of the agent's and every point
    at which writes fail. */
module Refusals {
  import opened Basics
  import opened Streams
  import opened Socks
  import opened Relay
  import opened TwoHops

  /** What a client that is let in is told: two answers to its login, a reply of
      RFC 1928, section 6, and perhaps bytes after it. */
  predicate Told(toClient: Bytes, room: nat, status: byte, later: Bytes) {
    toClient == Fitting([5, 2, 1, 0, 5, status, 0, 1, 0, 0, 0, 0, 0, 0] + later, room)
  }

  /** The agent's answer says so much about the target. */
  predicate Says(answer: LineRead, codec: Codec, verdict: Option<bool>) {
    if answer.Line? then codec.parseReply(answer.line) == verdict else verdict == None
  }

  lemma TranscriptOfLetIn(s: Session, rest: Bytes, env: Env, agentRoom: nat, answer: LineRead, room: nat)
    ensures var heard := Fitting(Transcript(Talk(LOGIN_REPLIES, Some((s, rest))), env, agentRoom, answer), room);
            var line := env.codec.request(env.text(s.request)) + [10];
            && (!env.online ==> Told(heard, room, 3, []))
            && (env.online && agentRoom < |line| ==> Told(heard, room, 4, []))
            && (env.online && |line| <= agentRoom && Says(answer, env.codec, None) ==> Told(heard, room, 1, []))
            && (env.online && |line| <= agentRoom && Says(answer, env.codec, Some(false)) ==> Told(heard, room, 5, []))
            && (env.online && |line| <= agentRoom && Says(answer, env.codec, Some(true)) ==>
                  Told(heard, room, 0, Flatten(answer.chunks)))
  {
    hide Fitting, Flatten;
    forall status: byte, later: Bytes
      ensures [5, 2, 1, 0] + (Reply(status) + later) == [5, 2, 1, 0, 5, status, 0, 1, 0, 0, 0, 0, 0, 0] + later
    {
    }
    forall status: byte ensures Reply(status) + [] == Reply(status) {
    }
  }

  lemma OutcomeOfLetIn(out: Outcome, s: Session, rest: Bytes, b: Bytes, fed: Feed, env: Env, answer: LineRead,
                       toAgent: Written, room: nat)
    requires ServesSession(out, Talk(LOGIN_REPLIES, Some((s, rest))), b, fed, env, answer, toAgent, room)
    requires toAgent.before == []
    ensures var line := env.codec.request(env.text(s.request)) + [10];
            && (room < 4 ==> !out.Relayed? && !out.Failed? && toAgent.after == [])
            && (4 <= room && !env.online ==> out == Failed(NoAgent) && toAgent.after == [])
            && (4 <= room && env.online && toAgent.room < |line| ==>
                  out == Failed(StreamFailed) && toAgent.after == line[..toAgent.room])
            && (4 <= room && env.online && |line| <= toAgent.room && Says(answer, env.codec, None) ==>
                  out == Failed(BadReply) && toAgent.after == line)
            && (4 <= room && env.online && |line| <= toAgent.room && Says(answer, env.codec, Some(false)) ==>
                  out == Failed(TargetRefused) && toAgent.after == line)
            && (4 <= room && env.online && |line| <= toAgent.room && Says(answer, env.codec, Some(true)) ==>
                  if room < 14 then out == Dropped && toAgent.after == line
                  else
                    && out.Relayed? && toAgent.after == Fitting(line + rest, toAgent.room)
                    && out.bytesIn == |Fitting(Flatten(answer.chunks), room - 14)|
                    && (|line + rest| <= toAgent.room ==> out.bytesOut == |rest|))
  {
    hide Flatten, Advance;
  }

  lemma ToldLength(toClient: Bytes, room: nat, status: byte, later: Bytes)
    ensures 14 <= room && Told(toClient, room, status, later) ==> |toClient| == 14 + |Fitting(later, room - 14)|
  {
  }

  /** A SOCKS client that is let in, whatever becomes of its request. */
  method LetInHop(clientChunks: seq<Bytes>, agentChunks: seq<Bytes>, env: Env, clientRoom: nat, agentRoom: nat,
                  ghost s: Session, ghost reserved: byte, ghost rest: Bytes)
      returns (outcome: Outcome, toAgent: Bytes, toClient: Bytes)
    requires Encodes(s) && LetIn(s, env) && Flatten(clientChunks) == Sent(s, reserved, rest)
    // A client that breaks off before its log-in is answered gets nowhere.
    ensures clientRoom < 4 ==> !outcome.Relayed? && !outcome.Failed? && toAgent == []
    // No agent is online.
    ensures !env.online ==>
              Told(toClient, clientRoom, 3, []) && toAgent == [] && (4 <= clientRoom ==> outcome == Failed(NoAgent))
    // The request cannot be written.
    ensures var line := env.codec.request(env.text(s.request)) + [10];
            env.online && agentRoom < |line| ==>
              && Told(toClient, clientRoom, 4, [])
              && (4 <= clientRoom ==> outcome == Failed(StreamFailed) && toAgent == line[..agentRoom])
    // The agent's answer is missing or unreadable.
    ensures var line := env.codec.request(env.text(s.request)) + [10];
            env.online && |line| <= agentRoom && Says(NextLine([], agentChunks), env.codec, None) ==>
              && Told(toClient, clientRoom, 1, [])
              && (4 <= clientRoom ==> outcome == Failed(BadReply) && toAgent == line)
    // The agent says no.
    ensures var line := env.codec.request(env.text(s.request)) + [10];
            env.online && |line| <= agentRoom && Says(NextLine([], agentChunks), env.codec, Some(false)) ==>
              && Told(toClient, clientRoom, 5, [])
              && (4 <= clientRoom ==> outcome == Failed(TargetRefused) && toAgent == line)
    // It says yes.
    ensures var line, answer := env.codec.request(env.text(s.request)) + [10], NextLine([], agentChunks);
            env.online && |line| <= agentRoom && Says(answer, env.codec, Some(true)) ==>
              && answer.Line? && Told(toClient, clientRoom, 0, Flatten(answer.chunks))
              && (4 <= clientRoom < 14 ==> outcome == Dropped && toAgent == line)
              && (14 <= clientRoom ==>
                    && outcome.Relayed? && toAgent == Fitting(line + rest, agentRoom)
                    && outcome.bytesIn == |toClient| - 14
                    && (|line + rest| <= agentRoom ==> outcome.bytesOut == |rest|))
  {
    hide SessionTalk, Transcript, ServesSession, Sent, Encodes, LetIn, Told, Fitting, Flatten, NextLine, Advance;
    SessionInvertsEncoding(s, reserved, rest, env);
    var client := Connect(clientChunks, clientRoom);
    var upstream := Connect(agentChunks, agentRoom);
    outcome := HandleSocks(client, upstream, env);
    toAgent, toClient := upstream.outgoing.data, client.outgoing.data;
    var answer := NextLine([], agentChunks);
    ghost var heard := Fitting(Transcript(Talk(LOGIN_REPLIES, Some((s, rest))), env, agentRoom, answer), clientRoom);
    assert [] + heard == heard;
    TranscriptOfLetIn(s, rest, env, agentRoom, answer, clientRoom);
    OutcomeOfLetIn(outcome, s, rest, Flatten(clientChunks), Feed([], clientChunks), env, answer,
                   Written([], agentRoom, toAgent), clientRoom);
    if answer.Line? { ToldLength(toClient, clientRoom, 0, Flatten(answer.chunks)); }
  }

  // Clients that are not let in, or ask for something else than a connection.

  /** A greeting without user/password authentication. */
  lemma NoMethodTalk(methods: Bytes, tail: Bytes, env: Env)
    requires |methods| < 256 && 2 !in methods
    ensures SessionTalk(EncodeGreeting(methods) + tail, env) == Talk([5, 255], None)
  {
    GreetingInvertsEncoding(EncodeGreeting(methods) + tail, methods, tail);
    hide ParseGreeting, EncodeGreeting, OrderTalk;
  }

  lemma GreetedTalk(methods: Bytes, b: Bytes, env: Env)
    requires |methods| < 256 && 2 in methods
    ensures var o, t := OrderTalk(b, env), SessionTalk(EncodeGreeting(methods) + b, env);
            t.told == [5, 2] + o.told && (o.next.None? ==> t.next.None?)
  {
    hide GreetingTalk, OrderTalk, EncodeGreeting;
    GreetingAnswered(methods, b);
  }

  /** Wrong credentials, or too many requests. */
  lemma DeniedTalk(c: Credentials, tail: Bytes, env: Env)
    requires |c.username| < 256 && |c.password| < 256 && !(env.verify(c) && env.allow(c))
    ensures OrderTalk(EncodeUserPass(c) + tail, env) == Talk([1, 1], None)
  {
    UserPassInvertsEncoding(EncodeUserPass(c) + tail, c, tail);
    hide ParseUserPass, EncodeUserPass, RequestTalk;
  }

  /** A command other than CONNECT, or an unknown type of address. */
  lemma UnsupportedTalk(c: Credentials, tail: Bytes, env: Env)
    requires |c.username| < 256 && |c.password| < 256 && env.verify(c) && env.allow(c) && 4 <= |tail| && tail[0] == 5
    ensures tail[1] != 1 ==>
              OrderTalk(EncodeUserPass(c) + tail, env) == Talk([1, 0, 5, 7, 0, 1, 0, 0, 0, 0, 0, 0], None)
    ensures tail[1] == 1 && tail[3] !in {1, 3, 4} ==>
              OrderTalk(EncodeUserPass(c) + tail, env) == Talk([1, 0, 5, 8, 0, 1, 0, 0, 0, 0, 0, 0], None)
  {
    hide ParseUserPass, EncodeUserPass, ParseRequest;
    UserPassInvertsEncoding(EncodeUserPass(c) + tail, c, tail);
    RequestRefused(tail);
    assert [1, 0] + Reply(7) == [1, 0, 5, 7, 0, 1, 0, 0, 0, 0, 0, 0];
    assert [1, 0] + Reply(8) == [1, 0, 5, 8, 0, 1, 0, 0, 0, 0, 0, 0];
  }

  lemma RequestRefused(b: Bytes)
    requires 4 <= |b| && b[0] == 5
    ensures b[1] != 1 ==> ParseRequest(b) == Refused(7)
    ensures b[1] == 1 && b[3] !in {1, 3, 4} ==> ParseRequest(b) == Refused(8)
  {
  }

  /** The two messages of a log-in and what follows them. */
  function SentLogin(methods: Bytes, c: Credentials, tail: Bytes): Bytes
    requires |methods| < 256 && |c.username| < 256 && |c.password| < 256
  {
    EncodeGreeting(methods) + (EncodeUserPass(c) + tail)
  }

  /** Sessions that the server gives up before it knows a target. */
  lemma TurnedAwayTalk(methods: Bytes, c: Credentials, tail: Bytes, env: Env)
    requires |methods| < 256 && |c.username| < 256 && |c.password| < 256 && 2 in methods
    ensures var talk := SessionTalk(SentLogin(methods, c, tail), env);
            if !(env.verify(c) && env.allow(c)) then talk == Talk([5, 2, 1, 1], None)
            else
              && (4 <= |tail| && tail[0] == 5 && tail[1] != 1 ==>
                    talk == Talk([5, 2, 1, 0, 5, 7, 0, 1, 0, 0, 0, 0, 0, 0], None))
              && (4 <= |tail| && tail[0] == 5 && tail[1] == 1 && tail[3] !in {1, 3, 4} ==>
                    talk == Talk([5, 2, 1, 0, 5, 8, 0, 1, 0, 0, 0, 0, 0, 0], None))
  {
    hide SessionTalk, OrderTalk, EncodeGreeting, EncodeUserPass;
    GreetedTalk(methods, EncodeUserPass(c) + tail, env);
    if !(env.verify(c) && env.allow(c)) {
      DeniedTalk(c, tail, env);
      assert [5, 2] + [1, 1] == [5, 2, 1, 1];
    } else if 4 <= |tail| && tail[0] == 5 {
      UnsupportedTalk(c, tail, env);
      assert [5, 2] + [1, 0, 5, 7, 0, 1, 0, 0, 0, 0, 0, 0] == [5, 2, 1, 0, 5, 7, 0, 1, 0, 0, 0, 0, 0, 0];
      assert [5, 2] + [1, 0, 5, 8, 0, 1, 0, 0, 0, 0, 0, 0] == [5, 2, 1, 0, 5, 8, 0, 1, 0, 0, 0, 0, 0, 0];
    }
  }

  /** The server's hop of a session that comes to no request. */
  method GivenUpHop(clientChunks: seq<Bytes>, agentChunks: seq<Bytes>, env: Env, clientRoom: nat, agentRoom: nat)
      returns (outcome: Outcome, toAgent: Bytes, toClient: Bytes)
    ensures var talk := SessionTalk(Flatten(clientChunks), env);
            talk.next.None? ==>
              toClient == Fitting(talk.told, clientRoom) && toAgent == [] && !outcome.Relayed? && !outcome.Failed?
  {
    hide SessionTalk, Serves, Fitting, Flatten, NextLine, Advance, Heard, SessionObstacle;
    var client := Connect(clientChunks, clientRoom);
    var upstream := Connect(agentChunks, agentRoom);
    outcome := HandleSocks(client, upstream, env);
    toAgent, toClient := upstream.outgoing.data, client.outgoing.data;
    ghost var talk := SessionTalk(Flatten(clientChunks), env);
    assert talk.told + [] == talk.told;
    assert [] + Fitting(talk.told, clientRoom) == Fitting(talk.told, clientRoom);
  }

  /** A client that is not let in, or asks for something else than a connection. */
  method TurnedAwayHop(clientChunks: seq<Bytes>, agentChunks: seq<Bytes>, env: Env, clientRoom: nat, agentRoom: nat,
                       ghost methods: Bytes, ghost c: Credentials, ghost tail: Bytes)
      returns (outcome: Outcome, toAgent: Bytes, toClient: Bytes)
    requires |methods| < 256 && |c.username| < 256 && |c.password| < 256
    requires || (Flatten(clientChunks) == EncodeGreeting(methods) + tail && 2 !in methods)
             || (Flatten(clientChunks) == SentLogin(methods, c, tail) && 2 in methods
                   && (!(env.verify(c) && env.allow(c))
                         || (4 <= |tail| && tail[0] == 5 && (tail[1] != 1 || tail[3] !in {1, 3, 4}))))
    ensures toAgent == [] && !outcome.Relayed? && !outcome.Failed?
    ensures 2 !in methods ==> toClient == Fitting([5, 255], clientRoom)
    ensures 2 in methods && !(env.verify(c) && env.allow(c)) ==> toClient == Fitting([5, 2, 1, 1], clientRoom)
    ensures 2 in methods && env.verify(c) && env.allow(c) ==>
              Told(toClient, clientRoom, if tail[1] != 1 then 7 else 8, [])
  {
    hide SessionTalk, Fitting, Flatten, EncodeGreeting, SentLogin;
    if 2 !in methods {
      NoMethodTalk(methods, tail, env);
    } else {
      TurnedAwayTalk(methods, c, tail, env);
    }
    outcome, toAgent, toClient := GivenUpHop(clientChunks, agentChunks, env, clientRoom, agentRoom);
    assert forall b: Bytes :: b + [] == b;
  }

  /** A client that does not speak SOCKS5 hears nothing. */
  method StrangerHop(clientChunks: seq<Bytes>, agentChunks: seq<Bytes>, env: Env, clientRoom: nat, agentRoom: nat)
      returns (outcome: Outcome, toAgent: Bytes, toClient: Bytes)
    requires Flatten(clientChunks) == [] || Flatten(clientChunks)[0] != 5
    ensures toAgent == [] && toClient == [] && !outcome.Relayed? && !outcome.Failed?
  {
    SilentTalk(Flatten(clientChunks), env);
    outcome, toAgent, toClient := GivenUpHop(clientChunks, agentChunks, env, clientRoom, agentRoom);
  }

  lemma SilentTalk(b: Bytes, env: Env)
    requires b == [] || b[0] != 5
    ensures SessionTalk(b, env) == Talk([], None)
  {
  }

  // CONNECT.

  /** What comes of a known target, for a front end that is ready to answer. */
  lemma OutcomeOfTarget(out: Outcome, online: bool, line: Bytes, rest: Bytes, fed: Feed, toAgent: Written, codec: Codec,
                        answer: LineRead, room: nat, d: Dialect, heard: Bytes)
    requires toAgent.before == []
    requires heard == Fitting(Heard(d, Obstacle(online, line, toAgent.room, answer, codec), answer), room)
    requires Serves(out, Obstacle(online, line, toAgent.room, answer, codec), online, line, rest, fed, toAgent, room,
                    d.success, if answer.Line? then Flatten(answer.chunks) else [])
    ensures !online ==>
              out == Failed(NoAgent) && toAgent.after == [] && heard == Fitting(d.failure(NoAgent), room)
    ensures online && toAgent.room < |line| ==>
              && out == Failed(StreamFailed) && toAgent.after == line[..toAgent.room]
              && heard == Fitting(d.failure(StreamFailed), room)
    ensures online && |line| <= toAgent.room && Says(answer, codec, None) ==>
              out == Failed(BadReply) && toAgent.after == line && heard == Fitting(d.failure(BadReply), room)
    ensures online && |line| <= toAgent.room && Says(answer, codec, Some(false)) ==>
              out == Failed(TargetRefused) && toAgent.after == line && heard == Fitting(d.failure(TargetRefused), room)
    ensures online && |line| <= toAgent.room && Says(answer, codec, Some(true)) ==>
              && answer.Line? && heard == Fitting(d.success + Flatten(answer.chunks), room)
              && (room < |d.success| ==> out == Dropped && toAgent.after == line)
              && (|d.success| <= room ==>
                    && out.Relayed? && toAgent.after == Fitting(line + rest, toAgent.room)
                    && out.bytesIn == |heard| - |d.success|
                    && (|line + rest| <= toAgent.room ==> out.bytesOut == |rest|))
  {
    hide Flatten;
  }

  /** What a browser hears, whatever becomes of its request: its own error
      response, or that the connection is established and what comes after. */
  method ConnectAnswer(early: Bytes, clientChunks: seq<Bytes>, agentChunks: seq<Bytes>, host: Bytes, online: bool,
                       codec: Codec, failure: Failure -> Bytes, clientRoom: nat, agentRoom: nat)
      returns (outcome: Outcome, toAgent: Bytes, toClient: Bytes)
    ensures !online ==> outcome == Failed(NoAgent) && toAgent == [] && toClient == Fitting(failure(NoAgent), clientRoom)
    ensures var line := codec.request(if 58 in host then host else host + [58, 52, 52, 51]) + [10];
            online && agentRoom < |line| ==>
              && outcome == Failed(StreamFailed) && toAgent == line[..agentRoom]
              && toClient == Fitting(failure(StreamFailed), clientRoom)
    ensures var line := codec.request(if 58 in host then host else host + [58, 52, 52, 51]) + [10];
            online && |line| <= agentRoom && Says(NextLine([], agentChunks), codec, None) ==>
              && outcome == Failed(BadReply) && toAgent == line && toClient == Fitting(failure(BadReply), clientRoom)
    ensures var line := codec.request(if 58 in host then host else host + [58, 52, 52, 51]) + [10];
            online && |line| <= agentRoom && Says(NextLine([], agentChunks), codec, Some(false)) ==>
              && outcome == Failed(TargetRefused) && toAgent == line
              && toClient == Fitting(failure(TargetRefused), clientRoom)
    ensures var line := codec.request(if 58 in host then host else host + [58, 52, 52, 51]) + [10];
            var answer := NextLine([], agentChunks);
            online && |line| <= agentRoom && Says(answer, codec, Some(true)) ==>
              && answer.Line? && toClient == Fitting(CONNECT_OK + Flatten(answer.chunks), clientRoom)
              && (clientRoom < 39 ==> outcome == Dropped && toAgent == line)
              && (39 <= clientRoom ==>
                    && outcome.Relayed? && toAgent == Fitting(line + (early + Flatten(clientChunks)), agentRoom)
                    && outcome.bytesIn == |toClient| - 39
                    && (|line + (early + Flatten(clientChunks))| <= agentRoom ==>
                          outcome.bytesOut == |early + Flatten(clientChunks)|))
  {
    hide Flatten, NextLine, Serves, Obstacle, Heard, Fitting, Says;
    var client := Connect(clientChunks, clientRoom);
    var upstream := Connect(agentChunks, agentRoom);
    var br := new BufReader(client.incoming);
    br.buf := early;
    outcome := HandleConnect(br, host, client, upstream, online, codec, failure);
    toAgent, toClient := upstream.outgoing.data, client.outgoing.data;
    assert Ascii(":443") == [58, 52, 52, 51];
    ghost var answer, d := NextLine([], agentChunks), Dialect(CONNECT_OK, failure);
    ConnectOkText();
    ghost var line := RequestLine(ConnectTarget(host), codec);
    ghost var heard := Fitting(Heard(d, Obstacle(online, line, agentRoom, answer, codec), answer), clientRoom);
    assert [] + heard == heard;
    OutcomeOfTarget(outcome, online, line, early + Flatten(clientChunks), Feed(early, clientChunks),
                    Written([], agentRoom, toAgent), codec, answer, clientRoom, d, heard);
  }

  /** The status code 200 (RFC 9110, section 15.3.1) and the end of the head. */
  lemma ConnectOkText()
    ensures |CONNECT_OK| == 39
    ensures CONNECT_OK[9] == 50 && CONNECT_OK[10] == 48 && CONNECT_OK[11] == 48
    ensures CONNECT_OK[35] == 13 && CONNECT_OK[36] == 10 && CONNECT_OK[37] == 13 && CONNECT_OK[38] == 10
  {
  }

  // The agent.

  /** A stream on the agent, whatever becomes of its request. */
  method AgentAnswers(streamChunks: seq<Bytes>, targetChunks: seq<Bytes>, codec: Codec, allowed: Bytes -> bool,
                      dials: Bytes -> bool, streamRoom: nat, targetRoom: nat)
      returns (dialled: Option<Bytes>, toTarget: Bytes, toServer: Bytes, bytesIn: nat, bytesOut: nat)
    // A request that is missing or unreadable is not answered.
    ensures var request := NextLine([], streamChunks);
            request.Eof? || codec.parseRequest(request.line) == None ==>
              dialled == None && toTarget == [] && toServer == [] && bytesIn == 0 && bytesOut == 0
    // A target that is not allowed is not dialled.
    ensures var request := NextLine([], streamChunks);
            request.Line? && codec.parseRequest(request.line).Some? ==>
              var t := codec.parseRequest(request.line).value;
              && (!allowed(t) ==> dialled == None)
              && (allowed(t) ==> dialled == Some(t))
              && (!(allowed(t) && dials(t)) ==>
                    && toServer == Fitting(codec.reply(false) + [10], streamRoom) && toTarget == []
                    && bytesIn == 0 && bytesOut == 0)
              && (allowed(t) && dials(t) ==>
                    toServer == Fitting(codec.reply(true) + [10] + Flatten(targetChunks), streamRoom))
              && (allowed(t) && dials(t) && |codec.reply(true)| < streamRoom ==>
                    && toTarget == Fitting(request.buffered + Flatten(request.chunks), targetRoom)
                    && bytesIn == |toServer| - |codec.reply(true)| - 1
                    && bytesOut
                         == |toTarget|
                           + (if targetRoom < |request.buffered| then |request.buffered| - targetRoom else 0))
  {
    hide Flatten, NextLine, HandedOver;
    var stream := Connect(streamChunks, streamRoom);
    var target := Connect(targetChunks, targetRoom);
    var counters := new Counters();
    var served;
    served, dialled := HandleStream(stream, target, codec, allowed, dials, counters);
    toTarget, toServer := target.outgoing.data, stream.outgoing.data;
    bytesIn, bytesOut := counters.bytesIn, counters.bytesOut;
    ghost var request := NextLine([], streamChunks);
    if request.Line? { HandedOverCounts(Feed(request.buffered, request.chunks), targetRoom); }
  }

  /** A target that the agent may not or cannot reach, through both hops: the
      client hears that the connection was refused, and the target nothing. */
  method UnreachableTarget(clientChunks: seq<Bytes>, agentChunks: seq<Bytes>, targetChunks: seq<Bytes>, env: Env,
                           allowed: Bytes -> bool, dials: Bytes -> bool, clientRoom: nat, agentRoom: nat,
                           ghost s: Session, ghost reserved: byte, ghost rest: Bytes, ghost target: Bytes)
      returns (outcome: Outcome, dialled: Option<Bytes>, toTarget: Bytes, toClient: Bytes, fromAgent: Bytes)
    requires Encodes(s) && LetIn(s, env) && Flatten(clientChunks) == Sent(s, reserved, rest) && env.online
    requires env.codec.Carries(env.text(s.request), target) && !(allowed(target) && dials(target))
    requires |env.codec.request(env.text(s.request))| < agentRoom && 14 <= clientRoom
    requires NEWLINE !in env.codec.reply(false)
    requires env.codec.parseReply(env.codec.reply(false) + [10]) == Some(false)
    requires Flatten(agentChunks) == env.codec.reply(false) + [10]
    ensures fromAgent == Flatten(agentChunks)
    ensures outcome == Failed(TargetRefused) && toClient == [5, 2, 1, 0, 5, 5, 0, 1, 0, 0, 0, 0, 0, 0]
    ensures dialled == (if allowed(target) then Some(target) else None) && toTarget == []
  {
    hide Sent, Encodes, LetIn, NextLine, Flatten;
    ghost var codec := env.codec;
    ghost var line := codec.request(env.text(s.request)) + [10];
    DocumentIsLine(codec.reply(false));
    DocumentIsLine(codec.request(env.text(s.request)));
    assert codec.reply(false) + [10] + [] == codec.reply(false) + [10];
    UpstreamIsConserved(agentChunks, codec.reply(false) + [10], []);
    var toAgent;
    outcome, toAgent, toClient := LetInHop(clientChunks, agentChunks, env, clientRoom, agentRoom, s, reserved, rest);
    var streamChunks := Cut(toAgent);
    assert line + [] == line;
    UpstreamIsConserved(streamChunks, line, []);
    var i, o;
    dialled, toTarget, fromAgent, i, o :=
      AgentAnswers(streamChunks, targetChunks, env.codec, allowed, dials, |env.codec.reply(false)| + 1, 0);
  }

  /** The count of the bytes sent on says too much by what was buffered and did
      not go through, and otherwise exactly what did. */
  lemma HandedOverCounts(fed: Feed, room: nat)
    ensures HandedOver(fed, room)
         == |Fitting(fed.buffered + Flatten(fed.chunks), room)|
           + (if room < |fed.buffered| then |fed.buffered| - room else 0)
  {
    FittingConcat(fed.buffered, Flatten(fed.chunks), room);
  }
}
