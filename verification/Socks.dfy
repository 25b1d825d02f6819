/** The three client messages of a SOCKS5 session: the greeting and the request
    of RFC 1928 (sections 3 and 4) and the user/password message of RFC 1929
    (section 2).  Parsing is specified on all the bytes a reader will deliver;
    the readers are proved to do exactly that, however the bytes arrive. */
module Socks {
  import opened Basics
  import opened Streams

  const VERSION: byte := 5
  const AUTH_VERSION: byte := 1
  const AUTH_USER_PASS: byte := 2
  const AUTH_NONE_ACCEPTABLE: byte := 0xFF
  const CMD_CONNECT: byte := 1
  const ATYP_IPV4: byte := 1
  const ATYP_DOMAIN: byte := 3
  const ATYP_IPV6: byte := 4
  const REP_SUCCESS: byte := 0
  const REP_GENERAL: byte := 1
  const REP_NET_UNREACHABLE: byte := 3
  const REP_HOST_UNREACHABLE: byte := 4
  const REP_REFUSED: byte := 5
  const REP_CMD_UNSUPPORTED: byte := 7
  const REP_ATYP_UNSUPPORTED: byte := 8

  datatype Host = IPv4(address: Bytes) | Domain(name: Bytes) | IPv6(address: Bytes)

  datatype Request = Request(host: Host, port: nat)

  datatype Credentials = Credentials(username: Bytes, password: Bytes)

  /** Good carries the message and the bytes after it; Refused the reply code
      that is sent before giving up; Bad means giving up silently. */
  datatype Parsed<+T> = Good(value: T, rest: Bytes) | Refused(code: byte) | Bad

  function Reply(status: byte): Bytes {
    [VERSION, status, 0, ATYP_IPV4, 0, 0, 0, 0, 0, 0]
  }

  /** Exactly n bytes. */
  function ParseBytes(b: Bytes, n: nat): Parsed<Bytes> {
    if |b| < n then Bad else Good(b[..n], b[n..])
  }

  /** A length byte followed by that many bytes. */
  function ParseCounted(b: Bytes): Parsed<Bytes> {
    if b == [] then Bad else ParseBytes(b[1..], b[0] as int)
  }

  function ParseGreeting(b: Bytes): Parsed<Bytes> {
    if |b| < 2 || b[0] != VERSION then Bad else ParseBytes(b[2..], b[1] as int)
  }

  function ParseUserPass(b: Bytes): Parsed<Credentials> {
    if b == [] || b[0] != AUTH_VERSION then Bad
    else match ParseCounted(b[1..])
      case Good(username, rest) =>
        (match ParseCounted(rest)
         case Good(password, rest') => Good(Credentials(username, password), rest')
         case _ => Bad)
      case _ => Bad
  }

  function ParsePort(host: Host, b: Bytes): Parsed<Request> {
    if |b| < 2 then Bad else Good(Request(host, 256 * b[0] as int + b[1] as int), b[2..])
  }

  function ParseHost(atyp: byte, b: Bytes): Parsed<Host> {
    if atyp == ATYP_IPV4 then
      if |b| < 4 then Bad else Good(IPv4(b[..4]), b[4..])
    else if atyp == ATYP_DOMAIN then
      match ParseCounted(b)
      case Good(name, rest) => Good(Domain(name), rest)
      case _ => Bad
    else if atyp == ATYP_IPV6 then
      if |b| < 16 then Bad else Good(IPv6(b[..16]), b[16..])
    else Refused(REP_ATYP_UNSUPPORTED)
  }

  function ParseRequest(b: Bytes): Parsed<Request> {
    if |b| < 4 || b[0] != VERSION then Bad
    else if b[1] != CMD_CONNECT then Refused(REP_CMD_UNSUPPORTED)
    else match ParseHost(b[3], b[4..])
      case Good(host, rest) => ParsePort(host, rest)
      case Refused(code) => Refused(code)
      case Bad => Bad
  }

  // The readers.

  method ReadGreeting(br: BufReader) returns (r: Option<Bytes>)
    modifies br, br.source
    ensures r.Some? <==> ParseGreeting(old(br.Pending())).Good?
    ensures r.Some? ==> ParseGreeting(old(br.Pending())) == Good(r.value, br.Pending()) && br.Advanced()
  {
    ghost var fed := br.Fed();
    var ok, hdr := br.ReadFull(2);
    if !ok || hdr[0] != VERSION {
      return None;
    }
    var methods;
    ok, methods := br.ReadFull(hdr[1] as int);
    if ok { AdvanceTwice(fed, 2, |methods|); }
    return if ok then Some(methods) else None;
  }

  /** A length byte and that many bytes. */
  method ReadCounted(br: BufReader) returns (r: Option<Bytes>)
    modifies br, br.source
    ensures r.Some? <==> ParseCounted(old(br.Pending())).Good?
    ensures r.Some? ==> ParseCounted(old(br.Pending())) == Good(r.value, br.Pending())
    ensures r.Some? ==>
              br.Fed() == Advance(old(br.Fed()), 1 + |r.value|) && |br.Pending()| + 1 + |r.value| == |old(br.Pending())|
  {
    ghost var fed := br.Fed();
    var ok, lb := br.ReadFull(1);
    if !ok {
      return None;
    }
    var data;
    ok, data := br.ReadFull(lb[0] as int);
    if ok { AdvanceTwice(fed, 1, |data|); }
    return if ok then Some(data) else None;
  }

  method ReadUserPass(br: BufReader) returns (r: Option<Credentials>)
    modifies br, br.source
    ensures r.Some? <==> ParseUserPass(old(br.Pending())).Good?
    ensures r.Some? ==> ParseUserPass(old(br.Pending())) == Good(r.value, br.Pending()) && br.Advanced()
  {
    ghost var fed := br.Fed();
    var ok, ver := br.ReadFull(1);
    if !ok || ver[0] != AUTH_VERSION {
      return None;
    }
    var uname, pw;
    uname := ReadCounted(br);
    if uname.None? {
      return None;
    }
    AdvanceTwice(fed, 1, 1 + |uname.value|);
    pw := ReadCounted(br);
    if pw.None? {
      return None;
    }
    AdvanceTwice(fed, 2 + |uname.value|, 1 + |pw.value|);
    r := Some(Credentials(uname.value, pw.value));
  }

  /** The address part; an unknown type is reported to the client. */
  method ReadHost(br: BufReader, atyp: byte, conn: Sink) returns (r: Option<Host>)
    modifies br, br.source, conn
    ensures r.Some? <==> ParseHost(atyp, old(br.Pending())).Good?
    ensures r.Some? ==> ParseHost(atyp, old(br.Pending())) == Good(r.value, br.Pending()) && br.Advanced()
    ensures match ParseHost(atyp, old(br.Pending()))
            case Refused(code) =>
              && conn.data == old(conn.data) + Fitting(Reply(code), old(conn.room))
              && conn.room == old(conn.room) - |Fitting(Reply(code), old(conn.room))|
            case _ => conn.data == old(conn.data) && conn.room == old(conn.room)
  {
    if atyp == ATYP_IPV4 {
      var ok, ip := br.ReadFull(4);
      r := if ok then Some(IPv4(ip)) else None;
    } else if atyp == ATYP_DOMAIN {
      var d := ReadCounted(br);
      r := if d.Some? then Some(Domain(d.value)) else None;
    } else if atyp == ATYP_IPV6 {
      var ok, ip := br.ReadFull(16);
      r := if ok then Some(IPv6(ip)) else None;
    } else {
      var _ := conn.Write(Reply(REP_ATYP_UNSUPPORTED));
      r := None;
    }
  }

  /** Refusals are reported to the client before the reader gives up. */
  method ReadRequest(br: BufReader, conn: Sink) returns (r: Option<Request>)
    modifies br, br.source, conn
    ensures r.Some? <==> ParseRequest(old(br.Pending())).Good?
    ensures r.Some? ==> ParseRequest(old(br.Pending())) == Good(r.value, br.Pending()) && br.Advanced()
    ensures match ParseRequest(old(br.Pending()))
            case Refused(code) =>
              && conn.data == old(conn.data) + Fitting(Reply(code), old(conn.room))
              && conn.room == old(conn.room) - |Fitting(Reply(code), old(conn.room))|
            case _ => conn.data == old(conn.data) && conn.room == old(conn.room)
  {
    hide Advance, Flatten, ParseHost, Reply;
    ghost var fed := br.Fed();
    var ok, hdr := br.ReadFull(4);
    if !ok || hdr[0] != VERSION {
      return None;
    }
    if hdr[1] != CMD_CONNECT {
      var _ := conn.Write(Reply(REP_CMD_UNSUPPORTED));
      return None;
    }
    var host := ReadHost(br, hdr[3], conn);
    if host.None? {
      return None;
    }
    ghost var taken := |fed.All()| - |br.Pending()|;
    AdvanceTwice(fed, 4, taken - 4);
    var portBytes;
    ok, portBytes := br.ReadFull(2);
    if !ok {
      return None;
    }
    AdvanceTwice(fed, taken, 2);
    r := Some(Request(host.value, 256 * portBytes[0] as int + portBytes[1] as int));
  }

  // Encoding, as the RFCs lay the messages out.

  function Counted(b: Bytes): Bytes
    requires |b| < 256
  {
    [|b| as byte] + b
  }

  function EncodeGreeting(methods: Bytes): Bytes
    requires |methods| < 256
  {
    [VERSION] + Counted(methods)
  }

  function EncodeUserPass(c: Credentials): Bytes
    requires |c.username| < 256 && |c.password| < 256
  {
    [AUTH_VERSION] + Counted(c.username) + Counted(c.password)
  }

  predicate EncodableHost(h: Host) {
    match h
    case IPv4(a) => |a| == 4
    case Domain(n) => |n| < 256
    case IPv6(a) => |a| == 16
  }

  predicate Encodable(r: Request) {
    r.port < 65536 && EncodableHost(r.host)
  }

  function AddressType(h: Host): byte {
    match h
    case IPv4(_) => ATYP_IPV4
    case Domain(_) => ATYP_DOMAIN
    case IPv6(_) => ATYP_IPV6
  }

  function EncodeHost(h: Host): Bytes
    requires EncodableHost(h)
  {
    match h
    case IPv4(a) => a
    case Domain(n) => Counted(n)
    case IPv6(a) => a
  }

  function EncodePort(port: nat): Bytes
    requires port < 65536
  {
    [(port / 256) as byte, (port % 256) as byte]
  }

  /** The third byte is reserved; its value is not looked at. */
  function EncodeRequest(r: Request, reserved: byte): Bytes
    requires Encodable(r)
  {
    [VERSION, CMD_CONNECT, reserved, AddressType(r.host)] + (EncodeHost(r.host) + EncodePort(r.port))
  }

  /** The layouts of RFC 1928, sections 3 and 4, and of RFC 1929, section 2. */
  lemma MessageLayouts(methods: Bytes, c: Credentials, r: Request, reserved: byte)
    requires |methods| < 256 && |c.username| < 256 && |c.password| < 256 && Encodable(r)
    ensures EncodeGreeting(methods) == [5, |methods| as byte] + methods
    ensures EncodeUserPass(c)
         == [1, |c.username| as byte] + c.username + [|c.password| as byte] + c.password
    ensures var port := [(r.port / 256) as byte, (r.port % 256) as byte];
            EncodeRequest(r, reserved)
              == match r.host
                 case IPv4(a) => [5, 1, reserved, 1] + a + port
                 case Domain(n) => [5, 1, reserved, 3, |n| as byte] + n + port
                 case IPv6(a) => [5, 1, reserved, 4] + a + port
  {
  }

  lemma CountedParses(b: Bytes, rest: Bytes)
    requires |b| < 256
    ensures ParseCounted(Counted(b) + rest) == Good(b, rest)
  {
    var s := Counted(b) + rest;
    assert s[1..] == b + rest;
  }

  lemma CountedParsesOnlyItself(s: Bytes)
    requires ParseCounted(s).Good?
    ensures |ParseCounted(s).value| < 256 && s == Counted(ParseCounted(s).value) + ParseCounted(s).rest
  {
  }

  /** A greeting parses to its methods, and only its encoding parses to them. */
  lemma GreetingInvertsEncoding(s: Bytes, methods: Bytes, rest: Bytes)
    requires |methods| < 256
    ensures ParseGreeting(s) == Good(methods, rest) <==> s == EncodeGreeting(methods) + rest
  {
    var e := EncodeGreeting(methods) + rest;
    assert e[2..] == methods + rest;
    if ParseGreeting(s) == Good(methods, rest) {
      assert s[2..] == methods + rest;
      assert s == [s[0], s[1]] + s[2..] == e;
    }
  }

  lemma UserPassInvertsEncoding(s: Bytes, c: Credentials, rest: Bytes)
    requires |c.username| < 256 && |c.password| < 256
    ensures ParseUserPass(s) == Good(c, rest) <==> s == EncodeUserPass(c) + rest
  {
    var e := EncodeUserPass(c) + rest;
    var tail := Counted(c.password) + rest;
    assert e[1..] == Counted(c.username) + tail;
    CountedParses(c.username, tail);
    CountedParses(c.password, rest);
    if ParseUserPass(s) == Good(c, rest) {
      CountedParsesOnlyItself(s[1..]);
      CountedParsesOnlyItself(ParseCounted(s[1..]).rest);
      assert s == [s[0]] + s[1..] == e;
    }
  }

  lemma PortParses(h: Host, port: nat, rest: Bytes)
    requires port < 65536
    ensures ParsePort(h, EncodePort(port) + rest) == Good(Request(h, port), rest)
  {
    assert (EncodePort(port) + rest)[2..] == rest;
  }

  lemma PortParsesOnlyItself(h: Host, s: Bytes)
    requires ParsePort(h, s).Good?
    ensures var p := ParsePort(h, s);
            && p.value.port < 65536 && p.value.host == h
            && s == EncodePort(p.value.port) + p.rest
  {
    assert s == [s[0], s[1]] + s[2..];
  }

  lemma HostParses(h: Host, rest: Bytes)
    requires EncodableHost(h)
    ensures ParseHost(AddressType(h), EncodeHost(h) + rest) == Good(h, rest)
  {
    if h.Domain? {
      CountedParses(h.name, rest);
    } else {
      assert (h.address + rest)[..|h.address|] == h.address;
      assert (h.address + rest)[|h.address|..] == rest;
    }
  }

  lemma HostParsesOnlyItself(atyp: byte, s: Bytes)
    requires ParseHost(atyp, s).Good?
    ensures var p := ParseHost(atyp, s);
            EncodableHost(p.value) && AddressType(p.value) == atyp && s == EncodeHost(p.value) + p.rest
  {
    if atyp == ATYP_DOMAIN { CountedParsesOnlyItself(s); }
  }

  lemma RequestWithHost(h: Host, reserved: byte, tail: Bytes)
    requires EncodableHost(h)
    ensures ParseRequest([VERSION, CMD_CONNECT, reserved, AddressType(h)] + (EncodeHost(h) + tail))
              == ParsePort(h, tail)
  {
    var header := [VERSION, CMD_CONNECT, reserved, AddressType(h)];
    HostParses(h, tail);
    assert (header + (EncodeHost(h) + tail))[4..] == EncodeHost(h) + tail;
  }

  lemma RequestParses(r: Request, reserved: byte, rest: Bytes)
    requires Encodable(r)
    ensures ParseRequest(EncodeRequest(r, reserved) + rest) == Good(r, rest)
  {
    hide ParseRequest, ParsePort, EncodeHost, EncodePort, AddressType;
    RequestWithHost(r.host, reserved, EncodePort(r.port) + rest);
    PortParses(r.host, r.port, rest);
    var header := [VERSION, CMD_CONNECT, reserved, AddressType(r.host)];
    var host, port := EncodeHost(r.host), EncodePort(r.port);
    assert (header + (host + port)) + rest == header + (host + (port + rest));
  }

  lemma RequestParsesOnlyItself(s: Bytes)
    requires ParseRequest(s).Good?
    ensures Encodable(ParseRequest(s).value)
    ensures s == EncodeRequest(ParseRequest(s).value, s[2]) + ParseRequest(s).rest
  {
    hide ParseHost, ParsePort, EncodeHost, EncodePort, EncodableHost, AddressType;
    HostParsesOnlyItself(s[3], s[4..]);
    var host := ParseHost(s[3], s[4..]);
    PortParsesOnlyItself(host.value, host.rest);
    var request, rest := ParseRequest(s).value, ParseRequest(s).rest;
    var header, h, p := [s[0], s[1], s[2], s[3]], EncodeHost(host.value), EncodePort(request.port);
    assert s == header + s[4..];
    assert header + (h + (p + rest)) == header + (h + p) + rest;
  }

  /** A request parses to its host and port whatever its reserved byte, and only
      its encodings parse to it. */
  lemma RequestInvertsEncoding(s: Bytes, r: Request, rest: Bytes)
    requires Encodable(r)
    ensures ParseRequest(s) == Good(r, rest) <==> exists reserved: byte :: s == EncodeRequest(r, reserved) + rest
  {
    if ParseRequest(s) == Good(r, rest) {
      RequestParsesOnlyItself(s);
    }
    if reserved: byte :| s == EncodeRequest(r, reserved) + rest {
      RequestParses(r, reserved, rest);
    }
  }

  // Proper prefixes of a message are rejected, silently: parsing a longer input
  // that starts with an accepted one leaves the extra bytes as the rest.

  lemma GreetingPrefixRejected(methods: Bytes, k: nat)
    requires |methods| < 256 && k < |EncodeGreeting(methods)|
    ensures ParseGreeting(EncodeGreeting(methods)[..k]).Bad?
  {
  }

  lemma CountedPrefix(s: Bytes, more: Bytes)
    requires ParseCounted(s).Good?
    ensures ParseCounted(s + more) == Good(ParseCounted(s).value, ParseCounted(s).rest + more)
  {
    CountedParsesOnlyItself(s);
    var p := ParseCounted(s);
    CountedParses(p.value, p.rest + more);
    assert s + more == Counted(p.value) + (p.rest + more);
  }

  lemma UserPassPrefix(s: Bytes, more: Bytes)
    requires ParseUserPass(s).Good?
    ensures ParseUserPass(s + more) == Good(ParseUserPass(s).value, ParseUserPass(s).rest + more)
  {
    assert (s + more)[1..] == s[1..] + more;
    CountedPrefix(s[1..], more);
    CountedPrefix(ParseCounted(s[1..]).rest, more);
  }

  lemma UserPassPrefixRejected(c: Credentials, k: nat)
    requires |c.username| < 256 && |c.password| < 256 && k < |EncodeUserPass(c)|
    ensures ParseUserPass(EncodeUserPass(c)[..k]).Bad?
  {
    var e := EncodeUserPass(c);
    var p, q := e[..k], e[k..];
    assert p + q == e == e + [];
    UserPassInvertsEncoding(e, c, []);
    if ParseUserPass(p).Good? {
      UserPassPrefix(p, q);
    }
  }

  /** More bytes after an accepted request are left over untouched. */
  lemma RequestPrefix(s: Bytes, more: Bytes)
    requires ParseRequest(s).Good?
    ensures ParseRequest(s + more) == Good(ParseRequest(s).value, ParseRequest(s).rest + more)
  {
    RequestParsesOnlyItself(s);
    var p := ParseRequest(s);
    RequestParses(p.value, s[2], p.rest + more);
    assert s + more == EncodeRequest(p.value, s[2]) + (p.rest + more) by {
      assert forall a: Bytes, b: Bytes, c: Bytes :: (a + b) + c == a + (b + c);
    }
  }

  lemma NotRefused(r: Request, reserved: byte, k: nat)
    requires Encodable(r) && k <= |EncodeRequest(r, reserved)|
    ensures !ParseRequest(EncodeRequest(r, reserved)[..k]).Refused?
  {
    var e := EncodeRequest(r, reserved);
    assert e[0] == VERSION && e[1] == CMD_CONNECT && e[3] == AddressType(r.host);
  }

  lemma RequestPrefixRejected(r: Request, reserved: byte, k: nat)
    requires Encodable(r) && k < |EncodeRequest(r, reserved)|
    ensures ParseRequest(EncodeRequest(r, reserved)[..k]).Bad?
  {
    hide ParseRequest, EncodeRequest, Encodable;
    var e := EncodeRequest(r, reserved);
    var p, q := e[..k], e[k..];
    assert p + q == e == e + [];
    RequestParses(r, reserved, []);
    if ParseRequest(p).Good? {
      RequestPrefix(p, q);
    } else {
      NotRefused(r, reserved, k);
    }
  }
}
