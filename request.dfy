/** request.go: the request header, the address codec (readAddrSpec and
    sendReply, RFC 1928 sections 4, 5 and 6) and the three command handlers
    with their rule gate. */
module Request {
  import opened Wire

  const ConnectCommand: Byte := 1
  const BindCommand: Byte := 2
  const AssociateCommand: Byte := 3

  const IPv4Address: Byte := 1
  const FqdnAddress: Byte := 3
  const IPv6Address: Byte := 4

  /** The names of the reply codes, in the order request.go declares them. */
  datatype ReplyCode =
    | Success | ServerFailure | RuleFailure | NetworkUnreachable | HostUnreachable
    | ConnectionRefused | TtlExpired | CommandNotSupported | AddrTypeNotSupported

  /** The wire value of each reply name. The const block gives a value only
      to the first name and has no iota, so Go repeats `uint8 = 0` for every
      later name: all of them are 0, the value RFC 1928 reserves for
      "succeeded". */
  function ReplyByte(code: ReplyCode): (b: Byte)
    ensures b == 0
  {
    match code
    case Success => 0
    case ServerFailure => 0
    case RuleFailure => 0
    case NetworkUnreachable => 0
    case HostUnreachable => 0
    case ConnectionRefused => 0
    case TtlExpired => 0
    case CommandNotSupported => 0
    case AddrTypeNotSupported => 0
  }

  /** The target of a request: a domain name or an IP address, and a port.
      An empty `fqdn` is Go's "", an empty `ip` is a nil net.IP. */
  datatype AddrSpec = AddrSpec(fqdn: seq<Byte>, ip: IP, port: int)

  /** The twelve bytes that prefix an IPv4 address mapped into IPv6. */
  const V4InV6Prefix: seq<Byte> := [0, 0, 0, 0, 0, 0, 0, 0, 0, 0, 255, 255]

  predicate IsV4Mapped(ip: IP)
  {
    |ip| == 16 && ip[..12] == V4InV6Prefix
  }

  /** net.IP.To4: the 4-byte form, if the address has one. */
  function To4(ip: IP): (r: Option<IP>)
    ensures r.Some? <==> |ip| == 4 || IsV4Mapped(ip)
    ensures r.Some? ==> |r.value| == 4 && r.value == ip[|ip| - 4..]
  {
    if |ip| == 4 then Some(ip)
    else if IsV4Mapped(ip) then Some(ip[12..])
    else None
  }

  /** net.IP.To16: the 16-byte form, if the address has one. */
  function To16(ip: IP): (r: Option<IP>)
    ensures r.Some? <==> |ip| == 4 || |ip| == 16
    ensures r.Some? ==> |r.value| == 16 && r.value[16 - |ip|..] == ip
  {
    if |ip| == 4 then Some(V4InV6Prefix + ip)
    else if |ip| == 16 then Some(ip)
    else None
  }

  // ---------------------------------------------------------------------
  // Decoding: readAddrSpec
  // ---------------------------------------------------------------------

  /** The address field after the type byte t, with the port still 0. */
  function ParseAddrField(t: Byte, s: seq<Byte>): (r: Parsed<AddrSpec>)
    ensures r.used <= |s|
  {
    if t == IPv4Address then
      match TakeFull(s, 4)
      case Failed(e, u) => Failed(e, u)
      case Done(b, u) => Done(AddrSpec([], b, 0), u)
    else if t == IPv6Address then
      match TakeFull(s, 16)
      case Failed(e, u) => Failed(e, u)
      case Done(b, u) => Done(AddrSpec([], b, 0), u)
    else if t == FqdnAddress then
      match TakeByte(s)
      case Failed(e, u) => Failed(e, u)
      case Done(len, _) =>
        match TakeFull(s[1..], len)
        case Failed(e, u) => Failed(e, 1 + u)
        case Done(b, u) => Done(AddrSpec(b, [], 0), 1 + u)
    else
      Failed(UnrecognizedAddrType, 0)
  }

  /** What readAddrSpec reads from the unread input s: the address type
      byte, the address, then a big-endian port. */
  function ParseAddrSpec(s: seq<Byte>): (r: Parsed<AddrSpec>)
    ensures r.used <= |s|
    ensures r.Done? ==> 0 <= r.value.port < 0x1_0000
  {
    match TakeByte(s)
    case Failed(e, u) => Failed(e, u)
    case Done(t, _) =>
      match ParseAddrField(t, s[1..])
      case Failed(e, u) => Failed(e, 1 + u)
      case Done(a, u) =>
        match TakeFull(s[1 + u..], 2)
        case Failed(e, v) => Failed(e, 1 + u + v)
        case Done(p, v) => Done(a.(port := BigEndian16(p[0], p[1])), 1 + u + v)
  }

  /** The switch of readAddrSpec on the address type t: reads the 4-byte
      or 16-byte address, or the length byte and the name. */
  method ReadAddrField(r: Conn, t: Byte) returns (d: Result<AddrSpec>)
    requires r.Valid()
    modifies r`pos
    ensures r.Valid()
    ensures var p := ParseAddrField(t, old(r.Unread()));
      d == p.ToResult() && r.pos == old(r.pos) + p.used
  {
    ghost var s := r.Unread();
    if t == IPv4Address {
      var addr := r.ReadFull(4);
      if addr.Err? {
        return Err(addr.error);
      }
      return Ok(AddrSpec([], addr.value, 0));
    } else if t == IPv6Address {
      var addr := r.ReadFull(16);
      if addr.Err? {
        return Err(addr.error);
      }
      return Ok(AddrSpec([], addr.value, 0));
    } else if t == FqdnAddress {
      var len := r.ReadByte();
      if len.Err? {
        return Err(len.error);
      }
      assert r.Unread() == s[1..];
      var fqdn := r.ReadFull(len.value);
      if fqdn.Err? {
        return Err(fqdn.error);
      }
      return Ok(AddrSpec(fqdn.value, [], 0));
    } else {
      return Err(UnrecognizedAddrType);
    }
  }

  /** readAddrSpec: reads the address type, the address and the port. */
  method ReadAddrSpec(r: Conn) returns (d: Result<AddrSpec>)
    requires r.Valid()
    modifies r`pos
    ensures r.Valid()
    ensures var p := ParseAddrSpec(old(r.Unread()));
      d == p.ToResult() && r.pos == old(r.pos) + p.used
  {
    ghost var s := r.Unread();
    var addrType := r.ReadByte();
    if addrType.Err? {
      return Err(addrType.error);
    }
    assert r.Unread() == s[1..];
    var a := ReadAddrField(r, addrType.value);
    if a.Err? {
      return Err(a.error);
    }
    ghost var field := ParseAddrField(addrType.value, s[1..]);
    assert r.Unread() == s[1 + field.used..];
    var port := r.ReadFull(2);
    if port.Err? {
      return Err(port.error);
    }
    return Ok(a.value.(port := BigEndian16(port.value[0], port.value[1])));
  }

  // ---------------------------------------------------------------------
  // Encoding: sendReply
  // ---------------------------------------------------------------------

  /** The address type byte and address body sendReply chooses for a
      non-nil address: a non-empty name (length-prefixed, the length taken
      modulo 256), else a 4-byte or IPv4-mapped address as IPv4, else a
      16-byte address as IPv6; anything else is an error. */
  function FormatAddress(a: AddrSpec): (r: Result<(Byte, seq<Byte>)>)
    ensures a.fqdn != [] ==> r == Ok((FqdnAddress, [|a.fqdn| % 256] + a.fqdn))
    ensures a.fqdn == [] && |a.ip| == 4 ==> r == Ok((IPv4Address, a.ip))
    ensures a.fqdn == [] && IsV4Mapped(a.ip) ==> r == Ok((IPv4Address, a.ip[12..]))
    ensures a.fqdn == [] && |a.ip| == 16 && !IsV4Mapped(a.ip) ==> r == Ok((IPv6Address, a.ip))
    ensures a.fqdn == [] && |a.ip| != 4 && |a.ip| != 16 ==> r == Err(FailedToFormatAddress)
  {
    if a.fqdn != [] then Ok((FqdnAddress, [|a.fqdn| % 256] + a.fqdn))
    else match To4(a.ip)
      case Some(v4) => Ok((IPv4Address, v4))
      case None =>
        match To16(a.ip)
        case Some(v6) => Ok((IPv6Address, v6))
        case None => Err(FailedToFormatAddress)
  }

  /** sendReply exactly as request.go writes it. A nil address reaches
      `addr.port` and panics; that is the NilAddressDereference failure. */
  function ReplyFrameAsWritten(resp: Byte, addr: Option<AddrSpec>): (r: Result<seq<Byte>>)
    ensures addr.None? ==> r == Err(NilAddressDereference)
  {
    match addr
    case None => Err(NilAddressDereference)
    case Some(a) =>
      match FormatAddress(a)
      case Err(e) => Err(e)
      case Ok((t, body)) => Ok([Socks5Version, resp, 0, t] + body + PutUint16(a.port))
  }

  /** The unspecified address 0.0.0.0:0. */
  const Unspecified: AddrSpec := AddrSpec([], [0, 0, 0, 0], 0)

  /** The frame for 0.0.0.0:0. */
  lemma UnspecifiedFrame(resp: Byte)
    ensures ReplyFrameAsWritten(resp, Some(Unspecified)) == Ok([Socks5Version, resp, 0, IPv4Address, 0, 0, 0, 0, 0, 0])
  {
    var ip := Unspecified.ip;
    assert |ip| == 4 && To4(ip) == Some(ip);
    assert FormatAddress(Unspecified) == Ok((IPv4Address, ip));
    var port := PutUint16(0);
    assert port == [0, 0];
    var f := [Socks5Version, resp, 0, IPv4Address] + ip + port;
    assert ReplyFrameAsWritten(resp, Some(Unspecified)) == Ok(f);
    assert |f| == 10;
    assert forall i :: 0 <= i < 10 ==> f[i] == [Socks5Version, resp, 0, IPv4Address, 0, 0, 0, 0, 0, 0][i];
    assert f == [Socks5Version, resp, 0, IPv4Address, 0, 0, 0, 0, 0, 0];
  }

  /** The reply frame the rest of the model sends: as written for every
      non-nil address, and the all-zero IPv4 address 0.0.0.0:0 for a nil
      one, which is what the nil case is evidently meant to send. */
  function ReplyFrame(resp: Byte, addr: Option<AddrSpec>): (r: Result<seq<Byte>>)
    ensures addr.Some? ==> r == ReplyFrameAsWritten(resp, addr)
    ensures addr.None? ==> r == Ok([Socks5Version, resp, 0, IPv4Address, 0, 0, 0, 0, 0, 0])
  {
    match addr
    case None =>
      UnspecifiedFrame(resp);
      ReplyFrameAsWritten(resp, Some(Unspecified))
    case Some(_) => ReplyFrameAsWritten(resp, addr)
  }

  /** The message buffer of sendReply: header, address body, port. */
  method MakeMessage(resp: Byte, addrType: Byte, addrBody: seq<Byte>, port: int) returns (msg: array<Byte>)
    ensures fresh(msg)
    ensures msg[..] == [Socks5Version, resp, 0, addrType] + addrBody + PutUint16(port)
  {
    msg := new Byte[6 + |addrBody|];
    msg[0], msg[1], msg[2], msg[3] := Socks5Version, resp, 0, addrType;
    for i := 0 to |addrBody|
      invariant msg[0] == Socks5Version && msg[1] == resp && msg[2] == 0 && msg[3] == addrType
      invariant forall k :: 0 <= k < i ==> msg[4 + k] == addrBody[k]
    {
      msg[4 + i] := addrBody[i];
    }
    var p := PutUint16(port);
    msg[4 + |addrBody|], msg[5 + |addrBody|] := p[0], p[1];
  }

  /** sendReply: formats the address, builds the frame and writes it. */
  method SendReply(w: Conn, resp: Byte, addr: Option<AddrSpec>) returns (err: Option<Error>)
    modifies w`output
    ensures match ReplyFrame(resp, addr)
      case Ok(frame) => err == None && w.output == old(w.output) + frame
      case Err(e) => err == Some(e) && w.output == old(w.output)
  {
    var a := if addr.Some? then addr.value else Unspecified;
    var addrType: Byte;
    var addrBody: seq<Byte>;
    if a.fqdn != [] {
      addrType, addrBody := FqdnAddress, [|a.fqdn| % 256] + a.fqdn;
    } else if To4(a.ip).Some? {
      addrType, addrBody := IPv4Address, To4(a.ip).value;
    } else if To16(a.ip).Some? {
      addrType, addrBody := IPv6Address, To16(a.ip).value;
    } else {
      assert FormatAddress(a) == Err(FailedToFormatAddress);
      return Some(FailedToFormatAddress);
    }
    assert FormatAddress(a) == Ok((addrType, addrBody));
    var msg := MakeMessage(resp, addrType, addrBody, a.port);
    w.Write(msg[..]);
    return None;
  }

  // ---------------------------------------------------------------------
  // Collaborators: name resolution, rules, dialing, relaying
  // ---------------------------------------------------------------------

  /** The configured name resolver. DNSResolver asks the system resolver,
      which the model receives as `Network.lookup`. */
  datatype NameResolver = DNSResolver | CustomResolver(resolve: seq<Byte> -> Option<IP>)

  /** What a rule set is asked: destination IP and port, client IP and port. */
  datatype RuleQuery = RuleQuery(dstIP: IP, dstPort: int, srcIP: IP, srcPort: int)

  /** The configured rule set: PermitAll, or one decision per command. */
  datatype RuleSet =
    | PermitAll
    | CustomRules(allowConnect: RuleQuery -> bool, allowBind: RuleQuery -> bool, allowAssociate: RuleQuery -> bool)

  /** The outcome of the outbound TCP dial. */
  datatype DialResult = Dialed | DialFailed(message: string)

  /** The world outside the connection: the system resolver, the dialer,
      and the error of the relay direction that finishes first (None when
      it ends with EOF). */
  datatype Network = Network(lookup: seq<Byte> -> Option<IP>, dial: (IP, int) -> DialResult, relay: Option<string>)

  function Resolve(resolver: NameResolver, net: Network, name: seq<Byte>): Option<IP>
  {
    match resolver
    case DNSResolver => net.lookup(name)
    case CustomResolver(resolve) => resolve(name)
  }

  /** AllowConnect, AllowBind or AllowAssociate, by command. */
  predicate Allows(rules: RuleSet, command: Byte, q: RuleQuery)
  {
    match rules
    case PermitAll => true
    case CustomRules(allowConnect, allowBind, allowAssociate) =>
      if command == ConnectCommand then allowConnect(q)
      else if command == BindCommand then allowBind(q)
      else allowAssociate(q)
  }

  /** The reply chosen for a failed dial, from the text of its error:
      "refused" is looked for first, then "network is unreachable";
      anything else is a host-unreachable failure. */
  function DialFailureReply(message: string): (code: ReplyCode)
    ensures code == ConnectionRefused <==> Contains(message, "refused")
    ensures code == NetworkUnreachable <==>
      !Contains(message, "refused") && Contains(message, "network is unreachable")
    ensures code == HostUnreachable <==>
      !Contains(message, "refused") && !Contains(message, "network is unreachable")
  {
    if Contains(message, "refused") then ConnectionRefused
    else if Contains(message, "network is unreachable") then NetworkUnreachable
    else HostUnreachable
  }

  // ---------------------------------------------------------------------
  // Handlers, as functions of the unread input
  // ---------------------------------------------------------------------

  /** `sendReply(conn, code, addr)` followed by `return err`: the frame is
      written and err returned, or nothing is written and the format error
      is returned wrapped. Handlers read nothing. */
  function Reply(code: ReplyCode, addr: Option<AddrSpec>, err: Option<Error>): (x: Exchange)
    ensures x.used == 0
  {
    match ReplyFrame(ReplyByte(code), addr)
    case Ok(frame) => Exchange(err, 0, frame)
    case Err(e) => Exchange(Some(FailedToSendReply(e)), 0, [])
  }

  /** handleConnect: the rule gate, then the dial, then the success reply. */
  function ConnectReaction(rules: RuleSet, net: Network, srcIP: IP, srcPort: int, dest: AddrSpec): (x: Exchange)
    ensures x.used == 0
  {
    if !Allows(rules, ConnectCommand, RuleQuery(dest.ip, dest.port, srcIP, srcPort)) then
      Reply(RuleFailure, Some(dest), Some(BlockedByRules(ConnectCommand)))
    else
      match net.dial(dest.ip, dest.port)
      case DialFailed(msg) => Reply(DialFailureReply(msg), Some(dest), Some(ConnectFailed(msg)))
      case Dialed =>
        Reply(Success, Some(dest), if net.relay.Some? then Some(RelayFailed(net.relay.value)) else None)
  }

  /** handleBind and handleAssociate: the rule gate, then "not supported"
      with no error. */
  function UnsupportedReaction(command: Byte, rules: RuleSet, srcIP: IP, srcPort: int, dest: AddrSpec): (x: Exchange)
    ensures x.used == 0
  {
    if !Allows(rules, command, RuleQuery(dest.ip, dest.port, srcIP, srcPort)) then
      Reply(RuleFailure, Some(dest), Some(BlockedByRules(command)))
    else
      Reply(CommandNotSupported, None, None)
  }

  /** The switch on the command byte. */
  function Dispatch(command: Byte, rules: RuleSet, net: Network, srcIP: IP, srcPort: int, dest: AddrSpec): (x: Exchange)
    ensures x.used == 0
  {
    if command == ConnectCommand then ConnectReaction(rules, net, srcIP, srcPort, dest)
    else if command == BindCommand || command == AssociateCommand then
      UnsupportedReaction(command, rules, srcIP, srcPort, dest)
    else Reply(CommandNotSupported, None, Some(UnsupportedCommand(command)))
  }

  /** Name resolution when the request names a host, then the dispatch. */
  function Resolved(command: Byte, resolver: NameResolver, rules: RuleSet, net: Network,
                    srcIP: IP, srcPort: int, dest: AddrSpec): (x: Exchange)
    ensures x.used == 0
  {
    if dest.fqdn == [] then Dispatch(command, rules, net, srcIP, srcPort, dest)
    else match Resolve(resolver, net, dest.fqdn)
      case None => Reply(HostUnreachable, None, Some(FailedToResolve(dest.fqdn)))
      case Some(ip) => Dispatch(command, rules, net, srcIP, srcPort, dest.(ip := ip))
  }

  /** handleRequest on the unread input s: the three header bytes
      (version, command, reserved), the destination, resolution, dispatch. */
  function RequestExchange(resolver: NameResolver, rules: RuleSet, net: Network,
                           srcIP: IP, srcPort: int, s: seq<Byte>): (x: Exchange)
    ensures x.used <= |s|
  {
    match TakeFull(s, 3)
    case Failed(e, u) => Exchange(Some(FailedToGetCommandVersion(e)), u, [])
    case Done(header, _) =>
      if header[0] != Socks5Version then
        Exchange(Some(UnsupportedCommandVersion(header[0])), 3, [])
      else match ParseAddrSpec(s[3..])
        case Failed(e, u) =>
          var x := if e.UnrecognizedAddrType? then
                     Reply(AddrTypeNotSupported, None, Some(FailedToReadDestination(e)))
                   else Exchange(Some(FailedToReadDestination(e)), 0, []);
          x.(used := 3 + u)
        case Done(dest, u) =>
          var x := Resolved(header[1], resolver, rules, net, srcIP, srcPort, dest);
          x.(used := 3 + u)
  }

  // ---------------------------------------------------------------------
  // Handlers, as methods on the connection
  // ---------------------------------------------------------------------

  method HandleConnect(c: Conn, rules: RuleSet, net: Network, dest: AddrSpec) returns (err: Option<Error>)
    modifies c`output
    ensures var x := ConnectReaction(rules, net, c.remoteIP, c.remotePort, dest);
      err == x.err && c.output == old(c.output) + x.out
  {
    if !Allows(rules, ConnectCommand, RuleQuery(dest.ip, dest.port, c.remoteIP, c.remotePort)) {
      var e := SendReply(c, ReplyByte(RuleFailure), Some(dest));
      if e.Some? {
        return Some(FailedToSendReply(e.value));
      }
      return Some(BlockedByRules(ConnectCommand));
    }
    var target := net.dial(dest.ip, dest.port);
    if target.DialFailed? {
      var msg := target.message;
      var resp := DialFailureReply(msg);
      var e := SendReply(c, ReplyByte(resp), Some(dest));
      if e.Some? {
        return Some(FailedToSendReply(e.value));
      }
      return Some(ConnectFailed(msg));
    }
    var e := SendReply(c, ReplyByte(Success), Some(dest));
    if e.Some? {
      return Some(FailedToSendReply(e.value));
    }
    // The relay itself is outside the model; its first outcome is returned.
    if net.relay.Some? {
      return Some(RelayFailed(net.relay.value));
    }
    return None;
  }

  method HandleBind(c: Conn, rules: RuleSet, dest: AddrSpec) returns (err: Option<Error>)
    modifies c`output
    ensures var x := UnsupportedReaction(BindCommand, rules, c.remoteIP, c.remotePort, dest);
      err == x.err && c.output == old(c.output) + x.out
  {
    if !Allows(rules, BindCommand, RuleQuery(dest.ip, dest.port, c.remoteIP, c.remotePort)) {
      var e := SendReply(c, ReplyByte(RuleFailure), Some(dest));
      if e.Some? {
        return Some(FailedToSendReply(e.value));
      }
      return Some(BlockedByRules(BindCommand));
    }
    var e := SendReply(c, ReplyByte(CommandNotSupported), None);
    assert e == None;  // a reply without an address always goes out
    return None;
  }

  method HandleAssociate(c: Conn, rules: RuleSet, dest: AddrSpec) returns (err: Option<Error>)
    modifies c`output
    ensures var x := UnsupportedReaction(AssociateCommand, rules, c.remoteIP, c.remotePort, dest);
      err == x.err && c.output == old(c.output) + x.out
  {
    if !Allows(rules, AssociateCommand, RuleQuery(dest.ip, dest.port, c.remoteIP, c.remotePort)) {
      var e := SendReply(c, ReplyByte(RuleFailure), Some(dest));
      if e.Some? {
        return Some(FailedToSendReply(e.value));
      }
      return Some(BlockedByRules(AssociateCommand));
    }
    var e := SendReply(c, ReplyByte(CommandNotSupported), None);
    assert e == None;  // a reply without an address always goes out
    return None;
  }

  /** handleRequest: reads the header and the destination, resolves a
      name, and dispatches on the command. */
  method HandleRequest(c: Conn, resolver: NameResolver, rules: RuleSet, net: Network) returns (err: Option<Error>)
    requires c.Valid()
    modifies c`pos, c`output
    ensures c.Valid()
    ensures var x := RequestExchange(resolver, rules, net, c.remoteIP, c.remotePort, old(c.Unread()));
      err == x.err && c.pos == old(c.pos) + x.used && c.output == old(c.output) + x.out
  {
    ghost var s := c.Unread();
    var header := c.ReadFull(3);
    if header.Err? {
      return Some(FailedToGetCommandVersion(header.error));
    }
    if header.value[0] != Socks5Version {
      return Some(UnsupportedCommandVersion(header.value[0]));
    }
    assert c.Unread() == s[3..];

    var dest := ReadAddrSpec(c);
    if dest.Err? {
      if dest.error.UnrecognizedAddrType? {
        var e := SendReply(c, ReplyByte(AddrTypeNotSupported), None);
        assert e == None;  // a reply without an address always goes out
      }
      return Some(FailedToReadDestination(dest.error));
    }

    var d := dest.value;
    if d.fqdn != [] {
      var addr := Resolve(resolver, net, d.fqdn);
      if addr.None? {
        var e := SendReply(c, ReplyByte(HostUnreachable), None);
        assert e == None;  // a reply without an address always goes out
        return Some(FailedToResolve(d.fqdn));
      }
      d := d.(ip := addr.value);
    }

    var command := header.value[1];
    if command == ConnectCommand {
      err := HandleConnect(c, rules, net, d);
    } else if command == BindCommand {
      err := HandleBind(c, rules, d);
    } else if command == AssociateCommand {
      err := HandleAssociate(c, rules, d);
    } else {
      var e := SendReply(c, ReplyByte(CommandNotSupported), None);
      assert e == None;  // a reply without an address always goes out
      err := Some(UnsupportedCommand(command));
    }
  }
}
