/** Properties of the address codec and of request handling (request.go). */
module RequestFacts {
  import opened Wire
  import opened Request

  // ---------------------------------------------------------------------
  // readAddrSpec: byte layout of each address type
  // ---------------------------------------------------------------------

  /** Type 1: four address bytes, then two port bytes; no name. */
  lemma IPv4Layout(s: seq<Byte>)
    requires |s| >= 7 && s[0] == IPv4Address
    ensures ParseAddrSpec(s) == Done(AddrSpec([], s[1..5], BigEndian16(s[5], s[6])), 7)
  {
    assert s[1..][..4] == s[1..5];
    assert s[5..][..2] == s[5..7];
  }

  /** Type 4: sixteen address bytes, then two port bytes; no name. */
  lemma IPv6Layout(s: seq<Byte>)
    requires |s| >= 19 && s[0] == IPv6Address
    ensures ParseAddrSpec(s) == Done(AddrSpec([], s[1..17], BigEndian16(s[17], s[18])), 19)
  {
    assert s[1..][..16] == s[1..17];
    assert s[17..][..2] == s[17..19];
  }

  /** Type 3: a length byte L, then L name bytes, then two port bytes; the
      IP stays unset. */
  lemma FqdnLayout(s: seq<Byte>)
    requires |s| >= 2 && s[0] == FqdnAddress && |s| >= 4 + s[1] as int
    ensures var n: int := s[1];
      ParseAddrSpec(s) == Done(AddrSpec(s[2..2 + n], [], BigEndian16(s[2 + n], s[3 + n])), 4 + n)
  {
    var n: int := s[1];
    assert s[1..][1..] == s[2..];
    assert s[2..][..n] == s[2..2 + n];
    assert s[2 + n..][..2] == s[2 + n..4 + n];
  }

  /** Any other type byte is refused at once: one byte read, no port. */
  lemma UnknownTypeReadsNothingMore(s: seq<Byte>)
    requires |s| >= 1 && s[0] != IPv4Address && s[0] != IPv6Address && s[0] != FqdnAddress
    ensures ParseAddrSpec(s) == Failed(UnrecognizedAddrType, 1)
  {
  }

  // ---------------------------------------------------------------------
  // sendReply: layout and address choice
  // ---------------------------------------------------------------------

  /** A reply frame is 6 + len(body) bytes: version, reply byte, a zero
      reserved byte, the address type, the body, and the port in
      big-endian order truncated to 16 bits. An address that cannot be
      formatted gives no frame. */
  lemma ReplyLayout(resp: Byte, a: AddrSpec)
    ensures ReplyFrame(resp, Some(a)).Ok? <==> FormatAddress(a).Ok?
    ensures FormatAddress(a).Ok? ==>
      var t := FormatAddress(a).value.0;
      var body := FormatAddress(a).value.1;
      var f := ReplyFrame(resp, Some(a)).value;
      && |f| == 6 + |body|
      && f[..4] == [Socks5Version, resp, 0, t]
      && f[4..4 + |body|] == body
      && BigEndian16(f[4 + |body|], f[5 + |body|]) == a.port % 0x1_0000
  {
    if FormatAddress(a).Ok? {
      var body := FormatAddress(a).value.1;
      var f := ReplyFrame(resp, Some(a)).value;
      assert f[4..4 + |body|] == body;
    }
  }

  /** A name hides the address: once resolved, the reply still carries the name. */
  lemma NameHidesAddress(resp: Byte, a: AddrSpec, ip: IP)
    requires a.fqdn != []
    ensures ReplyFrame(resp, Some(a)) == ReplyFrame(resp, Some(a.(ip := ip)))
  {
  }

  // ---------------------------------------------------------------------
  // Round trip between sendReply and readAddrSpec
  // ---------------------------------------------------------------------

  /** The addresses whose encoding decodes to themselves: a name of at
      most 255 bytes with no IP, or a 4-byte IP, or a 16-byte IP that is
      not IPv4-mapped; the port in 0..65535. */
  predicate Canonical(a: AddrSpec)
  {
    && 0 <= a.port < 0x1_0000
    && if a.fqdn != [] then |a.fqdn| <= 255 && a.ip == []
       else |a.ip| == 4 || (|a.ip| == 16 && !IsV4Mapped(a.ip))
  }

  lemma PortRoundTrip(port: int, rest: seq<Byte>)
    requires 0 <= port < 0x1_0000
    ensures TakeFull(PutUint16(port) + rest, 2) == Done(PutUint16(port), 2)
    ensures BigEndian16(PutUint16(port)[0], PutUint16(port)[1]) == port
  {
    assert (PutUint16(port) + rest)[..2] == PutUint16(port);
  }

  /** Re-encoding a decoded port gives back its two bytes. */
  lemma PortBytes(hi: Byte, lo: Byte)
    ensures PutUint16(BigEndian16(hi, lo)) == [hi, lo]
  {
    var w := hi * 256 + lo;
    assert w % 0x1_0000 == w;
    assert w == 256 * (w / 256) + w % 256 && 0 <= w % 256 < 256;
    assert w / 256 == hi && w % 256 == lo;
  }

  /** A name field: its length byte, then the name. */
  lemma FieldOfName(name: seq<Byte>, tail: seq<Byte>)
    requires |name| <= 255
    ensures ParseAddrField(FqdnAddress, [|name|] + name + tail) == Done(AddrSpec(name, [], 0), 1 + |name|)
  {
    var s := [|name|] + name + tail;
    assert s[1..] == name + tail;
    assert (name + tail)[..|name|] == name;
  }

  /** An address field: four or sixteen bytes, as the type says. */
  lemma FieldOfAddress(t: Byte, ip: IP, tail: seq<Byte>)
    requires (t == IPv4Address && |ip| == 4) || (t == IPv6Address && |ip| == 16)
    ensures ParseAddrField(t, ip + tail) == Done(AddrSpec([], ip, 0), |ip|)
  {
    assert (ip + tail)[..|ip|] == ip;
  }

  /** readAddrSpec reads the type byte, the field, then two port bytes. */
  lemma ParseFromParts(t: Byte, body: seq<Byte>, field: AddrSpec, port: seq<Byte>, rest: seq<Byte>)
    requires |port| == 2
    requires ParseAddrField(t, body + (port + rest)) == Done(field, |body|)
    ensures ParseAddrSpec([t] + body + port + rest) == Done(field.(port := BigEndian16(port[0], port[1])), 3 + |body|)
  {
    var s := [t] + body + port + rest;
    assert s[1..] == body + (port + rest);
    assert s[1 + |body|..] == port + rest;
    assert (port + rest)[..2] == port;
  }

  /** Decoding a reply frame from its address-type byte gives back the
      address, and stops exactly at the end of the frame. */
  lemma {:induction false} ReplyRoundTrip(resp: Byte, a: AddrSpec, rest: seq<Byte>)
    requires Canonical(a)
    ensures ReplyFrame(resp, Some(a)).Ok?
    ensures var f := ReplyFrame(resp, Some(a)).value;
      ParseAddrSpec(f[3..] + rest) == Done(a, |f| - 3)
  {
    var t, body := FormatAddress(a).value.0, FormatAddress(a).value.1;
    var port := PutUint16(a.port);
    var f := ReplyFrame(resp, Some(a)).value;
    assert f == [Socks5Version, resp, 0, t] + body + port;
    FrameAfterHeader(resp, t, body, port);
    assert f[3..] + rest == [t] + body + port + rest;
    if a.fqdn != [] {
      FieldOfName(a.fqdn, port + rest);
      ParseFromParts(t, body, AddrSpec(a.fqdn, [], 0), port, rest);
    } else {
      FieldOfAddress(t, a.ip, port + rest);
      ParseFromParts(t, body, AddrSpec([], a.ip, 0), port, rest);
    }
    PortRoundTrip(a.port, rest);
  }

  /** An IPv4-mapped 16-byte address goes out as IPv4 and comes back as
      its 4-byte form. */
  lemma {:induction false} MappedRoundTrip(resp: Byte, a: AddrSpec, rest: seq<Byte>)
    requires a.fqdn == [] && IsV4Mapped(a.ip) && 0 <= a.port < 0x1_0000
    ensures ReplyFrame(resp, Some(a)).Ok?
    ensures var f := ReplyFrame(resp, Some(a)).value;
      ParseAddrSpec(f[3..] + rest) == Done(a.(ip := a.ip[12..]), 7)
  {
    var b := a.(ip := a.ip[12..]);
    assert Canonical(b);
    assert ReplyFrame(resp, Some(a)) == ReplyFrame(resp, Some(b));
    ReplyRoundTrip(resp, b, rest);
  }

  /** A frame is the three header bytes followed by the address type,
      body and port. */
  lemma FrameAfterHeader(resp: Byte, t: Byte, body: seq<Byte>, port: seq<Byte>)
    ensures [Socks5Version, resp, 0, t] + body + port == [Socks5Version, resp, 0] + ([t] + body + port)
  {
    var h := [Socks5Version, resp, 0];
    assert [Socks5Version, resp, 0, t] == h + [t];
    AppendAssociative(h, [t], body);
    AppendAssociative(h, [t] + body, port);
  }

  /** The frame for a name and two port bytes. */
  lemma FqdnFrame(resp: Byte, name: seq<Byte>, hi: Byte, lo: Byte)
    requires 0 < |name| <= 255
    ensures ReplyFrame(resp, Some(AddrSpec(name, [], BigEndian16(hi, lo))))
         == Ok([Socks5Version, resp, 0] + ([FqdnAddress] + ([|name|] + name) + [hi, lo]))
  {
    var d := AddrSpec(name, [], BigEndian16(hi, lo));
    PortBytes(hi, lo);
    assert FormatAddress(d) == Ok((FqdnAddress, [|name|] + name));
    FrameAfterHeader(resp, FqdnAddress, [|name|] + name, [hi, lo]);
  }

  /** The bytes of a name field, cut into its parts. */
  lemma NameSlices(s: seq<Byte>, n: nat)
    requires |s| >= 4 + n && s[1] == n
    ensures s[..4 + n] == [s[0]] + ([s[1]] + s[2..2 + n]) + [s[2 + n], s[3 + n]]
  {
    assert s[1..2 + n] == [s[1]] + s[2..2 + n];
    assert s[..2 + n] == [s[0]] + s[1..2 + n];
    assert s[2 + n..4 + n] == [s[2 + n], s[3 + n]];
    assert s[..4 + n] == s[..2 + n] + s[2 + n..4 + n];
  }

  /** The name case of ParseThenReply. */
  lemma FqdnReencodes(resp: Byte, s: seq<Byte>)
    requires |s| >= 2 && s[0] == FqdnAddress && s[1] > 0 && |s| >= 4 + s[1] as int
    ensures var n: int := s[1];
      ReplyFrame(resp, Some(AddrSpec(s[2..2 + n], [], BigEndian16(s[2 + n], s[3 + n]))))
        == Ok([Socks5Version, resp, 0] + s[..4 + n])
  {
    var n: int := s[1];
    NameSlices(s, n);
    FqdnFrame(resp, s[2..2 + n], s[2 + n], s[3 + n]);
  }

  /** The address cases of ParseThenReply: type byte t, then |s| - 3 address
      bytes, then the port. */
  lemma AddressReencodes(resp: Byte, s: seq<Byte>, d: AddrSpec)
    requires |s| == 7 || |s| == 19
    requires s[0] == (if |s| == 7 then IPv4Address else IPv6Address)
    requires d == AddrSpec([], s[1..|s| - 2], BigEndian16(s[|s| - 2], s[|s| - 1]))
    requires |s| == 19 ==> !IsV4Mapped(d.ip)
    ensures ReplyFrame(resp, Some(d)) == Ok([Socks5Version, resp, 0] + s)
  {
    var port := [s[|s| - 2], s[|s| - 1]];
    PortBytes(s[|s| - 2], s[|s| - 1]);
    assert FormatAddress(d) == Ok((s[0], d.ip));
    assert ReplyFrame(resp, Some(d)) == Ok([Socks5Version, resp, 0, s[0]] + d.ip + port);
    assert s[..|s| - 2] == [s[0]] + d.ip;
    assert s == s[..|s| - 2] + port;
    FrameAfterHeader(resp, s[0], d.ip, port);
  }

  /** The other direction: re-encoding a decoded canonical address
      reproduces exactly the bytes it was decoded from. */
  lemma {:induction false} ParseThenReply(resp: Byte, s: seq<Byte>)
    requires ParseAddrSpec(s).Done? && Canonical(ParseAddrSpec(s).value)
    ensures var p := ParseAddrSpec(s);
      ReplyFrame(resp, Some(p.value)) == Ok([Socks5Version, resp, 0] + s[..p.used])
  {
    var p := ParseAddrSpec(s);
    var d := p.value;
    if s[0] == IPv4Address {
      IPv4Layout(s);
      AddressReencodes(resp, s[..7], d);
    } else if s[0] == IPv6Address {
      IPv6Layout(s);
      AddressReencodes(resp, s[..19], d);
    } else {
      assert s[0] == FqdnAddress;
      FqdnLayout(s);
      FqdnReencodes(resp, s);
    }
  }

  // ---------------------------------------------------------------------
  // The nil-address reply (see Findings)
  // ---------------------------------------------------------------------

  /** As written, every request with an unknown address type reaches
      `sendReply(conn, addrTypeNotSupported, nil)`, whose `addr.port`
      dereferences nil; the corrected reply is 0.0.0.0:0. */
  lemma UnknownAddrTypeReachesNilReply(cmd: Byte, rsv: Byte, t: Byte, rest: seq<Byte>)
    requires t != IPv4Address && t != IPv6Address && t != FqdnAddress
    ensures ParseAddrSpec(([Socks5Version, cmd, rsv, t] + rest)[3..]) == Failed(UnrecognizedAddrType, 1)
    ensures ReplyFrameAsWritten(ReplyByte(AddrTypeNotSupported), None) == Err(NilAddressDereference)
    ensures ReplyFrame(ReplyByte(AddrTypeNotSupported), None) == Ok([Socks5Version, 0, 0, IPv4Address, 0, 0, 0, 0, 0, 0])
  {
    assert ([Socks5Version, cmd, rsv, t] + rest)[3..] == [t] + rest;
  }

  /** The corrected nil reply decodes as the unspecified address 0.0.0.0:0. */
  lemma NilReplyDecodesAsUnspecified(resp: Byte, rest: seq<Byte>)
    ensures ParseAddrSpec(ReplyFrame(resp, None).value[3..] + rest) == Done(Unspecified, 7)
  {
    assert Canonical(Unspecified);
    ReplyRoundTrip(resp, Unspecified, rest);
  }

  /** Away from nil, the corrected reply is the reply as written. */
  lemma CorrectionOnlyTouchesNil(resp: Byte, addr: Option<AddrSpec>)
    ensures addr.Some? ==> ReplyFrame(resp, addr) == ReplyFrameAsWritten(resp, addr)
    ensures addr.None? ==> ReplyFrameAsWritten(resp, addr).Err? && ReplyFrame(resp, addr).Ok?
  {
  }

  // ---------------------------------------------------------------------
  // handleRequest
  // ---------------------------------------------------------------------

  /** A first header byte other than 5 fails after the three header bytes:
      no address byte is read and nothing is written. */
  lemma BadVersionWritesNothing(resolver: NameResolver, rules: RuleSet, net: Network,
                                srcIP: IP, srcPort: int, s: seq<Byte>)
    requires |s| >= 3 && s[0] != Socks5Version
    ensures RequestExchange(resolver, rules, net, srcIP, srcPort, s)
         == Exchange(Some(UnsupportedCommandVersion(s[0])), 3, [])
  {
  }

  /** The reserved third header byte is never looked at. */
  lemma ReservedByteIgnored(resolver: NameResolver, rules: RuleSet, net: Network,
                            srcIP: IP, srcPort: int, s: seq<Byte>, b: Byte)
    requires |s| >= 3
    ensures RequestExchange(resolver, rules, net, srcIP, srcPort, s[2 := b])
         == RequestExchange(resolver, rules, net, srcIP, srcPort, s)
  {
    var s' := s[2 := b];
    assert s'[3..] == s[3..];
    assert s'[..3][0] == s[..3][0] && s'[..3][1] == s[..3][1];
  }

  /** An unknown address type gets one addrTypeNotSupported reply, then
      the error; four bytes are consumed. */
  lemma UnknownAddrTypeReply(resolver: NameResolver, rules: RuleSet, net: Network,
                             srcIP: IP, srcPort: int, s: seq<Byte>)
    requires |s| >= 4 && s[0] == Socks5Version
    requires s[3] != IPv4Address && s[3] != IPv6Address && s[3] != FqdnAddress
    ensures RequestExchange(resolver, rules, net, srcIP, srcPort, s)
         == Exchange(Some(FailedToReadDestination(UnrecognizedAddrType)), 4,
                     ReplyFrame(ReplyByte(AddrTypeNotSupported), None).value)
  {
    UnknownTypeReadsNothingMore(s[3..]);
  }

  /** A failed resolution gets one hostUnreachable reply and the error,
      whatever the command. */
  lemma ResolutionFailureReply(command: Byte, resolver: NameResolver, rules: RuleSet, net: Network,
                               srcIP: IP, srcPort: int, dest: AddrSpec)
    requires dest.fqdn != [] && Resolve(resolver, net, dest.fqdn).None?
    ensures Resolved(command, resolver, rules, net, srcIP, srcPort, dest)
         == Exchange(Some(FailedToResolve(dest.fqdn)), 0, ReplyFrame(ReplyByte(HostUnreachable), None).value)
  {
  }

  /** A command byte outside {1, 2, 3} gets one commandNotSupported reply
      and an error, whatever the rules say. */
  lemma UnknownCommandReply(command: Byte, rules: RuleSet, net: Network, srcIP: IP, srcPort: int, dest: AddrSpec)
    requires command != ConnectCommand && command != BindCommand && command != AssociateCommand
    ensures Dispatch(command, rules, net, srcIP, srcPort, dest)
         == Exchange(Some(UnsupportedCommand(command)), 0, ReplyFrame(ReplyByte(CommandNotSupported), None).value)
  {
  }

  /** A rule denial writes exactly one ruleFailure reply carrying the
      destination and returns the "blocked" error; the outcome does not
      depend on the dialer or the relay, so no dial is attempted. */
  lemma RuleDenial(command: Byte, rules: RuleSet, net: Network, other: Network,
                   srcIP: IP, srcPort: int, dest: AddrSpec)
    requires command == ConnectCommand || command == BindCommand || command == AssociateCommand
    requires !Allows(rules, command, RuleQuery(dest.ip, dest.port, srcIP, srcPort))
    requires FormatAddress(dest).Ok?
    ensures Dispatch(command, rules, net, srcIP, srcPort, dest)
         == Exchange(Some(BlockedByRules(command)), 0, ReplyFrame(ReplyByte(RuleFailure), Some(dest)).value)
    ensures Dispatch(command, rules, net, srcIP, srcPort, dest)
         == Dispatch(command, rules, other, srcIP, srcPort, dest)
  {
    ReplyLayout(ReplyByte(RuleFailure), dest);
  }

  /** An allowed BIND or ASSOCIATE gets one commandNotSupported reply and
      no error; nothing is dialled. */
  lemma AllowedBindOrAssociate(command: Byte, rules: RuleSet, net: Network, other: Network,
                               srcIP: IP, srcPort: int, dest: AddrSpec)
    requires command == BindCommand || command == AssociateCommand
    requires Allows(rules, command, RuleQuery(dest.ip, dest.port, srcIP, srcPort))
    ensures Dispatch(command, rules, net, srcIP, srcPort, dest)
         == Exchange(None, 0, ReplyFrame(ReplyByte(CommandNotSupported), None).value)
    ensures Dispatch(command, rules, net, srcIP, srcPort, dest)
         == Dispatch(command, rules, other, srcIP, srcPort, dest)
  {
  }

  /** An allowed CONNECT dials the destination. A failed dial gets one
      reply whose code comes from the error text, and the connect error; a
      successful one gets a success reply carrying the requested
      destination, and then the relay's outcome. */
  lemma AllowedConnect(rules: RuleSet, net: Network, srcIP: IP, srcPort: int, dest: AddrSpec)
    requires Allows(rules, ConnectCommand, RuleQuery(dest.ip, dest.port, srcIP, srcPort))
    requires FormatAddress(dest).Ok?
    ensures var x := Dispatch(ConnectCommand, rules, net, srcIP, srcPort, dest);
      match net.dial(dest.ip, dest.port)
      case DialFailed(msg) =>
        x == Exchange(Some(ConnectFailed(msg)), 0, ReplyFrame(ReplyByte(DialFailureReply(msg)), Some(dest)).value)
      case Dialed =>
        && x.out == ReplyFrame(ReplyByte(Success), Some(dest)).value
        && (x.err == None <==> net.relay == None)
  {
    ReplyLayout(ReplyByte(Success), dest);
  }

  /** A destination that cannot be formatted gets no reply at all: a
      CONNECT, whatever the rules and the dial say, and a denied BIND or
      ASSOCIATE write nothing and return the send-reply error. */
  lemma UnformattableDestination(command: Byte, rules: RuleSet, net: Network, srcIP: IP, srcPort: int, dest: AddrSpec)
    requires FormatAddress(dest).Err?
    requires command == ConnectCommand
          || ((command == BindCommand || command == AssociateCommand)
              && !Allows(rules, command, RuleQuery(dest.ip, dest.port, srcIP, srcPort)))
    ensures Dispatch(command, rules, net, srcIP, srcPort, dest)
         == Exchange(Some(FailedToSendReply(FailedToFormatAddress)), 0, [])
  {
  }

  /** Such a destination comes from a name of length zero: the request
      [5, 1, rsv, 3, 0, hi, lo] is read in full (seven bytes), resolution
      is skipped, and nothing is written back. */
  lemma EmptyNameConnect(resolver: NameResolver, rules: RuleSet, net: Network, srcIP: IP, srcPort: int,
                         rsv: Byte, hi: Byte, lo: Byte, rest: seq<Byte>)
    ensures RequestExchange(resolver, rules, net, srcIP, srcPort,
                            [Socks5Version, ConnectCommand, rsv, FqdnAddress, 0, hi, lo] + rest)
         == Exchange(Some(FailedToSendReply(FailedToFormatAddress)), 7, [])
  {
    var s := [Socks5Version, ConnectCommand, rsv, FqdnAddress, 0, hi, lo] + rest;
    var dest := AddrSpec([], [], BigEndian16(hi, lo));
    assert s[..3] == [Socks5Version, ConnectCommand, rsv];
    assert s[3..] == [FqdnAddress] + [0] + [hi, lo] + rest;
    assert ParseAddrSpec(s[3..]) == Done(dest, 4) by {
      var empty: seq<Byte> := [];
      FieldOfName(empty, [hi, lo] + rest);
      assert [|empty|] + empty + ([hi, lo] + rest) == [0] + ([hi, lo] + rest);
      ParseFromParts(FqdnAddress, [0], AddrSpec([], [], 0), [hi, lo], rest);
    }
    UnformattableDestination(ConnectCommand, rules, net, srcIP, srcPort, dest);
  }

  /** Operating-system error texts that end in "connection refused" are
      classified as connectionRefused whatever precedes them. */
  lemma RefusedTextClassified(prefix: string)
    ensures DialFailureReply(prefix + "connection refused") == ConnectionRefused
  {
    var m := "connection refused";
    assert m[11..18] == "refused";
    ContainsAt(m, "refused", 11);
    ContainsAfterPrefix(prefix, m, "refused");
  }

  /** Whatever the input, handleRequest writes at most one reply frame. */
  ghost predicate IsReply(out: seq<Byte>)
  {
    exists code: ReplyCode, addr: Option<AddrSpec> :: ReplyFrame(ReplyByte(code), addr) == Ok(out)
  }

  lemma {:induction false} AtMostOneReply(resolver: NameResolver, rules: RuleSet, net: Network,
                                          srcIP: IP, srcPort: int, s: seq<Byte>)
    ensures var x := RequestExchange(resolver, rules, net, srcIP, srcPort, s);
      x.out == [] || IsReply(x.out)
  {
    var x := RequestExchange(resolver, rules, net, srcIP, srcPort, s);
    if x.out != [] {
      // Every branch that writes goes through Reply(code, addr, _).
      assert |s| >= 3 && s[0] == Socks5Version;
      var header := s[..3];
      match ParseAddrSpec(s[3..])
      case Failed(e, u) =>
        assert ReplyFrame(ReplyByte(AddrTypeNotSupported), None) == Ok(x.out);
      case Done(dest, u) =>
        ReplyOfResolved(header[1], resolver, rules, net, srcIP, srcPort, dest);
        assert x.out == Resolved(header[1], resolver, rules, net, srcIP, srcPort, dest).out;
    }
  }

  lemma ReplyOfResolved(command: Byte, resolver: NameResolver, rules: RuleSet, net: Network,
                        srcIP: IP, srcPort: int, dest: AddrSpec)
    ensures var x := Resolved(command, resolver, rules, net, srcIP, srcPort, dest);
      x.out == [] || IsReply(x.out)
  {
    var x := Resolved(command, resolver, rules, net, srcIP, srcPort, dest);
    if x.out != [] {
      var d := if dest.fqdn != [] && Resolve(resolver, net, dest.fqdn).Some?
               then dest.(ip := Resolve(resolver, net, dest.fqdn).value) else dest;
      var q := RuleQuery(d.ip, d.port, srcIP, srcPort);
      if dest.fqdn != [] && Resolve(resolver, net, dest.fqdn).None? {
        assert ReplyFrame(ReplyByte(HostUnreachable), None) == Ok(x.out);
      } else if command != ConnectCommand && command != BindCommand && command != AssociateCommand {
        assert ReplyFrame(ReplyByte(CommandNotSupported), None) == Ok(x.out);
      } else if !Allows(rules, command, q) {
        assert ReplyFrame(ReplyByte(RuleFailure), Some(d)) == Ok(x.out);
      } else if command != ConnectCommand {
        assert ReplyFrame(ReplyByte(CommandNotSupported), None) == Ok(x.out);
      } else if net.dial(d.ip, d.port).DialFailed? {
        var msg := net.dial(d.ip, d.port).message;
        assert ReplyFrame(ReplyByte(DialFailureReply(msg)), Some(d)) == Ok(x.out);
      } else {
        assert ReplyFrame(ReplyByte(Success), Some(d)) == Ok(x.out);
      }
    }
  }
}
