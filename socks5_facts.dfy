/** Properties of the server setup and of the per-connection pipeline
    (socks5.go). */
module Socks5Facts {
  import opened Wire
  import opened Auth
  import opened Request
  import opened Socks5
  import RequestFacts
  import AuthFacts

  // ---------------------------------------------------------------------
  // The authenticator registry New builds
  // ---------------------------------------------------------------------

  /** A later entry replaces an earlier one with the same code: an entry
      with no later namesake is the one registered under its code. */
  lemma {:induction false} RegistryLastWins(methods: seq<Authenticator>, i: nat)
    requires i < |methods|
    requires forall j :: i < j < |methods| ==> Code(methods[j]) != Code(methods[i])
    ensures Code(methods[i]) in Registry(methods) && Registry(methods)[Code(methods[i])] == methods[i]
    decreases |methods|
  {
    if i < |methods| - 1 {
      var prefix := methods[..|methods| - 1];
      assert forall j :: i < j < |prefix| ==> prefix[j] == methods[j];
      RegistryLastWins(prefix, i);
    }
  }

  /** With no authenticators configured, New registers exactly one: the
      username/password authenticator over the credentials when there are
      credentials, "no authentication" otherwise. */
  lemma DefaultRegistry(credentials: Option<CredentialStore>)
    ensures credentials.None? ==> Registry(DefaultAuthMethods(credentials)) == map[NoAuth := NoAuthAuthenticator]
    ensures credentials.Some? ==>
      Registry(DefaultAuthMethods(credentials)) == map[UserPassAuth := UserPassAuthenticator(credentials.value)]
  {
    var l := DefaultAuthMethods(credentials);
    assert l[..0] == [];
  }

  // ---------------------------------------------------------------------
  // ServeConn
  // ---------------------------------------------------------------------

  /** A first byte other than 5 ends the session at once: one byte read,
      nothing written, and authentication never starts. */
  lemma BadVersionEndsSession(credentials: Option<CredentialStore>, resolver: NameResolver, rules: RuleSet,
                              net: Network, srcIP: IP, srcPort: int, s: seq<Byte>)
    requires |s| > 0 && s[0] != Socks5Version
    ensures Session(credentials, resolver, rules, net, srcIP, srcPort, s)
         == Exchange(Some(UnsupportedSocksVersion(s[0])), 1, [])
  {
  }

  /** When authentication fails the request stage never runs: the session
      writes only what authentication wrote, and its outcome does not
      depend on the resolver, the rules or the network. */
  lemma AuthFailureEndsSession(credentials: Option<CredentialStore>, resolver: NameResolver, rules: RuleSet,
                               net: Network, resolver': NameResolver, rules': RuleSet, net': Network,
                               srcIP: IP, srcPort: int, s: seq<Byte>)
    requires |s| > 0 && s[0] == Socks5Version
    requires AuthExchange(credentials, s[1..]).err.Some?
    ensures var a := AuthExchange(credentials, s[1..]);
      Session(credentials, resolver, rules, net, srcIP, srcPort, s)
        == Exchange(Some(FailedToAuthenticate(a.err.value)), 1 + a.used, a.out)
    ensures Session(credentials, resolver, rules, net, srcIP, srcPort, s)
         == Session(credentials, resolver', rules', net', srcIP, srcPort, s)
  {
  }

  /** A CONNECT request to an IPv4 address that the rules allow and the
      dial reaches: ten bytes read, and the success reply echoes the
      requested address and port. */
  lemma ConnectIPv4Request(rules: RuleSet, resolver: NameResolver, net: Network, srcIP: IP, srcPort: int,
                           rsv: Byte, ip: IP, port: int, rest: seq<Byte>)
    requires |ip| == 4 && 0 <= port < 0x1_0000
    requires Allows(rules, ConnectCommand, RuleQuery(ip, port, srcIP, srcPort))
    requires net.dial(ip, port) == Dialed && net.relay == None
    ensures RequestExchange(resolver, rules, net, srcIP, srcPort,
                            [Socks5Version, ConnectCommand, rsv, IPv4Address] + ip + PutUint16(port) + rest)
         == Exchange(None, 10, [Socks5Version, ReplyByte(Success), 0, IPv4Address] + ip + PutUint16(port))
  {
    var port2 := PutUint16(port);
    var s := [Socks5Version, ConnectCommand, rsv, IPv4Address] + ip + port2 + rest;
    var dest := AddrSpec([], ip, port);
    assert s[..3] == [Socks5Version, ConnectCommand, rsv];
    assert s[3..] == [IPv4Address] + ip + port2 + rest;
    assert ParseAddrSpec(s[3..]) == Done(dest, 7) by {
      RequestFacts.FieldOfAddress(IPv4Address, ip, port2 + rest);
      RequestFacts.ParseFromParts(IPv4Address, ip, AddrSpec([], ip, 0), port2, rest);
      RequestFacts.PortRoundTrip(port, rest);
    }
    assert ReplyFrame(ReplyByte(Success), Some(dest))
        == Ok([Socks5Version, ReplyByte(Success), 0, IPv4Address] + ip + port2) by {
      assert To4(ip) == Some(ip);
      assert FormatAddress(dest) == Ok((IPv4Address, ip));
    }
  }

  /** A client that offers "no authentication" and username/password to a
      server holding credentials, and sends a pair the store accepts: the
      server answers the method choice [5, 2] and the status [1, 0], and
      the request stage then runs on exactly the bytes after the
      credentials, its reply following the status. */
  lemma PasswordSession(store: CredentialStore, resolver: NameResolver, rules: RuleSet,
                        net: Network, srcIP: IP, srcPort: int,
                        user: seq<Byte>, pass: seq<Byte>, tail: seq<Byte>)
    requires |user| <= 255 && |pass| <= 255 && store.valid(user, pass)
    ensures var hello := [Socks5Version, 2, NoAuth, UserPassAuth, UserAuthVersion, |user|] + user + [|pass|] + pass;
      var r := RequestExchange(resolver, rules, net, srcIP, srcPort, tail);
      Session(Some(store), resolver, rules, net, srcIP, srcPort, hello + tail)
        == Exchange(if r.err.Some? then Some(FailedToHandleRequest(r.err.value)) else None,
                    |hello| + r.used, [Socks5Version, UserPassAuth, UserAuthVersion, AuthSuccess] + r.out)
  {
    var hello := [Socks5Version, 2, NoAuth, UserPassAuth, UserAuthVersion, |user|] + user + [|pass|] + pass;
    HelloSlices(user, pass, tail);
    AuthFacts.OfferedThenCredentials(store, user, pass, tail);
    SessionAfterAuthentication(Some(store), resolver, rules, net, srcIP, srcPort, hello + tail);
  }

  /** The whole exchange of the connect test in socks5_test.go, on a
      server holding credentials: the client offers "no authentication" and
      username/password, authenticates, and asks to CONNECT to an IPv4
      address the rules allow and the dial reaches. The server answers the
      method choice, the authentication status and the success reply, in
      that order, and reads exactly the client's bytes. */
  lemma PasswordConnectSession(store: CredentialStore, resolver: NameResolver, rules: RuleSet,
                               net: Network, srcIP: IP, srcPort: int,
                               user: seq<Byte>, pass: seq<Byte>, ip: IP, port: int, rest: seq<Byte>)
    requires |user| <= 255 && |pass| <= 255 && store.valid(user, pass)
    requires |ip| == 4 && 0 <= port < 0x1_0000
    requires Allows(rules, ConnectCommand, RuleQuery(ip, port, srcIP, srcPort))
    requires net.dial(ip, port) == Dialed && net.relay == None
    ensures var request := [Socks5Version, ConnectCommand, 0, IPv4Address] + ip + PutUint16(port);
      var hello := [Socks5Version, 2, NoAuth, UserPassAuth, UserAuthVersion, |user|] + user + [|pass|] + pass;
      Session(Some(store), resolver, rules, net, srcIP, srcPort, hello + (request + rest))
        == Exchange(None, |hello| + 10,
                    [Socks5Version, UserPassAuth, UserAuthVersion, AuthSuccess]
                    + ([Socks5Version, ReplyByte(Success), 0, IPv4Address] + ip + PutUint16(port)))
  {
    var request := [Socks5Version, ConnectCommand, 0, IPv4Address] + ip + PutUint16(port);
    PasswordSession(store, resolver, rules, net, srcIP, srcPort, user, pass, request + rest);
    ConnectIPv4Request(rules, resolver, net, srcIP, srcPort, 0, ip, port, rest);
  }

  /** Where the stages of PasswordSession start in its input. */
  lemma HelloSlices(user: seq<Byte>, pass: seq<Byte>, tail: seq<Byte>)
    requires |user| <= 255 && |pass| <= 255
    ensures var credentials := [UserAuthVersion, |user|] + user + [|pass|] + pass;
      var s := [Socks5Version, 2, NoAuth, UserPassAuth, UserAuthVersion, |user|] + user + [|pass|] + pass + tail;
      && |s| == 4 + |credentials| + |tail| && s[0] == Socks5Version
      && s[1..] == [2, NoAuth, UserPassAuth] + credentials + tail
      && s[1..][3 + |credentials|..] == tail
  {
    var credentials := [UserAuthVersion, |user|] + user + [|pass|] + pass;
    var s := [Socks5Version, 2, NoAuth, UserPassAuth, UserAuthVersion, |user|] + user + [|pass|] + pass + tail;
    assert s == [Socks5Version] + ([2, NoAuth, UserPassAuth] + credentials + tail);
  }
}
