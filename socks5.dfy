/** socks5.go: the server configuration and its defaults (New), and the
    per-connection pipeline (ServeConn): version byte, authentication,
    request, in that order. */
module Socks5 {
  import opened Wire
  import opened Auth
  import opened Request

  /** An authentication method the configuration can list. */
  datatype Authenticator =
    | NoAuthAuthenticator
    | UserPassAuthenticator(credentials: CredentialStore)
    | CustomAuthenticator(code: Byte)

  /** GetCode: the method code the authenticator answers to, the RFC 1928
      number of its method. */
  function Code(a: Authenticator): (code: Byte)
    ensures a.NoAuthAuthenticator? ==> code == NoAuth
    ensures a.UserPassAuthenticator? ==> code == UserPassAuth
    ensures a.CustomAuthenticator? ==> code == a.code
  {
    match a
    case NoAuthAuthenticator => NoAuth
    case UserPassAuthenticator(_) => UserPassAuth
    case CustomAuthenticator(code) => code
  }

  /** The configured address rewriter (never consulted by the engine). */
  datatype AddressRewriter = AddressRewriter(rewrite: AddrSpec -> AddrSpec)

  /** The configured outbound connector (never consulted by the engine):
      net.Dial, or a function supplied by the caller. */
  datatype Connector = NetDial | CustomConnector(dial: (IP, int) -> DialResult)

  /** The authenticator registry: each authenticator under its code, a
      later entry replacing an earlier one with the same code. It holds one
      entry per code that occurs in the list, and every entry sits under
      its own code and comes from the list. */
  function Registry(methods: seq<Authenticator>): (r: map<Byte, Authenticator>)
    ensures r.Keys == set a | a in methods :: Code(a)
    ensures forall k :: k in r ==> r[k] in methods && Code(r[k]) == k
  {
    if methods == [] then map[]
    else
      var prefix := methods[..|methods| - 1];
      var last := methods[|methods| - 1];
      assert methods == prefix + [last];
      assert forall a :: a in methods <==> a in prefix || a == last;
      Registry(prefix)[Code(last) := last]
  }

  /** The authenticator New installs when none is configured. */
  function DefaultAuthMethods(credentials: Option<CredentialStore>): (r: seq<Authenticator>)
    ensures |r| == 1
    ensures credentials.Some? <==> r[0].UserPassAuthenticator?
    ensures credentials.Some? ==> r[0].credentials == credentials.value
    ensures credentials.None? <==> r[0] == NoAuthAuthenticator
  {
    match credentials
    case Some(store) => [UserPassAuthenticator(store)]
    case None => [NoAuthAuthenticator]
  }

  /** Config: every field may be left unset (None is Go's nil). */
  class Config {
    var authMethods: seq<Authenticator>
    var credentials: Option<CredentialStore>
    var resolver: Option<NameResolver>
    var rules: Option<RuleSet>
    var rewriter: Option<AddressRewriter>
    var bindIP: IP
    var connectFunc: Option<Connector>

    constructor (authMethods: seq<Authenticator>, credentials: Option<CredentialStore>,
                 resolver: Option<NameResolver>, rules: Option<RuleSet>,
                 rewriter: Option<AddressRewriter>, bindIP: IP, connectFunc: Option<Connector>)
      ensures this.authMethods == authMethods && this.credentials == credentials
      ensures this.resolver == resolver && this.rules == rules && this.rewriter == rewriter
      ensures this.bindIP == bindIP && this.connectFunc == connectFunc
    {
      this.authMethods := authMethods;
      this.credentials := credentials;
      this.resolver := resolver;
      this.rules := rules;
      this.rewriter := rewriter;
      this.bindIP := bindIP;
      this.connectFunc := connectFunc;
    }
  }

  /** The whole SOCKS5 session on the unread input s: the version byte,
      then the negotiated stages. */
  function Session(credentials: Option<CredentialStore>, resolver: NameResolver, rules: RuleSet,
                   net: Network, srcIP: IP, srcPort: int, s: seq<Byte>): (x: Exchange)
    ensures x.used <= |s|
  {
    match TakeByte(s)
    case Failed(e, u) => Exchange(Some(e), u, [])
    case Done(version, _) =>
      if version != Socks5Version then Exchange(Some(UnsupportedSocksVersion(version)), 1, [])
      else
        var x := Negotiated(credentials, resolver, rules, net, srcIP, srcPort, s[1..]);
        x.(used := 1 + x.used)
  }

  /** After the version byte: authenticate, then handleRequest only when
      authentication succeeded. */
  function Negotiated(credentials: Option<CredentialStore>, resolver: NameResolver, rules: RuleSet,
                      net: Network, srcIP: IP, srcPort: int, s: seq<Byte>): (x: Exchange)
    ensures x.used <= |s|
  {
    var a := AuthExchange(credentials, s);
    if a.err.Some? then Exchange(Some(FailedToAuthenticate(a.err.value)), a.used, a.out)
    else
      var r := RequestExchange(resolver, rules, net, srcIP, srcPort, s[a.used..]);
      Exchange(if r.err.Some? then Some(FailedToHandleRequest(r.err.value)) else None,
               a.used + r.used, a.out + r.out)
  }

  /** How the session continues once the version byte and authentication
      have succeeded. */
  lemma SessionAfterAuthentication(credentials: Option<CredentialStore>, resolver: NameResolver, rules: RuleSet,
                                   net: Network, srcIP: IP, srcPort: int, s: seq<Byte>)
    requires |s| > 0 && s[0] == Socks5Version
    requires AuthExchange(credentials, s[1..]).err.None?
    ensures var a := AuthExchange(credentials, s[1..]);
      var r := RequestExchange(resolver, rules, net, srcIP, srcPort, s[1..][a.used..]);
      Session(credentials, resolver, rules, net, srcIP, srcPort, s)
        == Exchange(if r.err.Some? then Some(FailedToHandleRequest(r.err.value)) else None,
                    1 + a.used + r.used, a.out + r.out)
  {
  }

  class Server {
    const config: Config
    var authMethods: map<Byte, Authenticator>

    /** What New guarantees and ServeConn relies on: a resolver and a rule
        set are configured. */
    predicate Valid()
      reads this, config
    {
      config.resolver.Some? && config.rules.Some?
    }

    constructor (config: Config, authMethods: map<Byte, Authenticator>)
      ensures this.config == config && this.authMethods == authMethods
    {
      this.config := config;
      this.authMethods := authMethods;
    }

    /** ServeConn: serves one connection and closes it. */
    method ServeConn(c: Conn, net: Network) returns (err: Option<Error>)
      requires Valid() && c.Valid()
      modifies c`pos, c`output, c`closed
      ensures c.Valid() && c.closed
      ensures var x := Session(config.credentials, config.resolver.value, config.rules.value,
                               net, c.remoteIP, c.remotePort, old(c.Unread()));
        err == x.err && c.pos == old(c.pos) + x.used && c.output == old(c.output) + x.out
    {
      ghost var s := c.Unread();
      var credentials, resolver, rules := config.credentials, config.resolver.value, config.rules.value;
      var version := c.ReadByte();
      if version.Err? {
        c.Close();
        return Some(version.error);
      }
      if version.value != Socks5Version {
        c.Close();
        return Some(UnsupportedSocksVersion(version.value));
      }
      assert c.Unread() == s[1..];

      var e := Authenticate(c, credentials);
      if e.Some? {
        c.Close();
        return Some(FailedToAuthenticate(e.value));
      }
      ghost var a := AuthExchange(credentials, s[1..]);
      ghost var rest := c.Unread();
      ghost var written := c.output;
      assert rest == s[1..][a.used..] && written == old(c.output) + a.out;

      e := HandleRequest(c, resolver, rules, net);
      ghost var r := RequestExchange(resolver, rules, net, c.remoteIP, c.remotePort, rest);
      assert c.output == written + r.out && e == r.err;
      AppendAssociative(old(c.output), a.out, r.out);
      SessionAfterAuthentication(credentials, resolver, rules, net, c.remoteIP, c.remotePort, s);
      c.Close();
      if e.Some? {
        return Some(FailedToHandleRequest(e.value));
      }
      return None;
    }
  }

  /** The loop of New that fills the registry, one authenticator at a
      time in list order. */
  method BuildRegistry(list: seq<Authenticator>) returns (methods: map<Byte, Authenticator>)
    ensures methods == Registry(list)
  {
    methods := map[];
    for i := 0 to |list|
      invariant methods == Registry(list[..i])
    {
      var a := list[i];
      assert list[..i + 1][..i] == list[..i];
      methods := methods[Code(a) := a];
    }
    assert list[..|list|] == list;
  }

  /** New: fills in the unset parts of conf and builds the registry. */
  method New(conf: Config) returns (s: Server, err: Option<Error>)
    modifies conf
    ensures fresh(s) && s.config == conf && s.Valid() && err == None
    ensures conf.authMethods ==
      if old(conf.authMethods) == [] then DefaultAuthMethods(old(conf.credentials))
      else old(conf.authMethods)
    ensures conf.resolver == if old(conf.resolver).None? then Some(DNSResolver) else old(conf.resolver)
    ensures conf.rules == if old(conf.rules).None? then Some(PermitAll) else old(conf.rules)
    ensures conf.connectFunc == if old(conf.connectFunc).None? then Some(NetDial) else old(conf.connectFunc)
    ensures conf.credentials == old(conf.credentials) && conf.rewriter == old(conf.rewriter)
    ensures conf.bindIP == old(conf.bindIP)
    ensures s.authMethods == Registry(conf.authMethods)
  {
    if |conf.authMethods| == 0 {
      conf.authMethods := DefaultAuthMethods(conf.credentials);
    }
    if conf.resolver.None? {
      conf.resolver := Some(DNSResolver);
    }
    if conf.rules.None? {
      conf.rules := Some(PermitAll);
    }
    if conf.connectFunc.None? {
      conf.connectFunc := Some(NetDial);
    }

    var methods := BuildRegistry(conf.authMethods);
    s := new Server(conf, methods);
    return s, None;
  }
}
