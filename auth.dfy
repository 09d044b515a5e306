/** auth.go: method negotiation (RFC 1928 section 3) and the
    username/password sub-negotiation (RFC 1929 section 2). */
module Auth {
  import opened Wire

  const NoAuth: Byte := 0
  const NoAcceptable: Byte := 255
  const UserPassAuth: Byte := 2
  const UserAuthVersion: Byte := 1
  const AuthSuccess: Byte := 0
  const AuthFailure: Byte := 1

  /** The credential store: decides whether a user name and password match. */
  datatype CredentialStore = CredentialStore(valid: (seq<Byte>, seq<Byte>) -> bool)

  // ---------------------------------------------------------------------
  // Specification over the unread input
  // ---------------------------------------------------------------------

  /** readMethods: a count byte N, then N method codes. */
  function ParseMethods(s: seq<Byte>): (r: Parsed<seq<Byte>>)
    ensures r.used <= |s|
  {
    match TakeByte(s)
    case Failed(e, u) => Failed(e, u)
    case Done(n, _) =>
      match TakeFull(s[1..], n)
      case Failed(e, u) => Failed(e, 1 + u)
      case Done(methods, u) => Done(methods, 1 + u)
  }

  /** A method code the server takes: "no authentication" only when no
      credential store is configured, username/password only when one is. */
  predicate Acceptable(code: Byte, supportUserPass: bool): (r: bool)
    ensures r <==> code == (if supportUserPass then UserPassAuth else NoAuth)
  {
    (code == NoAuth && !supportUserPass) || (code == UserPassAuth && supportUserPass)
  }

  /** The position of the first acceptable code in the client's list. */
  function FirstAcceptable(methods: seq<Byte>, supportUserPass: bool): (r: Option<nat>)
    ensures r.Some? ==> r.value < |methods| && Acceptable(methods[r.value], supportUserPass)
    ensures r.Some? ==> forall j :: 0 <= j < r.value ==> !Acceptable(methods[j], supportUserPass)
    ensures r.None? ==> forall j :: 0 <= j < |methods| ==> !Acceptable(methods[j], supportUserPass)
  {
    if methods == [] then None
    else if Acceptable(methods[0], supportUserPass) then Some(0)
    else match FirstAcceptable(methods[1..], supportUserPass)
      case None => None
      case Some(i) => Some(i + 1)
  }

  /** userPassAuth on the unread input s: announce the method, then read
      version and name length, the name, the password length, the password. */
  function UserPassExchange(store: CredentialStore, s: seq<Byte>): (x: Exchange)
    ensures x.used <= |s|
  {
    var chosen := [Socks5Version, UserPassAuth];
    match TakeFull(s, 2)
    case Failed(e, u) => Exchange(Some(e), u, chosen)
    case Done(header, _) =>
      if header[0] != UserAuthVersion then
        Exchange(Some(UnsupportedAuthVersion(header[0])), 2, chosen)
      else match TakeFull(s[2..], header[1])
        case Failed(e, u) => Exchange(Some(e), 2 + u, chosen)
        case Done(user, u) =>
          var n := 2 + u;
          match TakeByte(s[n..])
          case Failed(e, v) => Exchange(Some(e), n + v, chosen)
          case Done(passLen, _) =>
            match TakeFull(s[n + 1..], passLen)
            case Failed(e, v) => Exchange(Some(e), n + 1 + v, chosen)
            case Done(pass, v) =>
              if store.valid(user, pass) then
                Exchange(None, n + 1 + v, chosen + [UserAuthVersion, AuthSuccess])
              else
                Exchange(Some(UserAuthFailed), n + 1 + v, chosen + [UserAuthVersion, AuthFailure])
  }

  /** authenticate on the unread input s. */
  function AuthExchange(credentials: Option<CredentialStore>, s: seq<Byte>): (x: Exchange)
    ensures x.used <= |s|
  {
    match ParseMethods(s)
    case Failed(e, u) => Exchange(Some(FailedToGetAuthMethods(e)), u, [])
    case Done(methods, u) =>
      match FirstAcceptable(methods, credentials.Some?)
      case None => Exchange(Some(NoSupportedAuth), u, [Socks5Version, NoAcceptable])
      case Some(i) =>
        if methods[i] == NoAuth then Exchange(None, u, [Socks5Version, NoAuth])
        else
          var x := UserPassExchange(credentials.value, s[u..]);
          x.(used := u + x.used)
  }

  // ---------------------------------------------------------------------
  // The exchange as methods on the connection
  // ---------------------------------------------------------------------

  method ReadMethods(r: Conn) returns (methods: Result<seq<Byte>>)
    requires r.Valid()
    modifies r`pos
    ensures r.Valid()
    ensures var p := ParseMethods(old(r.Unread()));
      methods == p.ToResult() && r.pos == old(r.pos) + p.used
  {
    ghost var s := r.Unread();
    var header := r.ReadByte();
    if header.Err? {
      return Err(header.error);
    }
    assert r.Unread() == s[1..];
    methods := r.ReadFull(header.value);
  }

  method NoAuthMode(conn: Conn) returns (err: Option<Error>)
    modifies conn`output
    ensures err == None && conn.output == old(conn.output) + [Socks5Version, NoAuth]
  {
    conn.Write([Socks5Version, NoAuth]);
    return None;
  }

  method NoAcceptableAuth(conn: Conn) returns (err: Option<Error>)
    modifies conn`output
    ensures err == Some(NoSupportedAuth) && conn.output == old(conn.output) + [Socks5Version, NoAcceptable]
  {
    conn.Write([Socks5Version, NoAcceptable]);
    return Some(NoSupportedAuth);
  }

  method UserPassAuthenticate(c: Conn, store: CredentialStore) returns (err: Option<Error>)
    requires c.Valid()
    modifies c`pos, c`output
    ensures c.Valid()
    ensures var x := UserPassExchange(store, old(c.Unread()));
      err == x.err && c.pos == old(c.pos) + x.used && c.output == old(c.output) + x.out
  {
    ghost var s := c.Unread();
    c.Write([Socks5Version, UserPassAuth]);

    var header := c.ReadFull(2);
    if header.Err? {
      return Some(header.error);
    }
    if header.value[0] != UserAuthVersion {
      return Some(UnsupportedAuthVersion(header.value[0]));
    }
    assert c.Unread() == s[2..];

    var user := c.ReadFull(header.value[1]);
    if user.Err? {
      return Some(user.error);
    }
    ghost var n := 2 + |user.value|;
    assert c.Unread() == s[n..];

    var passLen := c.ReadByte();
    if passLen.Err? {
      return Some(passLen.error);
    }
    assert c.Unread() == s[n + 1..];

    var pass := c.ReadFull(passLen.value);
    if pass.Err? {
      return Some(pass.error);
    }

    if store.valid(user.value, pass.value) {
      c.Write([UserAuthVersion, AuthSuccess]);
    } else {
      c.Write([UserAuthVersion, AuthFailure]);
      return Some(UserAuthFailed);
    }
    return None;
  }

  /** authenticate: reads the offered methods and runs the first one the
      server takes, in the client's order; `credentials` is the server's
      Credentials field. */
  method Authenticate(c: Conn, credentials: Option<CredentialStore>) returns (err: Option<Error>)
    requires c.Valid()
    modifies c`pos, c`output
    ensures c.Valid()
    ensures var x := AuthExchange(credentials, old(c.Unread()));
      err == x.err && c.pos == old(c.pos) + x.used && c.output == old(c.output) + x.out
  {
    ghost var s := c.Unread();
    var methods := ReadMethods(c);
    if methods.Err? {
      return Some(FailedToGetAuthMethods(methods.error));
    }
    ghost var u := c.pos - old(c.pos);
    assert c.Unread() == s[u..];

    var supportUserPass := credentials.Some?;
    for i := 0 to |methods.value|
      invariant forall j :: 0 <= j < i ==> !Acceptable(methods.value[j], supportUserPass)
    {
      var code := methods.value[i];
      if code == NoAuth && !supportUserPass {
        err := NoAuthMode(c);
        return;
      }
      if code == UserPassAuth && supportUserPass {
        err := UserPassAuthenticate(c, credentials.value);
        return;
      }
    }
    err := NoAcceptableAuth(c);
  }
}
