/** Properties of method negotiation and the username/password
    sub-negotiation (auth.go). */
module AuthFacts {
  import opened Wire
  import opened Auth

  /** readMethods reads back exactly the list a client encodes: the count
      byte, then the codes, and nothing after them. */
  lemma MethodsRoundTrip(methods: seq<Byte>, rest: seq<Byte>)
    requires |methods| <= 255
    ensures ParseMethods([|methods|] + methods + rest) == Done(methods, 1 + |methods|)
  {
    var s := [|methods|] + methods + rest;
    assert s[1..] == methods + rest;
    assert (methods + rest)[..|methods|] == methods;
  }

  /** The code the server runs is the first acceptable one in the
      client's order, whatever follows it. */
  lemma {:induction false} FirstAcceptableIgnoresRest(methods: seq<Byte>, more: seq<Byte>, supportUserPass: bool)
    requires FirstAcceptable(methods, supportUserPass).Some?
    ensures FirstAcceptable(methods + more, supportUserPass) == FirstAcceptable(methods, supportUserPass)
  {
    if !Acceptable(methods[0], supportUserPass) {
      assert (methods + more)[1..] == methods[1..] + more;
      FirstAcceptableIgnoresRest(methods[1..], more, supportUserPass);
    }
  }

  /** Without a credential store, a client offering "no authentication"
      anywhere in its list is answered [5, 0] and nothing more is read. */
  lemma NoAuthSelected(methods: seq<Byte>, rest: seq<Byte>)
    requires |methods| <= 255 && NoAuth in methods
    ensures AuthExchange(None, [|methods|] + methods + rest)
         == Exchange(None, 1 + |methods|, [Socks5Version, NoAuth])
  {
    MethodsRoundTrip(methods, rest);
    var k :| 0 <= k < |methods| && methods[k] == NoAuth;
    assert Acceptable(methods[k], false);
  }

  /** A list with no acceptable code is answered [5, 255] and refused. */
  lemma NothingAcceptable(credentials: Option<CredentialStore>, methods: seq<Byte>, rest: seq<Byte>)
    requires |methods| <= 255
    requires credentials.None? ==> NoAuth !in methods
    requires credentials.Some? ==> UserPassAuth !in methods
    ensures AuthExchange(credentials, [|methods|] + methods + rest)
         == Exchange(Some(NoSupportedAuth), 1 + |methods|, [Socks5Version, NoAcceptable])
  {
    MethodsRoundTrip(methods, rest);
  }

  /** The RFC 1929 request `[1, ULEN] + user + [PLEN] + pass` is answered
      [5, 2] and then [1, 0] when the store accepts the pair (no error) or
      [1, 1] when it does not (the authentication error); exactly the
      request's bytes are consumed. */
  lemma {:induction false} CredentialsRoundTrip(store: CredentialStore, user: seq<Byte>, pass: seq<Byte>, rest: seq<Byte>)
    requires |user| <= 255 && |pass| <= 255
    ensures var x := UserPassExchange(store, [UserAuthVersion, |user|] + user + [|pass|] + pass + rest);
      && x.used == 3 + |user| + |pass|
      && (store.valid(user, pass) ==> x == Exchange(None, x.used, [Socks5Version, UserPassAuth, UserAuthVersion, AuthSuccess]))
      && (!store.valid(user, pass) ==> x == Exchange(Some(UserAuthFailed), x.used, [Socks5Version, UserPassAuth, UserAuthVersion, AuthFailure]))
  {
    var s := [UserAuthVersion, |user|] + user + [|pass|] + pass + rest;
    var n := 2 + |user|;
    assert s[..2] == [UserAuthVersion, |user|];
    assert s[2..] == user + ([|pass|] + pass + rest);
    assert s[2..][..|user|] == user;
    assert s[n..] == [|pass|] + pass + rest;
    assert s[n + 1..] == pass + rest;
    assert s[n + 1..][..|pass|] == pass;
  }

  /** A sub-negotiation version other than 1 is refused after the two
      header bytes, with only the method choice [5, 2] written. */
  lemma BadSubnegotiationVersion(store: CredentialStore, s: seq<Byte>)
    requires |s| >= 2 && s[0] != UserAuthVersion
    ensures UserPassExchange(store, s)
         == Exchange(Some(UnsupportedAuthVersion(s[0])), 2, [Socks5Version, UserPassAuth])
  {
  }

  /** With a credential store, a client offering username/password gets
      the sub-negotiation, wherever the code sits in its list. */
  lemma UserPassSelected(store: CredentialStore, methods: seq<Byte>, rest: seq<Byte>)
    requires |methods| <= 255 && UserPassAuth in methods
    ensures var x := UserPassExchange(store, rest);
      AuthExchange(Some(store), [|methods|] + methods + rest) == x.(used := 1 + |methods| + x.used)
  {
    MethodsRoundTrip(methods, rest);
    var k :| 0 <= k < |methods| && methods[k] == UserPassAuth;
    assert Acceptable(methods[k], true);
    assert ([|methods|] + methods + rest)[1 + |methods|..] == rest;
  }

  /** A client offering "no authentication" and username/password, in
      that order, to a server holding credentials, followed by an RFC 1929
      request: the offer and the request are consumed, and the server
      answers [5, 2] and then [1, 0] or [1, 1] as the store decides. */
  lemma OfferedThenCredentials(store: CredentialStore, user: seq<Byte>, pass: seq<Byte>, tail: seq<Byte>)
    requires |user| <= 255 && |pass| <= 255
    ensures var credentials := [UserAuthVersion, |user|] + user + [|pass|] + pass;
      var x := AuthExchange(Some(store), [2, NoAuth, UserPassAuth] + credentials + tail);
      && x.used == 3 + |credentials|
      && (store.valid(user, pass) ==> x == Exchange(None, x.used, [Socks5Version, UserPassAuth, UserAuthVersion, AuthSuccess]))
      && (!store.valid(user, pass) ==> x == Exchange(Some(UserAuthFailed), x.used, [Socks5Version, UserPassAuth, UserAuthVersion, AuthFailure]))
  {
    var credentials := [UserAuthVersion, |user|] + user + [|pass|] + pass;
    assert [UserAuthVersion, |user|] + user + [|pass|] + pass + tail == credentials + tail;
    CredentialsRoundTrip(store, user, pass, tail);
    assert [2, NoAuth, UserPassAuth] + credentials + tail == [2] + [NoAuth, UserPassAuth] + (credentials + tail);
    UserPassSelected(store, [NoAuth, UserPassAuth], credentials + tail);
  }

  // ---------------------------------------------------------------------
  // The exchanges of auth_test.go
  // ---------------------------------------------------------------------

  /** A client offering only "no authentication" to a server without
      credentials: [1, 0] in, [5, 0] out. */
  lemma NoAuthExample()
    ensures AuthExchange(None, [1, NoAuth]) == Exchange(None, 2, [Socks5Version, NoAuth])
  {
    NoAuthSelected([NoAuth], []);
    assert [1] + [NoAuth] + [] == [1, NoAuth];
  }

  /** The bytes of "foo", "bar" and "baz". */
  const Foo: seq<Byte> := [102, 111, 111]
  const Bar: seq<Byte> := [98, 97, 114]
  const Baz: seq<Byte> := [98, 97, 122]

  /** The store that accepts exactly foo/bar. */
  function FooBar(): (store: CredentialStore)
    ensures store.valid(Foo, Bar)
    ensures !store.valid(Foo, Baz)
  {
    CredentialStore((user: seq<Byte>, pass: seq<Byte>) => user == Foo && pass == Bar)
  }

  /** Offering [0, 2] with "foo"/"bar" to a server holding that pair:
      [5, 2] then [1, 0]. */
  lemma PasswordAcceptedExample(rest: seq<Byte>)
    ensures AuthExchange(Some(FooBar()), [2, NoAuth, UserPassAuth, 1, 3] + Foo + [3] + Bar + rest)
         == Exchange(None, 12, [5, 2, 1, 0])
  {
    OfferedThenCredentials(FooBar(), Foo, Bar, rest);
    assert [2, NoAuth, UserPassAuth, 1, 3] + Foo + [3] + Bar + rest
        == [2, NoAuth, UserPassAuth] + ([UserAuthVersion, |Foo|] + Foo + [|Bar|] + Bar) + rest;
  }

  /** The same with "foo"/"baz": [5, 2] then [1, 1], and the error. */
  lemma PasswordRejectedExample(rest: seq<Byte>)
    ensures AuthExchange(Some(FooBar()), [2, NoAuth, UserPassAuth, 1, 3] + Foo + [3] + Baz + rest)
         == Exchange(Some(UserAuthFailed), 12, [5, 2, 1, 1])
  {
    OfferedThenCredentials(FooBar(), Foo, Baz, rest);
    assert [2, NoAuth, UserPassAuth, 1, 3] + Foo + [3] + Baz + rest
        == [2, NoAuth, UserPassAuth] + ([UserAuthVersion, |Foo|] + Foo + [|Baz|] + Baz) + rest;
  }

  /** A server holding credentials, offered only "no authentication":
      [5, 255] and refused. */
  lemma NoSupportedAuthExample(store: CredentialStore)
    ensures AuthExchange(Some(store), [1, NoAuth]) == Exchange(Some(NoSupportedAuth), 2, [Socks5Version, NoAcceptable])
  {
    NothingAcceptable(Some(store), [NoAuth], []);
    assert [1] + [NoAuth] + [] == [1, NoAuth];
  }

  /** Selection looks only at whether credentials are configured: a server
      without credentials, offered [0, 2], answers [5, 0] and never asks for
      a password (auth_test.go expects [5, 2] from a server whose
      authenticator list holds only username/password). */
  lemma SelectionIgnoresRegistry(rest: seq<Byte>)
    ensures AuthExchange(None, [2, NoAuth, UserPassAuth] + rest) == Exchange(None, 3, [Socks5Version, NoAuth])
  {
    NoAuthSelected([NoAuth, UserPassAuth], rest);
    assert [2] + [NoAuth, UserPassAuth] + rest == [2, NoAuth, UserPassAuth] + rest;
  }
}
