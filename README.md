# go-socks5 server engine in Dafny

A model of the SOCKS5 server engine of `go-socks5`. It covers the three
stages one connection goes through:

- **Version byte.** `ServeConn` reads the version byte and closes the
  connection at the end.
- **Method negotiation.** `authenticate`, `readMethods`, `noAuthMode`,
  `noAcceptableAuth` and `userPassAuth`, following RFC 1928 section 3 and
  RFC 1929 section 2.
- **The request.** `handleRequest`, `readAddrSpec`, `sendReply` and the
  CONNECT, BIND and ASSOCIATE handlers, following RFC 1928 sections 4 to 6.

Server construction (`New`) is modelled as well: it fills in defaults and
builds the authenticator registry.

## How the model is organised

- **`Wire`.** Bytes, the error values, and what a read from the buffered
  reader gives:
  - `TakeByte` is a one-byte `Read`;
  - `TakeFull` is `io.ReadAtLeast`, which succeeds only when the whole
    field is there, reports `Eof` when nothing was left, and reports
    `UnexpectedEof` when part was.

  The client connection is the class `Conn`. It holds the input, the
  reader's cursor, the bytes written back, and a closed flag.
- **Spec functions over the unread input.** Each stage of the protocol is a
  function of the unread input `s`:
  - `ParseAddrSpec` and `ParseMethods` give the value read and the bytes
    consumed;
  - `RequestExchange`, `AuthExchange`, `UserPassExchange` and `Session`
    give an `Exchange`: the error returned, the bytes consumed and the
    bytes written.
- **Methods on `Conn`.** `ReadAddrSpec`, `SendReply`, `HandleRequest`,
  `Authenticate`, `Server.ServeConn` and the others follow the source step
  by step. Each is proved equal to its spec function.
- **Facts modules.** `RequestFacts`, `AuthFacts` and `Socks5Facts` hold the
  properties: round trips, the layouts of the wire formats, and what each
  error path writes.
- **Collaborators become parameters.** The resolver, the rule set, the
  credential store, the system resolver, the dial and the relay are values
  with function fields (`NameResolver`, `RuleSet`, `CredentialStore`,
  `Network`). `Network.relay` is the outcome of the relay once the success
  reply has gone out.

Places where the model follows the code rather than the protocol or the
documented intent:

- **All reply codes are 0.** The reply-code constants in request.go:22-32
  give a value only to the first name and do not use `iota`. Every code is
  therefore 0, which RFC 1928 uses for "succeeded". `Request.ReplyByte`
  states this. Every reply the source does send carries reply byte 0,
  including the one for a blocked or failed CONNECT.
- **The nil reply is corrected.** In the source, `sendReply` with a nil
  address panics (see "## Findings"). The request stage of the model sends
  the corrected frame for 0.0.0.0:0 instead, so on those paths it answers
  where the source crashes.
- **Method selection ignores the registry.** `authenticate`
  (auth.go:30-41) looks only at whether `Credentials` is set. It never
  consults the registry that `New` builds from `AuthMethods`. TestNoAuth
  configures nothing. The password tests in auth_test.go and
  socks5_test.go configure only `AuthMethods`. As written, those servers
  answer `[5, 0]` and never ask for a password
  (`AuthFacts.SelectionIgnoresRegistry`). Every lemma that restates a
  password test, or that needs a server asking for a password, therefore
  sets `Credentials`. These are `AuthFacts.OfferedThenCredentials`,
  `AuthFacts.PasswordAcceptedExample`, `AuthFacts.PasswordRejectedExample`,
  `AuthFacts.NoSupportedAuthExample`, `Socks5Facts.PasswordSession` and
  `Socks5Facts.PasswordConnectSession`.
- **Some configuration is stored but never read.** `Rewriter`,
  `ConnectFunc` and `BindIP` are kept by `New` and never read by the engine.
  CONNECT dials directly (`Network.dial`).
- **The success reply carries the request's destination.** It is not the
  locally bound address (request.go:140).

## Model

| member | source | states |
|---|---|---|
| Wire.TakeByte | request.go:197-201 | a one-byte read succeeds exactly when input remains, gives its first byte and consumes one; otherwise EOF and nothing consumed |
| Wire.TakeFull | request.go:234-238 | `io.ReadAtLeast` with a buffer of n: succeeds exactly when n bytes remain and gives them; otherwise consumes the rest and reports EOF (nothing left) or unexpected EOF (a part) |
| Wire.BigEndian16 | request.go:239 | a big-endian 16-bit port lies in 0..65535 |
| Wire.PutUint16 | request.go:277 | `PutUint16(uint16(port))` writes two bytes that read back as the port modulo 65536 |
| Wire.Contains | request.go:127-131 | `strings.Contains(s, t)` holds exactly when t occurs in s at some offset |
| Wire.ContainsAt | request.go:127-131 | an occurrence of the searched text at any offset makes `strings.Contains` true |
| Wire.ContainsAfterPrefix | request.go:127-131 | text found in a message is still found after anything is put in front of it |
| Wire.Conn.ReadByte | request.go:199 | the reader consumes exactly what `TakeByte` says and returns its value or error |
| Wire.Conn.ReadFull | request.go:207 | the reader consumes exactly what `TakeFull` says and returns its value or error |
| Wire.Conn.Write | request.go:280 | a write appends the whole buffer to what the client receives |
| Wire.Conn.Close | socks5.go:160 | the connection is closed |
| Request.ReplyByte | request.go:22-32 | every reply name has the wire value 0 (no `iota` in the const block) |
| Request.To4 | request.go:258-260 | `To4` succeeds exactly for a 4-byte address or an IPv4-mapped 16-byte one, and gives its last four bytes |
| Request.To16 | request.go:262-264 | `To16` succeeds exactly for 4- and 16-byte addresses and gives a 16-byte form ending in the address |
| Request.ParseAddrField | request.go:204-232 | reading the address after its type byte never consumes more than is there |
| Request.ParseAddrSpec | request.go:194-242 | a decoded port is in 0..65535 and no more input is consumed than exists |
| Request.ReadAddrField | request.go:204-232 | the address switch of `readAddrSpec` returns what `ParseAddrField` decodes for the type byte (including the unrecognised-type error) and advances the reader by exactly the bytes it uses |
| Request.ReadAddrSpec | request.go:194-242 | `readAddrSpec` returns what `ParseAddrSpec` decodes and advances the reader by exactly the bytes it uses |
| Request.ReplyFrameAsWritten | request.go:245-282 | as written, a nil address fails (the `addr.port` dereference) |
| Request.UnspecifiedFrame | request.go:250-282 | the frame for the unspecified address 0.0.0.0:0 is `[5, resp, 0, 1, 0,0,0,0, 0,0]` |
| Request.ReplyFrame | request.go:245-282 | the reply frame: as written for every address, and `[5, resp, 0, 1, 0,0,0,0, 0,0]` (0.0.0.0:0) for a nil one |
| Request.MakeMessage | request.go:270-277 | the message buffer is version, reply, zero, address type, body and big-endian port, in that order |
| Request.SendReply | request.go:245-282 | `sendReply` appends exactly the reply frame and returns no error, or writes nothing and returns the formatting error |
| Request.DialFailureReply | request.go:124-131 | a dial error mentioning "refused" is connectionRefused; otherwise one mentioning "network is unreachable" is networkUnreachable; anything else is hostUnreachable (each an if-and-only-if) |
| Request.Reply | request.go:132-135 | replying reads no input |
| Request.ConnectReaction | request.go:111-154 | the CONNECT handler reads no input |
| Request.UnsupportedReaction | request.go:157-190 | the BIND and ASSOCIATE handlers read no input |
| Request.Dispatch | request.go:94-107 | the command switch reads no input |
| Request.Resolved | request.go:82-107 | name resolution and dispatch read no input |
| Request.RequestExchange | request.go:59-108 | handling a request never consumes more input than exists |
| Request.HandleConnect | request.go:111-154 | `handleConnect` returns the error and writes exactly the bytes of `ConnectReaction` |
| Request.HandleBind | request.go:157-172 | `handleBind` returns the error and writes exactly the bytes of `UnsupportedReaction` for BIND |
| Request.HandleAssociate | request.go:175-190 | `handleAssociate` returns the error and writes exactly the bytes of `UnsupportedReaction` for ASSOCIATE |
| Request.HandleRequest | request.go:59-108 | `handleRequest` returns the error, consumes the input and writes the bytes of `RequestExchange` |
| RequestFacts.IPv4Layout | request.go:205-211 | type 1 is four address bytes and a big-endian port: seven bytes in all, no name |
| RequestFacts.IPv6Layout | request.go:212-217 | type 4 is sixteen address bytes and a big-endian port: nineteen bytes in all, no name |
| RequestFacts.FqdnLayout | request.go:219-228 | type 3 is a length byte L, L name bytes and a port: 4 + L bytes, with no IP |
| RequestFacts.UnknownTypeReadsNothingMore | request.go:230-231 | any other type byte fails at once with "unrecognized address type", and the port is not read |
| RequestFacts.ReplyLayout | request.go:270-277 | a reply is 6 + len(body) bytes: header, address type, body, and the port modulo 65536; an address that cannot be formatted gives no reply |
| Request.FormatAddress | request.go:249-268 | the body is chosen in this order: name (length modulo 256), then IPv4 or IPv4-mapped as IPv4, then other 16-byte addresses as IPv6; anything else is a formatting error |
| RequestFacts.NameHidesAddress | request.go:254-256 | when a name is present, the resolved IP does not change the reply |
| RequestFacts.PortRoundTrip | request.go:236-239 | a port in range written by `PutUint16` reads back as itself |
| RequestFacts.PortBytes | request.go:239 | re-encoding a decoded port gives back its two bytes |
| RequestFacts.ReplyRoundTrip | request.go:245-282 | decoding a reply frame from its type byte gives back the address, consuming exactly the frame, for every address with a port in 0..65535 that is a name of 1 to 255 bytes with no IP, a 4-byte IP with no name, or an unmapped 16-byte IP with no name (a name that carries a resolved IP comes back without the IP; a mapped address is covered by `MappedRoundTrip`) |
| RequestFacts.MappedRoundTrip | request.go:258-260 | an IPv4-mapped address goes out as IPv4 and comes back as its 4-byte form |
| RequestFacts.ParseThenReply | request.go:194-242 | re-encoding a decoded address reproduces exactly the bytes it was decoded from, when the decoded address is a name of 1 to 255 bytes, a 4-byte address or an unmapped 16-byte address (an IPv4-mapped 16-byte field re-encodes as IPv4, and a zero-length name gives no reply) |
| RequestFacts.FqdnReencodes | request.go:219-228 | the name case of the previous row |
| RequestFacts.AddressReencodes | request.go:205-217 | the IPv4 and IPv6 cases of the previous row |
| RequestFacts.UnknownAddrTypeReachesNilReply | request.go:71-78 | a request with an unknown address type reaches `sendReply` with a nil address; as written that fails, corrected it sends the 0.0.0.0:0 frame |
| RequestFacts.NilReplyDecodesAsUnspecified | request.go:250-252 | the corrected nil reply decodes as 0.0.0.0:0 |
| RequestFacts.CorrectionOnlyTouchesNil | request.go:249-268 | the corrected reply agrees with the code as written on every non-nil address and differs only for nil |
| RequestFacts.BadVersionWritesNothing | request.go:66-69 | a first header byte other than 5 fails after three bytes, with nothing written |
| RequestFacts.ReservedByteIgnored | request.go:60-69 | the reserved header byte never changes the outcome |
| RequestFacts.UnknownAddrTypeReply | request.go:71-80 | an unknown address type gets exactly one addrTypeNotSupported reply and an error, after four bytes |
| RequestFacts.ResolutionFailureReply | request.go:82-90 | a name that does not resolve gets exactly one hostUnreachable reply and an error, whatever the command |
| RequestFacts.UnknownCommandReply | request.go:102-106 | a command outside 1..3 gets exactly one commandNotSupported reply and an error, whatever the rules |
| RequestFacts.RuleDenial | request.go:112-119 | a command the rules deny gets exactly one ruleFailure reply carrying the destination and the "blocked" error; dial and relay play no part |
| RequestFacts.AllowedBindOrAssociate | request.go:167-171 | an allowed BIND or ASSOCIATE gets a commandNotSupported reply and no error, and nothing is dialled |
| RequestFacts.AllowedConnect | request.go:121-142 | an allowed CONNECT that fails to dial gets the classified reply and the connect error; one that dials gets a success reply carrying the destination, and no error exactly when the relay ends cleanly |
| RequestFacts.UnformattableDestination | request.go:111-142 | a destination that cannot be formatted gets no reply: a CONNECT (whatever the rules and the dial say) and a denied BIND or ASSOCIATE (request.go:160-164, 178-182) write nothing and return the send-reply error |
| RequestFacts.EmptyNameConnect | request.go:82-142 | a CONNECT to a name of length zero (read at request.go:219-228) reads all seven bytes, skips resolution, writes nothing and returns the send-reply error |
| RequestFacts.RefusedTextClassified | request.go:127-128 | an error text ending in "connection refused" is classified connectionRefused, whatever precedes it |
| RequestFacts.AtMostOneReply | request.go:59-108 | handling a request writes nothing or exactly one reply frame |
| RequestFacts.ReplyOfResolved | request.go:82-107 | resolution and dispatch write nothing or exactly one reply frame |
| Auth.ParseMethods | auth.go:116-126 | reading the method list never consumes more input than exists |
| Auth.Acceptable | auth.go:31-38 | a code is acceptable exactly when it is the one method the server supports: username/password when credentials are set, "no authentication" otherwise |
| Auth.FirstAcceptable | auth.go:33-41 | the selected method is acceptable and no earlier offered method is; when none is selected, no offered method is acceptable |
| Auth.UserPassExchange | auth.go:49-99 | the sub-negotiation never consumes more input than exists |
| Auth.AuthExchange | auth.go:23-45 | negotiation never consumes more input than exists |
| Auth.ReadMethods | auth.go:116-126 | `readMethods` returns what `ParseMethods` decodes and consumes exactly what it uses |
| Auth.NoAuthMode | auth.go:102-105 | writes `[5, 0]` and succeeds |
| Auth.NoAcceptableAuth | auth.go:109-112 | writes `[5, 255]` and returns the "no supported authentication" error |
| Auth.UserPassAuthenticate | auth.go:49-99 | `userPassAuth` returns the error, consumes the input and writes the bytes of `UserPassExchange` |
| Auth.Authenticate | auth.go:23-45 | `authenticate` returns the error, consumes the input and writes the bytes of `AuthExchange` |
| AuthFacts.MethodsRoundTrip | auth.go:116-126 | a method list encoded as a count and codes reads back as itself, consuming exactly its bytes |
| AuthFacts.FirstAcceptableIgnoresRest | auth.go:33-41 | methods offered after the first acceptable one do not change the choice |
| AuthFacts.NoAuthSelected | auth.go:31-37 | without credentials, a client offering "no authentication" anywhere is answered `[5, 0]` and nothing more is read |
| AuthFacts.NothingAcceptable | auth.go:43-44 | a list with no acceptable method is answered `[5, 255]` and refused |
| AuthFacts.OfferedThenCredentials | auth.go:23-99 | offering `[0, 2]` to a server with credentials and then sending an RFC 1929 request consumes both and writes `[5, 2]` then `[1, 0]` (accepted, no error) or `[1, 1]` (rejected, the authentication error) |
| AuthFacts.CredentialsRoundTrip | auth.go:55-99 | a well-formed RFC 1929 request consumes exactly its bytes and is answered `[5, 2, 1, 0]` with no error if the store accepts the pair, or `[5, 2, 1, 1]` and the authentication error if not |
| AuthFacts.BadSubnegotiationVersion | auth.go:61-64 | a sub-negotiation version other than 1 is refused after two bytes, with only `[5, 2]` written |
| AuthFacts.UserPassSelected | auth.go:38-40 | with credentials, a client offering username/password anywhere gets the sub-negotiation on the bytes after the list |
| AuthFacts.NoAuthExample | auth_test.go:8-22 | `[1, 0]` to a server without credentials gives `[5, 0]` |
| AuthFacts.FooBar | auth_test.go:30-32 | the test's store accepts foo/bar and rejects foo/baz |
| AuthFacts.PasswordAcceptedExample | auth_test.go:24-46 | `[2, 0, 2]` then foo/bar gives `[5, 2, 1, 0]` and no error |
| AuthFacts.PasswordRejectedExample | auth_test.go:48-67 | `[2, 0, 2]` then foo/baz gives `[5, 2, 1, 1]` and the authentication error |
| AuthFacts.NoSupportedAuthExample | auth_test.go:69-88 | `[1, 0]` to a server with credentials gives `[5, 255]` and the "no supported authentication" error |
| AuthFacts.SelectionIgnoresRegistry | auth.go:30-36 | a server without credentials offered `[0, 2]` answers `[5, 0]`, whatever authenticators are registered |
| Socks5.DefaultAuthMethods | socks5.go:61-68 | with no authenticators configured, the default is username/password over the credentials when there are credentials, and "no authentication" otherwise |
| Socks5.Config.constructor | socks5.go:19-49 | a configuration holds the given fields |
| Socks5.Session | socks5.go:159-192 | a session never consumes more input than exists |
| Socks5.Negotiated | socks5.go:177-191 | the stages after the version byte never consume more input than exists |
| Socks5.SessionAfterAuthentication | socks5.go:177-191 | once authentication succeeds, the session is authentication followed by the request, with outputs concatenated and the request error wrapped |
| Socks5.Server.ServeConn | socks5.go:159-192 | `ServeConn` returns the error, consumes the input and writes the bytes of `Session`, then closes the connection |
| Socks5.BuildRegistry | socks5.go:89-93 | the registry loop builds exactly `Registry` of the list, a later authenticator replacing an earlier one with the same code |
| Socks5.New | socks5.go:60-96 | `New` fills in the default authenticator, resolver, rules and connector only where unset, leaves the rest unchanged, and registers every authenticator under its code |
| Socks5.Code | socks5.go:92 | `GetCode` gives 0 for "no authentication", 2 for username/password, and a custom authenticator's own code |
| Socks5.Registry | socks5.go:89-93 | the registry has exactly the codes of the configured authenticators, each under its own code and taken from the list |
| Socks5Facts.RegistryLastWins | socks5.go:91-93 | of several authenticators with one code, the last is registered |
| Socks5Facts.DefaultRegistry | socks5.go:60-96 | with no authenticators configured, the registry is exactly one entry: username/password under 2 with credentials, "no authentication" under 0 without |
| Socks5Facts.BadVersionEndsSession | socks5.go:170-175 | a first byte other than 5 ends the session after one byte, with nothing written and no authentication |
| Socks5Facts.AuthFailureEndsSession | socks5.go:177-182 | after a failed authentication only its bytes are written, and the resolver, rules and network play no part |
| Socks5Facts.ConnectIPv4Request | request.go:59-142 | an allowed CONNECT to an IPv4 address that dials consumes ten bytes and is answered with a success reply echoing the address and port |
| Socks5Facts.PasswordSession | socks5.go:159-191 | a client that offers `[0, 2]` to a server with credentials and sends an accepted pair gets `[5, 2, 1, 0]`; the request stage then runs on exactly the bytes after the credentials, and its reply follows the status |
| Socks5Facts.PasswordConnectSession | socks5_test.go:80-132 | the test's whole exchange: offer `[0, 2]`, authenticate, CONNECT over IPv4. The server writes `[5, 2, 1, 0]` and then the success reply, in that order, and reads exactly the handshake and request bytes; what follows them (the test's payload) is left to the relay |

## Left out

- Relaying (request.go:144-153 and `proxy`, request.go:286-297): two goroutines copy data both ways. The model stands in the first error they report as `Network.relay`.
- Accepting connections (`ListenAndServe`, `Serve`, `asyncServe`, `Stop`; socks5.go:99-156): listeners, goroutines and the stop channel are concurrency and I/O.
- Write failures: `Conn.Write` always succeeds. The early returns on a failed `conn.Write` (auth.go:51-53, 87-93, 103-104; request.go:280-281) are not modelled.
- Name lookup (`DNSResolver`, resolver.go) and `net.DialTCP` become the functions `Network.lookup` and `Network.dial`. resolver.go and ruleset.go are not part of this model beyond the `NameResolver` and `RuleSet` datatypes.
- Error texts, `addrSpec.String` and logging: errors are constructors of `Error`, not formatted strings.
- Request.HandleRequest: the destination is a value, so `dest.ip = addr` builds a new address. Sharing of the `*addrSpec` pointer is not captured.
- Socks5.New: `Rewriter`, `ConnectFunc` and `BindIP` are stored but the engine never reads them, so no behaviour depends on them. The `ch` channel of `Server` is left out with `Stop`.
- server.go, main/crabproxy.go and close_test.go are not part of this model.
- Request.SendReply: sends the corrected `ReplyFrame`, so the model answers with the 0.0.0.0:0 frame on the five paths that pass nil (request.go:75, 86, 103, 168, 186), where the source panics. The same holds for `HandleBind`, `HandleAssociate`, `HandleRequest`, `RequestExchange`, `Session` and `Server.ServeConn`, which all reach `SendReply` or `ReplyFrame`. The crash itself is stated only by `ReplyFrameAsWritten` and the lemmas of "## Findings".
- Socks5.Code: `GetCode`, `NoAuthAuthenticator` and `UserPassAuthenticator` are defined in a file that is not part of this model. Their codes are taken to be the RFC 1928 method numbers 0 and 2, and `Socks5Facts.DefaultRegistry` relies on that.
- Request.HandleConnect: the client address is taken to be a `*net.TCPAddr` (`Conn.remoteIP`, `Conn.remotePort`). The type assertion `conn.RemoteAddr().(*net.TCPAddr)` at request.go:113, 159 and 177 panics on other connections, after the whole request has been read; the model does not capture that crash, and the same holds for `HandleBind` and `HandleAssociate`.
- Request.Resolved: request.go:91 assigns the value returned by `Resolve` to the IP field of the destination. `Resolve` returns an `*net.IPAddr` (resolver.go:9), so that assignment does not type-check as written. The model stores the resolved IP.

## Findings

| source | as written | input that shows it | evidently intended | confidence | as-written member | corrected member |
|---|---|---|---|---|---|---|
| request.go:250-252, 277 | the nil-address case of `sendReply` picks address type 0 with no body, then evaluates `uint16(addr.port)` on the nil pointer and panics; `handleRequest` passes nil for an unknown address type, an unresolvable name and an unknown command, and the handlers pass nil for BIND and ASSOCIATE | the request `[5, 1, 0, 9]` (address type 9) after authentication | a well-formed reply carrying the unspecified address 0.0.0.0:0, i.e. `[5, resp, 0, 1, 0, 0, 0, 0, 0, 0]`; type 0 is not an RFC 1928 address type | not executed | Request.ReplyFrameAsWritten | Request.ReplyFrame |
