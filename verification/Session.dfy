/** A SOCKS5 session from the first byte to its command handler (RFC 1928, RFC 1929), read
    through a buffered reader, and the CONNECT tunnel that takes over the raw stream. */
module Session {
  import opened Wrappers
  import opened Words
  import opened Proto
  import opened Uint128
  import Extensions
  import opened SourceAddress

  const BUFFER_SIZE: nat := 4096

  /** The client connection: bytes the reader pulled ahead, bytes still in the socket,
      and what the server wrote. */
  class Connection {
    var buffered: Bytes
    var rest: Bytes
    var written: Bytes

    constructor (stream: Bytes)
      ensures Remaining() == stream && written == []
    {
      buffered, rest, written := [], stream, [];
    }

    /** What the client sent that no one has consumed. */
    function Remaining(): Bytes
      reads this
    {
      buffered + rest
    }

    method Write(b: Bytes)
      modifies this`written
      ensures written == old(written) + b
    {
      written := written + b;
    }

    /** One read of the buffered reader. A receive may bring any number of bytes. */
    method Read(k: nat) returns (b: Bytes)
      requires k > 0
      modifies this`buffered, this`rest
      ensures |b| <= k && b + Remaining() == old(Remaining())
      ensures old(Remaining()) != [] ==> b != []
      ensures old(buffered) != [] ==> rest == old(rest) && b + buffered == old(buffered)
    {
      if buffered == [] {
        if rest == [] {
          return [];
        }
        var most := if k >= BUFFER_SIZE then k else BUFFER_SIZE;
        assert 1 <= 1 <= |rest| && 1 <= most;
        var n: nat :| 1 <= n <= |rest| && n <= most;
        var received := rest[..n];
        rest := rest[n..];
        if k >= BUFFER_SIZE {
          return received;
        }
        buffered := received;
      }
      var n := if k < |buffered| then k else |buffered|;
      b := buffered[..n];
      buffered := buffered[n..];
    }

    /** io.ReadFull: all k bytes, or none when the stream ends before. */
    method ReadFull(k: nat) returns (r: Option<Bytes>)
      modifies this`buffered, this`rest
      ensures k <= |old(Remaining())| ==> r == Some(old(Remaining())[..k]) && Remaining() == old(Remaining())[k..]
      ensures k > |old(Remaining())| ==> r == None
    {
      var got: Bytes := [];
      while |got| < k
        invariant |got| <= k && got + Remaining() == old(Remaining())
        decreases k - |got|
      {
        var b := Read(k - |got|);
        if b == [] {
          return None;
        }
        got := got + b;
      }
      r := Some(got);
    }
  }

  // ---- the stream parsers' meaning ----

  datatype Parsed<T> = Got(value: T, rest: Bytes) | Bad

  function FirstAddress(s: Bytes): Parsed<Address> {
    match ParseAddress(s)
    case Ok((a, n)) => if n <= |s| then Got(a, s[n..]) else Bad
    case Err(_) => Bad
  }

  /** What a stream parser must do: yield the value and leave the rest. */
  ghost predicate Yields<T>(r: Option<T>, after: Bytes, p: Parsed<T>) {
    match p
    case Got(v, rest) => r == Some(v) && after == rest
    case Bad => r == None
  }

  method ReadByte(c: Connection) returns (r: Option<Byte>)
    modifies c`buffered, c`rest
    ensures old(c.Remaining()) == [] ==> r == None
    ensures old(c.Remaining()) != [] ==> r == Some(old(c.Remaining())[0]) && c.Remaining() == old(c.Remaining())[1..]
  {
    var b := c.ReadFull(1);
    r := if b.None? then None else Some(b.value[0]);
  }

  /** An address of k bytes and its port, at the front of what follows the type byte. */
  function FirstFields(t: Bytes, k: nat): Parsed<(Bytes, Port)> {
    if |t| < k + 2 then Bad else Got((t[..k + 2][..k], GetPort(t[..k + 2][k..])), t[k + 2..])
  }

  method ReadFields(c: Connection, k: nat) returns (r: Option<(Bytes, Port)>)
    modifies c`buffered, c`rest
    ensures Yields(r, c.Remaining(), FirstFields(old(c.Remaining()), k))
  {
    var buf := c.ReadFull(k + 2);
    r := if buf.None? then None else Some((buf.value[..k], GetPort(buf.value[k..])));
  }

  /** The fields of a slice, whichever way they are cut out. */
  lemma FieldsOfSlice(s: Bytes, from: nat, k: nat)
    requires from <= |s|
    ensures FirstFields(s[from..], k)
         == if |s| < from + k + 2 then Bad
            else Got((s[from..from + k], GetPort(s[from + k..from + k + 2])), s[from + k + 2..])
  {
    if |s| >= from + k + 2 {
      var end := from + k + 2;
      assert s[from..][..k + 2] == s[from..end] && s[from..][k + 2..] == s[end..];
      SliceOfSlice(s, from, end, k);
    }
  }

  lemma SliceOfSlice(s: Bytes, from: nat, end: nat, k: nat)
    requires from + k <= end <= |s|
    ensures s[from..end][..k] == s[from..from + k] && s[from..end][k..] == s[from + k..end]
  {
  }

  /** FirstAddress by type byte. */
  lemma AddressByType(s: Bytes)
    requires s != []
    ensures s[0] == ATYP_IPV4 ==>
              FirstAddress(s) == match FirstFields(s[1..], 4)
                                 case Bad => Bad
                                 case Got(f, rest) => Got(Socket(V4(f.0), f.1), rest)
    ensures s[0] == ATYP_IPV6 ==>
              FirstAddress(s) == match FirstFields(s[1..], 16)
                                 case Bad => Bad
                                 case Got(f, rest) => Got(Socket(V6(f.0), f.1), rest)
    ensures s[0] == ATYP_DOMAIN ==>
              FirstAddress(s) == if |s| < 2 then Bad
                                 else match FirstFields(s[2..], s[1])
                                      case Bad => Bad
                                      case Got(f, rest) => Got(Domain(f.0, f.1), rest)
    ensures s[0] !in {ATYP_IPV4, ATYP_IPV6, ATYP_DOMAIN} ==> FirstAddress(s) == Bad
  {
    FieldsOfSlice(s, 1, 4);
    FieldsOfSlice(s, 1, 16);
    if |s| >= 2 {
      FieldsOfSlice(s, 2, s[1]);
    }
    hide FirstFields;
  }

  /** The stream parser agrees with the slice parser for every buffering of the stream. */
  method ReadAddress(c: Connection) returns (r: Option<Address>)
    modifies c`buffered, c`rest
    ensures Yields(r, c.Remaining(), FirstAddress(old(c.Remaining())))
  {
    ghost var s := c.Remaining();
    var atyp := ReadByte(c);
    if atyp.None? {
      return None;
    }
    AddressByType(s);
    hide FirstAddress, FirstFields;
    if atyp.value == ATYP_IPV4 {
      var f := ReadFields(c, 4);
      return if f.None? then None else Some(Socket(V4(f.value.0), f.value.1));
    } else if atyp.value == ATYP_DOMAIN {
      var ln := ReadByte(c);
      if ln.None? {
        return None;
      }
      assert s[1..][1..] == s[2..];
      var f := ReadFields(c, ln.value);
      return if f.None? then None else Some(Domain(f.value.0, f.value.1));
    } else if atyp.value == ATYP_IPV6 {
      var f := ReadFields(c, 16);
      return if f.None? then None else Some(Socket(V6(f.value.0), f.value.1));
    } else {
      return None;
    }
  }

  // ---- greeting, sub-negotiation, request ----

  const VERSION5: Byte := 5
  const SUBNEGOTIATION_VERSION: Byte := 1
  const METHOD_NO_AUTH: Byte := 0
  const METHOD_PASSWORD: Byte := 2
  const NO_ACCEPTABLE_METHODS: Byte := 255
  const STATUS_SUCCEEDED: Byte := 0
  const STATUS_FAILED: Byte := 255
  const CMD_CONNECT: Byte := 1
  const CMD_BIND: Byte := 2
  const CMD_UDP_ASSOCIATE: Byte := 3

  datatype Credentials = Credentials(username: Bytes, password: Bytes)
  datatype Request = Request(command: Byte, address: Address)

  predicate IsCommand(b: Byte) {
    b == CMD_CONNECT || b == CMD_BIND || b == CMD_UDP_ASSOCIATE
  }

  /** A counted field: a length byte, then that many bytes. */
  function FirstCounted(s: Bytes): Parsed<Bytes> {
    if s == [] || |s[1..]| < s[0] then Bad else Got(s[1..][..s[0]], s[1..][s[0]..])
  }

  function FirstGreeting(s: Bytes): Parsed<Bytes> {
    if s == [] || s[0] != VERSION5 then Bad else FirstCounted(s[1..])
  }

  function FirstCredentials(s: Bytes): Parsed<Credentials> {
    if s == [] || s[0] != SUBNEGOTIATION_VERSION then Bad
    else
      match FirstCounted(s[1..])
      case Bad => Bad
      case Got(user, more) =>
        match FirstCounted(more)
        case Bad => Bad
        case Got(pass, rest) => Got(Credentials(user, pass), rest)
  }

  function FirstRequest(s: Bytes): Parsed<Request> {
    if |s| < 3 || s[0] != VERSION5 || !IsCommand(s[1]) then Bad
    else
      match FirstAddress(s[3..])
      case Bad => Bad
      case Got(a, rest) => Got(Request(s[1], a), rest)
  }

  method ReadGreeting(c: Connection) returns (r: Option<Bytes>)
    modifies c`buffered, c`rest
    ensures Yields(r, c.Remaining(), FirstGreeting(old(c.Remaining())))
  {
    var ver := ReadByte(c);
    if ver.None? || ver.value != VERSION5 {
      return None;
    }
    var nmethods := ReadByte(c);
    if nmethods.None? {
      return None;
    }
    r := c.ReadFull(nmethods.value);
  }

  /** password.ReadRequest: the user name and the password's length come in one read. */
  method ReadCredentials(c: Connection) returns (r: Option<Credentials>)
    modifies c`buffered, c`rest
    ensures Yields(r, c.Remaining(), FirstCredentials(old(c.Remaining())))
  {
    var ver := ReadByte(c);
    if ver.None? || ver.value != SUBNEGOTIATION_VERSION {
      return None;
    }
    var ulen := ReadByte(c);
    if ulen.None? {
      return None;
    }
    var n: nat := ulen.value;
    ghost var t := c.Remaining();
    var buf := c.ReadFull(n + 1);
    if buf.None? {
      assert n > |t| || t[n..] == [];
      return None;
    }
    var user, plen := buf.value[..n], buf.value[n];
    assert user == t[..n] && plen == t[n..][0] && c.Remaining() == t[n..][1..];
    var pwd := c.ReadFull(plen);
    if pwd.None? {
      return None;
    }
    r := Some(Credentials(user, pwd.value));
  }

  method ReadRequest(c: Connection) returns (r: Option<Request>)
    modifies c`buffered, c`rest
    ensures Yields(r, c.Remaining(), FirstRequest(old(c.Remaining())))
  {
    ghost var s := c.Remaining();
    var ver := ReadByte(c);
    if ver.None? || ver.value != VERSION5 {
      return None;
    }
    var buf := c.ReadFull(2);
    if buf.None? || !IsCommand(buf.value[0]) {
      return None;
    }
    assert s[1..][2..] == s[3..];
    var addr := ReadAddress(c);
    if addr.None? {
      return None;
    }
    r := Some(Request(buf.value[0], addr.value));
  }

  // ---- the session ----

  datatype Auth = NoAuth | Password(username: Bytes, password: Bytes)

  function MethodOf(auth: Auth): Byte {
    if auth.Password? then METHOD_PASSWORD else METHOD_NO_AUTH
  }

  /** The configured name only has to be a prefix of the client's, whose tail is the extension. */
  predicate Matches(auth: Auth, given: Credentials) {
    auth.Password? && auth.username <= given.username && given.password == auth.password
  }

  datatype Outcome = Closed | Dispatched(request: Request, extension: Extension)

  /** How a session ends, what the server wrote for it, and what the handler finds unread. */
  datatype Served = Served(outcome: Outcome, written: Bytes, unread: Bytes)

  function ServeRequest(s: Bytes, written: Bytes, extension: Extension): Served {
    match FirstRequest(s)
    case Bad => Served(Closed, written, [])
    case Got(request, rest) => Served(Dispatched(request, extension), written, rest)
  }

  function ServePassword(s: Bytes, written: Bytes, auth: Auth, now: U64): Served {
    match FirstCredentials(s)
    case Bad => Served(Closed, written, [])
    case Got(given, rest) =>
      if Matches(auth, given)
      then ServeRequest(rest, written + [SUBNEGOTIATION_VERSION, STATUS_SUCCEEDED],
                        Extensions.TryFrom(auth.username, given.username, now))
      else Served(Closed, written + [SUBNEGOTIATION_VERSION, STATUS_FAILED], [])
  }

  function Serve(s: Bytes, auth: Auth, now: U64): Served {
    match FirstGreeting(s)
    case Bad => Served(Closed, [], [])
    case Got(methods, rest) =>
      if MethodOf(auth) !in methods then Served(Closed, [VERSION5, NO_ACCEPTABLE_METHODS], [])
      else if auth.Password? then ServePassword(rest, [VERSION5, MethodOf(auth)], auth, now)
      else ServeRequest(rest, [VERSION5, MethodOf(auth)], NoExtension)
  }

  method EvaluateMethod(methods: Bytes, m: Byte) returns (offered: bool)
    ensures offered <==> m in methods
  {
    for i := 0 to |methods|
      invariant m !in methods[..i]
    {
      if methods[i] == m {
        return true;
      }
    }
    return false;
  }

  /** executePassword. The replies are what it wrote. */
  method ExecutePassword(c: Connection, auth: Auth, now: U64, ghost before: Bytes)
    returns (ok: bool, extension: Extension, ghost replies: Bytes)
    requires auth.Password?
    modifies c
    ensures c.written == old(c.written) + replies
    ensures var sent := FirstCredentials(old(c.Remaining()));
            && (ok <==> sent.Got? && auth.username <= sent.value.username && sent.value.password == auth.password)
            && replies == (if ok then [1, 0] else if sent.Got? then [1, 255] else [])
            && (ok ==> c.Remaining() == sent.rest
                       && extension == Extensions.TryFrom(auth.username, sent.value.username, now))
    ensures ok ==> var served := ServePassword(old(c.Remaining()), before, auth, now);
                   served == ServeRequest(c.Remaining(), before + replies, extension)
    ensures !ok ==> var served := ServePassword(old(c.Remaining()), before, auth, now);
                    served.outcome == Closed && served.written == before + replies
  {
    var given := ReadCredentials(c);
    if given.None? {
      return false, NoExtension, [];
    }
    if !Matches(auth, given.value) {
      replies := [SUBNEGOTIATION_VERSION, STATUS_FAILED];
      c.Write([SUBNEGOTIATION_VERSION, STATUS_FAILED]);
      return false, NoExtension, replies;
    }
    c.Write([SUBNEGOTIATION_VERSION, STATUS_SUCCEEDED]);
    extension := Extensions.ParseExtension(auth.username, given.value.username, now);
    return true, extension, [SUBNEGOTIATION_VERSION, STATUS_SUCCEEDED];
  }

  /** Authenticate: not ok when the session ends here, otherwise the client's extension. */
  method Authenticate(c: Connection, auth: Auth, now: U64) returns (ok: bool, extension: Extension, ghost replies: Bytes)
    modifies c
    ensures c.written == old(c.written) + replies
    ensures ok ==> Serve(old(c.Remaining()), auth, now) == ServeRequest(c.Remaining(), replies, extension)
    ensures !ok ==> var served := Serve(old(c.Remaining()), auth, now);
                    served.outcome == Closed && served.written == replies
  {
    hide ServePassword, ServeRequest, FirstGreeting;
    var methods := ReadGreeting(c);
    if methods.None? {
      return false, NoExtension, [];
    }
    var m := MethodOf(auth);
    var offered := EvaluateMethod(methods.value, m);
    if !offered {
      c.Write([VERSION5, NO_ACCEPTABLE_METHODS]);
      return false, NoExtension, [VERSION5, NO_ACCEPTABLE_METHODS];
    }
    c.Write([VERSION5, m]);
    ok, extension, replies := true, NoExtension, [VERSION5, m];
    if auth.Password? {
      ghost var more;
      ok, extension, more := ExecutePassword(c, auth, now, replies);
      replies := replies + more;
    }
  }

  /** handle: the outcome, the replies and the unread bytes depend on the client's bytes only,
      not on how they were buffered. */
  method Handle(c: Connection, auth: Auth, now: U64) returns (outcome: Outcome)
    modifies c
    ensures var served := Serve(old(c.Remaining()), auth, now);
            && outcome == served.outcome
            && c.written == old(c.written) + served.written
            && (outcome.Dispatched? ==> c.Remaining() == served.unread)
  {
    var ok, extension, replies := Authenticate(c, auth, now);
    hide Serve;
    if !ok {
      return Closed;
    }
    var request := ReadRequest(c);
    outcome := if request.None? then Closed else Dispatched(request.value, extension);
  }

  // ---- which byte streams reach a handler ----

  /** A message sequence a client may send for a configuration: the method list it offers, its
      credentials (ignored without authentication), the reserved byte and the request. */
  datatype Script = Script(methods: Bytes, given: Credentials, reserved: Byte, request: Request)

  /** In the numbers of the standards: method 2 with a password whose user name continues the
      configured one, method 0 without; command 1, 2 or 3. */
  predicate Acceptable(script: Script, auth: Auth) {
    && |script.methods| <= 255 && (if auth.Password? then 2 else 0) in script.methods
    && (auth.Password? ==>
          && |script.given.username| <= 255 && |script.given.password| <= 255
          && auth.username <= script.given.username && script.given.password == auth.password)
    && 1 <= script.request.command <= 3 && Encodable(script.request.address)
  }

  function Counted(b: Bytes): Bytes
    requires |b| <= 255
  {
    [|b|] + b
  }

  function GreetingBytes(methods: Bytes): Bytes
    requires |methods| <= 255
  {
    [5] + Counted(methods)
  }

  function CredentialBytes(given: Credentials): Bytes
    requires |given.username| <= 255 && |given.password| <= 255
  {
    [1] + (Counted(given.username) + Counted(given.password))
  }

  function RequestBytes(reserved: Byte, request: Request): Bytes
    requires Encodable(request.address)
  {
    [5, request.command, reserved] + Encoded(request.address)
  }

  function AuthBytes(script: Script, auth: Auth): Bytes
    requires Acceptable(script, auth)
  {
    if auth.Password? then CredentialBytes(script.given) else []
  }

  /** The whole stream: the script's messages, then whatever the client sends to the target. */
  function StreamOf(script: Script, auth: Auth, payload: Bytes): Bytes
    requires Acceptable(script, auth)
  {
    GreetingBytes(script.methods) + (AuthBytes(script, auth) + (RequestBytes(script.reserved, script.request) + payload))
  }

  function ExtensionOf(script: Script, auth: Auth, now: U64): Extension {
    if auth.Password? then Extensions.TryFrom(auth.username, script.given.username, now) else NoExtension
  }

  function RepliesTo(auth: Auth): Bytes {
    if auth.Password? then [5, 2, 1, 0] else [5, 0]
  }

  lemma CountedThen(b: Bytes, more: Bytes)
    requires |b| <= 255
    ensures FirstCounted(Counted(b) + more) == Got(b, more)
  {
    var s := Counted(b) + more;
    assert s[1..] == b + more;
  }

  lemma GreetingThen(methods: Bytes, more: Bytes)
    requires |methods| <= 255
    ensures FirstGreeting(GreetingBytes(methods) + more) == Got(methods, more)
  {
    assert (GreetingBytes(methods) + more)[1..] == Counted(methods) + more;
    CountedThen(methods, more);
  }

  lemma CredentialsThen(given: Credentials, more: Bytes)
    requires |given.username| <= 255 && |given.password| <= 255
    ensures FirstCredentials(CredentialBytes(given) + more) == Got(given, more)
  {
    assert (CredentialBytes(given) + more)[1..] == Counted(given.username) + (Counted(given.password) + more);
    CountedThen(given.username, Counted(given.password) + more);
    CountedThen(given.password, more);
  }

  lemma RequestThen(reserved: Byte, request: Request, more: Bytes)
    requires IsCommand(request.command) && Encodable(request.address)
    ensures FirstRequest(RequestBytes(reserved, request) + more) == Got(request, more)
  {
    var s, a := RequestBytes(reserved, request) + more, request.address;
    assert s[3..] == Encoded(a) + more;
    ParseEncoded(a, more);
    EncodedLen(a);
    hide ParseAddress, Encoded;
    assert (Encoded(a) + more)[AddressLen(a)..] == more;
  }

  /** Every acceptable script reaches its handler, with exactly the payload left unread. */
  lemma ScriptIsServed(script: Script, auth: Auth, payload: Bytes, now: U64)
    requires Acceptable(script, auth)
    ensures Serve(StreamOf(script, auth, payload), auth, now)
         == Served(Dispatched(script.request, ExtensionOf(script, auth, now)), RepliesTo(auth), payload)
  {
    var last := RequestBytes(script.reserved, script.request) + payload;
    GreetingThen(script.methods, AuthBytes(script, auth) + last);
    RequestThen(script.reserved, script.request, payload);
    if auth.Password? {
      CredentialsThen(script.given, last);
    } else {
      assert [] + last == last;
    }
    hide FirstGreeting, FirstCredentials, FirstRequest, GreetingBytes, CredentialBytes, RequestBytes;
  }

  lemma CountedPrefix(s: Bytes)
    requires FirstCounted(s).Got?
    ensures var Got(b, rest) := FirstCounted(s); |b| <= 255 && s == Counted(b) + rest
  {
  }

  lemma GreetingPrefix(s: Bytes)
    requires FirstGreeting(s).Got?
    ensures var Got(methods, rest) := FirstGreeting(s); |methods| <= 255 && s == GreetingBytes(methods) + rest
  {
    CountedPrefix(s[1..]);
    assert s == [s[0]] + s[1..];
  }

  lemma CredentialsPrefix(s: Bytes)
    requires FirstCredentials(s).Got?
    ensures var Got(given, rest) := FirstCredentials(s);
            |given.username| <= 255 && |given.password| <= 255 && s == CredentialBytes(given) + rest
  {
    var Got(given, rest) := FirstCredentials(s);
    var more := FirstCounted(s[1..]).rest;
    CountedPrefix(s[1..]);
    CountedPrefix(more);
    assert s == [s[0]] + s[1..];
    hide FirstCounted, Counted, FirstCredentials;
    Regroup(s[0], Counted(given.username), Counted(given.password), rest);
  }

  lemma Regroup(v: Byte, a: Bytes, b: Bytes, rest: Bytes)
    ensures [v] + (a + (b + rest)) == ([v] + (a + b)) + rest
  {
  }

  lemma RequestPrefix(s: Bytes)
    requires FirstRequest(s).Got?
    ensures var Got(request, rest) := FirstRequest(s);
            && |s| > 2 && IsCommand(request.command) && Encodable(request.address)
            && s == RequestBytes(s[2], request) + rest
  {
    ParsedIsEncoded(s[3..]);
    hide Encoded, ParseAddress;
    assert s == [s[0], s[1], s[2]] + s[3..];
  }

  /** The converse: a dispatched stream is an acceptable script followed by the unread bytes. */
  lemma ServedIsScript(s: Bytes, auth: Auth, now: U64) returns (script: Script)
    requires Serve(s, auth, now).outcome.Dispatched?
    ensures Acceptable(script, auth) && s == StreamOf(script, auth, Serve(s, auth, now).unread)
  {
    hide FirstGreeting, FirstCredentials, FirstRequest, GreetingBytes, CredentialBytes, RequestBytes;
    GreetingPrefix(s);
    var Got(methods, afterGreeting) := FirstGreeting(s);
    var given, afterAuth := Credentials([], []), afterGreeting;
    if auth.Password? {
      CredentialsPrefix(afterGreeting);
      given, afterAuth := FirstCredentials(afterGreeting).value, FirstCredentials(afterGreeting).rest;
    }
    RequestPrefix(afterAuth);
    script := Script(methods, given, afterAuth[2], FirstRequest(afterAuth).value);
    assert AuthBytes(script, auth) + afterAuth == afterGreeting;
  }

  /** A command handler runs if and only if the client stream is an acceptable greeting, the
      required sub-negotiation and a valid request, followed by anything. */
  lemma HandlerReachedIff(s: Bytes, auth: Auth, now: U64)
    ensures Serve(s, auth, now).outcome.Dispatched?
       <==> exists script, payload :: Acceptable(script, auth) && s == StreamOf(script, auth, payload)
  {
    if Serve(s, auth, now).outcome.Dispatched? {
      var script := ServedIsScript(s, auth, now);
      assert Acceptable(script, auth) && s == StreamOf(script, auth, Serve(s, auth, now).unread);
    }
    forall script, payload | Acceptable(script, auth) && s == StreamOf(script, auth, payload)
      ensures Serve(s, auth, now).outcome.Dispatched?
    {
      ScriptIsServed(script, auth, payload, now);
    }
  }

  // ---- who is refused, and what it is told ----

  /** A handler behind a password runs only for a client that sent the configured password
      and a user name that starts with the configured one. */
  lemma PasswordChecked(s: Bytes, auth: Auth, now: U64)
    requires auth.Password? && Serve(s, auth, now).outcome.Dispatched?
    ensures var greeting := FirstGreeting(s);
            && greeting.Got?
            && var sent := FirstCredentials(greeting.rest);
               sent.Got? && auth.username <= sent.value.username && sent.value.password == auth.password
  {
    hide FirstGreeting, FirstCredentials;
  }

  /** The replies of every session that ends before its request, byte for byte. */
  lemma Refusals(s: Bytes, auth: Auth, now: U64)
    ensures FirstGreeting(s).Bad? ==> Serve(s, auth, now) == Served(Closed, [], [])
    ensures FirstGreeting(s).Got? && (if auth.Password? then 2 else 0) !in FirstGreeting(s).value ==>
              Serve(s, auth, now) == Served(Closed, [5, 255], [])
    ensures auth.Password? && FirstGreeting(s).Got? && 2 in FirstGreeting(s).value ==>
              var sent := FirstCredentials(FirstGreeting(s).rest);
              && (sent.Bad? ==> Serve(s, auth, now) == Served(Closed, [5, 2], []))
              && (sent.Got? && !(auth.username <= sent.value.username && sent.value.password == auth.password) ==>
                    Serve(s, auth, now) == Served(Closed, [5, 2, 1, 255], []))
  {
    hide FirstGreeting, FirstCredentials, ServeRequest;
  }

  // ---- CONNECT ----

  const REPLY_SUCCEEDED: Byte := 0
  const REPLY_HOST_UNREACHABLE: Byte := 4

  /** A reply that names the unspecified IPv4 address. */
  function Reply(code: Byte): Bytes {
    [VERSION5, code, 0] + Encoded(Socket(V4([0, 0, 0, 0]), 0))
  }

  /** io.CopyN of exactly what the reader holds: it never receives more, so the reader is
      empty afterwards and the raw stream is untouched. */
  method CopyBuffered(c: Connection) returns (copied: Bytes)
    modifies c`buffered, c`rest
    ensures copied == old(c.buffered) && c.buffered == [] && c.rest == old(c.rest)
  {
    copied := [];
    var n := |c.buffered|;
    while |copied| < n
      invariant copied + c.buffered == old(c.buffered) && c.rest == old(c.rest)
      decreases n - |copied|
    {
      var b := c.Read(n - |copied|);
      copied := copied + b;
    }
    assert c.buffered == [];
  }

  /** The client-to-target half of the tunnel: raw receives of any size until the client is done. */
  method CopyRaw(c: Connection) returns (copied: Bytes)
    modifies c`rest
    ensures copied == old(c.rest) && c.rest == []
  {
    copied := [];
    while c.rest != []
      invariant copied + c.rest == old(c.rest)
      decreases |c.rest|
    {
      assert 1 <= 1 <= |c.rest|;
      var n: nat :| 1 <= n <= |c.rest|;
      copied := copied + c.rest[..n];
      c.rest := c.rest[n..];
    }
  }

  /** handleConnect once the dial has ended: the target receives every byte after the request. */
  method HandleConnect(c: Connection, dialled: bool) returns (forwarded: Bytes)
    modifies c
    ensures forwarded == if dialled then old(c.Remaining()) else []
    ensures c.written == old(c.written) + [5, if dialled then 0 else 4, 0, 1, 0, 0, 0, 0, 0, 0]
  {
    if !dialled {
      c.Write(Reply(REPLY_HOST_UNREACHABLE));
      return [];
    }
    c.Write(Reply(REPLY_SUCCEEDED));
    var ahead := CopyBuffered(c);
    var raw := CopyRaw(c);
    forwarded := ahead + raw;
  }

  /** A whole CONNECT session. For every buffering, a client that sends an acceptable script
      for CONNECT and then a payload has exactly that payload delivered to the target. */
  method ServeConnect(c: Connection, auth: Auth, now: U64, dialled: bool) returns (outcome: Outcome, forwarded: Bytes)
    modifies c
    ensures outcome == Serve(old(c.Remaining()), auth, now).outcome
    ensures forall script, payload | Acceptable(script, auth) && old(c.Remaining()) == StreamOf(script, auth, payload) ::
              && outcome == Dispatched(script.request, ExtensionOf(script, auth, now))
              && (script.request.command == 1 ==> forwarded == if dialled then payload else [])
    ensures !(outcome.Dispatched? && outcome.request.command == 1) ==> forwarded == []
  {
    forwarded := [];
    ghost var s := c.Remaining();
    outcome := Handle(c, auth, now);
    forall script, payload | Acceptable(script, auth) && s == StreamOf(script, auth, payload)
      ensures Serve(s, auth, now).outcome == Dispatched(script.request, ExtensionOf(script, auth, now))
      ensures Serve(s, auth, now).unread == payload
    {
      ScriptIsServed(script, auth, payload, now);
    }
    hide Serve, StreamOf, Acceptable;
    if outcome.Dispatched? && outcome.request.command == CMD_CONNECT {
      forwarded := HandleConnect(c, dialled);
    }
  }
}
