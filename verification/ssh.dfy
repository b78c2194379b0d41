/** ssh.go: connecting to an application instance over SSH. The dialer, the
    listener factory and the hash functions are abstract: a key is given by
    its three digests, and dialing, listening and closing answer with fixed
    results. */
module SecureShell {
  import opened GoStd

  newtype byte = x: int | 0 <= x < 256

  const Md5FingerprintLength: nat := 47
  const HexSha1FingerprintLength: nat := 59
  const Base64Sha256FingerprintLength: nat := 43

  /** What a rejection says before the received key's fingerprint, when no
      fingerprint was expected and when the expected one differs. */
  const UnverifiedHostHead: string := "Unable to verify identity of host.\n\nThe fingerprint of the received key was "
  const FailedHostHead: string := "Host key verification failed.\n\nThe fingerprint of the received key was "

  /** A host key, known by the digests of its wire form. */
  datatype HostKey = HostKey(md5Sum: seq<byte>, sha1Sum: seq<byte>, sha256Sum: seq<byte>)

  /** The digests have the sizes MD5, SHA-1 and SHA-256 produce. */
  predicate DigestSizes(key: HostKey) {
    |key.md5Sum| == 16 && |key.sha1Sum| == 20 && |key.sha256Sum| == 32
  }

  /** A lower-case hexadecimal digit. */
  function HexDigit(d: int): char
    requires 0 <= d < 16
  {
    if d < 10 then ('0' as int + d) as char else ('a' as int + d - 10) as char
  }

  function Hex2(x: byte): string {
    [HexDigit(x as int / 16), HexDigit(x as int % 16)]
  }

  /** fmt's "% x" of a byte array: two hex digits per byte, a space between
      bytes. */
  function SpacedHex(b: seq<byte>): string {
    if |b| == 0 then ""
    else if |b| == 1 then Hex2(b[0])
    else Hex2(b[0]) + " " + SpacedHex(b[1..])
  }

  /** strings.Replace(s, " ", ":", -1). */
  function ReplaceSpaces(s: string): (r: string)
    ensures |r| == |s|
  {
    if s == [] then [] else [if s[0] == ' ' then ':' else s[0]] + ReplaceSpaces(s[1..])
  }

  /** md5Fingerprint and hexSha1Fingerprint: colon-separated hex bytes. */
  function ColonHex(sum: seq<byte>): string {
    ReplaceSpaces(SpacedHex(sum))
  }

  /** The standard base64 alphabet. */
  function Base64Char(v: int): char
    requires 0 <= v < 64
  {
    if v < 26 then ('A' as int + v) as char
    else if v < 52 then ('a' as int + v - 26) as char
    else if v < 62 then ('0' as int + v - 52) as char
    else if v == 62 then '+'
    else '/'
  }

  /** base64.RawStdEncoding: four characters per three bytes, and two or
      three characters for a final group of one or two bytes, no padding. */
  function Base64Raw(b: seq<byte>): string {
    if |b| == 0 then ""
    else if |b| == 1 then
      [Base64Char(b[0] as int / 4), Base64Char(b[0] as int % 4 * 16)]
    else if |b| == 2 then
      [Base64Char(b[0] as int / 4), Base64Char(b[0] as int % 4 * 16 + b[1] as int / 16),
       Base64Char(b[1] as int % 16 * 4)]
    else
      [Base64Char(b[0] as int / 4), Base64Char(b[0] as int % 4 * 16 + b[1] as int / 16),
       Base64Char(b[1] as int % 16 * 4 + b[2] as int / 64), Base64Char(b[2] as int % 64)]
      + Base64Raw(b[3..])
  }

  function Md5Fingerprint(key: HostKey): string { ColonHex(key.md5Sum) }
  function HexSha1Fingerprint(key: HostKey): string { ColonHex(key.sha1Sum) }
  function Base64Sha256Fingerprint(key: HostKey): string { Base64Raw(key.sha256Sum) }

  lemma {:induction false} ReplaceSpacesConcat(a: string, b: string)
    ensures ReplaceSpaces(a + b) == ReplaceSpaces(a) + ReplaceSpaces(b)
  {
    if a != [] {
      ReplaceSpacesConcat(a[1..], b);
      assert (a + b)[1..] == a[1..] + b;
    } else {
      assert a + b == b;
    }
  }

  /** Colon-hex of n bytes has 3n - 1 characters: two digits per byte and a
      colon between bytes. */
  lemma {:induction false} SpacedHexLength(b: seq<byte>)
    requires |b| >= 1
    ensures |SpacedHex(b)| == 3 * |b| - 1
  {
    if |b| >= 2 {
      SpacedHexLength(b[1..]);
    }
  }

  /** For two or more bytes, colon-hex is the first byte, a colon, and the
      colon-hex of the rest. */
  lemma ColonHexUnfold(b: seq<byte>)
    requires |b| >= 2
    ensures ColonHex(b) == Hex2(b[0]) + ":" + ColonHex(b[1..])
  {
    var h := Hex2(b[0]);
    ReplaceSpacesConcat(h + " ", SpacedHex(b[1..]));
    ReplaceSpacesConcat(h, " ");
    ReplaceSpacesHex2(b[0]);
  }

  /** Hex digits contain no space. */
  lemma ReplaceSpacesHex2(x: byte)
    ensures ReplaceSpaces(Hex2(x)) == Hex2(x)
  {
    var h := Hex2(x);
    assert h[0] != ' ' && h[1] != ' ';
    assert h[1..][1..] == [];
  }

  lemma Hex2Injective(x: byte, y: byte)
    requires Hex2(x) == Hex2(y)
    ensures x == y
  {
    assert Hex2(x)[0] == Hex2(y)[0] && Hex2(x)[1] == Hex2(y)[1];
  }

  /** Distinct digests have distinct colon-hex fingerprints: a matching
      fingerprint pins down the digest. */
  lemma {:induction false} ColonHexInjective(a: seq<byte>, b: seq<byte>)
    requires ColonHex(a) == ColonHex(b)
    ensures a == b
    decreases |a|
  {
    if |a| >= 1 { SpacedHexLength(a); }
    if |b| >= 1 { SpacedHexLength(b); }
    assert |a| == |b|;
    if |a| == 1 {
      ReplaceSpacesHex2(a[0]);
      ReplaceSpacesHex2(b[0]);
      Hex2Injective(a[0], b[0]);
    } else if |a| >= 2 {
      ColonHexUnfold(a);
      ColonHexUnfold(b);
      var s := ColonHex(a);
      assert Hex2(a[0]) == s[..2] == Hex2(b[0]);
      assert ColonHex(a[1..]) == s[3..] == ColonHex(b[1..]);
      Hex2Injective(a[0], b[0]);
      ColonHexInjective(a[1..], b[1..]);
      assert a == [a[0]] + a[1..] && b == [b[0]] + b[1..];
    }
  }

  /** Unpadded base64 of n bytes has ceil(4n/3) characters. */
  lemma {:induction false} Base64RawLength(b: seq<byte>)
    ensures |Base64Raw(b)| == (4 * |b| + 2) / 3
  {
    if |b| >= 3 {
      Base64RawLength(b[3..]);
    }
  }

  /** The fingerprint lengths the callback dispatches on are those of the
      three formats: 16 MD5 bytes give 47 characters, 20 SHA-1 bytes 59 and
      32 SHA-256 bytes 43. */
  lemma FingerprintLengths(key: HostKey)
    requires DigestSizes(key)
    ensures |Md5Fingerprint(key)| == Md5FingerprintLength
    ensures |HexSha1Fingerprint(key)| == HexSha1FingerprintLength
    ensures |Base64Sha256Fingerprint(key)| == Base64Sha256FingerprintLength
  {
    SpacedHexLength(key.md5Sum);
    SpacedHexLength(key.sha1Sum);
    Base64RawLength(key.sha256Sum);
  }

  /** %q of a string made of printable ASCII characters other than '"' and
      '\\', such as a fingerprint: the string in double quotes. */
  function Quoted(s: string): string {
    "\"" + s + "\""
  }

  /** What fingerprintCallback returns: no callback at all, or one that
      checks the received key against the expected fingerprint. */
  datatype HostKeyCallback = NoCallback | VerifyAgainst(expected: string)

  function FingerprintCallback(skipHostValidation: bool, expectedFingerprint: string): (cb: HostKeyCallback)
    ensures cb.NoCallback? <==> skipHostValidation
    ensures cb.VerifyAgainst? ==> cb.expected == expectedFingerprint
  {
    if skipHostValidation then NoCallback else VerifyAgainst(expectedFingerprint)
  }

  /** The callback's answer for a received key: the expected fingerprint's
      length chooses the format to compute. */
  function VerifyHostKey(expected: string, key: HostKey): Status {
    var fingerprint :=
      if |expected| == Base64Sha256FingerprintLength then Base64Sha256Fingerprint(key)
      else if |expected| == HexSha1FingerprintLength then HexSha1Fingerprint(key)
      else Md5Fingerprint(key);
    if |expected| == 0 then
      Err(UnverifiedHostHead + (Quoted(fingerprint) + "."))
    else if |expected| != Base64Sha256FingerprintLength && |expected| != HexSha1FingerprintLength &&
            |expected| != Md5FingerprintLength then
      Err("Unsupported host key fingerprint format")
    else if fingerprint != expected then
      Err(FailedHostHead + (Quoted(fingerprint) + "."))
    else Ok
  }

  /** A key is accepted exactly when the expected fingerprint, read in the
      format its length selects, is the key's fingerprint in that format;
      an empty or oddly sized expectation is never accepted. */
  lemma VerifyHostKeyAccepts(expected: string, key: HostKey)
    ensures VerifyHostKey(expected, key) == Ok <==>
      (|expected| == 43 && expected == Base64Sha256Fingerprint(key)) ||
      (|expected| == 59 && expected == HexSha1Fingerprint(key)) ||
      (|expected| == 47 && expected == Md5Fingerprint(key))
    ensures |expected| !in {0, 43, 47, 59} ==> VerifyHostKey(expected, key) == Err("Unsupported host key fingerprint format")
  {
    var n := |expected|;
    if n == 43 {
      assert VerifyHostKey(expected, key) == Ok <==> expected == Base64Sha256Fingerprint(key);
    } else if n == 59 {
      assert VerifyHostKey(expected, key) == Ok <==> expected == HexSha1Fingerprint(key);
    } else if n == 47 {
      assert VerifyHostKey(expected, key) == Ok <==> expected == Md5Fingerprint(key);
    } else {
      assert VerifyHostKey(expected, key) != Ok;
    }
  }

  /** A rejected key of a supported or empty expectation is reported with the
      fingerprint computed in the selected format (MD5 when none is
      expected), so the user can compare it. */
  lemma RejectionNamesReceivedKey(expected: string, key: HostKey)
    requires |expected| in {0, 43, 47, 59} && VerifyHostKey(expected, key) != Ok
    ensures var f := if |expected| == 43 then Base64Sha256Fingerprint(key)
                     else if |expected| == 59 then HexSha1Fingerprint(key)
                     else Md5Fingerprint(key);
      VerifyHostKey(expected, key).Err? &&
      HasSuffix(VerifyHostKey(expected, key).msg, Quoted(f) + ".") &&
      (|expected| != 0 ==> f != expected)
  {
    var f := if |expected| == 43 then Base64Sha256Fingerprint(key)
             else if |expected| == 59 then HexSha1Fingerprint(key)
             else Md5Fingerprint(key);
    var tail := Quoted(f) + ".";
    SuffixOfConcat(if |expected| == 0 then UnverifiedHostHead else FailedHostHead, tail);
  }

  /** Each of a key's own three fingerprints identifies it. */
  lemma OwnFingerprintsAccepted(key: HostKey)
    requires DigestSizes(key)
    ensures VerifyHostKey(Md5Fingerprint(key), key) == Ok
    ensures VerifyHostKey(HexSha1Fingerprint(key), key) == Ok
    ensures VerifyHostKey(Base64Sha256Fingerprint(key), key) == Ok
  {
    FingerprintLengths(key);
    VerifyHostKeyAccepts(Md5Fingerprint(key), key);
    VerifyHostKeyAccepts(HexSha1Fingerprint(key), key);
    VerifyHostKeyAccepts(Base64Sha256Fingerprint(key), key);
  }

  /** An MD5 or SHA-1 fingerprint accepts only keys with that very digest. */
  lemma AcceptedHexFingerprintPinsDigest(expected: string, key: HostKey, other: HostKey)
    requires VerifyHostKey(expected, key) == Ok && VerifyHostKey(expected, other) == Ok
    requires |expected| == 47 || |expected| == 59
    ensures |expected| == 47 ==> key.md5Sum == other.md5Sum
    ensures |expected| == 59 ==> key.sha1Sum == other.sha1Sum
  {
    if |expected| == 47 {
      ColonHexInjective(key.md5Sum, other.md5Sum);
    } else {
      ColonHexInjective(key.sha1Sum, other.sha1Sum);
    }
  }

  /** strings.ToUpper on ASCII letters. */
  function ToUpper(s: string): (r: string)
    ensures |r| == |s|
  {
    if s == [] then []
    else [if 'a' <= s[0] <= 'z' then (s[0] as int - 32) as char else s[0]] + ToUpper(s[1..])
  }

  /** A state reads "STARTED" when upper-cased exactly when it spells
      "started" in any mix of cases. */
  lemma {:induction false} ToUpperIsStarted(s: string)
    ensures ToUpper(s) == "STARTED" <==>
      |s| == 7 && forall i :: 0 <= i < 7 ==> s[i] == "STARTED"[i] || s[i] == "started"[i]
  {
    var up := "STARTED";
    var low := "started";
    if |s| == 7 {
      forall i | 0 <= i < 7
        ensures ToUpper(s)[i] == (if 'a' <= s[i] <= 'z' then (s[i] as int - 32) as char else s[i])
      {
        ToUpperAt(s, i);
      }
      if forall i :: 0 <= i < 7 ==> s[i] == up[i] || s[i] == low[i] {
        assert forall i :: 0 <= i < 7 ==> ToUpper(s)[i] == up[i];
      }
    }
  }

  lemma {:induction false} ToUpperAt(s: string, i: nat)
    requires i < |s|
    ensures ToUpper(s)[i] == (if 'a' <= s[i] <= 'z' then (s[i] as int - 32) as char else s[i])
  {
    if i > 0 {
      ToUpperAt(s[1..], i - 1);
    }
  }

  /** The application as the platform reports it. */
  datatype App = App(guid: string, state: string, diego: bool)

  /** validateTarget: the application must be started, then it must run on
      Diego. */
  function ValidateTarget(app: App, appName: string): Status {
    if ToUpper(app.state) != "STARTED" then
      Err("Application " + Quoted(appName) + " is not in the STARTED state")
    else if !app.diego then
      Err("Application " + Quoted(appName) + " is not running on Diego")
    else Ok
  }

  /** A target is valid exactly when it is started and on Diego, and a
      stopped application is reported as such whatever its backend. */
  lemma ValidateTargetOrder(app: App, appName: string)
    ensures ValidateTarget(app, appName) == Ok <==> ToUpper(app.state) == "STARTED" && app.diego
    ensures ToUpper(app.state) != "STARTED" ==>
      ValidateTarget(app, appName) == Err("Application " + Quoted(appName) + " is not in the STARTED state")
  {
  }

  /** The user name of an SSH session to one application instance. */
  function SshUser(guid: string, index: nat): string {
    "cf:" + guid + "/" + Decimal(index)
  }

  /** The user name names the instance: when the GUID has no '/', the GUID
      and the index can be read back from it. */
  lemma SshUserRoundTrip(guid: string, index: nat)
    requires NoSlash(guid)
    ensures var user := SshUser(guid, index);
      HasPrefix(user, "cf:") &&
      LastElement(user) == Decimal(index) && AllDigits(LastElement(user)) &&
      DigitsValue(LastElement(user)) == index &&
      user[3..|user| - |Decimal(index)| - 1] == guid
  {
    var d := Decimal(index);
    var x := "cf:" + guid;
    assert NoSlash(d) by {
      assert forall i :: 0 <= i < |d| ==> IsDigit(d[i]);
    }
    SlashJoined(x, d);
    DecimalRoundTrip(index);
    var user := SshUser(guid, index);
    assert user == x + "/" + d;
    assert user[..3] == x[..3] == "cf:";
    assert user[3..|user| - |d| - 1] == user[..|x|][3..];
  }

  /** The terminal request kinds of the cf CLI's options, numbered from 0. */
  const RequestTTYAuto: int := 0
  const RequestTTYNo: int := 1
  const RequestTTYYes: int := 2
  const RequestTTYForce: int := 3

  /** shouldAllocateTerminal: force, never, when stdin is a terminal, or
      (auto) when stdin is a terminal and no command was given. */
  function ShouldAllocateTerminal(terminalRequest: int, command: seq<string>, stdinIsTerminal: bool): bool {
    if terminalRequest == RequestTTYForce then true
    else if terminalRequest == RequestTTYNo then false
    else if terminalRequest == RequestTTYYes then stdinIsTerminal
    else if terminalRequest == RequestTTYAuto then |command| == 0 && stdinIsTerminal
    else false
  }

  /** A terminal is allocated only when forced or when stdin is one, never
      for an unknown request, and under "auto" never to run a command. */
  lemma ShouldAllocateTerminalTable(terminalRequest: int, command: seq<string>, stdinIsTerminal: bool)
    ensures var r := ShouldAllocateTerminal(terminalRequest, command, stdinIsTerminal);
      (r ==> terminalRequest == RequestTTYForce || stdinIsTerminal) &&
      (terminalRequest == RequestTTYForce ==> r) &&
      (terminalRequest == RequestTTYNo ==> !r) &&
      (terminalRequest == RequestTTYYes ==> (r <==> stdinIsTerminal)) &&
      (terminalRequest !in {RequestTTYAuto, RequestTTYNo, RequestTTYYes, RequestTTYForce} ==> !r) &&
      (terminalRequest == RequestTTYAuto ==> (r <==> command == [] && stdinIsTerminal)) &&
      (stdinIsTerminal && terminalRequest in {RequestTTYAuto, RequestTTYYes, RequestTTYForce} && command == [] ==> r)
  {
  }

  /** One -L forwarding: where to listen locally and where to connect to. */
  datatype ForwardSpec = ForwardSpec(listenAddress: string, connectAddress: string)

  /** The SSH options Connect and LocalPortForward read. */
  datatype SshOptions = SshOptions(appName: string, index: nat, skipHostValidation: bool,
                                   forwardSpecs: seq<ForwardSpec>, terminalRequest: int,
                                   command: seq<string>)

  /** The client configuration Dial is given. */
  datatype ClientConfig = ClientConfig(user: string, password: string, hostKeyCallback: HostKeyCallback)

  /** One Dial: the network, the address dialed and the configuration. */
  datatype DialRequest = DialRequest(network: string, address: string, config: ClientConfig)

  /** An open SSH client or listener, by an identity the factory assigns. */
  datatype Dialed = Connected(client: nat) | DialFailed(msg: string)
  datatype Listening = Listener(id: nat, address: string) | ListenFailed(msg: string)

  /** The listeners LocalPortForward opens, in spec order, up to the first
      that fails, and its result. */
  function ListenUntilFailure(listen: string -> Listening, specs: seq<ForwardSpec>): (seq<Listening>, Status) {
    if specs == [] then ([], Ok)
    else if listen(specs[0].listenAddress).ListenFailed? then ([], Err(listen(specs[0].listenAddress).msg))
    else
      var rest := ListenUntilFailure(listen, specs[1..]);
      ([listen(specs[0].listenAddress)] + rest.0, rest.1)
  }

  /** One listener per successful Listen, in spec order; the first failure is
      the result and nothing after it is tried, while the listeners kept
      before it are kept. */
  lemma {:induction false} ListenersInSpecOrder(listen: string -> Listening, specs: seq<ForwardSpec>)
    ensures var (ls, status) := ListenUntilFailure(listen, specs);
      |ls| <= |specs| &&
      (forall m :: 0 <= m < |ls| ==> ls[m] == listen(specs[m].listenAddress) && ls[m].Listener?) &&
      (status == Ok <==> |ls| == |specs|) &&
      (status != Ok ==> |ls| < |specs| && listen(specs[|ls|].listenAddress).ListenFailed? &&
                        status == Err(listen(specs[|ls|].listenAddress).msg))
  {
    if specs != [] && listen(specs[0].listenAddress).Listener? {
      ListenersInSpecOrder(listen, specs[1..]);
    }
  }

  class SecureShell {
    const app: App
    const sshEndpointFingerprint: string
    const sshEndpoint: string
    const token: string
    /** What the dialer answers to a request. */
    const dial: DialRequest -> Dialed
    /** What the listener factory answers for an address. */
    const listen: string -> Listening
    /** What closing each client answers. */
    const closeClient: nat -> Status

    /** The requests dialed so far, oldest first. */
    var dials: seq<DialRequest>
    var secureClient: Option<nat>
    var opts: Option<SshOptions>
    var localListeners: seq<Listening>
    /** The listeners closed so far, oldest first. */
    var closedListeners: seq<Listening>

    constructor (app: App, sshEndpointFingerprint: string, sshEndpoint: string, token: string,
                 dial: DialRequest -> Dialed, listen: string -> Listening, closeClient: nat -> Status)
      ensures this.app == app && this.sshEndpointFingerprint == sshEndpointFingerprint
      ensures this.sshEndpoint == sshEndpoint && this.token == token
      ensures this.dial == dial && this.listen == listen && this.closeClient == closeClient
      ensures dials == [] && secureClient == None && opts == None
      ensures localListeners == [] && closedListeners == []
    {
      this.app := app;
      this.sshEndpointFingerprint := sshEndpointFingerprint;
      this.sshEndpoint := sshEndpoint;
      this.token := token;
      this.dial := dial;
      this.listen := listen;
      this.closeClient := closeClient;
      dials := [];
      secureClient := None;
      opts := None;
      localListeners := [];
      closedListeners := [];
    }

    /** Connect: validate the target, then dial the SSH endpoint over TCP
        with the instance's user name, the token as password and the
        fingerprint check; the client and the options are kept only when
        dialing succeeds. */
    method Connect(o: SshOptions) returns (status: Status)
      modifies this
      ensures ValidateTarget(app, o.appName) != Ok ==>
        status == ValidateTarget(app, o.appName) && dials == old(dials) &&
        secureClient == old(secureClient) && opts == old(opts)
      ensures ValidateTarget(app, o.appName) == Ok ==>
        var config := ClientConfig(SshUser(app.guid, o.index), token,
                                   FingerprintCallback(o.skipHostValidation, sshEndpointFingerprint));
        var request := DialRequest("tcp", sshEndpoint, config);
        dials == old(dials) + [request] &&
        match dial(request)
        case Connected(cl) => status == Ok && secureClient == Some(cl) && opts == Some(o)
        case DialFailed(msg) => status == Err(msg) && secureClient == old(secureClient) && opts == old(opts)
      ensures localListeners == old(localListeners) && closedListeners == old(closedListeners)
    {
      status := ValidateTarget(app, o.appName);
      if status != Ok {
        return;
      }
      var config := ClientConfig(SshUser(app.guid, o.index), token,
                                 FingerprintCallback(o.skipHostValidation, sshEndpointFingerprint));
      var request := DialRequest("tcp", sshEndpoint, config);
      dials := dials + [request];
      var d := dial(request);
      if d.DialFailed? {
        return Err(d.msg);
      }
      secureClient := Some(d.client);
      opts := Some(o);
    }

    /** LocalPortForward: listen on every forwarding's address in turn
        (a nil-pointer panic when Connect never succeeded). */
    method LocalPortForward() returns (status: Status)
      modifies this
      ensures opts.None? ==> status.Panic? && localListeners == old(localListeners)
      ensures opts.Some? ==>
        var (ls, s) := ListenUntilFailure(listen, opts.value.forwardSpecs);
        localListeners == old(localListeners) + ls && status == s
      ensures opts == old(opts) && secureClient == old(secureClient)
      ensures dials == old(dials) && closedListeners == old(closedListeners)
    {
      if opts.None? {
        return Panic("invalid memory address or nil pointer dereference");
      }
      var specs := opts.value.forwardSpecs;
      ghost var total := ListenUntilFailure(listen, specs);
      ghost var kept: seq<Listening> := [];
      var i := 0;
      while i < |specs|
        invariant i <= |specs|
        invariant localListeners == old(localListeners) + kept
        invariant kept + ListenUntilFailure(listen, specs[i..]).0 == total.0
        invariant ListenUntilFailure(listen, specs[i..]).1 == total.1
        invariant opts == old(opts) && secureClient == old(secureClient)
        invariant dials == old(dials) && closedListeners == old(closedListeners)
      {
        assert specs[i..][1..] == specs[i + 1..];
        var l := listen(specs[i].listenAddress);
        if l.ListenFailed? {
          return Err(l.msg);
        }
        ConcatAssoc(old(localListeners), kept, [l]);
        ConcatAssoc(kept, [l], ListenUntilFailure(listen, specs[i + 1..]).0);
        localListeners := localListeners + [l];
        kept := kept + [l];
        i := i + 1;
      }
      status := Ok;
    }

    /** Close: close every stored listener, ignoring its error, then close
        the client and return that result (a nil-pointer panic when there
        is no client). */
    method Close() returns (status: Status)
      modifies this
      ensures closedListeners == old(closedListeners) + localListeners
      ensures status == (if secureClient.Some? then closeClient(secureClient.value)
                         else Panic("invalid memory address or nil pointer dereference"))
      ensures localListeners == old(localListeners) && secureClient == old(secureClient)
      ensures opts == old(opts) && dials == old(dials)
    {
      var i := 0;
      while i < |localListeners|
        invariant i <= |localListeners|
        invariant closedListeners == old(closedListeners) + localListeners[..i]
        invariant localListeners == old(localListeners) && secureClient == old(secureClient)
        invariant opts == old(opts) && dials == old(dials)
      {
        assert localListeners[..i + 1] == localListeners[..i] + [localListeners[i]];
        closedListeners := closedListeners + [localListeners[i]];
        i := i + 1;
      }
      assert localListeners[..i] == localListeners;
      if secureClient.None? {
        return Panic("invalid memory address or nil pointer dereference");
      }
      status := closeClient(secureClient.value);
    }
  }
}
