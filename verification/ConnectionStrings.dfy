/**
 * The connection string builder.
 *
 * Its getters observe settings from an insertion-ordered map of properties and a list of hosts. The text it builds is
 * the printed form of those settings: scheme, credentials, hosts and one query parameter for each slot that holds
 * something, then the properties it has no slot for. The parser takes a text apart in the same order and stores what
 * it reads.
 */
module ConnectionStrings {
  import opened Wrappers
  import opened Texts
  import opened OrderedMaps
  import opened ServerAddresses

  const SRV_SCHEME := "chronicle+srv"

  const USERNAME := "Username"
  const PASSWORD := "Password"
  const SCHEME := "Scheme"
  const API_KEY := "apiKey"
  const DISABLE_TLS := "disableTls"
  const SKIP_KEEP_ALIVE := "skipKeepAlive"
  const SKIP_TLS_VALIDATION := "skipTlsValidation"
  const CERTIFICATE_PATH := "certificatePath"
  const CERTIFICATE_PASSWORD := "certificatePassword"
  const LOAD_BALANCER := "loadBalancer"
  const SRV_NAME_SERVER := "srvNameServer"

  const RESERVED: set<string> :=
    {USERNAME, PASSWORD, SCHEME, API_KEY, DISABLE_TLS, SKIP_KEEP_ALIVE, SKIP_TLS_VALIDATION, CERTIFICATE_PATH,
      CERTIFICATE_PASSWORD,
     LOAD_BALANCER, SRV_NAME_SERVER}

  const LEAST_CONNECTIONS := "least-connections"

  const LOAD_BALANCER_MODES: set<string> := {LEAST_CONNECTIONS, "round-robin", "random"}

  type Properties = OrderedMap<string, string>

  datatype ConnectionError =
    | TooManySrvHosts(count: nat)
    | UnknownLoadBalancer(mode: string)
    | InvalidServerAddress(entry: string)

  /** What the getters of a builder say. The load balancer is absent when it was never set. */
  datatype Settings = Settings(
    scheme: string, hosts: seq<ServerAddress>, username: Option<string>, password: Option<string>,
    apiKey: Option<string>,
    disableTls: bool, skipKeepAlive: bool, skipTlsValidation: bool,
    certificatePath: Option<string>, certificatePassword: Option<string>,
    loadBalancer: Option<string>, srvNameServer: Option<string>, extras: Properties)

  function LowerChar(c: char): char {
    if 'A' <= c <= 'Z' then (c as int + 32) as char else c
  }

  function Lower(s: string): string {
    seq(|s|, i requires 0 <= i < |s| => LowerChar(s[i]))
  }

  predicate IsSrv(scheme: string) {
    Lower(scheme) == SRV_SCHEME
  }

  function Extras(properties: Properties): Properties {
    if properties == [] then []
    else
      var earlier, last := Extras(properties[..|properties| - 1]), properties[|properties| - 1];
      if last.key in RESERVED then earlier else earlier + [last]
  }

  function NotEmpty(value: Option<string>): Option<string> {
    if value == Some("") then None else value
  }

  /** What a builder's properties and hosts amount to. */
  function Observe(properties: Properties, hosts: seq<ServerAddress>): Settings {
    Settings(
      NotEmpty(Get(properties, SCHEME)).GetOr("chronicle"),
      if hosts == [] then [ServerAddress("localhost", DEFAULT_PORT)] else hosts,
      NotEmpty(Get(properties, USERNAME)), NotEmpty(Get(properties, PASSWORD)), NotEmpty(Get(properties, API_KEY)),
      Get(properties, DISABLE_TLS) == Some("true"),
      Get(properties, SKIP_KEEP_ALIVE) == Some("true"),
      Get(properties, SKIP_TLS_VALIDATION).GetOr("true") == "true",
      NotEmpty(Get(properties, CERTIFICATE_PATH)), NotEmpty(Get(properties, CERTIFICATE_PASSWORD)),
      (match Get(properties, LOAD_BALANCER) case None => None case Some(raw) =>
        Some(if raw == "" then LEAST_CONNECTIONS else raw)),
      NotEmpty(Get(properties, SRV_NAME_SERVER)),
      Extras(properties))
  }

  type Slot = Entry<string, Option<string>>

  /** The entries of the slots that hold something. */
  function Present(slots: seq<Slot>): Properties {
    if slots == [] then []
    else match slots[0].value
      case None => Present(slots[1..])
      case Some(value) => [Entry(slots[0].key, value)] + Present(slots[1..])
  }

  function Flag(on: bool, text: string): Option<string> {
    if on then Some(text) else None
  }

  /** The settings a query carries, in the order they are printed. */
  function QuerySlots(s: Settings): seq<Slot> {
    [Entry(API_KEY, s.apiKey),
     Entry(DISABLE_TLS, Flag(s.disableTls, "true")),
     Entry(SKIP_KEEP_ALIVE, Flag(s.skipKeepAlive, "true")),
     Entry(SKIP_TLS_VALIDATION, Flag(!s.skipTlsValidation, "false")),
     Entry(CERTIFICATE_PATH, s.certificatePath),
     Entry(CERTIFICATE_PASSWORD, s.certificatePassword),
     Entry(LOAD_BALANCER, s.loadBalancer),
     Entry(SRV_NAME_SERVER, s.srvNameServer)]
  }

  function QueryEntries(s: Settings): Properties {
    Present(QuerySlots(s)) + s.extras
  }

  /**
   * A query parameter's text. Percent-coding is the identity on the unreserved characters, the only ones considered.
   */
  function Parameter(entry: Entry<string, string>): string {
    entry.key + "=" + entry.value
  }

  function Parameters(entries: Properties): seq<string> {
    seq(|entries|, i requires 0 <= i < |entries| => Parameter(entries[i]))
  }

  function UserInfo(s: Settings): string {
    if s.username.None? then ""
    else s.username.value + (if s.password.Some? then ":" + s.password.value else "") + "@"
  }

  function HostTexts(hosts: seq<ServerAddress>): seq<string> {
    seq(|hosts|, i requires 0 <= i < |hosts| => FormatServerAddress(hosts[i]))
  }

  function QueryText(entries: Properties): string {
    if entries == [] then "" else "?" + Join(Parameters(entries), '&')
  }

  function Printed(s: Settings): string {
    s.scheme + "://" + (UserInfo(s) + Join(HostTexts(s.hosts), ',') + QueryText(QueryEntries(s)))
  }

  function Print(s: Settings): Result<string, ConnectionError> {
    if IsSrv(s.scheme) && |s.hosts| > 1 then Err(TooManySrvHosts(|s.hosts|))
    else if s.loadBalancer.Some? && s.loadBalancer.value !in LOAD_BALANCER_MODES then
      Err(UnknownLoadBalancer(s.loadBalancer.value))
    else Ok(Printed(s))
  }

  // ----- parsing -----

  /** Where `://` first stands. */
  function SchemeEnd(s: string): Option<nat> {
    if |s| < 3 then None
    else if s[..3] == "://" then Some(0)
    else match SchemeEnd(s[1..])
      case None => None
      case Some(i) => Some(i + 1)
  }

  /** Where the authority ends: at the first slash or question mark. */
  function AuthorityEnd(rest: string): nat {
    var slash, question := IndexOf(rest, '/'), IndexOf(rest, '?');
    if slash.None? then question.GetOr(|rest|)
    else if question.None? || slash.value < question.value then slash.value
    else question.value
  }

  /** A query parameter, split at its first equals sign. */
  function ParseParameter(piece: string): Entry<string, string> {
    match IndexOf(piece, '=')
    case None => Entry(piece, "")
    case Some(i) =>
      IndexOfNone(piece, '=');
      Entry(piece[..i], piece[i + 1..])
  }

  function ParseParameters(pieces: seq<string>): Properties {
    if pieces == [] then []
    else
      var earlier, last := ParseParameters(pieces[..|pieces| - 1]), pieces[|pieces| - 1];
      if last == "" then earlier else earlier + [ParseParameter(last)]
  }

  function PutAll(properties: Properties, entries: Properties): Properties {
    if entries == [] then properties
    else Put(PutAll(properties, entries[..|entries| - 1]), entries[|entries| - 1].key, entries[|entries| - 1].value)
  }

  function SetText(properties: Properties, key: string, value: string): Properties {
    if value == "" then Remove(properties, key) else Put(properties, key, value)
  }

  function ParseHosts(entries: seq<string>): Result<seq<ServerAddress>, ConnectionError> {
    if entries == [] then Ok([])
    else match ParseHosts(entries[..|entries| - 1])
      case Err(e) => Err(e)
      case Ok(hosts) =>
        match ParseHostAndPort(entries[|entries| - 1])
        case Err(_) => Err(InvalidServerAddress(entries[|entries| - 1]))
        case Ok(address) => Ok(hosts + [address])
  }

  function SetUserInfo(properties: Properties, userInfo: string): Properties {
    var parts := Split(userInfo, ':');
    var named := SetText(properties, USERNAME, parts[0]);
    if |parts| > 1 then SetText(named, PASSWORD, parts[1]) else named
  }

  datatype Parsed = Parsed(properties: Properties, hosts: seq<ServerAddress>)

  predicate HasKnownScheme(text: string) {
    "chronicle://" <= Lower(text) || "chronicle+srv://" <= Lower(text)
  }

  /** A search string without the question mark it may start with. */
  function Search(query: string): string {
    if query != "" && query[0] == '?' then query[1..] else query
  }

  /** One question mark at the start of a query is passed over. */
  lemma {:induction false} MarkIsPassedOver(query: string)
    ensures Search("?" + query) == query
    ensures (query == "" || query[0] != '?') ==> Search(query) == query
  {
  }

  function QueryOf(rest: string, authorityEnd: nat): string
    requires authorityEnd <= |rest|
  {
    match IndexOf(rest[authorityEnd..], '?')
    case None => ""
    case Some(i) =>
      IndexOfNone(rest[authorityEnd..], '?');
      rest[authorityEnd + i + 1..]
  }

  lemma {:induction false} AuthorityEndWithin(rest: string)
    ensures AuthorityEnd(rest) <= |rest|
  {
    IndexOfNone(rest, '/');
    IndexOfNone(rest, '?');
  }

  lemma {:induction false} SchemeEndWithin(s: string)
    ensures SchemeEnd(s).Some? ==> SchemeEnd(s).value + 3 <= |s|
  {
    if |s| >= 3 && s[..3] != "://" {
      SchemeEndWithin(s[1..]);
    }
  }

  /** What a fresh builder reads from a text; a text with another scheme leaves it empty. */
  function Parse(text: string): Result<Parsed, ConnectionError> {
    if !HasKnownScheme(text) || SchemeEnd(text).None? then Ok(Parsed([], []))
    else
      SchemeEndWithin(text);
      var schemeEnd := SchemeEnd(text).value;
      var scheme, rest := text[..schemeEnd], text[schemeEnd + 3..];
      AuthorityEndWithin(rest);
      var authority := rest[..AuthorityEnd(rest)];
      var query := QueryOf(rest, AuthorityEnd(rest));
      var schemed: Properties := [Entry(SCHEME, scheme)];
      LastIndexOfWithin(authority, '@');
      var at := LastIndexOf(authority, '@');
      var named := if at.None? then schemed else SetUserInfo(schemed, authority[..at.value]);
      var hostList := if at.None? then authority else authority[at.value + 1..];
      match ParseHosts(SplitFrom(hostList, 0, []))
      case Err(e) => Err(e)
      case Ok(hosts) =>
        if IsSrv(scheme) && |hosts| > 1 then Err(TooManySrvHosts(|hosts|))
        else Ok(Parsed(PutAll(named, ParseParameters(Split(Search(query), '&'))), hosts))
  }

  // ----- the builder -----

  lemma {:induction false} PresentOfPrefix(slots: seq<Slot>, k: nat)
    requires k < |slots|
    ensures Present(slots[..k + 1]) == Present(slots[..k]) + Present([slots[k]])
  {
    if k == 0 {
      assert slots[..1] == [slots[0]];
    } else {
      assert slots[..k + 1][1..] == slots[1..][..k] && slots[..k][1..] == slots[1..][..k - 1];
      PresentOfPrefix(slots[1..], k - 1);
    }
  }

  /** Pushing a slot's parameter when the slot holds something prints one slot more. */
  lemma {:induction false} PushedSlot(slots: seq<Slot>, k: nat)
    requires k < |slots|
    ensures Parameters(Present(slots[..k + 1])) == Parameters(Present(slots[..k]))
      + match slots[k].value { case None => [] case Some(value) => [slots[k].key + "=" + value] }
  {
    PresentOfPrefix(slots, k);
    assert [slots[k]][1..] == [];
  }

  lemma {:induction false} SlotsInOrder(s: Settings)
    ensures var slots := QuerySlots(s);
            && |slots| == 8
            && slots[0] == Entry(API_KEY, s.apiKey)
            && slots[1] == Entry(DISABLE_TLS, if s.disableTls then Some("true") else None)
            && slots[2] == Entry(SKIP_KEEP_ALIVE, if s.skipKeepAlive then Some("true") else None)
            && slots[3] == Entry(SKIP_TLS_VALIDATION, if s.skipTlsValidation then None else Some("false"))
            && slots[4] == Entry(CERTIFICATE_PATH, s.certificatePath)
            && slots[5] == Entry(CERTIFICATE_PASSWORD, s.certificatePassword)
            && slots[6] == Entry(LOAD_BALANCER, s.loadBalancer)
            && slots[7] == Entry(SRV_NAME_SERVER, s.srvNameServer)
  {
  }

  class ChronicleConnectionStringBuilder {
    var properties: Properties
    var hosts: seq<ServerAddress>

    constructor ()
      ensures properties == [] && hosts == []
    {
      properties, hosts := [], [];
    }

    function Said(): Settings
      reads this
    {
      Observe(properties, hosts)
    }

    /** Sets the host, which drops every host but the first. */
    method SetHost(value: string)
      modifies this`hosts
      ensures Said() == old(Said()).(hosts := [ServerAddress(value, old(Said()).hosts[0].port)])
    {
      hosts := [ServerAddress(value, Said().hosts[0].port)];
    }

    /** The setter of a text setting: an empty text deletes it. */
    method SetOrDelete(key: string, value: string)
      modifies this`properties
      ensures properties == SetText(old(properties), key, value)
    {
      if value != "" {
        properties := Put(properties, key, value);
        return;
      }
      properties := Remove(properties, key);
    }

    method Build() returns (result: Result<string, ConnectionError>)
      ensures result == Print(Said())
    {
      var said := Said();
      if IsSrv(said.scheme) && |said.hosts| > 1 {
        return Err(TooManySrvHosts(|said.hosts|));
      }
      var text := said.scheme + "://";
      var userInfo := "";
      if said.username.Some? {
        userInfo := userInfo + said.username.value;
        if said.password.Some? {
          userInfo := userInfo + (":" + said.password.value);
        }
        userInfo := userInfo + "@";
      }
      assert userInfo == UserInfo(said);
      var hostList := Join(HostTexts(said.hosts), ',');
      var parameters := KnownParameters();
      if parameters.Err? {
        return Err(parameters.error);
      }
      var queryParameters := AppendExtras(parameters.value);
      ParametersAppend(Present(QuerySlots(said)), said.extras);
      var query := "";
      if |queryParameters| > 0 {
        query := "?" + Join(queryParameters, '&');
      }
      result := Ok(text + (userInfo + hostList + query));
    }

    method KnownParameters() returns (parameters: Result<seq<string>, ConnectionError>)
      ensures parameters ==
        var s := Said();
        if s.loadBalancer.Some? && s.loadBalancer.value !in LOAD_BALANCER_MODES then
          Err(UnknownLoadBalancer(s.loadBalancer.value))
        else Ok(Parameters(Present(QuerySlots(s))))
    {
      hide *;
      var said := Said();
      ghost var slots := QuerySlots(said);
      var pushed: seq<string> := [];
      NoParameters(slots);
      SlotsInOrder(said);
      if said.apiKey.Some? {
        pushed := pushed + [API_KEY + "=" + said.apiKey.value];
      }
      PushedSlot(slots, 0);
      assert pushed == Parameters(Present(slots[..1]));
      if said.disableTls {
        pushed := pushed + [DISABLE_TLS + "=" + "true"];
      }
      PushedSlot(slots, 1);
      assert pushed == Parameters(Present(slots[..2]));
      if said.skipKeepAlive {
        pushed := pushed + [SKIP_KEEP_ALIVE + "=" + "true"];
      }
      PushedSlot(slots, 2);
      assert pushed == Parameters(Present(slots[..3]));
      if !said.skipTlsValidation {
        pushed := pushed + [SKIP_TLS_VALIDATION + "=" + "false"];
      }
      PushedSlot(slots, 3);
      assert pushed == Parameters(Present(slots[..4]));
      if said.certificatePath.Some? {
        pushed := pushed + [CERTIFICATE_PATH + "=" + said.certificatePath.value];
      }
      PushedSlot(slots, 4);
      assert pushed == Parameters(Present(slots[..5]));
      if said.certificatePassword.Some? {
        pushed := pushed + [CERTIFICATE_PASSWORD + "=" + said.certificatePassword.value];
      }
      PushedSlot(slots, 5);
      assert pushed == Parameters(Present(slots[..6]));
      if said.loadBalancer.Some? {
        if said.loadBalancer.value !in LOAD_BALANCER_MODES {
          return Err(UnknownLoadBalancer(said.loadBalancer.value));
        }
        pushed := pushed + [LOAD_BALANCER + "=" + said.loadBalancer.value];
      }
      PushedSlot(slots, 6);
      assert pushed == Parameters(Present(slots[..7]));
      if said.srvNameServer.Some? {
        pushed := pushed + [SRV_NAME_SERVER + "=" + said.srvNameServer.value];
      }
      PushedSlot(slots, 7);
      assert pushed == Parameters(Present(slots[..8]));
      assert slots[..8] == slots;
      parameters := Ok(pushed);
    }

    method AppendExtras(parameters: seq<string>) returns (queryParameters: seq<string>)
      ensures queryParameters == parameters + Parameters(Said().extras)
    {
      queryParameters := parameters;
      for i := 0 to |properties|
        invariant queryParameters == parameters + Parameters(Extras(properties[..i]))
      {
        assert properties[..i + 1][..i] == properties[..i];
        var entry := properties[i];
        if entry.key !in RESERVED {
          queryParameters := queryParameters + [Parameter(entry)];
        }
      }
      assert properties[..|properties|] == properties;
    }

    /** Reads a connection string into a builder that nothing was set on. */
    method ParseConnectionString(text: string) returns (error: Option<ConnectionError>)
      requires properties == [] && hosts == []
      modifies this
      ensures match Parse(text)
        case Ok(parsed) => error.None? && properties == parsed.properties && hosts == parsed.hosts
        case Err(e) => error == Some(e)
    {
      hide HasKnownScheme, SchemeEnd, AuthorityEnd, QueryOf, LastIndexOf, Split, SplitFrom, ParseHosts, ParseParameters,
        Search, PutAll, IsSrv;
      if !HasKnownScheme(text) || SchemeEnd(text).None? {
        return None;
      }
      SchemeEndWithin(text);
      var schemeEnd := SchemeEnd(text).value;
      var scheme, rest := text[..schemeEnd], text[schemeEnd + 3..];
      properties := Put(properties, SCHEME, scheme);
      AuthorityEndWithin(rest);
      var authority, query := rest[..AuthorityEnd(rest)], QueryOf(rest, AuthorityEnd(rest));
      LastIndexOfWithin(authority, '@');
      var at := LastIndexOf(authority, '@');
      var hostList := authority;
      if at.Some? {
        hostList := authority[at.value + 1..];
        var parts := Split(authority[..at.value], ':');
        SetOrDelete(USERNAME, parts[0]);
        if |parts| > 1 {
          SetOrDelete(PASSWORD, parts[1]);
        }
      }
      var entries := SplitHostList(hostList);
      var addresses := ParseHostEntries(entries);
      if addresses.Err? {
        return Some(addresses.error);
      }
      if IsSrv(scheme) && |addresses.value| > 1 {
        return Some(TooManySrvHosts(|addresses.value|));
      }
      hosts := addresses.value;
      SetAll(ParseParameters(Split(Search(query), '&')));
      error := None;
    }

    method SetAll(entries: Properties)
      modifies this`properties
      ensures properties == PutAll(old(properties), entries)
    {
      for i := 0 to |entries|
        invariant properties == PutAll(old(properties), entries[..i])
      {
        assert entries[..i + 1][..i] == entries[..i];
        properties := Put(properties, entries[i].key, entries[i].value);
      }
      assert entries[..|entries|] == entries;
    }
  }

  method ParseHostEntries(entries: seq<string>) returns (addresses: Result<seq<ServerAddress>, ConnectionError>)
    ensures addresses == ParseHosts(entries)
  {
    var parsed: seq<ServerAddress> := [];
    for i := 0 to |entries|
      invariant ParseHosts(entries[..i]) == Ok(parsed)
    {
      assert entries[..i + 1][..i] == entries[..i];
      var address := ParseHostAndPort(entries[i]);
      if address.Err? {
        ParseHostsStops(entries, i + 1);
        return Err(InvalidServerAddress(entries[i]));
      }
      parsed := parsed + [address.value];
    }
    assert entries[..|entries|] == entries;
    addresses := Ok(parsed);
  }

  lemma {:induction false} ParseHostsStops(entries: seq<string>, i: nat)
    requires i <= |entries| && ParseHosts(entries[..i]).Err?
    ensures ParseHosts(entries) == ParseHosts(entries[..i])
  {
    if i < |entries| {
      assert entries[..|entries| - 1][..i] == entries[..i];
      ParseHostsStops(entries[..|entries| - 1], i);
    } else {
      assert entries[..i] == entries;
    }
  }

  lemma {:induction false} NoParameters(slots: seq<Slot>)
    ensures Parameters(Present(slots[..0])) == []
  {
  }

  lemma {:induction false} ParametersAppend(a: Properties, b: Properties)
    ensures Parameters(a + b) == Parameters(a) + Parameters(b)
    ensures a + b == [] <==> Parameters(a) + Parameters(b) == []
  {
  }
}
