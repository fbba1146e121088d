/**
 * Parsing what a builder prints gives back what the builder says.
 *
 * A printed text is read from left to right: its scheme, the authority up to the query, the credentials before the last
 * at sign of the authority and the hosts after it, and then the query's parameters. For settings whose texts need no
 * percent-coding, each part ends where the parser looks for its end, because the parts lack each other's delimiters.
 *
 * What was read is then stored property by property. Every key is set once, the known ones in the order of their slots
 * and the others after them, and so the getters of the parsed builder observe the settings that were printed.
 */
module ConnectionStringRoundTrip {
  import opened Wrappers
  import opened Texts
  import opened OrderedMaps
  import opened ServerAddresses
  import opened ConnectionStrings

  predicate PlainText(value: Option<string>) {
    value.Some? ==> value.value != "" && Unreserved(value.value)
  }

  predicate PlainExtra(extra: Entry<string, string>) {
    Unreserved(extra.key) && Unreserved(extra.value) && extra.key !in RESERVED
  }

  /**
   * Settings whose texts need no percent-coding: unreserved characters (section 2.3 of RFC 3986), a password only with
   * a username, one host for the SRV scheme, a known load balancer.
   */
  ghost predicate Plain(s: Settings) {
    && (Lower(s.scheme) == "chronicle" || IsSrv(s.scheme))
    && s.hosts != [] && (forall i :: 0 <= i < |s.hosts| ==> IsHost(s.hosts[i].host))
    && (IsSrv(s.scheme) ==> |s.hosts| == 1)
    && PlainText(s.username) && PlainText(s.password) && (s.password.Some? ==> s.username.Some?)
    && PlainText(s.apiKey) && PlainText(s.certificatePath) && PlainText(s.certificatePassword)
       && PlainText(s.srvNameServer)
    && (s.loadBalancer.Some? ==> s.loadBalancer.value in LOAD_BALANCER_MODES)
    && UniqueKeys(s.extras) && (forall i :: 0 <= i < |s.extras| ==> PlainExtra(s.extras[i]))
  }

  /** A text is plain when it says something in characters that need no percent-coding; an extra has its own key. */
  lemma {:induction false} PlainByCharacters(s: string, extra: Entry<string, string>)
    ensures PlainText(None) && (PlainText(Some(s)) <==> |s| > 0 && Unreserved(s))
    ensures PlainExtra(extra) <==>
            && Unreserved(extra.key) && Unreserved(extra.value)
            && extra.key !in {"Username", "Password", "Scheme", "apiKey", "disableTls", "skipKeepAlive",
                 "skipTlsValidation", "certificatePath", "certificatePassword", "loadBalancer", "srvNameServer"}
  {
  }

  /** A scheme and a host are enough. */
  lemma {:induction false} HostIsPlain(host: string, port: nat, skipTlsValidation: bool)
    requires IsHost(host)
    ensures Plain(Settings("chronicle", [ServerAddress(host, port)], None, None, None, false, false, skipTlsValidation,
                    None, None, None, None, []))
    ensures Plain(Settings("chronicle+srv", [ServerAddress(host, port)], None, None, None, false, false,
                    skipTlsValidation, None, None, None, None, []))
  {
    assert Lower("chronicle") == "chronicle" && Lower("chronicle+srv") == "chronicle+srv";
  }

  // ----- the round trip -----

  /** Parsing the printed text gives a builder that says the same, so that printing again gives the same text. */
  lemma {:induction false} ParseOfPrint(properties: Properties, hosts: seq<ServerAddress>)
    requires Plain(Observe(properties, hosts))
    ensures var printed := Print(Observe(properties, hosts));
            && printed.Ok? && Parse(printed.value).Ok?
            && var parsed := Parse(printed.value).value;
            && Observe(parsed.properties, parsed.hosts) == Observe(properties, hosts)
            && Print(Observe(parsed.properties, parsed.hosts)) == printed
  {
    hide Observe, Parse, Printed, Stored;
    ParsePrinted(Observe(properties, hosts));
    ObserveStored(Observe(properties, hosts));
  }

  lemma {:induction false} ParsePrinted(s: Settings)
    requires Plain(s)
    ensures Parse(Printed(s)) == Ok(Parsed(Stored(s), s.hosts))
  {
    hide Plain, Printed, HasKnownScheme, SchemeEnd, AuthorityEnd, Authority, QueryText, QueryEntries, QueryOf, Search,
      Split, PutAll, Present, ParseHosts, SplitFrom, LastIndexOf, UserInfo, Credentials, SetUserInfo, Stored,
      ParseParameters, HostTexts, Join, Lacks, IsSrv;
    var text, rest := Printed(s), Authority(s) + QueryText(QueryEntries(s));
    PrintedParts(s);
    PlainScheme(s);
    SchemeEndOf(s.scheme, rest);
    assert text[..|s.scheme|] == s.scheme && text[|s.scheme| + 3..] == rest;
    AuthorityRead(s);
    QueryRead(s);
    NamedOf(s);
    HostListRead(s);
    StoredByPutting(s);
  }

  lemma {:induction false} ObserveStored(s: Settings)
    requires Plain(s)
    ensures Observe(Stored(s), s.hosts) == s
  {
    hide Present, Stored, Get, Extras;
    StoredExtras(s);
    StoredSlot(s, 0);
    StoredSlot(s, 1);
    StoredSlot(s, 2);
    StoredSlot(s, 3);
    StoredSlot(s, 4);
    StoredSlot(s, 5);
    StoredSlot(s, 6);
    StoredSlot(s, 7);
    StoredSlot(s, 8);
    StoredSlot(s, 9);
    StoredSlot(s, 10);
    assert Lower(s.scheme) != "" && s.scheme != "";
  }

  // ----- the scheme -----

  lemma {:induction false} SchemeEndOf(scheme: string, rest: string)
    requires Lacks(scheme, ':')
    ensures SchemeEnd(scheme + "://" + rest) == Some(|scheme|)
  {
    var s := scheme + "://" + rest;
    if scheme == [] {
      assert s[..3] == "://";
    } else {
      assert s[0] == scheme[0] && s[..3][0] != "://"[0];
      assert s[1..] == scheme[1..] + "://" + rest;
      SchemeEndOf(scheme[1..], rest);
    }
  }

  lemma {:induction false} KnownScheme(scheme: string, rest: string)
    requires Lower(scheme) == "chronicle" || IsSrv(scheme)
    ensures HasKnownScheme(scheme + "://" + rest) && Lacks(scheme, ':')
  {
    assert Lower("://") == "://";
    assert Lower(scheme)+ "://" <= Lower(scheme + "://" + rest);
    assert Lacks("chronicle", ':') && Lacks(SRV_SCHEME, ':');
    forall i | 0 <= i < |scheme| ensures scheme[i] != ':' {
      assert Lower(scheme)[i] == LowerChar(scheme[i]);
    }
  }

  // ----- the authority and the query -----

  lemma {:induction false} AuthorityOf(authority: string, search: string)
    requires Lacks(authority, '/') && Lacks(authority, '?')
    ensures AuthorityEnd(authority + "?" + search) == |authority|
    ensures QueryOf(authority + "?" + search, |authority|) == search
    ensures AuthorityEnd(authority) == |authority| && QueryOf(authority, |authority|) == ""
  {
    var rest := authority + "?" + search;
    IndexOfFirst(authority, '?', search);
    assert authority + "?" + search == authority + ['?'] + search;
    IndexOfNone(rest, '/');
    assert forall i :: 0 <= i < |authority| ==> rest[i] == authority[i];
    assert rest[|authority|] == '?';
    assert rest[|authority|..] == "?" + search;
    assert rest[|authority| + 0 + 1..] == search;
    IndexOfNone(authority, '/');
    IndexOfNone(authority, '?');
    assert authority[|authority|..] == "";
  }

  lemma {:induction false} HostsAreHosts(hosts: seq<ServerAddress>, c: char)
    requires forall i :: 0 <= i < |hosts| ==> IsHost(hosts[i].host)
    requires c in {'/', '?', '@'}
    ensures Lacks(Join(HostTexts(hosts), ','), c)
  {
    forall p | p in HostTexts(hosts) ensures Lacks(p, c) {
      var i :| 0 <= i < |hosts| && p == FormatServerAddress(hosts[i]);
      FormattedCharacters(hosts[i]);
    }
    JoinLacks(HostTexts(hosts), ',', c);
  }

  lemma {:induction false} ParseHostsOf(hosts: seq<ServerAddress>)
    requires forall i :: 0 <= i < |hosts| ==> IsHost(hosts[i].host)
    ensures ParseHosts(HostTexts(hosts)) == Ok(hosts)
  {
    hide ParseHostAndPort, FormatServerAddress, IsHost;
    if hosts != [] {
      var last := |hosts| - 1;
      assert HostTexts(hosts)[..last] == HostTexts(hosts[..last]);
      assert HostTexts(hosts)[last] == FormatServerAddress(hosts[last]);
      ParseHostsOf(hosts[..last]);
      ParseOfFormat(hosts[last]);
      assert hosts[..last] + [hosts[last]] == hosts;
    }
  }

  lemma {:induction false} HostListOf(hosts: seq<ServerAddress>)
    requires forall i :: 0 <= i < |hosts| ==> IsHost(hosts[i].host)
    ensures ParseHosts(SplitFrom(Join(HostTexts(hosts), ','), 0, [])) == Ok(hosts)
  {
    forall e | e in HostTexts(hosts) ensures e != [] && IsEntry(e, 0) {
      var i :| 0 <= i < |hosts| && e == FormatServerAddress(hosts[i]);
      FormattedIsEntry(hosts[i]);
    }
    SplitHostListOfJoin(HostTexts(hosts));
    ParseHostsOf(hosts);
  }

  // ----- the credentials -----

  function Credentials(username: string, password: Option<string>): string {
    if password.Some? then username + [':'] + password.value else username
  }

  function UserSlots(s: Settings): seq<Slot> {
    [Entry(SCHEME, Some(s.scheme)), Entry(USERNAME, s.username), Entry(PASSWORD, s.password)]
  }

  lemma {:induction false} CredentialsOf(scheme: string, username: string, password: Option<string>)
    requires username != "" && Lacks(username, ':')
    requires password.Some? ==> password.value != "" && Lacks(password.value, ':')
    ensures SetUserInfo([Entry(SCHEME, scheme)], Credentials(username, password))
         == Present([Entry(SCHEME, Some(scheme)), Entry(USERNAME, Some(username)), Entry(PASSWORD, password)])
  {
    var m: Properties := [Entry(SCHEME, scheme)];
    GetFinds(m, USERNAME);
    PutAbsentAppends(m, USERNAME, username);
    var slots: seq<Slot> := [Entry(SCHEME, Some(scheme)), Entry(USERNAME, Some(username)), Entry(PASSWORD, password)];
    assert slots[1..] == [Entry(USERNAME, Some(username)), Entry(PASSWORD, password)];
    assert slots[1..][1..] == [Entry(PASSWORD, password)];
    assert Present(slots[1..][1..]) == match password { case None => [] case Some(p) => [Entry(PASSWORD, p)] };
    if password.Some? {
      SplitFirst(username, ':', password.value);
      SplitWithout(password.value, ':');
      var named: Properties := [Entry(SCHEME, scheme), Entry(USERNAME, username)];
      assert named[1..] == [Entry(USERNAME, username)];
      assert named[0].key != PASSWORD && named[1].key != PASSWORD by {
        assert USERNAME[0] != PASSWORD[0];
      }
      GetFinds(named, PASSWORD);
      PutAbsentAppends(named, PASSWORD, password.value);
    } else {
      SplitWithout(username, ':');
    }
  }

  // ----- the query parameters -----

  lemma {:induction false} ParameterOf(e: Entry<string, string>)
    requires Unreserved(e.key)
    ensures ParseParameter(Parameter(e)) == e && Parameter(e) != ""
  {
    IndexOfFirst(e.key, '=', e.value);
    assert Parameter(e) == e.key + ['='] + e.value;
    assert Parameter(e)[..|e.key|] == e.key && Parameter(e)[|e.key| + 1..] == e.value;
  }

  lemma {:induction false} ParametersOf(entries: Properties)
    requires forall i :: 0 <= i < |entries| ==> Unreserved(entries[i].key)
    ensures ParseParameters(Parameters(entries)) == entries
  {
    if entries != [] {
      var last := |entries| - 1;
      assert Parameters(entries)[..last] == Parameters(entries[..last]);
      ParametersOf(entries[..last]);
      ParameterOf(entries[last]);
      assert entries[..last] + [entries[last]] == entries;
    }
  }

  ghost predicate PlainEntries(entries: Properties) {
    forall i :: 0 <= i < |entries| ==> Unreserved(entries[i].key) && Unreserved(entries[i].value)
  }

  lemma {:induction false} SearchOf(entries: Properties)
    requires PlainEntries(entries)
    ensures entries != [] ==> ParseParameters(Split(Search(Join(Parameters(entries), '&')), '&')) == entries
  {
    if entries != [] {
      forall p | p in Parameters(entries) ensures Lacks(p, '&') && Lacks(p, '?') {
        var i :| 0 <= i < |entries| && p == Parameter(entries[i]);
        assert Unreserved(entries[i].key) && Unreserved(entries[i].value);
      }
      JoinLacks(Parameters(entries), '&', '?');
      SplitOfJoin(Parameters(entries), '&');
      ParametersOf(entries);
    }
  }

  lemma {:induction false} PutAllFresh(m: Properties, entries: Properties)
    requires UniqueKeys(m + entries)
    ensures PutAll(m, entries) == m + entries
  {
    if entries == [] {
      assert m + entries == m;
    } else {
      var last := |entries| - 1;
      var earlier := m + entries[..last];
      assert earlier == (m + entries)[..|m| + last];
      assert forall i :: 0 <= i < |earlier| ==> earlier[i] == (m + entries)[i];
      PutAllFresh(m, entries[..last]);
      assert (m + entries)[|m| + last] == entries[last];
      GetFinds(earlier, entries[last].key);
      PutAbsentAppends(earlier, entries[last].key, entries[last].value);
      assert m + entries == earlier + [entries[last]];
    }
  }

  // ----- the slots -----

  lemma {:induction false} PresentAppend(a: seq<Slot>, b: seq<Slot>)
    ensures Present(a + b) == Present(a) + Present(b)
  {
    if a == [] {
      assert a + b == b;
    } else {
      assert (a + b)[1..] == a[1..] + b;
      PresentAppend(a[1..], b);
    }
  }

  ghost predicate IsSlotEntry(slots: seq<Slot>, e: Entry<string, string>) {
    exists j :: 0 <= j < |slots| && slots[j] == Entry(e.key, Some(e.value))
  }

  lemma {:induction false} PresentFrom(slots: seq<Slot>)
    ensures forall i :: 0 <= i < |Present(slots)| ==> IsSlotEntry(slots, Present(slots)[i])
    ensures UniqueKeys(slots) ==> UniqueKeys(Present(slots))
  {
    if slots != [] {
      var rest := slots[1..];
      PresentFrom(rest);
      var offset := if slots[0].value.Some? then 1 else 0;
      forall i | 0 <= i < |Present(slots)| ensures IsSlotEntry(slots, Present(slots)[i]) {
        if i < offset {
          assert slots[0] == Entry(Present(slots)[i].key, Some(Present(slots)[i].value));
        } else {
          var e := Present(rest)[i - offset];
          assert e == Present(slots)[i];
          var j :| 0 <= j < |rest| && rest[j] == Entry(e.key, Some(e.value));
          assert slots[j + 1] == Entry(e.key, Some(e.value));
        }
      }
      if UniqueKeys(slots) {
        assert forall j :: 0 <= j < |rest| ==> rest[j] == slots[j + 1];
        forall i | 0 <= i < |Present(rest)| ensures Present(rest)[i].key != slots[0].key {
          assert IsSlotEntry(rest, Present(rest)[i]);
        }
      }
    }
  }

  lemma {:induction false} SlotHolds(slots: seq<Slot>, i: nat)
    requires i < |slots| && UniqueKeys(slots)
    ensures Get(Present(slots), slots[i].key) == slots[i].value
  {
    var rest := slots[1..];
    assert forall j :: 0 <= j < |rest| ==> rest[j] == slots[j + 1];
    PresentFrom(rest);
    if i == 0 {
      forall k | 0 <= k < |Present(rest)| ensures Present(rest)[k].key != slots[0].key {
        assert IsSlotEntry(rest, Present(rest)[k]);
      }
      GetFinds(Present(rest), slots[0].key);
    } else {
      assert slots[i].key != slots[0].key;
      SlotHolds(rest, i - 1);
    }
  }

  function AllSlots(s: Settings): seq<Slot> {
    UserSlots(s) + QuerySlots(s)
  }

  const SLOT_KEYS: seq<string> :=
    [SCHEME, USERNAME, PASSWORD, API_KEY, DISABLE_TLS, SKIP_KEEP_ALIVE, SKIP_TLS_VALIDATION, CERTIFICATE_PATH,
     CERTIFICATE_PASSWORD, LOAD_BALANCER, SRV_NAME_SERVER]

  lemma {:induction false} CommonKeysArePlain()
    ensures Unreserved(SCHEME) && Unreserved(USERNAME) && Unreserved(PASSWORD) && Unreserved(API_KEY)
    ensures Unreserved(DISABLE_TLS) && Unreserved(SKIP_KEEP_ALIVE) && Unreserved(SKIP_TLS_VALIDATION)
  {
  }

  lemma {:induction false} OtherTextsArePlain()
    ensures Unreserved(CERTIFICATE_PATH) && Unreserved(CERTIFICATE_PASSWORD)
    ensures Unreserved(LOAD_BALANCER) && Unreserved(SRV_NAME_SERVER)
    ensures Unreserved("true") && Unreserved("false")
    ensures forall mode :: mode in LOAD_BALANCER_MODES ==> mode != "" && Unreserved(mode)
  {
  }

  lemma {:induction false} SlotKeysDiffer()
    ensures forall i, j :: 0 <= i < j < |SLOT_KEYS| ==> SLOT_KEYS[i] != SLOT_KEYS[j]
    ensures forall i :: 0 <= i < |SLOT_KEYS| ==> SLOT_KEYS[i] in RESERVED && Unreserved(SLOT_KEYS[i])
  {
    hide Unreserved;
    CommonKeysArePlain();
    OtherTextsArePlain();
    assert USERNAME[0] != PASSWORD[0] && SCHEME[0] != API_KEY[0] && SKIP_KEEP_ALIVE[1] != SRV_NAME_SERVER[1];
  }

  lemma {:induction false} SlotsAreKeyed(s: Settings)
    ensures |AllSlots(s)| == |SLOT_KEYS| && forall i :: 0 <= i < |SLOT_KEYS| ==> AllSlots(s)[i].key == SLOT_KEYS[i]
    ensures UniqueKeys(AllSlots(s))
  {
    SlotKeysDiffer();
  }

  // ----- what the parsed properties hold -----

  lemma {:induction false} ExtrasAppend(a: Properties, b: Properties)
    ensures Extras(a + b) == Extras(a) + Extras(b)
  {
    if b == [] {
      assert a + b == a;
    } else {
      assert (a + b)[..|a| + |b| - 1] == a + b[..|b| - 1];
      ExtrasAppend(a, b[..|b| - 1]);
    }
  }

  lemma {:induction false} ExtrasAreKept(m: Properties)
    requires forall i :: 0 <= i < |m| ==> m[i].key !in RESERVED
    ensures Extras(m) == m
  {
    if m != [] {
      ExtrasAreKept(m[..|m| - 1]);
      assert m[..|m| - 1] + [m[|m| - 1]] == m;
    }
  }

  lemma {:induction false} ReservedAreNoExtras(m: Properties)
    requires forall i :: 0 <= i < |m| ==> m[i].key in RESERVED
    ensures Extras(m) == []
  {
    if m != [] {
      ReservedAreNoExtras(m[..|m| - 1]);
    }
  }

  /** The properties a parsed builder ends up with. */
  function Stored(s: Settings): Properties {
    Present(AllSlots(s)) + s.extras
  }

  lemma {:induction false} SlotEntriesAreReserved(s: Settings)
    ensures forall i :: 0 <= i < |Present(AllSlots(s))| ==> Present(AllSlots(s))[i].key in RESERVED
  {
    SlotKeysDiffer();
    SlotsAreKeyed(s);
    PresentFrom(AllSlots(s));
    forall i | 0 <= i < |Present(AllSlots(s))| ensures Present(AllSlots(s))[i].key in RESERVED {
      assert IsSlotEntry(AllSlots(s), Present(AllSlots(s))[i]);
      var j :| 0 <= j < |AllSlots(s)| && AllSlots(s)[j].key == Present(AllSlots(s))[i].key;
      assert AllSlots(s)[j].key == SLOT_KEYS[j];
    }
  }

  lemma {:induction false} StoredIsUnique(s: Settings)
    requires Plain(s)
    ensures UniqueKeys(Stored(s))
  {
    hide Present, AllSlots, QuerySlots;
    SlotsAreKeyed(s);
    PresentFrom(AllSlots(s));
    SlotEntriesAreReserved(s);
    assert forall i :: 0 <= i < |s.extras| ==> PlainExtra(s.extras[i]);
  }

  lemma {:induction false} StoredSlot(s: Settings, i: nat)
    requires Plain(s) && i < |SLOT_KEYS|
    ensures |AllSlots(s)| == |SLOT_KEYS| && Get(Stored(s), SLOT_KEYS[i]) == AllSlots(s)[i].value
  {
    hide Present, QuerySlots;
    SlotKeysDiffer();
    SlotsAreKeyed(s);
    SlotHolds(AllSlots(s), i);
    GetOfAppend(Present(AllSlots(s)), s.extras, SLOT_KEYS[i]);
    assert forall j :: 0 <= j < |s.extras| ==> PlainExtra(s.extras[j]);
    GetFinds(s.extras, SLOT_KEYS[i]);
  }

  lemma {:induction false} StoredExtras(s: Settings)
    requires Plain(s)
    ensures Extras(Stored(s)) == s.extras
  {
    hide Present, AllSlots;
    SlotEntriesAreReserved(s);
    ReservedAreNoExtras(Present(AllSlots(s)));
    assert forall j :: 0 <= j < |s.extras| ==> PlainExtra(s.extras[j]);
    ExtrasAreKept(s.extras);
    ExtrasAppend(Present(AllSlots(s)), s.extras);
  }

  // ----- the text -----

  lemma {:induction false} SlotValuesArePlain(s: Settings, j: nat)
    requires Plain(s) && j < |QuerySlots(s)|
    ensures Unreserved(QuerySlots(s)[j].key) && PlainText(QuerySlots(s)[j].value)
  {
    hide Unreserved;
    SlotKeysDiffer();
    assert QuerySlots(s)[j].key == SLOT_KEYS[3 + j];
    OtherTextsArePlain();
  }

  lemma {:induction false} EntriesArePlain(s: Settings)
    requires Plain(s)
    ensures PlainEntries(QueryEntries(s))
  {
    hide Present, Unreserved, Plain, QuerySlots;
    var slots := QuerySlots(s);
    PresentFrom(slots);
    ExtrasArePlain(s);
    forall i | 0 <= i < |QueryEntries(s)|
      ensures Unreserved(QueryEntries(s)[i].key) && Unreserved(QueryEntries(s)[i].value)
    {
      if i < |Present(slots)| {
        var e := Present(slots)[i];
        assert IsSlotEntry(slots, e);
        var j :| 0 <= j < |slots| && slots[j] == Entry(e.key, Some(e.value));
        SlotValuesArePlain(s, j);
      } else {
        assert PlainExtra(s.extras[i - |Present(slots)|]);
      }
    }
  }

  lemma {:induction false} ExtrasArePlain(s: Settings)
    requires Plain(s)
    ensures forall i :: 0 <= i < |s.extras| ==> PlainExtra(s.extras[i])
  {
  }

  function Authority(s: Settings): string {
    UserInfo(s) + Join(HostTexts(s.hosts), ',')
  }

  /** What the parser reads from the authority: the credentials before the last at sign, the hosts after it. */
  lemma {:induction false} AuthorityRead(s: Settings)
    requires Plain(s)
    ensures Lacks(Authority(s), '/') && Lacks(Authority(s), '?')
    ensures LastIndexOf(Authority(s), '@').Some? == s.username.Some?
    ensures s.username.None? ==> Authority(s) == Join(HostTexts(s.hosts), ',')
    ensures s.username.Some? ==>
      && LastIndexOf(Authority(s), '@') == Some(|UserInfo(s)| - 1)
      && Authority(s)[..|UserInfo(s)| - 1] == Credentials(s.username.value, s.password)
      && Authority(s)[|UserInfo(s)|..] == Join(HostTexts(s.hosts), ',')
  {
    var hostList := Join(HostTexts(s.hosts), ',');
    HostsAreHosts(s.hosts, '/');
    HostsAreHosts(s.hosts, '?');
    HostsAreHosts(s.hosts, '@');
    if s.username.Some? {
      var credentials := Credentials(s.username.value, s.password);
      assert UserInfo(s) == credentials + ['@'];
      assert Authority(s) == credentials + ['@'] + hostList;
      LastIndexOfLast(credentials, '@', hostList);
    } else {
      assert Authority(s) == hostList;
      LastIndexOfNone(hostList, '@');
    }
  }

  lemma {:induction false} NamedOf(s: Settings)
    requires Plain(s)
    ensures s.username.None? ==> Present(UserSlots(s)) == [Entry(SCHEME, s.scheme)]
    ensures s.username.Some? ==>
            SetUserInfo([Entry(SCHEME, s.scheme)], Credentials(s.username.value, s.password)) == Present(UserSlots(s))
  {
    if s.username.Some? {
      CredentialsOf(s.scheme, s.username.value, s.password);
    } else {
      assert UserSlots(s)[1..] == [Entry(USERNAME, None), Entry(PASSWORD, None)];
      assert UserSlots(s)[1..][1..] == [Entry(PASSWORD, None)];
      assert Present(UserSlots(s)[1..][1..]) == [];
    }
  }

  /** What the parser reads from the query. */
  lemma {:induction false} QueryRead(s: Settings)
    requires Plain(s) && Lacks(Authority(s), '/') && Lacks(Authority(s), '?')
    ensures var rest := Authority(s) + QueryText(QueryEntries(s));
            && AuthorityEnd(rest) == |Authority(s)| && rest[..|Authority(s)|] == Authority(s)
            && ParseParameters(Split(Search(QueryOf(rest, |Authority(s)|)), '&')) == QueryEntries(s)
  {
    hide AuthorityEnd, QueryOf, Search, Split, QueryEntries, Authority, Lacks;
    var entries := QueryEntries(s);
    EntriesArePlain(s);
    SearchOf(entries);
    AuthorityOf(Authority(s), Join(Parameters(entries), '&'));
    var rest := Authority(s) + QueryText(entries);
    if entries == [] {
      assert rest == Authority(s);
      NothingToParse();
    } else {
      assert rest == Authority(s) + "?" + Join(Parameters(entries), '&');
    }
  }

  lemma {:induction false} NothingToParse()
    ensures ParseParameters(Split(Search(""), '&')) == []
  {
  }

  lemma {:induction false} PrintedParts(s: Settings)
    ensures Printed(s) == s.scheme + "://" + (Authority(s) + QueryText(QueryEntries(s)))
  {
  }

  lemma {:induction false} PlainScheme(s: Settings)
    requires Plain(s)
    ensures HasKnownScheme(s.scheme + "://" + (Authority(s) + QueryText(QueryEntries(s)))) && Lacks(s.scheme, ':')
    ensures !(IsSrv(s.scheme) && |s.hosts| > 1)
  {
    KnownScheme(s.scheme, Authority(s) + QueryText(QueryEntries(s)));
  }

  lemma {:induction false} HostListRead(s: Settings)
    requires Plain(s)
    ensures ParseHosts(SplitFrom(Join(HostTexts(s.hosts), ','), 0, [])) == Ok(s.hosts)
  {
    HostListOf(s.hosts);
  }

  lemma {:induction false} StoredByPutting(s: Settings)
    requires Plain(s)
    ensures PutAll(Present(UserSlots(s)), QueryEntries(s)) == Stored(s)
  {
    StoredIsUnique(s);
    PresentAppend(UserSlots(s), QuerySlots(s));
    assert Present(UserSlots(s)) + QueryEntries(s) == Stored(s);
    PutAllFresh(Present(UserSlots(s)), QueryEntries(s));
  }
}
