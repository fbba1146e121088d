/** Connection strings as they are written by hand: ports and credentials left out, brackets, spaces, any query. */
module WrittenConnectionStrings {
  import opened Wrappers
  import opened Texts
  import opened OrderedMaps
  import opened ServerAddresses
  import opened ConnectionStrings
  import opened ConnectionStringRoundTrip

  // ----- one host -----

  datatype WrittenPort = NoPort | EmptyPort | Port(number: nat)

  datatype WrittenHost = WrittenHost(host: string, bracketed: bool, port: WrittenPort, before: string, after: string)

  function PortText(port: WrittenPort): string {
    match port
    case NoPort => ""
    case EmptyPort => ":"
    case Port(number) => ":" + Decimal(number)
  }

  function HostText(h: WrittenHost): string {
    (if h.bracketed then "[" + h.host + "]" else h.host) + PortText(h.port)
  }

  function HostEntry(h: WrittenHost): string {
    h.before + HostText(h) + h.after
  }

  ghost predicate Blank(s: string) {
    forall i :: 0 <= i < |s| ==> s[i] in {' ', '\t', '\n', '\r'}
  }

  /** A host with white space around it, in brackets when it holds a colon. */
  ghost predicate Writable(h: WrittenHost) {
    IsHost(h.host) && (h.bracketed || Lacks(h.host, ':')) && Blank(h.before) && Blank(h.after)
  }

  /** The address meant: without a port, the default one. */
  function Meant(h: WrittenHost): ServerAddress {
    ServerAddress(h.host, if h.port.Port? then h.port.number else 35000)
  }

  lemma {:induction false} BlanksAreTrimmed(before: string, s: string, after: string)
    requires Blank(before) && Blank(after) && s != [] && !IsSpace(s[0]) && !IsSpace(s[|s| - 1])
    ensures TrimEnd(TrimStart(before + s + after)) == s
  {
    BlanksBefore(before, s + after);
    assert before + s + after == before + (s + after);
    assert TrimStart(s + after) == s + after;
    BlanksAfter(s, after);
  }

  lemma {:induction false} BlanksBefore(before: string, s: string)
    requires Blank(before)
    ensures TrimStart(before + s) == TrimStart(s)
  {
    if before == [] {
      assert before + s == s;
    } else {
      assert (before + s)[1..] == before[1..] + s;
      BlanksBefore(before[1..], s);
    }
  }

  lemma {:induction false} BlanksAfter(s: string, after: string)
    requires Blank(after) && s != [] && !IsSpace(s[|s| - 1])
    ensures TrimEnd(s + after) == s
  {
    if after == [] {
      assert s + after == s;
    } else {
      var n := |after| - 1;
      assert (s + after)[..|s + after| - 1] == s + after[..n];
      assert (s + after)[|s + after| - 1] == after[n];
      BlanksAfter(s, after[..n]);
    }
  }

  /** A written host is read as the address meant: with the default port unless a number is given. */
  lemma {:induction false} ParseOfWritten(h: WrittenHost)
    requires Writable(h)
    ensures ParseHostAndPort(HostEntry(h)) == Ok(Meant(h))
  {
    hide TrimStart, TrimEnd, Lacks, IndexOf, LastIndexOf, Numeral, Decimal;
    HostTextIsPlain(h);
    BlanksAreTrimmed(h.before, HostText(h), h.after);
    if h.bracketed {
      ReadInBrackets(h);
    } else {
      ReadWithoutBrackets(h);
    }
  }

  lemma {:induction false} HostTextIsPlain(h: WrittenHost)
    requires Writable(h)
    ensures var s := HostText(h);
            && s != [] && !IsSpace(s[0]) && !IsSpace(s[|s| - 1])
            && (s[0] == '[' <==> h.bracketed)
            && forall i :: 0 <= i < |s| ==> IsUnreserved(s[i]) || s[i] in {':', '[', ']'}
  {
  }

  lemma {:induction false} ReadInBrackets(h: WrittenHost)
    requires Writable(h) && h.bracketed
    ensures var s := HostText(h);
            && IndexOf(s, ']') == Some(|h.host| + 1)
            && s[1..|h.host| + 1] == h.host
            && var after := s[|h.host| + 2..];
               ToAddress(h.host, if after != [] && after[0] == ':' then after[1..] else after) == Ok(Meant(h))
  {
    var s, inside, port := HostText(h), "[" + h.host, PortText(h.port);
    assert s == inside + [']'] + port;
    IndexOfFirst(inside, ']', port);
    assert s[1..|h.host| + 1] == h.host && s[|h.host| + 2..] == port;
    PortIsRead(h.host, h.port);
  }

  lemma {:induction false} ReadWithoutBrackets(h: WrittenHost)
    requires Writable(h) && !h.bracketed
    ensures var s, colon := HostText(h), LastIndexOf(HostText(h), ':');
            && (colon.None? ==> ToAddress(s, []) == Ok(Meant(h)))
            && (colon.Some? ==>
                  && colon.value < |s|
                  && ToAddress(s[..colon.value], s[colon.value + 1..]) == Ok(Meant(h)))
  {
    var s, port := HostText(h), PortText(h.port);
    PortIsRead(h.host, h.port);
    if h.port.NoPort? {
      assert s == h.host;
      LastIndexOfNone(s, ':');
    } else {
      assert s == h.host + [':'] + port[1..];
      LastIndexOfLast(h.host, ':', port[1..]);
      assert s[..|h.host|] == h.host && s[|h.host| + 1..] == port[1..];
    }
  }

  lemma {:induction false} PortIsRead(host: string, port: WrittenPort)
    requires host != []
    ensures var s := PortText(port);
            && (s != [] ==> s[0] == ':' && Lacks(s[1..], ':'))
            && ToAddress(host, if s != [] then s[1..] else []) == Ok(ServerAddress(host,
                 if port.Port? then port.number else 35000))
  {
    if port.Port? {
      assert PortText(port)[1..] == Decimal(port.number);
      NumeralOfDecimal(port.number);
      assert forall i :: 0 <= i < |Decimal(port.number)| ==> IsDigit(Decimal(port.number)[i]);
    }
  }

  /** An entry without a host is refused, with or without a port. */
  lemma {:induction false} NoHostIsRefused(before: string, after: string, port: string)
    requires Blank(before) && Blank(after) && AllDigits(port)
    ensures ParseHostAndPort(before).Err? && ParseHostAndPort(before + (":" + port) + after).Err?
  {
    hide TrimStart, TrimEnd;
    assert TrimEnd(TrimStart(before)) == "" by { BlankIsTrimmed(before); }
    var colon := ":" + port;
    BlanksAreTrimmed(before, colon, after);
    assert colon == [] + [':'] + port;
    LastIndexOfLast([], ':', port);
  }

  lemma {:induction false} BlankIsTrimmed(before: string)
    requires Blank(before)
    ensures TrimEnd(TrimStart(before)) == ""
  {
    BlanksBefore(before, []);
    assert before + [] == before;
  }

  /** Nothing between brackets is refused, and so is an opening bracket that nothing closes. */
  lemma {:induction false} BadBracketsAreRefused(before: string, after: string, rest: string)
    requires Blank(before) && Blank(after) && forall i :: 0 <= i < |rest| ==> rest[i] != ']' && !IsSpace(rest[i])
    ensures ParseHostAndPort(before + ("[" + rest) + after).Err?
    ensures ParseHostAndPort(before + ("[]" + rest) + after).Err?
  {
    hide TrimStart, TrimEnd, IndexOf;
    var open, closed := "[" + rest, "[]" + rest;
    BlanksAreTrimmed(before, open, after);
    BlanksAreTrimmed(before, closed, after);
    IndexOfNone(open, ']');
    assert closed == "[" + [']'] + rest;
    IndexOfFirst("[", ']', rest);
    assert closed[1..1] == "";
  }

  /** A character in no text that reads as a whole number, whatever its base and with an exponent or without. */
  ghost predicate InNoNumeral(c: char) {
    c == '_' || c == '~' || (('g' <= c <= 'z' || 'G' <= c <= 'Z') && c !in {'o', 'x', 'O', 'X'})
  }

  /** A port that cannot be read as a number is refused. */
  lemma {:induction false} RefusedPort(host: string, port: string)
    requires IsHost(host) && Lacks(host, ':') && Unreserved(port)
    requires exists i :: 0 <= i < |port| && InNoNumeral(port[i])
    ensures ParseHostAndPort(host + ":" + port).Err?
  {
    var s := host + [':'] + port;
    var i :| 0 <= i < |port| && InNoNumeral(port[i]);
    assert !IsDigit(port[i]);
    assert s[0] == host[0] && s[|s| - 1] == port[|port| - 1];
    TrimmedAlready(s);
    LastIndexOfLast(host, ':', port);
    assert s[..|host|] == host && s[|host| + 1..] == port;
  }

  // ----- a list of hosts -----

  function HostEntries(hosts: seq<WrittenHost>): seq<string> {
    seq(|hosts|, i requires 0 <= i < |hosts| => HostEntry(hosts[i]))
  }

  function AllMeant(hosts: seq<WrittenHost>): seq<ServerAddress> {
    seq(|hosts|, i requires 0 <= i < |hosts| => Meant(hosts[i]))
  }

  ghost predicate AllWritable(hosts: seq<WrittenHost>) {
    forall i :: 0 <= i < |hosts| ==> Writable(hosts[i])
  }

  lemma {:induction false} EntryCharacters(h: WrittenHost)
    requires Writable(h)
    ensures HostEntry(h) != [] && IsEntry(HostEntry(h), 0)
    ensures Lacks(HostEntry(h), '/') && Lacks(HostEntry(h), '?') && Lacks(HostEntry(h), '@')
  {
    var s := HostEntry(h);
    HostTextIsPlain(h);
    var port := PortText(h.port);
    if h.bracketed {
      var inside, after := h.host, port + h.after;
      assert s == h.before + ("[" + (inside + "]" + after));
      BracketedIsEntry(inside, after);
      assert ("[" + (inside + "]" + after))[1..] == inside + "]" + after;
      PrefixIsEntry(h.before, "[" + (inside + "]" + after));
    } else {
      PlainIsEntry(s);
    }
  }

  lemma {:induction false} PrefixIsEntry(before: string, s: string)
    requires Blank(before) && IsEntry(s, 0)
    ensures IsEntry(before + s, 0)
  {
    if before == [] {
      assert before + s == s;
    } else {
      assert (before + s)[0] == before[0] && (before + s)[1..] == before[1..] + s;
      PrefixIsEntry(before[1..], s);
    }
  }

  lemma {:induction false} ParseHostsOfWritten(hosts: seq<WrittenHost>)
    requires AllWritable(hosts)
    ensures ParseHosts(HostEntries(hosts)) == Ok(AllMeant(hosts))
  {
    hide ParseHostAndPort, HostEntry, Meant;
    if hosts != [] {
      var last := |hosts| - 1;
      assert HostEntries(hosts)[..last] == HostEntries(hosts[..last]);
      ParseHostsOfWritten(hosts[..last]);
      ParseOfWritten(hosts[last]);
      assert HostEntries(hosts)[last] == HostEntry(hosts[last]);
      assert AllMeant(hosts[..last]) + [Meant(hosts[last])] == AllMeant(hosts);
    } else {
      assert HostEntries(hosts) == [] && AllMeant(hosts) == [];
    }
  }

  lemma {:induction false} WrittenHostList(hosts: seq<WrittenHost>)
    requires AllWritable(hosts)
    ensures ParseHosts(SplitFrom(Join(HostEntries(hosts), ','), 0, [])) == Ok(AllMeant(hosts))
    ensures var s := Join(HostEntries(hosts), ','); Lacks(s, '/') && Lacks(s, '?') && Lacks(s, '@')
  {
    hide HostEntry, IsEntry, Lacks, SplitFrom, Join;
    forall e | e in HostEntries(hosts) ensures e != [] && IsEntry(e, 0) && Lacks(e, '/') && Lacks(e, '?')
      && Lacks(e, '@') {
      var i :| 0 <= i < |hosts| && e == HostEntry(hosts[i]);
      EntryCharacters(hosts[i]);
    }
    SplitHostListOfJoin(HostEntries(hosts));
    ParseHostsOfWritten(hosts);
    JoinLacks(HostEntries(hosts), ',', '/');
    JoinLacks(HostEntries(hosts), ',', '?');
    JoinLacks(HostEntries(hosts), ',', '@');
  }

  // ----- the credentials and the query -----

  /** A query parameter as written; without an equals sign its value is empty. */
  type WrittenParameter = Entry<string, Option<string>>

  function ParameterText(parameter: WrittenParameter): string {
    parameter.key + if parameter.value.Some? then "=" + parameter.value.value else ""
  }

  function ParameterTexts(parameters: seq<WrittenParameter>): seq<string> {
    seq(|parameters|, i requires 0 <= i < |parameters| => ParameterText(parameters[i]))
  }

  ghost predicate PlainParameters(parameters: seq<WrittenParameter>) {
    forall i :: 0 <= i < |parameters| ==>
      Unreserved(parameters[i].key)
      && (parameters[i].value.Some? ==> Unreserved(parameters[i].value.value))
      && (parameters[i].value.None? ==> parameters[i].key != "")
  }

  /** The place of the last parameter with a key. */
  ghost predicate IsLastParameter(parameters: seq<WrittenParameter>, key: string, i: int) {
    && 0 <= i < |parameters| && parameters[i].key == key
    && forall j :: i < j < |parameters| ==> parameters[j].key != key
  }

  function Entries(parameters: seq<WrittenParameter>): Properties {
    seq(|parameters|, i requires 0 <= i < |parameters| =>
      Entry(parameters[i].key, if parameters[i].value.Some? then parameters[i].value.value else ""))
  }

  lemma {:induction false} ParseOfParameter(parameter: WrittenParameter)
    requires Unreserved(parameter.key)
    ensures ParseParameter(ParameterText(parameter))
            == Entry(parameter.key, if parameter.value.Some? then parameter.value.value else "")
  {
    var s := ParameterText(parameter);
    if parameter.value.Some? {
      assert s == parameter.key + ['='] + parameter.value.value;
      IndexOfFirst(parameter.key, '=', parameter.value.value);
      assert s[..|parameter.key|] == parameter.key && s[|parameter.key| + 1..] == parameter.value.value;
    } else {
      assert s == parameter.key;
      IndexOfNone(s, '=');
    }
  }

  lemma {:induction false} ParseOfParameters(parameters: seq<WrittenParameter>)
    requires PlainParameters(parameters)
    ensures ParseParameters(ParameterTexts(parameters)) == Entries(parameters)
  {
    hide ParseParameter, Unreserved;
    if parameters != [] {
      var last := |parameters| - 1;
      assert ParameterTexts(parameters)[..last] == ParameterTexts(parameters[..last]);
      ParseOfParameters(parameters[..last]);
      ParseOfParameter(parameters[last]);
      assert Entries(parameters[..last]) + [Entries(parameters)[last]] == Entries(parameters);
      assert ParameterTexts(parameters)[last] != "" by { WrittenIsNotEmpty(parameters[last]); }
    }
  }

  lemma {:induction false} WrittenIsNotEmpty(parameter: WrittenParameter)
    requires parameter.value.None? ==> parameter.key != ""
    ensures ParameterText(parameter) != ""
  {
  }

  lemma {:induction false} ParseOfQuery(parameters: seq<WrittenParameter>)
    requires PlainParameters(parameters)
    ensures ParseParameters(Split(Search(Join(ParameterTexts(parameters), '&')), '&')) == Entries(parameters)
  {
    var texts := ParameterTexts(parameters);
    forall p | p in texts ensures Lacks(p, '&') && Lacks(p, '?') {
      var i :| 0 <= i < |parameters| && p == ParameterText(parameters[i]);
    }
    JoinLacks(texts, '&', '?');
    if parameters == [] {
      NothingToParse();
    } else {
      SplitOfJoin(texts, '&');
    }
    ParseOfParameters(parameters);
  }

  lemma {:induction false} OneParameterMore(m: Properties, parameters: seq<WrittenParameter>, key: string)
    requires parameters != []
    ensures var rest, last := parameters[..|parameters| - 1], parameters[|parameters| - 1];
            Get(PutAll(m, Entries(parameters)), key)
            == if last.key == key then Some(if last.value.Some? then last.value.value else "")
               else Get(PutAll(m, Entries(rest)), key)
  {
    hide Get, Put;
    var last := |parameters| - 1;
    assert Entries(parameters)[..last] == Entries(parameters[..last]);
    GetAfterPut(PutAll(m, Entries(parameters[..last])), parameters[last].key, Entries(parameters)[last].value, key);
  }

  /** A key that no parameter names keeps what it held. */
  lemma {:induction false} OthersAreKept(m: Properties, parameters: seq<WrittenParameter>, key: string)
    requires forall i :: 0 <= i < |parameters| ==> parameters[i].key != key
    ensures Get(PutAll(m, Entries(parameters)), key) == Get(m, key)
  {
    hide Get, Entries;
    if parameters == [] {
      assert Entries(parameters) == [] by { NoEntries(); }
    } else {
      OneParameterMore(m, parameters, key);
      OthersAreKept(m, parameters[..|parameters| - 1], key);
    }
  }

  lemma {:induction false} NoEntries()
    ensures Entries([]) == []
  {
  }

  /** The last parameter with a key decides it. */
  lemma {:induction false} LastParameterWins(m: Properties, parameters: seq<WrittenParameter>, key: string, i: int)
    requires IsLastParameter(parameters, key, i)
    ensures Get(PutAll(m, Entries(parameters)), key)
         == Some(if parameters[i].value.Some? then parameters[i].value.value else "")
  {
    hide Get, Entries, PutAll;
    OneParameterMore(m, parameters, key);
    if i < |parameters| - 1 {
      LastParameterWins(m, parameters[..|parameters| - 1], key, i);
    }
  }

  datatype WrittenCredentials = WrittenCredentials(username: string, password: Option<string>)

  ghost predicate PlainCredentials(credentials: Option<WrittenCredentials>) {
    credentials.Some? ==>
      Unreserved(credentials.value.username)
      && (credentials.value.password.Some? ==> Unreserved(credentials.value.password.value))
  }

  function CredentialsText(credentials: Option<WrittenCredentials>): string {
    match credentials
    case None => ""
    case Some(c) => Credentials(c.username, c.password) + "@"
  }

  /** The properties the scheme and the credentials leave; an empty name or password leaves none. */
  ghost predicate HoldsCredentials(properties: Properties, scheme: string, credentials: Option<WrittenCredentials>) {
    forall key :: Get(properties, key) ==
      if key == "Scheme" then Some(scheme)
      else if key == "Username" && credentials.Some? then NotEmptyText(credentials.value.username)
      else if key == "Password" && credentials.Some? && credentials.value.password.Some? then
        NotEmptyText(credentials.value.password.value)
      else None
  }

  function NotEmptyText(s: string): Option<string> {
    if |s| == 0 then None else Some(s)
  }

  lemma {:induction false} SetTextSets(m: Properties, key: string, value: string, other: string)
    ensures Get(SetText(m, key, value), other) == if other == key then NotEmptyText(value) else Get(m, other)
  {
    GetAfterPut(m, key, value, other);
    GetAfterRemove(m, key, other);
  }

  lemma {:induction false} GetAfterRemove(m: Properties, key: string, other: string)
    ensures Get(Remove(m, key), other) == if other == key then None else Get(m, other)
  {
    if m != [] {
      GetAfterRemove(m[1..], key, other);
    }
  }

  lemma {:induction false} CredentialsAreRead(scheme: string, c: WrittenCredentials)
    requires PlainCredentials(Some(c))
    ensures HoldsCredentials(SetUserInfo([Entry(SCHEME, scheme)], Credentials(c.username, c.password)), scheme, Some(c))
  {
    hide SetText, Unreserved, Split;
    var m: Properties := [Entry(SCHEME, scheme)];
    UnreservedLacksColon(c.username);
    if c.password.Some? {
      UnreservedLacksColon(c.password.value);
      SplitFirst(c.username, ':', c.password.value);
      SplitWithout(c.password.value, ':');
    } else {
      SplitWithout(c.username, ':');
    }
    var named := SetText(m, USERNAME, c.username);
    var all := if c.password.Some? then SetText(named, PASSWORD, c.password.value) else named;
    KeysByName();
    forall key ensures Get(all, key) ==
      if key == "Scheme" then Some(scheme)
      else if key == "Username" then NotEmptyText(c.username)
      else if key == "Password" && c.password.Some? then NotEmptyText(c.password.value)
      else None
    {
      OnlyScheme(scheme, key);
      SetTextSets(m, USERNAME, c.username, key);
      SetTextSets(named, PASSWORD, c.password.GetOr(""), key);
    }
  }

  lemma {:induction false} KeysByName()
    ensures SCHEME == "Scheme" && USERNAME == "Username" && PASSWORD == "Password"
    ensures SCHEME != USERNAME && SCHEME != PASSWORD && USERNAME != PASSWORD
  {
    assert USERNAME[0] != PASSWORD[0] && USERNAME[0] != SCHEME[0] && PASSWORD[0] != SCHEME[0];
  }

  lemma {:induction false} OnlyScheme(scheme: string, key: string)
    ensures Get([Entry(SCHEME, scheme)], key) == if key == "Scheme" then Some(scheme) else None
  {
    KeysByName();
    var m: Properties := [Entry(SCHEME, scheme)];
    assert m[1..] == [];
  }

  lemma {:induction false} UnreservedLacksColon(s: string)
    requires Unreserved(s)
    ensures Lacks(s, ':') && Lacks(s, '/') && Lacks(s, '?') && Lacks(s, '@')
  {
  }

  // ----- a whole text -----

  /** The same letters, where the second text is in lower case. */
  ghost predicate SameLetters(s: string, lower: string) {
    && |s| == |lower|
    && forall i :: 0 <= i < |s| ==>
         s[i] == lower[i] || ('a' <= lower[i] <= 'z' && s[i] as int == lower[i] as int - 32)
  }

  /** The schemes are known whatever the case of their letters, and no other text is parsed. */
  lemma {:induction false} KnownSchemes(text: string)
    ensures HasKnownScheme(text) <==>
            || (|text| >= 12 && SameLetters(text[..12], "chronicle://"))
            || (|text| >= 16 && SameLetters(text[..16], "chronicle+srv://"))
    ensures IsSrv(text) <==> SameLetters(text, "chronicle+srv")
  {
    forall n: nat | n <= |text| ensures Lower(text)[..n] == Lower(text[..n]) {}
    SameLettersIsLower(text, "chronicle+srv");
    if |text| >= 12 {
      SameLettersIsLower(text[..12], "chronicle://");
    }
    if |text| >= 16 {
      SameLettersIsLower(text[..16], "chronicle+srv://");
    }
  }

  lemma {:induction false} SameLettersIsLower(s: string, lower: string)
    requires forall i :: 0 <= i < |lower| ==> !('A' <= lower[i] <= 'Z')
    ensures SameLetters(s, lower) <==> Lower(s) == lower
  {
    if Lower(s) == lower {
      forall i | 0 <= i < |s|
        ensures s[i] == lower[i] || ('a' <= lower[i] <= 'z' && s[i] as int == lower[i] as int - 32)
      {
        assert Lower(s)[i] == LowerChar(s[i]);
      }
    }
  }

  datatype WrittenText = WrittenText(
    scheme: string, credentials: Option<WrittenCredentials>, hosts: seq<WrittenHost>, path: Option<string>,
    query: Option<seq<WrittenParameter>>)

  function TailText(w: WrittenText): string {
    (if w.path.Some? then "/" + w.path.value else "")
    + if w.query.Some? then "?" + Join(ParameterTexts(w.query.value), '&') else ""
  }

  function Text(w: WrittenText): string {
    w.scheme + "://" + (CredentialsText(w.credentials) + Join(HostEntries(w.hosts), ',') + TailText(w))
  }

  ghost predicate PlainParts(w: WrittenText) {
    && AllWritable(w.hosts) && PlainCredentials(w.credentials)
    && (w.path.Some? ==> Lacks(w.path.value, '?'))
    && (w.query.Some? ==> PlainParameters(w.query.value))
  }

  lemma {:induction false} TailIsRead(authority: string, w: WrittenText)
    requires Lacks(authority, '/') && Lacks(authority, '?') && (w.path.Some? ==> Lacks(w.path.value, '?'))
    ensures var rest := authority + TailText(w);
            && AuthorityEnd(rest) == |authority| && rest[..|authority|] == authority
            && QueryOf(rest, |authority|)
               == if w.query.Some? then Join(ParameterTexts(w.query.value), '&') else ""
  {
    hide ParameterTexts, Join, AuthorityEnd, QueryOf, Lacks;
    var rest, tail := authority + TailText(w), TailText(w);
    var search := if w.query.Some? then Join(ParameterTexts(w.query.value), '&') else "";
    if w.path.Some? {
      PathIsPassedOver(authority, w.path.value, if w.query.Some? then Some(search) else None);
      if w.query.Some? {
        assert rest == authority + ("/" + w.path.value + "?" + search);
      } else {
        assert rest == authority + ("/" + w.path.value);
      }
    } else if w.query.Some? {
      assert tail == "?" + search && rest == authority + "?" + search;
      AuthorityOf(authority, search);
    } else {
      assert tail == "" && rest == authority;
      AuthorityOf(authority, "");
    }
  }

  lemma {:induction false} PathIsPassedOver(authority: string, path: string, query: Option<string>)
    requires Lacks(authority, '/') && Lacks(authority, '?') && Lacks(path, '?')
    ensures var rest := authority + if query.Some? then "/" + path + "?" + query.value else "/" + path;
            AuthorityEnd(rest) == |authority| && QueryOf(rest, |authority|) == query.GetOr("")
  {
    var tail := if query.Some? then "/" + path + "?" + query.value else "/" + path;
    var rest := authority + tail;
    assert rest == authority + ['/'] + tail[1..];
    IndexOfFirst(authority, '/', tail[1..]);
    SlashComesFirst(authority, tail);
    assert rest[|authority|..] == tail;
    if query.Some? {
      assert tail == ("/" + path) + ['?'] + query.value;
      IndexOfFirst("/" + path, '?', query.value);
      assert rest[|authority| + |path| + 2..] == query.value;
    } else {
      IndexOfNone(tail, '?');
    }
  }

  lemma {:induction false} SlashComesFirst(authority: string, tail: string)
    requires Lacks(authority, '?') && tail != [] && tail[0] == '/'
    ensures var question := IndexOf(authority + tail, '?'); question.Some? ==> |authority| < question.value
  {
    IndexOfNone(authority + tail, '?');
    assert forall i :: 0 <= i < |authority| ==> (authority + tail)[i] == authority[i];
  }

  lemma {:induction false} AuthorityIsRead(w: WrittenText)
    requires PlainParts(w)
    ensures var authority := CredentialsText(w.credentials) + Join(HostEntries(w.hosts), ',');
            var at := LastIndexOf(authority, '@');
            && Lacks(authority, '/') && Lacks(authority, '?')
            && (at.Some? <==> w.credentials.Some?)
            && (w.credentials.None? ==> authority == Join(HostEntries(w.hosts), ','))
            && (w.credentials.Some? ==>
                  && at.value < |authority|
                  && authority[..at.value] == Credentials(w.credentials.value.username, w.credentials.value.password)
                  && authority[at.value + 1..] == Join(HostEntries(w.hosts), ','))
  {
    hide HostEntries, Join;
    var hostList := Join(HostEntries(w.hosts), ',');
    WrittenHostList(w.hosts);
    if w.credentials.Some? {
      var c := w.credentials.value;
      var credentials := Credentials(c.username, c.password);
      var authority := CredentialsText(w.credentials) + hostList;
      assert authority == credentials + ['@'] + hostList;
      LastIndexOfLast(credentials, '@', hostList);
      UnreservedLacksColon(c.username);
      if c.password.Some? {
        UnreservedLacksColon(c.password.value);
      }
    } else {
      assert CredentialsText(w.credentials) + hostList == hostList;
      LastIndexOfNone(hostList, '@');
    }
  }

  /** What a written text leaves in the builder. */
  ghost predicate IsRead(w: WrittenText, parsed: Parsed) {
    && |parsed.hosts| == |w.hosts|
    && (forall i :: 0 <= i < |w.hosts| ==>
          parsed.hosts[i] == ServerAddress(w.hosts[i].host,
            if w.hosts[i].port.Port? then w.hosts[i].port.number else 35000))
    && var parameters := w.query.GetOr([]);
       exists before :: HoldsCredentials(before, w.scheme, w.credentials) && forall key ::
         && (forall i :: IsLastParameter(parameters, key, i) ==>
               Get(parsed.properties, key)
               == Some(if parameters[i].value.Some? then parameters[i].value.value else ""))
         && ((forall i :: 0 <= i < |parameters| ==> parameters[i].key != key) ==>
               Get(parsed.properties, key) == Get(before, key))
  }

  /**
   * Parsing a text written by hand. The scheme may have capitals; a host without a port gets the default one; what
   * follows a slash is passed over up to the query; the last parameter with a key decides it, and the others keep what
   * the scheme and the credentials left. Several hosts under the SRV scheme are refused.
   */
  lemma {:induction false} ParseOfText(w: WrittenText)
    requires PlainParts(w) && (SameLetters(w.scheme, "chronicle") || SameLetters(w.scheme, "chronicle+srv"))
    ensures if SameLetters(w.scheme, "chronicle+srv") && |w.hosts| > 1 then
              Parse(Text(w)) == Err(TooManySrvHosts(|w.hosts|))
            else Parse(Text(w)).Ok? && IsRead(w, Parse(Text(w)).value)
  {
    hide PlainParts, SameLetters, HasKnownScheme, SchemeEnd, AuthorityEnd, QueryOf, Search, Split, PutAll, ParseHosts,
      SplitFrom, LastIndexOf, Credentials, CredentialsText, SetUserInfo, ParseParameters, HostEntries, Join, Lacks,
      IsSrv, TailText, HoldsCredentials, Get, Entries;
    var authority := CredentialsText(w.credentials) + Join(HostEntries(w.hosts), ',');
    var rest, text := authority + TailText(w), Text(w);
    SchemeIsRead(w.scheme, rest);
    assert text[..|w.scheme|] == w.scheme && text[|w.scheme| + 3..] == rest;
    PartsArePlain(w);
    AuthorityIsRead(w);
    TailIsRead(authority, w);
    WrittenHostList(w.hosts);
    var parameters := w.query.GetOr([]);
    ParseOfQuery(parameters);
    NothingIsWritten();
    var schemed: Properties := [Entry(SCHEME, w.scheme)];
    var at := LastIndexOf(authority, '@');
    var named := if at.None? then schemed else SetUserInfo(schemed, authority[..at.value]);
    NamedByText(w, named);
    forall key ensures
      && (forall i :: IsLastParameter(parameters, key, i) ==>
            Get(PutAll(named, Entries(parameters)), key)
            == Some(if parameters[i].value.Some? then parameters[i].value.value else ""))
      && ((forall i :: 0 <= i < |parameters| ==> parameters[i].key != key) ==>
            Get(PutAll(named, Entries(parameters)), key) == Get(named, key))
    {
      if i :| IsLastParameter(parameters, key, i) {
        LastParameterWins(named, parameters, key, i);
        OneLastParameter(parameters, key);
      } else {
        NoLastParameter(parameters, key);
        OthersAreKept(named, parameters, key);
      }
    }
  }

  lemma {:induction false} OneLastParameter(parameters: seq<WrittenParameter>, key: string)
    ensures forall i, j :: IsLastParameter(parameters, key, i) && IsLastParameter(parameters, key, j) ==> i == j
  {
  }

  lemma {:induction false} NoLastParameter(parameters: seq<WrittenParameter>, key: string)
    requires forall i :: !IsLastParameter(parameters, key, i)
    ensures forall i :: 0 <= i < |parameters| ==> parameters[i].key != key
  {
    if parameters != [] {
      var last := |parameters| - 1;
      if parameters[last].key == key {
        assert IsLastParameter(parameters, key, last);
      }
      forall i ensures !IsLastParameter(parameters[..last], key, i) {
        assert IsLastParameter(parameters[..last], key, i) ==> IsLastParameter(parameters, key, i);
      }
      NoLastParameter(parameters[..last], key);
    }
  }

  lemma {:induction false} NothingIsWritten()
    ensures ParameterTexts([]) == [] && Join([], '&') == ""
  {
  }

  lemma {:induction false} PartsArePlain(w: WrittenText)
    requires PlainParts(w)
    ensures AllWritable(w.hosts) && PlainCredentials(w.credentials)
    ensures w.path.Some? ==> Lacks(w.path.value, '?')
    ensures PlainParameters(w.query.GetOr([]))
  {
  }

  lemma {:induction false} NamedByText(w: WrittenText, named: Properties)
    requires PlainCredentials(w.credentials)
    requires w.credentials.None? ==> named == [Entry(SCHEME, w.scheme)]
    requires w.credentials.Some? ==> named == SetUserInfo([Entry(SCHEME, w.scheme)],
               Credentials(w.credentials.value.username, w.credentials.value.password))
    ensures HoldsCredentials(named, w.scheme, w.credentials)
  {
    hide SetUserInfo, Credentials;
    if w.credentials.Some? {
      CredentialsAreRead(w.scheme, w.credentials.value);
    } else {
      forall key ensures Get(named, key) == if key == "Scheme" then Some(w.scheme) else None {
        OnlyScheme(w.scheme, key);
      }
    }
  }

  lemma {:induction false} SchemeIsRead(scheme: string, rest: string)
    requires SameLetters(scheme, "chronicle") || SameLetters(scheme, "chronicle+srv")
    ensures var text := scheme + "://" + rest;
            HasKnownScheme(text) && SchemeEnd(text) == Some(|scheme|)
    ensures IsSrv(scheme) <==> SameLetters(scheme, "chronicle+srv")
  {
    var text := scheme + "://" + rest;
    KnownSchemes(text);
    KnownSchemes(scheme);
    assert "chronicle://"[..9] == "chronicle" && "chronicle+srv://"[..13] == "chronicle+srv";
    SchemeEndOf(scheme, rest);
  }

  /** A text under another scheme leaves the builder as it was. */
  lemma {:induction false} OtherTextsAreIgnored(text: string)
    requires !(|text| >= 12 && SameLetters(text[..12], "chronicle://"))
    requires !(|text| >= 16 && SameLetters(text[..16], "chronicle+srv://"))
    ensures Parse(text) == Ok(Parsed([], []))
  {
    KnownSchemes(text);
  }

  /**
   * What the getters say of the stored properties: flags are on for the text "true" only, except that TLS validation is
   * skipped unless something else is stored; an empty text says nothing; without hosts it is the local one.
   */
  lemma {:induction false} GettersByKey(properties: Properties, hosts: seq<ServerAddress>)
    ensures var s := Observe(properties, hosts);
            && s.hosts == (if |hosts| == 0 then [ServerAddress("localhost", 35000)] else hosts)
            && s.scheme == (if SaidText(properties, "Scheme").Some? then SaidText(properties, "Scheme").value
                            else "chronicle")
            && s.username == SaidText(properties, "Username") && s.password == SaidText(properties, "Password")
            && s.apiKey == SaidText(properties, "apiKey")
            && s.certificatePath == SaidText(properties, "certificatePath")
            && s.certificatePassword == SaidText(properties, "certificatePassword")
            && s.srvNameServer == SaidText(properties, "srvNameServer")
            && (s.disableTls <==> Get(properties, "disableTls") == Some("true"))
            && (s.skipKeepAlive <==> Get(properties, "skipKeepAlive") == Some("true"))
            && (s.skipTlsValidation <==>
                  Get(properties, "skipTlsValidation") in {None, Some("true")})
            && (s.loadBalancer.None? <==> Get(properties, "loadBalancer").None?)
            && (s.loadBalancer.Some? ==>
                  s.loadBalancer == (if SaidText(properties, "loadBalancer").Some? then
                    SaidText(properties, "loadBalancer") else Some("least-connections")))
  {
    hide Get, Extras;
  }

  ghost function SaidText(properties: Properties, key: string): Option<string> {
    match Get(properties, key)
    case None => None
    case Some(text) => NotEmptyText(text)
  }

  // ----- printing -----

  /** A host is printed in brackets exactly when it holds a colon, and always with its port. */
  lemma {:induction false} PrintedHost(host: string, port: nat)
    ensures FormatServerAddress(ServerAddress(host, port))
         == (if exists i :: 0 <= i < |host| && host[i] == ':' then "[" + host + "]" else host) + ":" + Decimal(port)
  {
  }

  /** The parameters by name: which of them are printed, in which order and with which value. */
  lemma {:induction false} PrintedParameters(s: Settings)
    ensures var slots := QuerySlots(s);
            && |slots| == 8
            && slots[0] == Entry("apiKey", s.apiKey)
            && slots[1] == Entry("disableTls", if s.disableTls then Some("true") else None)
            && slots[2] == Entry("skipKeepAlive", if s.skipKeepAlive then Some("true") else None)
            && slots[3] == Entry("skipTlsValidation", if s.skipTlsValidation then None else Some("false"))
            && slots[4] == Entry("certificatePath", s.certificatePath)
            && slots[5] == Entry("certificatePassword", s.certificatePassword)
            && slots[6] == Entry("loadBalancer", s.loadBalancer)
            && slots[7] == Entry("srvNameServer", s.srvNameServer)
  {
    SlotsInOrder(s);
  }

  /** The names that are printed in their own places and are no extras. */
  lemma {:induction false} ExtrasByName(properties: Properties, entry: Entry<string, string>)
    ensures Extras([]) == []
    ensures Extras(properties + [entry]) == Extras(properties)
      + if entry.key in {"Username", "Password", "Scheme", "apiKey", "disableTls", "skipKeepAlive",
          "skipTlsValidation", "certificatePath", "certificatePassword", "loadBalancer", "srvNameServer"}
        then [] else [entry]
  {
    assert (properties + [entry])[..|properties|] == properties;
  }

  /**
   * The printed text: scheme, name and password, hosts, and after a question mark the parameters that hold something
   * and then the extras. Several hosts under the SRV scheme and an unknown load balancer are refused.
   */
  lemma {:induction false} PrintedText(s: Settings)
    ensures var texts := Parameters(Present(QuerySlots(s)) + s.extras);
            if SameLetters(s.scheme, "chronicle+srv") && |s.hosts| > 1 then Print(s) == Err(TooManySrvHosts(|s.hosts|))
            else if s.loadBalancer.Some? && s.loadBalancer.value !in {"least-connections", "round-robin", "random"} then
              Print(s) == Err(UnknownLoadBalancer(s.loadBalancer.value))
            else
              Print(s) == Ok(
                s.scheme + "://"
                + ((match s.username
                    case None => ""
                    case Some(name) => name + (match s.password case None => "" case Some(word) => ":" + word) + "@")
                   + Join(HostTexts(s.hosts), ',')
                   + if texts == [] then "" else "?" + Join(texts, '&')))
    ensures |HostTexts(s.hosts)| == |s.hosts|
            && forall i :: 0 <= i < |s.hosts| ==> HostTexts(s.hosts)[i] == FormatServerAddress(s.hosts[i])
  {
    hide IsSrv, Join, QuerySlots, Present;
    KnownSchemes(s.scheme);
    assert forall mode :: mode in LOAD_BALANCER_MODES <==> mode in {"least-connections", "round-robin", "random"};
  }

  /** The parameters that hold something, in their order, each as its name, an equals sign and its value. */
  lemma {:induction false} PresentInOrder(slots: seq<Slot>, slot: Slot)
    ensures Parameters(Present([])) == []
    ensures Parameters(Present([slot] + slots))
         == (match slot.value case None => [] case Some(text) => [slot.key + "=" + text]) + Parameters(Present(slots))
  {
    assert ([slot] + slots)[1..] == slots;
  }

  /** Joined texts: the separator between each two. */
  lemma {:induction false} JoinedTexts(pieces: seq<string>, piece: string, c: char)
    ensures Join([], c) == "" && Join([piece], c) == piece
    ensures pieces != [] ==> Join([piece] + pieces, c) == piece + [c] + Join(pieces, c)
  {
    assert ([piece] + pieces)[1..] == pieces;
  }

  /** A numeral is written in base ten. */
  lemma {:induction false} DecimalByDigits(n: nat, d: nat)
    requires d < 10
    ensures Decimal(d) == ["0123456789"[d]]
    ensures n > 0 ==> Decimal(10 * n + d) == Decimal(n) + ["0123456789"[d]]
  {
    assert "0123456789"[d] == ('0' as int + d) as char;
  }

  /** What deleting and setting leave under each key. */
  lemma {:induction false} SettersByKey(properties: Properties, key: string, value: string, other: string)
    ensures Get(SetText(properties, key, value), other)
         == if other != key then Get(properties, other) else if |value| == 0 then None else Some(value)
  {
    SetTextSets(properties, key, value, other);
  }
}
