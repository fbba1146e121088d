/**
 * Server addresses and host lists.
 *
 * The splitter cuts a host list at the commas outside brackets, so that an IPv6 address in brackets stays in one piece.
 * The parser reads one entry as a host and an optional port; the formatter writes an address and puts brackets around
 * a host that contains a colon. Splitting undoes joining, and parsing undoes formatting.
 */
module ServerAddresses {
  import opened Wrappers
  import opened Texts

  const DEFAULT_PORT: nat := 35000

  datatype ServerAddress = ServerAddress(host: string, port: nat)

  function FormatServerAddress(address: ServerAddress): string {
    (if Lacks(address.host, ':') then address.host else "[" + address.host + "]") + ":" + Decimal(address.port)
  }

  function DepthAfter(depth: int, c: char): int {
    if c == '[' then depth + 1 else if c == ']' then depth - 1 else depth
  }

  /** The entries of a host list from a point on, given the bracket depth and the entry being read. */
  function SplitFrom(value: string, depth: int, current: string): seq<string> {
    if value == [] then (if current == [] then [] else [current])
    else
      var d := DepthAfter(depth, value[0]);
      if value[0] == ',' && d == 0 then [current] + SplitFrom(value[1..], d, [])
      else SplitFrom(value[1..], d, current + [value[0]])
  }

  /** Splits a host list on its top-level commas. */
  method SplitHostList(value: string) returns (entries: seq<string>)
    ensures entries == SplitFrom(value, 0, [])
  {
    entries := [];
    var depth := 0;
    var current: string := [];
    for i := 0 to |value|
      invariant entries + SplitFrom(value[i..], depth, current) == SplitFrom(value, 0, [])
    {
      var character := value[i];
      assert value[i..][0] == character && value[i..][1..] == value[i + 1..];
      if character == '[' {
        depth := depth + 1;
      } else if character == ']' {
        depth := depth - 1;
      }
      if character == ',' && depth == 0 {
        entries := entries + [current];
        current := [];
        continue;
      }
      current := current + [character];
    }
    if |current| > 0 {
      entries := entries + [current];
    }
  }

  /** A text that closes every bracket it opens and has no comma outside brackets. */
  predicate IsEntry(s: string, depth: int) {
    if s == [] then depth == 0
    else
      var d := DepthAfter(depth, s[0]);
      !(s[0] == ',' && d == 0) && IsEntry(s[1..], d)
  }

  lemma {:induction false} EntryIsKept(s: string, depth: int, current: string, rest: string)
    requires IsEntry(s, depth)
    ensures SplitFrom(s, depth, current) == if current + s == [] then [] else [current + s]
    ensures SplitFrom(s + [','] + rest, depth, current) == [current + s] + SplitFrom(rest, 0, [])
  {
    var whole := s + [','] + rest;
    if s == [] {
      assert whole[1..] == rest;
      assert current + s == current;
    } else {
      assert whole[1..] == s[1..] + [','] + rest;
      EntryIsKept(s[1..], DepthAfter(depth, s[0]), current + [s[0]], rest);
      assert current + [s[0]] + s[1..] == current + s;
    }
  }

  /** Splitting undoes joining, whatever commas stand inside brackets. */
  lemma {:induction false} SplitHostListOfJoin(entries: seq<string>)
    requires forall e :: e in entries ==> e != [] && IsEntry(e, 0)
    ensures SplitFrom(Join(entries, ','), 0, []) == entries
  {
    if entries != [] {
      var first, rest := entries[0], entries[1..];
      assert first in entries && entries == [first] + rest;
      EntryIsKept(first, 0, [], Join(rest, ','));
      assert [] + first == first;
      assert forall e :: e in rest ==> e in entries;
      SplitHostListOfJoin(rest);
    }
  }

  predicate IsSpace(c: char) {
    c == ' ' || c == '\t' || c == '\n' || c == '\r'
  }

  function TrimStart(s: string): string {
    if s != [] && IsSpace(s[0]) then TrimStart(s[1..]) else s
  }

  function TrimEnd(s: string): string {
    if s != [] && IsSpace(s[|s| - 1]) then TrimEnd(s[..|s| - 1]) else s
  }

  /** Reads a host and a port, where an empty port is the default one. */
  function ToAddress(host: string, port: string): Result<ServerAddress, string> {
    if host == [] then Err(host)
    else if port == [] then Ok(ServerAddress(host, DEFAULT_PORT))
    else if AllDigits(port) then Ok(ServerAddress(host, Numeral(port)))
    else Err(port)
  }

  /** Parses `host:port` or `[ipv6]:port`. */
  function ParseHostAndPort(entry: string): Result<ServerAddress, string> {
    var trimmed := TrimEnd(TrimStart(entry));
    if trimmed != [] && trimmed[0] == '[' then
      match IndexOf(trimmed, ']')
      case None => Err(trimmed)
      case Some(closing) =>
        IndexOfNone(trimmed, ']');
        var after := trimmed[closing + 1..];
        ToAddress(trimmed[1..closing], if after != [] && after[0] == ':' then after[1..] else after)
    else
      match LastIndexOf(trimmed, ':')
      case None => ToAddress(trimmed, [])
      case Some(colon) =>
        LastIndexOfWithin(trimmed, ':');
        ToAddress(trimmed[..colon], trimmed[colon + 1..])
  }

  lemma {:induction false} LastIndexOfWithin(s: string, c: char)
    ensures LastIndexOf(s, c).Some? ==> LastIndexOf(s, c).value < |s|
  {
    if s != [] && s[|s| - 1] != c {
      LastIndexOfWithin(s[..|s| - 1], c);
    }
  }

  /** The unreserved characters of RFC 3986, section 2.3. */
  predicate IsUnreserved(c: char) {
    'a' <= c <= 'z' || 'A' <= c <= 'Z' || '0' <= c <= '9' || c == '-' || c == '.' || c == '_' || c == '~'
  }

  predicate Unreserved(s: string) {
    forall i :: 0 <= i < |s| ==> IsUnreserved(s[i])
  }

  /** A host name, an IPv4 address or an IPv6 address. */
  predicate IsHost(host: string) {
    host != [] && forall i :: 0 <= i < |host| ==> IsUnreserved(host[i]) || host[i] == ':'
  }

  /** Names, IPv4 and IPv6 addresses are made of letters, digits and five other characters. */
  lemma {:induction false} HostCharacters(host: string)
    ensures IsHost(host) <==>
            |host| > 0 && forall i :: 0 <= i < |host| ==>
              || ('a' <= host[i] <= 'z') || ('A' <= host[i] <= 'Z') || ('0' <= host[i] <= '9')
              || host[i] in {'-', '.', '_', '~', ':'}
    ensures Unreserved(host) <==>
            forall i :: 0 <= i < |host| ==>
              || ('a' <= host[i] <= 'z') || ('A' <= host[i] <= 'Z') || ('0' <= host[i] <= '9')
              || host[i] in {'-', '.', '_', '~'}
  {
  }

  /** The characters a formatted address is made of. */
  lemma {:induction false} FormattedCharacters(address: ServerAddress)
    requires IsHost(address.host)
    ensures var s := FormatServerAddress(address);
            && s != []
            && forall i :: 0 <= i < |s| ==> IsUnreserved(s[i]) || s[i] in {':', '[', ']'}
  {
  }

  lemma {:induction false} PlainIsEntry(s: string)
    requires forall i :: 0 <= i < |s| ==> s[i] !in {',', '[', ']'}
    ensures IsEntry(s, 0)
  {
    if s != [] {
      assert s[0] !in {',', '[', ']'};
      PlainIsEntry(s[1..]);
    }
  }

  lemma {:induction false} BracketedIsEntry(inside: string, after: string)
    requires forall i :: 0 <= i < |inside| ==> inside[i] !in {',', '[', ']'}
    requires forall i :: 0 <= i < |after| ==> after[i] !in {',', '[', ']'}
    ensures IsEntry(inside + "]" + after, 1)
  {
    var s := inside + "]" + after;
    if inside == [] {
      assert s[0] == ']' && s[1..] == after;
      PlainIsEntry(after);
    } else {
      assert s[0] == inside[0] && s[1..] == inside[1..] + "]" + after;
      BracketedIsEntry(inside[1..], after);
    }
  }

  lemma {:induction false} FormattedIsEntry(address: ServerAddress)
    requires IsHost(address.host)
    ensures IsEntry(FormatServerAddress(address), 0)
  {
    var tail := ":" + Decimal(address.port);
    assert forall i :: 0 <= i < |Decimal(address.port)| ==> IsDigit(Decimal(address.port)[i]);
    var s := FormatServerAddress(address);
    if Lacks(address.host, ':') {
      PlainIsEntry(s);
    } else {
      assert s == "[" + (address.host + "]" + tail);
      assert s[1..] == address.host + "]" + tail;
      BracketedIsEntry(address.host, tail);
    }
  }

  /** A text that neither starts nor ends with white space is left alone. */
  lemma {:induction false} TrimmedAlready(s: string)
    requires s != [] && !IsSpace(s[0]) && !IsSpace(s[|s| - 1])
    ensures TrimEnd(TrimStart(s)) == s
  {
  }

  /** Parsing undoes formatting, for names, IPv4 and IPv6 addresses and any port. */
  lemma {:induction false} ParseOfFormat(address: ServerAddress)
    requires IsHost(address.host)
    ensures ParseHostAndPort(FormatServerAddress(address)) == Ok(address)
  {
    hide TrimStart, TrimEnd, Numeral, IndexOf, LastIndexOf;
    var s, digits := FormatServerAddress(address), Decimal(address.port);
    assert forall i :: 0 <= i < |digits| ==> IsDigit(digits[i]);
    NumeralOfDecimal(address.port);
    assert s[|s| - 1] == digits[|digits| - 1];
    TrimmedAlready(s);
    if Lacks(address.host, ':') {
      assert s == address.host + [':'] + digits;
      LastIndexOfLast(address.host, ':', digits);
      assert s[..|address.host|] == address.host && s[|address.host| + 1..] == digits;
    } else {
      var inside := "[" + address.host;
      assert s == inside + [']'] + (":" + digits);
      IndexOfFirst(inside, ']', ":" + digits);
      assert s[1..|inside|] == address.host;
      assert s[|inside| + 1..] == ":" + digits;
      assert (":" + digits)[1..] == digits;
    }
  }
}
