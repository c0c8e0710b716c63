/** connection.go and connection_dsn.go: a server address taken apart, and put
    back together as the host of a URL. */
module ServerAddress {
  import opened Decimals
  import opened Text
  import opened Wrappers

  /** The widest int strconv.Atoi returns on a 64-bit machine. */
  const MAX_INT: nat := 0x7FFF_FFFF_FFFF_FFFF
  const MAX_PORT: nat := 65535
  const DEFAULT_PORT: nat := 1433

  // ---- finding and trimming ----

  /** strings.LastIndexByte of s[..to]; |s| stands for its -1. */
  function LastIndexTo(s: string, c: char, to: nat): (i: nat)
    requires to <= |s|
    ensures i < to || i == |s|
    ensures i < |s| ==> s[i] == c
    ensures forall k :: (if i < |s| then i else -1) < k < to ==> s[k] != c
  {
    if to == 0 then |s| else if s[to - 1] == c then to - 1 else LastIndexTo(s, c, to - 1)
  }

  function LastIndexOf(s: string, c: char): nat {
    LastIndexTo(s, c, |s|)
  }

  /** strings.ContainsRune. */
  predicate Has(s: string, c: char) {
    IndexOf(s, c) < |s|
  }

  lemma LastIndexIs(s: string, c: char, i: nat)
    requires i < |s| && s[i] == c && forall k :: i < k < |s| ==> s[k] != c
    ensures LastIndexOf(s, c) == i
  {
  }

  predicate IsBracket(c: char) { c == '[' || c == ']' }

  /** The first of s[from..] that is no bracket. */
  function Left(s: string, from: nat): (i: nat)
    requires from <= |s|
    ensures from <= i <= |s|
    ensures i < |s| ==> !IsBracket(s[i])
    ensures forall k :: from <= k < i ==> IsBracket(s[k])
    decreases |s| - from
  {
    if from < |s| && IsBracket(s[from]) then Left(s, from + 1) else from
  }

  /** Just past the last of s[from..to] that is no bracket. */
  function Right(s: string, from: nat, to: nat): (i: nat)
    requires from <= to <= |s|
    ensures from <= i <= to
    ensures from < i ==> !IsBracket(s[i - 1])
    ensures forall k :: i <= k < to ==> IsBracket(s[k])
  {
    if from < to && IsBracket(s[to - 1]) then Right(s, from, to - 1) else to
  }

  /** strings.Trim(s, "[]"). */
  function Unbracketed(s: string): string {
    var lo := Left(s, 0);
    s[lo..Right(s, lo, |s|)]
  }

  lemma UnbracketedHas(s: string, c: char)
    requires !IsBracket(c)
    ensures Has(Unbracketed(s), c) <==> Has(s, c)
  {
    var lo := Left(s, 0);
    var k := IndexOf(s, c);
    if k < |s| { assert Unbracketed(s)[k - lo] == c; }
  }

  // ---- parsing ----

  function ReadPort(s: string): Option<nat> {
    if s != "" && AllDigits(s) && DigitsValue(s) <= MAX_INT then Some(DigitsValue(s)) else None
  }

  method ParsePort(s: string) returns (port: Option<nat>)
    ensures port == ReadPort(s)
    ensures port.Some? <==> s != "" && AllDigits(s) && DigitsValue(s) <= 9_223_372_036_854_775_807
    ensures port.Some? ==> port.value == DigitsValue(s)
  {
    if s == "" { return None; }
    for i := 0 to |s|
      invariant AllDigits(s[..i])
    {
      if s[i] < '0' || s[i] > '9' { return None; }
      assert s[..i + 1] == s[..i] + [s[i]];
    }
    assert s[..|s|] == s;
    var p := DigitsValue(s);
    return if p <= MAX_INT then Some(p) else None;
  }

  /** The protocol, lower-cased, and the address after it; "" for none. */
  function SplitProtocol(u: Unicode, server: string): (string, string) {
    var i := IndexOf(server, ':');
    if i == 0 || i == |server| then ("", server)
    else
      var proto, rest := ToLower(u, server[..i]), server[i + 1..];
      if proto !in ["tcp", "np", "lpc", "admin"] || AllDigits(rest) then ("", server) else (proto, rest)
  }

  datatype Target = Target(host: string, instance: string, port: nat, written: bool)

  function WithoutPort(server: string): Target {
    Target(server, "", 0, false)
  }

  predicate Enclosed(h: string) {
    h != "" && h[0] == '[' && h[|h| - 1] == ']'
  }

  /** Where the port may start in an address with no backslash; |s| for
      nowhere. */
  function PortMark(s: string): (i: nat)
    ensures i <= |s|
  {
    var comma, colon := LastIndexOf(s, ','), LastIndexOf(s, ':');
    if comma < |s| then comma
    else if colon < |s| && Has(s[..colon], ':') && !Enclosed(s[..colon]) then |s|
    else colon
  }

  /** What follows a backslash: an instance name, and perhaps a port. */
  function SplitInstance(host: string, instance: string): Target {
    var j := IndexOf(instance, ',');
    if j < |instance| && ReadPort(instance[j + 1..]).Some?
    then Target(host, instance[..j], ReadPort(instance[j + 1..]).value, true)
    else Target(host, instance, 0, false)
  }

  /** An address with no backslash. */
  function SplitHost(s: string): Target {
    var sep := PortMark(s);
    if sep < |s| && ReadPort(s[sep + 1..]).Some?
    then Target(s[..sep], "", ReadPort(s[sep + 1..]).value, true)
    else WithoutPort(s)
  }

  function SplitBody(s: string): Target {
    var i := IndexOf(s, '\\');
    if i < |s| then SplitInstance(s[..i], s[i + 1..]) else SplitHost(s)
  }

  /** The address with a leading tcp: dropped. */
  function Body(u: Unicode, server: string): string {
    var (proto, rest) := SplitProtocol(u, server);
    if proto == "tcp" then rest else server
  }

  function Split(u: Unicode, server: string): Target {
    SplitBody(Body(u, server))
  }

  /** The names of this machine are one name. */
  function Resolve(u: Unicode, host: string): string {
    if host == "." || EqualFold(u, host, "(local)") then "localhost" else host
  }

  function Parse(u: Unicode, server: string): Target {
    var t := Split(u, server);
    t.(host := Resolve(u, t.host))
  }

  // ---- a split is a reading of the whole text ----

  function PortText(mark: Option<char>, digits: string): string {
    match mark case None => "" case Some(c) => [c] + digits
  }

  lemma JoinAt(s: string, i: nat)
    requires i < |s|
    ensures s == s[..i] + ([s[i]] + s[i + 1..])
  {
  }

  lemma NoneBefore(s: string, c: char, i: nat)
    requires i <= |s| && forall k :: 0 <= k < i ==> s[k] != c
    ensures !Has(s[..i], c)
  {
  }

  /** How the text of an address is its parts. */
  ghost predicate Reads(s: string, t: Target, named: bool, mark: Option<char>, digits: string) {
    && s == t.host + ((if named then "\\" + t.instance else "") + PortText(mark, digits))
    && !Has(t.host, '\\') && (!named ==> t.instance == "")
    && (t.written <==> mark.Some?)
    && (mark.Some? ==> mark.value in {',', ':'} && ReadPort(digits) == Some(t.port))
    && (mark.None? ==> t.port == 0)
    && (mark == Some(':') ==> !named && (!Has(t.host, ':') || Enclosed(t.host)))
  }

  lemma Regroup(a: string, b: string, c: string)
    ensures a + (b + c) == a + b + c
  {
  }

  lemma InstanceReads(host: string, instance: string) returns (mark: Option<char>, digits: string)
    requires !Has(host, '\\')
    ensures Reads(host + ("\\" + instance), SplitInstance(host, instance), true, mark, digits)
  {
    mark, digits := None, "";
    var t, j := SplitInstance(host, instance), IndexOf(instance, ',');
    if t.written {
      mark, digits := Some(','), instance[j + 1..];
      JoinAt(instance, j);
    } else {
      assert instance + "" == instance;
    }
    Regroup("\\", t.instance, PortText(mark, digits));
  }

  lemma HostReads(s: string) returns (mark: Option<char>, digits: string)
    requires !Has(s, '\\')
    ensures Reads(s, SplitHost(s), false, mark, digits)
  {
    mark, digits := None, "";
    var t, sep := SplitHost(s), PortMark(s);
    if t.written {
      mark, digits := Some(s[sep]), s[sep + 1..];
      JoinAt(s, sep);
      NoneBefore(s, '\\', sep);
      assert "" + ([s[sep]] + digits) == [s[sep]] + digits;
    } else {
      assert s == s + ("" + "");
    }
  }

  /** Nothing is lost: host, instance and port, with what separates them, are
      the whole address. */
  lemma SplitReadsAll(s: string) returns (named: bool, mark: Option<char>, digits: string)
    ensures Reads(s, SplitBody(s), named, mark, digits)
  {
    var i := IndexOf(s, '\\');
    named := i < |s|;
    if named {
      JoinAt(s, i);
      NoneBefore(s, '\\', i);
      mark, digits := InstanceReads(s[..i], s[i + 1..]);
    } else {
      mark, digits := HostReads(s);
    }
  }

  // ---- parsing undoes rendering ----

  /** The forms of an address: each part as it is written. */
  datatype Address = Address(host: string, instance: Option<string>, mark: Option<char>, digits: string)

  function Render(a: Address): string {
    a.host + (match a.instance case None => "" case Some(i) => "\\" + i) + PortText(a.mark, a.digits)
  }

  predicate IsHex(c: char) {
    '0' <= c <= '9' || 'a' <= c <= 'f' || 'A' <= c <= 'F'
  }

  /** An IPv6 literal as far as this code can tell: two colons or more, and hex
      digits before the first. */
  predicate IsLiteral(h: string) {
    && IndexOf(h, ':') < LastIndexOf(h, ':') < |h|
    && (forall i :: 0 <= i < IndexOf(h, ':') ==> IsHex(h[i]))
    && h[0] != '['
  }

  /** The documented forms: host, host:port, host,port, host\instance and
      host\instance,port, where an IPv6 host takes :port only in brackets. */
  predicate WellFormed(a: Address) {
    && !Has(a.host, ',') && !Has(a.host, '\\')
    && (!Has(a.host, ':') || Enclosed(a.host) || IsLiteral(a.host))
    && (a.instance.Some? ==> !Has(a.instance.value, ','))
    && (a.mark.Some? ==> a.mark.value in {',', ':'} && ReadPort(a.digits).Some?)
    && (a.mark == Some(':') ==> a.instance.None? && (!Has(a.host, ':') || Enclosed(a.host)))
  }

  function TargetOf(a: Address): Target
    requires WellFormed(a)
  {
    Target(a.host, if a.instance.Some? then a.instance.value else "",
           if a.mark.Some? then ReadPort(a.digits).value else 0, a.mark.Some?)
  }

  lemma SplitInstanceTakes(host: string, name: string, mark: Option<char>, digits: string)
    requires !Has(name, ',') && (mark.Some? ==> mark.value == ',' && ReadPort(digits).Some?)
    ensures SplitInstance(host, name + PortText(mark, digits)) ==
            Target(host, name, if mark.Some? then ReadPort(digits).value else 0, mark.Some?)
  {
    if mark.Some? {
      SplitInstanceTakesPort(host, name, digits);
    } else {
      assert name + "" == name;
    }
  }

  lemma SplitInstanceTakesPort(host: string, name: string, digits: string)
    requires !Has(name, ',') && ReadPort(digits).Some?
    ensures SplitInstance(host, name + ([','] + digits)) == Target(host, name, ReadPort(digits).value, true)
  {
    var rest := name + ([','] + digits);
    assert rest[|name|] == ',' && forall k :: 0 <= k < |name| ==> rest[k] == name[k];
    IndexIs(rest, ',', |name|);
    assert rest[..|name|] == name;
    assert rest[|name| + 1..] == digits;
  }

  lemma SplitBodyTakesNamed(host: string, rest: string)
    requires !Has(host, '\\')
    ensures SplitBody(host + ("\\" + rest)) == SplitInstance(host, rest)
  {
    var s := host + ("\\" + rest);
    IndexIs(s, '\\', |host|);
    assert s[..|host|] == host && s[|host| + 1..] == rest;
  }

  lemma SplitBodyTakesPort(host: string, mark: char, digits: string)
    requires !Has(host, ',') && !Has(host, '\\') && ReadPort(digits).Some?
    requires mark == ',' || (mark == ':' && (!Has(host, ':') || Enclosed(host)))
    ensures SplitBody(host + [mark] + digits) == Target(host, "", ReadPort(digits).value, true)
  {
    var s := host + [mark] + digits;
    assert s[|host| + 1..] == digits && s[..|host|] == host;
    LastIndexIs(s, mark, |host|);
    assert !Has(s, '\\');
    assert mark == ':' ==> !Has(s, ',');
  }

  lemma SplitBodyTakesHost(host: string)
    requires !Has(host, ',') && !Has(host, '\\')
    requires !Has(host, ':') || Enclosed(host) || IsLiteral(host)
    ensures SplitBody(host) == WithoutPort(host)
  {
    var colon := LastIndexOf(host, ':');
    if Has(host, ':') {
      if Enclosed(host) {
        assert host[colon + 1..][|host| - colon - 2] == ']';
      } else {
        assert host[..colon][IndexOf(host, ':')] == ':';
      }
    }
  }

  lemma SplitBodyTakes(a: Address)
    requires WellFormed(a)
    ensures SplitBody(Render(a)) == TargetOf(a)
  {
    if a.instance.Some? {
      var name, tail := a.instance.value, PortText(a.mark, a.digits);
      assert Render(a) == a.host + ("\\" + (name + tail));
      SplitBodyTakesNamed(a.host, name + tail);
      SplitInstanceTakes(a.host, name, a.mark, a.digits);
    } else if a.mark.Some? {
      assert Render(a) == a.host + [a.mark.value] + a.digits;
      SplitBodyTakesPort(a.host, a.mark.value, a.digits);
    } else {
      assert Render(a) == a.host;
      SplitBodyTakesHost(a.host);
    }
  }

  /** Text before a colon is a protocol only if each of its runes lowers to one
      of that protocol's. */
  lemma NoProtocolWith(u: Unicode, p: string, k: nat)
    requires KeepsAscii(u) && k < |p| && p[k] in {'[', '\\', ','}
    ensures ToLower(u, p) !in ["tcp", "np", "lpc", "admin"]
  {
    assert ToLower(u, p)[k] == p[k];
  }

  lemma BracketFirst(u: Unicode, text: string)
    requires KeepsAscii(u) && text != "" && text[0] == '['
    ensures SplitProtocol(u, text).0 == ""
  {
    var i := IndexOf(text, ':');
    if 0 < i < |text| { NoProtocolWith(u, text[..i], 0); }
  }

  lemma HexIsNoProtocol(u: Unicode, p: string)
    requires KeepsAscii(u) && forall i :: 0 <= i < |p| ==> IsHex(p[i])
    ensures ToLower(u, p) !in ["tcp", "np", "lpc", "admin"]
  {
    var l := ToLower(u, p);
    assert forall i :: 0 <= i < |p| ==> l[i] == AsciiLower(p[i]);
    assert |l| > 0 ==> l[0] !in {'t', 'n', 'l'};
    assert |l| > 2 ==> l[2] != 'm';
  }

  lemma NoProtocolInLiteral(u: Unicode, host: string, rest: string)
    requires KeepsAscii(u) && Has(host, ':') && (Enclosed(host) || IsLiteral(host))
    ensures SplitProtocol(u, host + rest) == ("", host + rest)
  {
    var s, k := host + rest, IndexOf(host, ':');
    IndexIs(s, ':', k);
    assert forall i :: 0 <= i < k ==> s[i] == host[i];
    if Enclosed(host) { BracketFirst(u, s); } else { HexIsNoProtocol(u, s[..k]); }
  }

  lemma NoProtocolBeforeInstance(u: Unicode, host: string, rest: string)
    requires KeepsAscii(u) && !Has(host, ':')
    ensures SplitProtocol(u, host + ("\\" + rest)) == ("", host + ("\\" + rest))
  {
    var s := host + ("\\" + rest);
    var n, i := |host|, IndexOf(s, ':');
    assert s[n] == '\\' && forall k :: 0 <= k < n ==> s[k] == host[k];
    if i < |s| { NoProtocolWith(u, s[..i], n); }
  }

  lemma NoProtocolBeforePort(u: Unicode, host: string, mark: char, digits: string)
    requires !Has(host, ':') && mark in {',', ':'} && AllDigits(digits)
    ensures SplitProtocol(u, host + ([mark] + digits)) == ("", host + ([mark] + digits))
  {
    var s, n := host + ([mark] + digits), |host|;
    assert s[n] == mark && forall k :: 0 <= k < n ==> s[k] == host[k];
    if mark == ':' {
      IndexIs(s, ':', n);
      assert s[n + 1..] == digits;
    } else {
      assert forall k :: n < k < |s| ==> s[k] == digits[k - n - 1];
    }
  }

  lemma NoProtocolIn(u: Unicode, a: Address)
    requires KeepsAscii(u) && WellFormed(a)
    ensures SplitProtocol(u, Render(a)) == ("", Render(a))
  {
    var named, port := if a.instance.Some? then "\\" + a.instance.value else "", PortText(a.mark, a.digits);
    Regroup(a.host, named, port);
    if Has(a.host, ':') {
      NoProtocolInLiteral(u, a.host, named + port);
    } else if a.instance.Some? {
      Regroup("\\", a.instance.value, port);
      NoProtocolBeforeInstance(u, a.host, a.instance.value + port);
    } else if a.mark.Some? {
      assert named + port == port;
      NoProtocolBeforePort(u, a.host, a.mark.value, a.digits);
    } else {
      assert Render(a) == a.host;
    }
  }

  /** Every accepted form, taken apart, gives back the parts it was made of. */
  lemma ParsingUndoesRendering(u: Unicode, a: Address)
    requires KeepsAscii(u) && WellFormed(a)
    ensures Split(u, Render(a)) == TargetOf(a)
    ensures Parse(u, Render(a)) == TargetOf(a).(host := Resolve(u, a.host))
  {
    NoProtocolIn(u, a);
    SplitBodyTakes(a);
  }

  /** A tcp: in any case changes nothing, unless only digits follow it. */
  lemma PrefixIsDropped(u: Unicode, proto: string, a: Address)
    requires KeepsAscii(u) && WellFormed(a)
    requires !Has(proto, ':') && ToLower(u, proto) == "tcp" && !AllDigits(Render(a))
    ensures Parse(u, proto + ":" + Render(a)) == Parse(u, Render(a))
  {
    var s := proto + ":" + Render(a);
    assert |proto| == |ToLower(u, proto)|;
    assert s[..|proto|] == proto && s[|proto| + 1..] == Render(a);
    IndexIs(s, ':', |proto|);
    NoProtocolIn(u, a);
  }

  // ---- the host of the URL ----

  datatype Refusal =
    | UnsupportedProtocol
    | PortOutOfRange
    | WrittenPortOutOfRange
    | PortNotDigits
    | NotAnAddress
    | LocalDB
    | LiteralInstanceNeedsPort

  /** The text dialled for a host and a port, 0 standing for none. */
  function Dialled(host: string, port: nat): string {
    var h := if Has(host, ':') && host[0] != '[' then "[" + host + "]" else host;
    var p := if Has(host, ':') && port == 0 then DEFAULT_PORT else port;
    if p == 0 then h else h + ":" + NatText(p)
  }

  /** A written port wins over the option. */
  function PortOf(t: Target, option: int): int {
    if t.port == 0 then option else t.port
  }

  function Refused(u: Unicode, isAddr: string -> bool, proto: string, t: Target, option: int): Option<Refusal> {
    if proto in ["np", "lpc", "admin"] then Some(UnsupportedProtocol)
    else if !(0 <= option <= MAX_PORT) then Some(PortOutOfRange)
    else if t.written && !(1 <= t.port <= MAX_PORT) then Some(WrittenPortOutOfRange)
    else if Has(t.host, ',') || Has(t.instance, ',') then Some(PortNotDigits)
    else if Has(t.host, ':') && !isAddr(Unbracketed(t.host)) then Some(NotAnAddress)
    else if EqualFold(u, t.host, "(localdb)") then Some(LocalDB)
    else if Has(t.host, ':') && PortOf(t, option) == 0 && t.instance != "" then Some(LiteralInstanceNeedsPort)
    else None
  }

  ghost predicate Accepted(u: Unicode, isAddr: string -> bool, server: string, option: int) {
    Refused(u, isAddr, SplitProtocol(u, server).0, Parse(u, server), option).None?
  }

  method HostOfTarget(u: Unicode, isAddr: string -> bool, proto: string, t: Target, option: int)
    returns (r: Result<(string, string), Refusal>)
    ensures r == match Refused(u, isAddr, proto, t, option)
                 case Some(why) => Err(why)
                 case None => Ok((Dialled(t.host, PortOf(t, option)), t.instance))
  {
    if proto in ["np", "lpc", "admin"] { return Err(UnsupportedProtocol); }
    if option < 0 || option > MAX_PORT { return Err(PortOutOfRange); }
    var host, instance, port: int := t.host, t.instance, t.port;
    if port == 0 { port := option; }
    if t.written && (t.port < 1 || t.port > MAX_PORT) { return Err(WrittenPortOutOfRange); }
    if Has(host, ',') || Has(instance, ',') { return Err(PortNotDigits); }
    var h := Unbracketed(host);
    UnbracketedHas(host, ':');
    if Has(h, ':') {
      if !isAddr(h) { return Err(NotAnAddress); }
    }
    if EqualFold(u, host, "(localdb)") { return Err(LocalDB); }
    if Has(host, ':') {
      if host[0] != '[' { host := "[" + host + "]"; }
      if port == 0 {
        if instance != "" { return Err(LiteralInstanceNeedsPort); }
        port := DEFAULT_PORT;
      }
    }
    if port > 0 { host := host + ":" + NatText(port); }
    return Ok((host, instance));
  }

  /** Accepted servers only, with the instance beside the text to dial. */
  method DsnHost(u: Unicode, isAddr: string -> bool, server: string, option: int)
    returns (r: Result<(string, string), Refusal>)
    ensures r.Ok? <==> Accepted(u, isAddr, server, option)
    ensures r.Ok? ==> var t := Parse(u, server);
                      r.value == (Dialled(t.host, PortOf(t, option)), t.instance)
    ensures r.Err? ==> Some(r.error) == Refused(u, isAddr, SplitProtocol(u, server).0, Parse(u, server), option)
  {
    r := HostOfTarget(u, isAddr, SplitProtocol(u, server).0, Parse(u, server), option);
  }

  // ---- which addresses are accepted, and what is dialled for them ----

  /** One of SSMS's names for this machine. */
  predicate IsAlias(u: Unicode, host: string) {
    host == "." || EqualFold(u, host, "(local)")
  }

  lemma LocalhostIsItself(u: Unicode)
    ensures Resolve(u, "localhost") == "localhost" && Plain("localhost") && !Has("localhost", ':')
  {
  }

  lemma LocalhostIsWellFormed(u: Unicode, a: Address)
    requires KeepsAscii(u) && WellFormed(a) && IsAlias(u, a.host)
    ensures WellFormed(a.(host := "localhost"))
  {
    LocalhostIsItself(u);
    AliasHasNoColon(u, a.host);
  }

  lemma ParsedHost(u: Unicode, a: Address)
    requires KeepsAscii(u) && WellFormed(a)
    ensures Parse(u, Render(a)).host == if IsAlias(u, a.host) then "localhost" else a.host
  {
    ParsingUndoesRendering(u, a);
  }

  /** The names of this machine are one host: an address written with one parses as
      the same address of localhost, and any other host is kept as written. */
  lemma AliasesAreOne(u: Unicode, a: Address)
    requires KeepsAscii(u) && WellFormed(a)
    ensures Parse(u, Render(a)).host == if IsAlias(u, a.host) then "localhost" else a.host
    ensures IsAlias(u, a.host) ==> Parse(u, Render(a)) == Parse(u, Render(a.(host := "localhost")))
  {
    ParsedHost(u, a);
    if IsAlias(u, a.host) { AliasIsLocalhost(u, a); }
  }

  lemma AliasIsLocalhost(u: Unicode, a: Address)
    requires KeepsAscii(u) && WellFormed(a) && IsAlias(u, a.host)
    ensures Parse(u, Render(a)) == Parse(u, Render(a.(host := "localhost")))
  {
    LocalhostIsWellFormed(u, a);
    LocalhostIsItself(u);
    ParsingUndoesRendering(u, a);
    ParsingUndoesRendering(u, a.(host := "localhost"));
  }

  lemma AliasHasNoColon(u: Unicode, host: string)
    requires KeepsAscii(u) && IsAlias(u, host)
    ensures !Has(host, ':')
  {
    forall i | 0 <= i < |host| ensures host[i] != ':' {
      if host != "." {
        assert u.fold(host[i]) == u.fold("(local)"[i]);
        assert AsciiLower("(local)"[i]) != ':';
      }
    }
  }

  /** The protocols that are no TCP are refused by name in any case, whatever the
      address after them, unless only digits are: "admin:1433" is a host. */
  lemma ProtocolsAreRefused(u: Unicode, isAddr: string -> bool, proto: string, rest: string, option: int)
    requires !Has(proto, ':') && ToLower(u, proto) in ["np", "lpc", "admin"]
    ensures var s := proto + ":" + rest;
            Refused(u, isAddr, SplitProtocol(u, s).0, Parse(u, s), option) == Some(UnsupportedProtocol)
            <==> !AllDigits(rest)
  {
    var s := proto + ":" + rest;
    assert |proto| == |ToLower(u, proto)|;
    assert s[..|proto|] == proto && s[|proto| + 1..] == rest;
    IndexIs(s, ':', |proto|);
  }

  /** What a documented form must satisfy: an option and a written port in range, a
      host with a colon an IPv6 address and, beside an instance, with a port. */
  predicate Dialable(u: Unicode, isAddr: string -> bool, a: Address, option: int)
    requires WellFormed(a)
  {
    && 0 <= option <= 65535
    && (a.mark.Some? ==> 1 <= ReadPort(a.digits).value <= 65535)
    && (Has(a.host, ':') ==> isAddr(Unbracketed(a.host)))
    && !EqualFold(u, a.host, "(localdb)")
    && (Has(a.host, ':') && a.instance.Some? && a.instance.value != "" ==> a.mark.Some? || option != 0)
  }

  lemma AliasIsAccepted(u: Unicode, host: string)
    requires KeepsAscii(u)
    ensures Has(Resolve(u, host), ':') <==> Has(host, ':')
    ensures Has(host, ':') ==> Resolve(u, host) == host
    ensures EqualFold(u, Resolve(u, host), "(localdb)") <==> EqualFold(u, host, "(localdb)")
    ensures !Has(host, ',') ==> !Has(Resolve(u, host), ',')
  {
    if IsAlias(u, host) {
      AliasHasNoColon(u, host);
      LocalhostIsItself(u);
      assert u.fold('l') != u.fold('(');
      FoldsApart(u, "localhost", "(localdb)", 0);
    }
  }

  lemma TargetIsRefusedIff(u: Unicode, isAddr: string -> bool, a: Address, option: int)
    requires KeepsAscii(u) && WellFormed(a)
    ensures Refused(u, isAddr, "", TargetOf(a).(host := Resolve(u, a.host)), option).None? <==>
            Dialable(u, isAddr, a, option)
  {
    AliasIsAccepted(u, a.host);
  }

  /** Exactly those of the documented forms are accepted. */
  lemma AcceptedIffDialable(u: Unicode, isAddr: string -> bool, a: Address, option: int)
    requires KeepsAscii(u) && WellFormed(a)
    ensures Accepted(u, isAddr, Render(a), option) <==> Dialable(u, isAddr, a, option)
  {
    NoProtocolIn(u, a);
    ParsingUndoesRendering(u, a);
    TargetIsRefusedIff(u, isAddr, a, option);
  }

  /** The text of a host and a port. */
  function DialledText(host: string, p: int): string {
    if !Has(host, ':') then
      if p <= 0 then host else host + ":" + NatText(p)
    else
      var h := if host[0] == '[' then host else "[" + host + "]";
      h + ":" + NatText(if p <= 0 then 1433 else p)
  }

  lemma DialledIs(host: string, p: nat)
    ensures Dialled(host, p) == DialledText(host, p)
  {
  }

  /** What is dialled: the host, an IPv6 one in brackets, and the written port, else
      the option's, else 1433 for an IPv6 host and none for another. */
  lemma WhatIsDialled(u: Unicode, isAddr: string -> bool, a: Address, option: int)
    requires KeepsAscii(u) && WellFormed(a) && Dialable(u, isAddr, a, option)
    ensures var t := Parse(u, Render(a));
            Dialled(t.host, PortOf(t, option)) ==
            DialledText(if IsAlias(u, a.host) then "localhost" else a.host,
                        if a.mark.Some? then ReadPort(a.digits).value else option)
  {
    ParsingUndoesRendering(u, a);
    ParsedHost(u, a);
    DialledIs(Parse(u, Render(a)).host, if a.mark.Some? then ReadPort(a.digits).value else option);
  }

  predicate Plain(host: string) {
    !Has(host, ',') && !Has(host, '\\')
  }

  /** The port the driver dials: 0 leaves it to the driver. */
  function DialPort(t: Target, option: int): int {
    if Has(t.host, ':') && PortOf(t, option) == 0 then DEFAULT_PORT else PortOf(t, option)
  }

  lemma SmallPortReads(p: nat)
    requires p <= MAX_PORT
    ensures ReadPort(NatText(p)) == Some(p)
  {
  }

  lemma AcceptedHostIsPlain(u: Unicode, isAddr: string -> bool, server: string, option: int)
    requires Accepted(u, isAddr, server, option)
    ensures var t := Parse(u, server);
            && Plain(t.host) && 0 <= PortOf(t, option) <= MAX_PORT
            && (Has(t.host, ':') ==> isAddr(Unbracketed(t.host)))
            && Resolve(u, t.host) == t.host
  {
    var named, mark, digits := SplitReadsAll(Body(u, server));
    ResolveOnce(u, Split(u, server).host);
  }

  lemma ResolveOnce(u: Unicode, host: string)
    ensures Resolve(u, Resolve(u, host)) == Resolve(u, host)
  {
  }

  lemma BracketIsNoAlias(u: Unicode, host: string)
    requires KeepsAscii(u) && host != "" && host[0] == '['
    ensures Resolve(u, host) == host
  {
    assert u.fold('[') != u.fold('(');
    FoldsApart(u, host, "(local)", 0);
  }

  lemma PlainParses(u: Unicode, host: string, port: nat)
    requires KeepsAscii(u) && Plain(host) && !Has(host, ':') && port <= MAX_PORT
    requires Resolve(u, host) == host
    ensures Parse(u, Dialled(host, port)) == Target(host, "", port, port > 0)
  {
    var a := Address(host, None, if port > 0 then Some(':') else None, NatText(port));
    SmallPortReads(port);
    assert Dialled(host, port) == Render(a) by {
      assert host + "" + ([':'] + NatText(port)) == host + ":" + NatText(port);
    }
    ParsingUndoesRendering(u, a);
  }

  /** A host without a colon comes back from the URL as it went in, and so does
      its port. */
  lemma PlainHostComesBack(u: Unicode, isAddr: string -> bool, server: string, option: int)
    requires KeepsAscii(u) && Accepted(u, isAddr, server, option)
    requires var t := Parse(u, server); t.instance == "" && !Has(t.host, ':')
    ensures var t := Parse(u, server);
            var port := PortOf(t, option);
            && 0 <= port <= MAX_PORT
            && Parse(u, Dialled(t.host, port)) == Target(t.host, "", port, port > 0)
  {
    AcceptedHostIsPlain(u, isAddr, server, option);
    PlainParses(u, Parse(u, server).host, PortOf(Parse(u, server), option));
  }

  lemma UnnamedSplits(s: string)
    requires !Has(s, '\\')
    ensures SplitBody(s) == SplitHost(s)
  {
  }

  lemma UnmarkedSplits(s: string)
    requires PortMark(s) == |s|
    ensures SplitHost(s) == WithoutPort(s)
  {
  }

  /** The last colon after an unbalanced bracket is not taken for a port's. */
  lemma UnclosedHasNoMark(host: string, digits: string)
    requires host != "" && host[0] == '[' && Has(host, ':') && !Enclosed(host)
    requires Plain(host) && AllDigits(digits)
    ensures PortMark(host + ":" + digits) == |host + ":" + digits|
    ensures !Has(host + ":" + digits, '\\')
  {
    var s := host + ":" + digits;
    assert !Has(s, ',') && !Has(s, '\\');
    LastIndexIs(s, ':', |host|);
    assert s[..|host|] == host;
  }

  /** What an unbalanced bracket leaves in the URL has no port in it. */
  lemma UnclosedHidesPort(host: string, p: nat)
    requires host != "" && host[0] == '[' && Has(host, ':') && !Enclosed(host)
    requires Plain(host)
    ensures SplitBody(host + ":" + NatText(p)) == WithoutPort(host + ":" + NatText(p))
  {
    var s := host + ":" + NatText(p);
    UnclosedHasNoMark(host, NatText(p));
    UnnamedSplits(s);
    UnmarkedSplits(s);
  }

  function InBrackets(h: string): string {
    "[" + h + "]"
  }

  lemma BracketsKeep(h: string)
    requires Plain(h) && Has(h, ':')
    ensures Plain(InBrackets(h)) && Has(InBrackets(h), ':')
  {
    var b := InBrackets(h);
    assert forall k :: 1 <= k <= |h| ==> b[k] == h[k - 1];
    assert b[IndexOf(h, ':') + 1] == ':';
  }

  lemma BracketedParses(u: Unicode, host: string, port: nat)
    requires KeepsAscii(u) && host != "" && host[0] == '[' && Has(host, ':')
    requires Plain(host) && 1 <= port <= MAX_PORT
    ensures Parse(u, host + ":" + NatText(port)) ==
            if Enclosed(host) then Target(host, "", port, true) else WithoutPort(host + ":" + NatText(port))
  {
    var s := host + ":" + NatText(port);
    BracketFirst(u, s);
    SmallPortReads(port);
    BracketIsNoAlias(u, host);
    BracketIsNoAlias(u, s);
    if Enclosed(host) { SplitBodyTakesPort(host, ':', NatText(port)); } else { UnclosedHidesPort(host, port); }
  }

  lemma LiteralParsesIff(u: Unicode, host: string, port: nat)
    requires KeepsAscii(u) && Plain(host) && Has(host, ':') && 1 <= port <= MAX_PORT
    ensures var h := Unbracketed(host);
            Parse(u, Dialled(host, port)) == Target(InBrackets(h), "", port, true)
            <==> host == h || host == InBrackets(h)
  {
    var h := Unbracketed(host);
    assert InBrackets(h)[|h| + 1] == ']';
    if host[0] == '[' {
      BracketedParses(u, host, port);
    } else {
      BracketsKeep(host);
      BracketedParses(u, InBrackets(host), port);
      BracketsAreOne(host, h);
    }
  }

  lemma BracketsAreOne(a: string, b: string)
    ensures InBrackets(a) == InBrackets(b) <==> a == b
  {
    if InBrackets(a) == InBrackets(b) {
      assert a == InBrackets(a)[1..|a| + 1] == InBrackets(b)[1..|b| + 1] == b;
    }
  }

  /** An accepted host with a colon is an IPv6 address in all but brackets, and
      its URL reads back as that address in brackets, with its port, exactly
      when the server wrote none or one pair. */
  lemma LiteralComesBackIff(u: Unicode, isAddr: string -> bool, server: string, option: int)
    requires KeepsAscii(u) && Accepted(u, isAddr, server, option)
    requires var t := Parse(u, server); t.instance == "" && Has(t.host, ':')
    ensures var t := Parse(u, server);
            var h, port := Unbracketed(t.host), DialPort(t, option);
            && isAddr(h) && 1 <= port <= MAX_PORT
            && (Parse(u, Dialled(t.host, PortOf(t, option))) == Target(InBrackets(h), "", port, true)
                <==> t.host == h || t.host == InBrackets(h))
  {
    var t := Parse(u, server);
    AcceptedHostIsPlain(u, isAddr, server, option);
    LiteralParsesIff(u, t.host, DialPort(t, option));
  }

  lemma TrimmedStays(h: string)
    requires h != "" && !IsBracket(h[0]) && !IsBracket(h[|h| - 1])
    ensures Unbracketed(InBrackets(h)) == h
  {
    var b := InBrackets(h);
    assert forall k :: 1 <= k <= |h| ==> b[k] == h[k - 1];
    assert Left(b, 0) == 1;
    assert Right(b, 1, |b|) == |h| + 1;
    assert b[1..|h| + 1] == h;
  }

  /** Text that is its own URL host: accepted, with no instance, and dialled as
      it stands. */
  ghost predicate Stable(u: Unicode, isAddr: string -> bool, text: string) {
    var t := Parse(u, text);
    Accepted(u, isAddr, text, 0) && t.instance == "" && Dialled(t.host, PortOf(t, 0)) == text
  }

  /** What accepts a target once its text is taken apart. */
  lemma TargetIsAccepted(u: Unicode, isAddr: string -> bool, text: string, t: Target)
    requires Parse(u, text) == t && SplitProtocol(u, text).0 == ""
    requires t.instance == "" && Plain(t.host) && t.port <= MAX_PORT && (t.written <==> t.port > 0)
    requires Has(t.host, ':') ==> isAddr(Unbracketed(t.host))
    requires !EqualFold(u, t.host, "(localdb)")
    ensures Accepted(u, isAddr, text, 0)
  {
  }

  lemma BracketedIsStable(u: Unicode, isAddr: string -> bool, h: string, port: nat)
    requires KeepsAscii(u) && isAddr(h) && Plain(h) && Has(h, ':') && 1 <= port <= MAX_PORT
    requires !IsBracket(h[0]) && !IsBracket(h[|h| - 1])
    ensures Stable(u, isAddr, InBrackets(h) + ":" + NatText(port))
  {
    var b := InBrackets(h);
    BracketsKeep(h);
    assert b[0] == '[' && b[|h| + 1] == ']';
    var text := b + ":" + NatText(port);
    assert text[0] == '[';
    BracketedParses(u, b, port);
    BracketFirst(u, text);
    BracketIsNotLocalDB(u, b);
    TrimmedStays(h);
    TargetIsAccepted(u, isAddr, text, Target(b, "", port, true));
  }

  lemma PlainIsStable(u: Unicode, isAddr: string -> bool, host: string, port: nat)
    requires KeepsAscii(u) && Plain(host) && !Has(host, ':') && port <= MAX_PORT
    requires Resolve(u, host) == host && !EqualFold(u, host, "(localdb)")
    ensures Stable(u, isAddr, Dialled(host, port))
  {
    PlainParses(u, host, port);
    PlainTextHasNoProtocol(u, host, port);
    TargetIsAccepted(u, isAddr, Dialled(host, port), Target(host, "", port, port > 0));
  }

  /** The host of the URL is itself an address that is accepted and dialled as
      it stands. */
  lemma DialledIsStable(u: Unicode, isAddr: string -> bool, server: string, option: int)
    requires KeepsAscii(u) && Accepted(u, isAddr, server, option)
    requires var t := Parse(u, server);
             t.instance == "" &&
             (Has(t.host, ':') ==> t.host == Unbracketed(t.host) || t.host == InBrackets(Unbracketed(t.host)))
    ensures var t := Parse(u, server);
            Stable(u, isAddr, Dialled(t.host, PortOf(t, option)))
  {
    var t := Parse(u, server);
    AcceptedHostIsPlain(u, isAddr, server, option);
    if Has(t.host, ':') {
      LiteralIsStable(u, isAddr, t, option);
    } else {
      PlainIsStable(u, isAddr, t.host, PortOf(t, option));
    }
  }

  lemma LiteralIsDialledInBrackets(host: string, port: nat)
    requires Has(host, ':')
    requires var h := Unbracketed(host); host == h || host == InBrackets(h)
    ensures Dialled(host, port) ==
            InBrackets(Unbracketed(host)) + ":" + NatText(if port == 0 then DEFAULT_PORT else port)
  {
    assert InBrackets(Unbracketed(host))[0] == '[';
  }

  lemma UnbracketedLiteral(host: string)
    requires Plain(host) && Has(host, ':')
    ensures var h := Unbracketed(host);
            Plain(h) && Has(h, ':') && !IsBracket(h[0]) && !IsBracket(h[|h| - 1])
  {
    UnbracketedHas(host, ':');
    UnbracketedHas(host, ',');
    UnbracketedHas(host, '\\');
  }

  lemma LiteralIsStable(u: Unicode, isAddr: string -> bool, t: Target, option: int)
    requires KeepsAscii(u) && Plain(t.host) && Has(t.host, ':') && 0 <= PortOf(t, option) <= MAX_PORT
    requires var h := Unbracketed(t.host); isAddr(h) && (t.host == h || t.host == InBrackets(h))
    ensures Stable(u, isAddr, Dialled(t.host, PortOf(t, option)))
  {
    UnbracketedLiteral(t.host);
    LiteralIsDialledInBrackets(t.host, PortOf(t, option));
    BracketedIsStable(u, isAddr, Unbracketed(t.host), DialPort(t, option));
  }

  lemma BracketIsNotLocalDB(u: Unicode, host: string)
    requires KeepsAscii(u) && host != "" && host[0] == '['
    ensures !EqualFold(u, host, "(localdb)")
  {
    assert u.fold('[') != u.fold('(');
    FoldsApart(u, host, "(localdb)", 0);
  }

  lemma PlainTextHasNoProtocol(u: Unicode, host: string, port: nat)
    requires !Has(host, ':')
    ensures SplitProtocol(u, Dialled(host, port)).0 == ""
  {
    var s := Dialled(host, port);
    if port > 0 {
      assert s[..|host|] == host && s[|host| + 1..] == NatText(port);
      IndexIs(s, ':', |host|);
    }
  }

  /** The port survives exactly where no bracket is left open: "[fe80::1", which
      is accepted because brackets are trimmed before the address is checked,
      comes back as one long host. */
  lemma PortComesBackIff(u: Unicode, isAddr: string -> bool, server: string, option: int)
    requires KeepsAscii(u) && Accepted(u, isAddr, server, option)
    requires var t := Parse(u, server); t.instance == "" && Has(t.host, ':')
    ensures var t := Parse(u, server);
            Parse(u, Dialled(t.host, PortOf(t, option))).port == DialPort(t, option)
            <==> (t.host[0] == '[' ==> Enclosed(t.host))
  {
    var t := Parse(u, server);
    AcceptedHostIsPlain(u, isAddr, server, option);
    PortParsesIff(u, t.host, DialPort(t, option));
  }

  lemma PortParsesIff(u: Unicode, host: string, port: nat)
    requires KeepsAscii(u) && Plain(host) && Has(host, ':') && 1 <= port <= MAX_PORT
    ensures Parse(u, Dialled(host, port)).port == port <==> (host[0] == '[' ==> Enclosed(host))
  {
    if host[0] == '[' {
      BracketedParses(u, host, port);
    } else {
      BracketsKeep(host);
      BracketedParses(u, InBrackets(host), port);
    }
  }

  lemma UnclosedBracketIsAccepted(u: Unicode, isAddr: string -> bool)
    requires KeepsAscii(u) && isAddr("fe80::1")
    ensures Accepted(u, isAddr, "[fe80::1", 0)
    ensures Parse(u, Dialled("[fe80::1", 0)) == WithoutPort(Dialled("[fe80::1", 0))
  {
    UnclosedIsAccepted(u, isAddr);
    UnclosedParses(u);
    BracketedParses(u, "[fe80::1", DEFAULT_PORT);
  }

  lemma UnclosedIsAccepted(u: Unicode, isAddr: string -> bool)
    requires KeepsAscii(u) && isAddr("fe80::1")
    ensures Accepted(u, isAddr, "[fe80::1", 0)
  {
    UnclosedParses(u);
    UnclosedTrims();
    BracketFirst(u, "[fe80::1");
    BracketIsNotLocalDB(u, "[fe80::1");
    TargetIsAccepted(u, isAddr, "[fe80::1", WithoutPort("[fe80::1"));
  }

  lemma UnclosedParses(u: Unicode)
    requires KeepsAscii(u)
    ensures Parse(u, "[fe80::1") == WithoutPort("[fe80::1")
    ensures Plain("[fe80::1") && Has("[fe80::1", ':')
  {
    var s := "[fe80::1";
    BracketFirst(u, s);
    BracketIsNoAlias(u, s);
    UnclosedHasColons();
    UnnamedSplits(s);
    UnmarkedSplits(s);
  }

  lemma UnclosedHasColons()
    ensures Plain("[fe80::1") && Has("[fe80::1", ':') && PortMark("[fe80::1") == |"[fe80::1"|
  {
    var s := "[fe80::1";
    IndexIs(s, ':', 5);
    LastIndexIs(s, ':', 6);
    var h := s[..6];
    assert h[5] == ':';
    IndexIs(h, ':', 5);
  }

  lemma UnclosedTrims()
    ensures Unbracketed("[fe80::1") == "fe80::1"
  {
    var s := "[fe80::1";
    assert s[1] == 'f';
    assert Left(s, 0) == 1;
    assert s[7] == '1';
    assert Right(s, 1, 8) == 8;
    assert s[1..8] == "fe80::1";
  }
}
