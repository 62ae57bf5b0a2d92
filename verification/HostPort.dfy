/**
 Site names: canonicalSiteString in web/index.html prints what splitHostPort in
 cmd/certview/site.go parses. Host names go through internal/dnshost.
 */
module HostPort {
  import opened Common

  datatype Addr = V4(value: nat) | V6(value: nat, zone: string)

  /** Case folding with trimming, netip's addresses, and the IDNA lookup profile. */
  datatype Env = Env(
    fold: string -> string,
    parseAddr: string -> Option<Addr>,
    text: Addr -> string,
    toASCII: string -> Option<string>)

  const HTTPS: int := 443
  const MAX_PORT: int := 65535

  // ---------------------------------------------------------------- numbers

  predicate IsDigit(c: char) {
    '0' <= c <= '9'
  }

  /** A run of decimal digits. */
  function Number(s: string): Option<nat> {
    if s == [] then None
    else if !IsDigit(s[|s| - 1]) then None
    else if |s| == 1 then Some((s[0] - '0') as nat)
    else match Number(s[..|s| - 1])
      case None => None
      case Some(n) => Some(10 * n + (s[|s| - 1] - '0') as nat)
  }

  /**
   strconv.Atoi: an optional sign, then decimal digits. Larger than an int is an
   error there; here it is out of range.
   */
  function Atoi(s: string): Option<int> {
    if s != [] && (s[0] == '+' || s[0] == '-') then
      match Number(s[1..])
      case None => None
      case Some(n) => var v: int := n; Some(if s[0] == '-' then -v else v)
    else
      match Number(s) case None => None case Some(n) => Some(n)
  }

  function Digits(n: nat): string {
    if n < 10 then ['0' + n as char] else Digits(n / 10) + ['0' + (n % 10) as char]
  }

  lemma {:induction false} NumberOfDigits(n: nat)
    ensures Number(Digits(n)) == Some(n)
    ensures forall c :: c in Digits(n) ==> IsDigit(c)
  {
    if n >= 10 {
      NumberOfDigits(n / 10);
      var d := Digits(n);
      assert d[..|d| - 1] == Digits(n / 10);
    }
  }

  lemma AtoiOfDigits(n: nat)
    ensures Atoi(Digits(n)) == Some(n)
  {
    NumberOfDigits(n);
    assert Digits(n)[0] in Digits(n);
  }

  /** A port: 1 to 65535. */
  function Port(s: string): Option<int> {
    var v := Atoi(s);
    if v.Some? && 1 <= v.value <= MAX_PORT then v else None
  }

  // ---------------------------------------------------------------- parsing

  function LastIndex(s: string, c: char): Option<nat> {
    if s == [] then None
    else if s[|s| - 1] == c then Some(|s| - 1)
    else LastIndex(s[..|s| - 1], c)
  }

  lemma {:induction false} LastIndexIs(s: string, c: char)
    ensures match LastIndex(s, c)
      case Some(i) => i < |s| && s[i] == c && c !in s[i + 1..]
      case None => c !in s
  {
    if s != [] && s[|s| - 1] != c {
      LastIndexIs(s[..|s| - 1], c);
      assert s == s[..|s| - 1] + [s[|s| - 1]];
      var i := LastIndex(s[..|s| - 1], c);
      if i.Some? { assert s[i.value + 1..] == s[..|s| - 1][i.value + 1..] + [s[|s| - 1]]; }
    }
  }

  lemma {:induction false} LastIndexAppend(a: string, c: char, b: string)
    requires c !in b
    ensures LastIndex(a + [c] + b, c) == Some(|a|)
  {
    var s := a + [c] + b;
    if b != [] {
      assert s[..|s| - 1] == a + [c] + b[..|b| - 1];
      LastIndexAppend(a, c, b[..|b| - 1]);
    }
  }

  /** dnshost.Normalize. */
  function Normalize(env: Env, host: string): Option<string> {
    var h := env.fold(host);
    if h == "" then None
    else if env.parseAddr(h).Some? then Some(env.text(env.parseAddr(h).value))
    else env.toASCII(h)
  }

  /** splitHostPort. */
  function Split(env: Env, hp: string): Option<(string, int)> {
    if hp == "" then None
    else if hp[0] == '[' then SplitBracketed(env, hp)
    else
      var i := LastIndex(hp, ':');
      if i.None? || i.value >= |hp| then
        match Normalize(env, hp) case None => None case Some(h) => Some((h, HTTPS))
      else
        var port := Port(hp[i.value + 1..]);
        if port.None? then None
        else match Normalize(env, hp[..i.value]) case None => None case Some(h) => Some((h, port.value))
  }

  /** An IPv6 literal: [address] or [address]:port. */
  function SplitBracketed(env: Env, hp: string): Option<(string, int)>
    requires hp != [] && hp[0] == '['
  {
    var end := LastIndex(hp, ']');
    if end.None? || end.value < 1 || end.value >= |hp| then None else
    var addr := env.parseAddr(hp[1..end.value]);
    if addr.None? || !addr.value.V6? then None else
    var host, rest := env.text(addr.value), hp[end.value + 1..];
    if rest == [] then Some((host, HTTPS))
    else if rest[0] != ':' then None
    else match Port(rest[1..]) case None => None case Some(p) => Some((host, p))
  }

  /** ds says a port from 1 to 65535. */
  predicate SaysPort(ds: string, port: int) {
    Atoi(ds) == Some(port) && 1 <= port <= 65535
  }

  /** The i-th character is the last one of this kind. */
  predicate IsLast(s: string, c: char, i: nat) {
    i < |s| && s[i] == c && c !in s[i + 1..]
  }

  /** "[address]" or "[address]:port": an IPv6 address up to the last bracket. */
  ghost predicate IsBracketed(env: Env, hp: string, host: string, port: int) {
    exists end: nat :: IsLast(hp, ']', end) && end > 0 && IsAddress(env, hp[1..end], host)
      && SaysPortOrNone(hp[end + 1..], port)
  }

  ghost predicate IsAddress(env: Env, text: string, host: string) {
    exists a: Addr :: env.parseAddr(text) == Some(a) && a.V6? && host == env.text(a)
  }

  /** ":port" or nothing for the port of https. */
  predicate SaysPortOrNone(rest: string, port: int) {
    if rest == "" then port == 443 else rest[0] == ':' && SaysPort(rest[1..], port)
  }

  /** "host" or "host:port", split at the last colon. */
  ghost predicate IsPlain(env: Env, hp: string, host: string, port: int) {
    || (':' !in hp && Normalize(env, hp) == Some(host) && port == 443)
    || exists i: nat :: IsLast(hp, ':', i) && Normalize(env, hp[..i]) == Some(host) && SaysPort(hp[i + 1..], port)
  }

  lemma LastIs(s: string, c: char)
    ensures forall i: nat :: IsLast(s, c, i) <==> LastIndex(s, c) == Some(i)
    ensures LastIndex(s, c).None? <==> c !in s
  {
    LastIndexIs(s, c);
    forall i: nat | IsLast(s, c, i) ensures LastIndex(s, c) == Some(i) { LastAt(s, c, i); }
  }

  lemma LastAt(s: string, c: char, i: nat)
    requires IsLast(s, c, i)
    ensures LastIndex(s, c) == Some(i)
  {
    LastIndexAppend(s[..i], c, s[i + 1..]);
    assert s == s[..i] + [c] + s[i + 1..];
  }

  /** Exactly what is accepted, and as which site: any other port is refused. */
  lemma AcceptedIff(env: Env, hp: string, host: string, port: int)
    ensures Split(env, hp) == Some((host, port)) <==>
      hp != "" && if hp[0] == '[' then IsBracketed(env, hp, host, port) else IsPlain(env, hp, host, port)
  {
    if hp != "" {
      if hp[0] == '[' { BracketedIff(env, hp, host, port); } else { PlainIff(env, hp, host, port); }
    }
  }

  lemma BracketedIff(env: Env, hp: string, host: string, port: int)
    requires hp != "" && hp[0] == '['
    ensures SplitBracketed(env, hp) == Some((host, port)) <==> IsBracketed(env, hp, host, port)
  {
    LastIs(hp, ']');
    var end := LastIndex(hp, ']');
    if end.Some? && end.value > 0 {
      assert IsLast(hp, ']', end.value);
      BracketedAt(env, hp, host, port, end.value);
    }
  }

  lemma BracketedAt(env: Env, hp: string, host: string, port: int, end: nat)
    requires hp != "" && hp[0] == '[' && 0 < end < |hp| && LastIndex(hp, ']') == Some(end)
    ensures SplitBracketed(env, hp) == Some((host, port)) <==>
      IsAddress(env, hp[1..end], host) && SaysPortOrNone(hp[end + 1..], port)
  {
  }

  lemma PlainIff(env: Env, hp: string, host: string, port: int)
    requires hp != "" && hp[0] != '['
    ensures Split(env, hp) == Some((host, port)) <==> IsPlain(env, hp, host, port)
  {
    LastIs(hp, ':');
    var i := LastIndex(hp, ':');
    if i.Some? {
      assert IsLast(hp, ':', i.value);
      PlainAt(env, hp, host, port, i.value);
    }
  }

  lemma PlainAt(env: Env, hp: string, host: string, port: int, i: nat)
    requires hp != "" && hp[0] != '[' && i < |hp| && LastIndex(hp, ':') == Some(i)
    ensures Split(env, hp) == Some((host, port)) <==>
      Normalize(env, hp[..i]) == Some(host) && SaysPort(hp[i + 1..], port)
  {
  }

  // ---------------------------------------------------------------- printing

  /** canonicalSiteString. */
  function Canonical(host: string, port: int): string {
    var hp := if ':' in host then "[" + host + "]" else host;
    if port != 0 && port != HTTPS then hp + ":" + Decimal(port) else hp
  }

  function Decimal(n: int): string {
    if n < 0 then "-" + Digits(-n) else Digits(n)
  }

  /** The port of https is left out, any other is printed in decimal after the host. */
  lemma PrintedForm(host: string, port: int)
    requires 1 <= port <= MAX_PORT
    ensures Canonical(host, HTTPS) == if ':' in host then "[" + host + "]" else host
    ensures port != HTTPS ==>
      Canonical(host, port) == Canonical(host, HTTPS) + ":" + Digits(port) && Atoi(Digits(port)) == Some(port)
  {
    AtoiOfDigits(port);
  }

  // ---------------------------------------------------------------- the round trip

  /** Printed addresses parse back; only IPv6 ones hold a colon; IDNA gives neither a colon nor a bracket. */
  ghost predicate GoodEnv(env: Env) {
    && (forall a: Addr :: env.parseAddr(env.text(a)) == Some(a) && (a.V6? <==> ':' in env.text(a)))
    && (forall a :: env.text(a) != "" && env.text(a)[0] != '[')
    && (forall h :: env.toASCII(h).Some? ==> ':' !in env.toASCII(h).value && '[' !in env.toASCII(h).value)
  }

  /** A host name or an IPv4 address in normal form, or a printed IPv6 address. */
  ghost predicate NormalHost(env: Env, host: string) {
    || (':' !in host && host != "" && host[0] != '[' && Normalize(env, host) == Some(host))
    || (exists a: Addr :: a.V6? && host == env.text(a))
  }

  /** Parsing undoes printing. */
  lemma PrintThenParse(env: Env, host: string, port: int)
    requires GoodEnv(env) && NormalHost(env, host) && 1 <= port <= MAX_PORT
    ensures Split(env, Canonical(host, port)) == Some((host, port))
  {
    if ':' in host {
      var a: Addr :| a.V6? && host == env.text(a);
      AddressRoundTrip(env, a, port);
    } else {
      NameRoundTrip(env, host, port);
    }
  }

  lemma AddressRoundTrip(env: Env, a: Addr, port: int)
    requires GoodEnv(env) && a.V6? && 1 <= port <= MAX_PORT
    ensures Split(env, Canonical(env.text(a), port)) == Some((env.text(a), port))
  {
    AddressForm(env.text(a), port);
    BracketedSplits(env, Canonical(env.text(a), port), |env.text(a)| + 1, a, port);
  }

  /** What follows the bracket says the port. */
  predicate TailSays(tail: string, port: int) {
    if tail == [] then port == HTTPS else tail[0] == ':' && Port(tail[1..]) == Some(port)
  }

  lemma AddressForm(host: string, port: int)
    requires ':' in host && 1 <= port <= MAX_PORT
    ensures
      var hp := Canonical(host, port);
      && |hp| >= |host| + 2 && hp[0] == '[' && LastIndex(hp, ']') == Some(|host| + 1)
      && hp[1..|host| + 1] == host && TailSays(hp[|host| + 2..], port)
  {
    CanonicalIPv6(host, port);
    BracketsParse(host, Tail(port));
  }

  lemma NameRoundTrip(env: Env, host: string, port: int)
    requires ':' !in host && host != "" && host[0] != '[' && Normalize(env, host) == Some(host) && 1 <= port <= MAX_PORT
    ensures Split(env, Canonical(host, port)) == Some((host, port))
  {
    CanonicalName(host, port);
    var tail := Tail(port);
    var hp := host + tail;
    assert hp[|host|..] == tail;
    NameSplits(env, hp, host, port);
  }

  lemma BracketedSplits(env: Env, hp: string, end: nat, a: Addr, port: int)
    requires GoodEnv(env) && a.V6? && 0 < end < |hp| && hp[0] == '[' && LastIndex(hp, ']') == Some(end)
    requires hp[1..end] == env.text(a) && 1 <= port <= MAX_PORT
    requires TailSays(hp[end + 1..], port)
    ensures Split(env, hp) == Some((env.text(a), port))
  {
  }

  lemma NameSplits(env: Env, hp: string, host: string, port: int)
    requires host != "" && host[0] != '[' && Normalize(env, host) == Some(host) && host <= hp
    requires
      var tail := hp[|host|..];
      if tail == [] then port == HTTPS && LastIndex(hp, ':') == None
      else LastIndex(hp, ':') == Some(|host|) && Port(tail[1..]) == Some(port)
    ensures Split(env, hp) == Some((host, port))
  {
    assert hp[..|host|] == host;
    if hp[|host|..] == [] {
      assert hp == host;
    } else {
      assert hp[|host|..][1..] == hp[|host| + 1..];
    }
  }

  lemma CanonicalName(host: string, port: int)
    requires ':' !in host && 1 <= port <= MAX_PORT
    ensures Canonical(host, port) == host + Tail(port)
    ensures if port ==
      HTTPS then LastIndex(host + Tail(port), ':') == None else LastIndex(host + Tail(port), ':') == Some(|host|)
    ensures port != HTTPS ==> Port(Tail(port)[1..]) == Some(port)
  {
    if port == HTTPS {
      LastIndexIs(host, ':');
      assert host + Tail(port) == host;
    } else {
      TailParses(port);
      ColonIsLast(host, Digits(port), port);
    }
  }

  lemma TailParses(port: int)
    requires 1 <= port <= MAX_PORT && port != HTTPS
    ensures Port(Tail(port)[1..]) == Some(port) && ':' !in Digits(port)
  {
    AtoiOfDigits(port);
    NumberOfDigits(port);
    assert Tail(port)[1..] == Digits(port);
  }

  lemma ColonIsLast(host: string, digits: string, port: int)
    requires ':' !in host && ':' !in digits && 1 <= port && port != HTTPS && digits == Digits(port)
    ensures Canonical(host, port) == host + Tail(port)
    ensures LastIndex(host + Tail(port), ':') == Some(|host|)
  {
    var s := host + [':'] + digits;
    LastIndexAppend(host, ':', digits);
    assert host + Tail(port) == s;
    assert host + ":" + digits == s;
  }

  function Tail(port: nat): string {
    if port == HTTPS then "" else [':'] + Digits(port)
  }

  lemma CanonicalIPv6(host: string, port: int)
    requires ':' in host && 1 <= port <= MAX_PORT
    ensures Canonical(host, port) == "[" + host + [']'] + Tail(port)
    ensures ']' !in Tail(port)
    ensures Tail(port) == [] || (Tail(port)[0] == ':' && Port(Tail(port)[1..]) == Some(port))
  {
    AtoiOfDigits(port);
    NumberOfDigits(port);
    if port != HTTPS {
      assert Tail(port)[1..] == Digits(port);
    } else {
      assert Canonical(host, port) + "" == Canonical(host, port);
    }
  }

  lemma BracketsParse(host: string, tail: string)
    requires ']' !in tail
    ensures
      var hp := "[" + host + [']'] + tail;
      hp[0] == '[' && LastIndex(hp, ']') == Some(|host| + 1) && hp[1..|host| + 1] == host && hp[|host| + 2..] == tail
  {
    LastIndexAppend("[" + host, ']', tail);
  }

  /** Two normal sites with the same printed form are the same. */
  lemma PrintIsInjective(env: Env, h1: string, p1: int, h2: string, p2: int)
    requires GoodEnv(env) && NormalHost(env, h1) && NormalHost(env, h2)
    requires 1 <= p1 <= MAX_PORT && 1 <= p2 <= MAX_PORT && Canonical(h1, p1) == Canonical(h2, p2)
    ensures h1 == h2 && p1 == p2
  {
    PrintThenParse(env, h1, p1);
    PrintThenParse(env, h2, p2);
  }

  /** What Normalize gives is an address or came from IDNA. */
  lemma NormalizeGives(env: Env, h: string)
    requires Normalize(env, h).Some?
    ensures (exists a :: Normalize(env, h).value == env.text(a)) || exists x :: env.toASCII(x) == Normalize(env, h)
  {
    var x := env.fold(h);
    if env.parseAddr(x).Some? {
      assert Normalize(env, h).value == env.text(env.parseAddr(x).value);
    } else {
      assert env.toASCII(x) == Normalize(env, h);
    }
  }

  lemma BracketedGives(env: Env, hp: string) returns (a: Addr)
    requires hp != "" && hp[0] == '[' && Split(env, hp).Some?
    ensures a.V6? && Split(env, hp).value.0 == env.text(a) && 1 <= Split(env, hp).value.1 <= MAX_PORT
  {
    a := env.parseAddr(hp[1..LastIndex(hp, ']').value]).value;
  }

  lemma NameGives(env: Env, hp: string) returns (h: string)
    requires hp != "" && hp[0] != '[' && Split(env, hp).Some?
    ensures Normalize(env, h) == Some(Split(env, hp).value.0) && 1 <= Split(env, hp).value.1 <= MAX_PORT
  {
    var i := LastIndex(hp, ':');
    h := if i.None? || i.value >= |hp| then hp else hp[..i.value];
  }

  /** What Split accepts has a port in range, and a host that is an address or came from IDNA. */
  lemma SplitGives(env: Env, hp: string)
    requires Split(env, hp).Some?
    ensures
      var (host, port) := Split(env, hp).value;
      && 1 <= port <= MAX_PORT
      && ((exists a :: host == env.text(a)) || (exists h :: env.toASCII(h) == Some(host)))
      && (hp[0] == '[' ==> exists a: Addr :: a.V6? && host == env.text(a))
      && (hp[0] != '[' ==> exists h :: Normalize(env, h) == Some(host))
  {
    if hp[0] == '[' {
      var a := BracketedGives(env, hp);
    } else {
      var h := NameGives(env, hp);
      NormalizeGives(env, h);
    }
  }

  /**
   Printing what was parsed and parsing it again changes nothing, exactly when
   the host is not empty: should IDNA map a name to nothing, the site's printed
   form is refused.
   */
  lemma ParseThenPrint(env: Env, hp: string)
    requires GoodEnv(env) && Split(env, hp).Some?
    requires forall h :: Normalize(env, h).Some? && Normalize(env, h).value != "" ==>
      Normalize(env, Normalize(env, h).value) == Normalize(env, h)
    requires env.fold("") == ""
    ensures
      var site := Split(env, hp).value;
      Split(env, Canonical(site.0, site.1)) == Some(site) <==> site.0 != ""
  {
    var (host, port) := Split(env, hp).value;
    SplitGives(env, hp);
    if host == "" {
      PrintEmptyHost(env, port);
    } else {
      assert NormalHost(env, host);
      PrintThenParse(env, host, port);
    }
  }

  lemma PrintEmptyHost(env: Env, port: int)
    requires env.fold("") == "" && 1 <= port <= MAX_PORT
    ensures Split(env, Canonical("", port)) == None
  {
    if port != HTTPS {
      NumberOfDigits(port);
      assert Canonical("", port) == [] + [':'] + Digits(port);
      LastIndexAppend([], ':', Digits(port));
    }
  }

  /** Any name IDNA maps to nothing fails: it parses, and its printed form is refused. */
  lemma MappedToNothing(env: Env, name: string)
    requires name != "" && name[0] != '[' && ':' !in name
    requires env.fold(name) != "" && env.parseAddr(env.fold(name)).None? && env.toASCII(env.fold(name)) == Some("")
    ensures Split(env, name) == Some(("", HTTPS)) && Split(env, Canonical("", HTTPS)) == None
  {
    LastIndexIs(name, ':');
  }
}
