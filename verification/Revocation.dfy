/**
 The revocation phase of analyzeData (cmd/certview/handler.go): which CRL or
 OCSP response decides each certificate of the chain, and the overall verdict.
 */
module Revocation {
  import opened Common
  import opened PKI
  import opened IDP
  import URLs

  const MAX_CDP_URLS: nat := 3
  const MAX_OCSP_URLS: nat := 2

  datatype Signature = Verified | Bad | Unchecked

  datatype OCSPStatus = Good | Revoked | UnknownStatus

  /** What a response says of the certificate; verified covers its signature and validity period. */
  datatype OCSPResult = OCSPResult(status: OCSPStatus, verified: bool, thisUpdate: int, nextUpdate: Option<int>)

  datatype OCSPAnswer = OCSPAnswer(der: Bytes, res: OCSPResult, fetched: bool)

  /** Where the context is checked for entry i: before each URL of the two loops, and after them. */
  datatype Checkpoint = CachedHead(k: nat) | FetchHead(k: nat) | AfterCdp

  /**
   What the analysis meets: the C library's answers, the CRLs and responses each
   source gives for entry i and its k-th URL, the clock at each, and the context.
   */
  datatype Env = Env(
    verify: (Bytes, Bytes) -> Signature,
    isRevoked: (Bytes, Bytes) -> Option<bool>,
    cached: (nat, nat) -> Option<CRLInfo>,
    fetched: (nat, nat) -> Option<CRLInfo>,
    byIssuer: nat -> Option<CRLInfo>,
    ocspCached: nat -> Option<Bytes>,
    ocspRequest: (Bytes, Bytes) -> bool,
    ocspPost: (nat, nat) -> Option<Bytes>,
    parseOCSP: (Bytes, Bytes, Bytes) -> Option<OCSPResult>,
    clock: (nat, Source) -> int,
    trustedPath: (nat, nat) -> bool,
    top: nat -> bool,
    done: (nat, Checkpoint) -> bool)

  /** A CRL from the cache or the net under the k-th URL, or from the store by issuer. */
  datatype Source = Cache(k: nat) | Net(k: nat) | Store

  datatype Via = CRL | OCSP

  datatype Decision = Undecided | NotRevoked(via: Via) | IsRevoked(via: Via)

  /** What one CRL says of a certificate; Silent is authoritative but not covering. */
  datatype Verdict = NotAuthoritative | Silent | Decides(d: Decision)

  /** A CRL written to the store, with what justified it. */
  datatype SavedCRL = SavedCRL(entry: nat, k: nat, url: string, crl: CRLInfo, issuer: CertInfo, at: int)

  /** An OCSP response offered to the store: for which entry, and the CA that must verify to trust. */
  datatype KeptOCSP = KeptOCSP(entry: nat, issuer: CertInfo, answer: OCSPAnswer)

  // ---------------------------------------------------------------- one CRL

  /** The next CA up the chain. */
  function NextCA(chain: seq<CertInfo>, j: nat): Option<nat>
    decreases |chain| - j
  {
    if j >= |chain| then None else if chain[j].isCA then Some(j) else NextCA(chain, j + 1)
  }

  predicate NamesIssuer(c: CertInfo, crl: CRLInfo) {
    c.subjectName == crl.issuerName && !(crl.aki != "" && c.ski != "" && crl.aki != c.ski)
  }

  function FirstNamed(chain: seq<CertInfo>, crl: CRLInfo, j: nat): Option<CertInfo>
    decreases |chain| - j
  {
    if j >= |chain| then None else if NamesIssuer(chain[j], crl) then Some(chain[j]) else FirstNamed(chain, crl, j + 1)
  }

  /** The chain certificate that should have signed the CRL. */
  function CRLIssuer(chain: seq<CertInfo>, i: nat, crl: CRLInfo): Option<CertInfo> {
    var named := if crl.issuerName != [] then FirstNamed(chain, crl, 0) else None;
    if named.Some? then named
    else match NextCA(chain, i + 1) case None => None case Some(j) => if j < |chain| then Some(chain[j]) else None
  }

  predicate FreshAt(crl: CRLInfo, t: int) {
    !(crl.thisUpdate.Some? && t < crl.thisUpdate.value) && !(crl.nextUpdate.Some? && t > crl.nextUpdate.value)
  }

  /** Verified by a chain certificate that may sign CRLs, and fresh. */
  predicate Trustworthy(env: Env, chain: seq<CertInfo>, i: nat, crl: CRLInfo, t: int) {
    var issuer := CRLIssuer(chain, i, crl);
    issuer.Some? && CanSignCRL(issuer.value) && env.verify(crl.der, issuer.value.der).Verified? && FreshAt(crl, t)
  }

  ghost function VerdictOf(env: Env, chain: seq<CertInfo>, i: nat, crl: CRLInfo, t: int): Verdict
    requires i < |chain|
  {
    var revoked := env.isRevoked(crl.der, chain[i].der);
    if !Trustworthy(env, chain, i, crl, t) || revoked.None? then NotAuthoritative
    else if revoked.value then Decides(IsRevoked(CRL))
    else if CoversCert(crl, chain[i]) then Decides(NotRevoked(CRL))
    else Silent
  }

  method FindNextCA(chain: seq<CertInfo>, i: nat) returns (r: Option<nat>)
    ensures r == NextCA(chain, i + 1)
    ensures r.Some? ==> i < r.value < |chain|
  {
    var j := i + 1;
    while j < |chain|
      invariant i < j && NextCA(chain, i + 1) == NextCA(chain, j)
    {
      if chain[j].isCA { return Some(j); }
      j := j + 1;
    }
    return None;
  }

  method FindCRLIssuer(chain: seq<CertInfo>, i: nat, issuerIdx: Option<nat>, crl: CRLInfo) returns (r: Option<CertInfo>)
    requires issuerIdx == NextCA(chain, i + 1) && (issuerIdx.Some? ==> issuerIdx.value < |chain|)
    ensures r == CRLIssuer(chain, i, crl)
  {
    if crl.issuerName != [] {
      for j := 0 to |chain|
        invariant FirstNamed(chain, crl, 0) == FirstNamed(chain, crl, j)
      {
        if chain[j].subjectName != crl.issuerName { continue; }
        if crl.aki != "" && chain[j].ski != "" && crl.aki != chain[j].ski { continue; }
        return Some(chain[j]);
      }
    }
    return if issuerIdx.Some? then Some(chain[issuerIdx.value]) else None;
  }

  /** processCRL, for a certificate not decided yet. */
  method ProcessCRL(env: Env, chain: seq<CertInfo>, i: nat, issuerIdx: Option<nat>, crl: CRLInfo, source: Source,
      url: string)
    returns (v: Verdict, saved: Option<SavedCRL>)
    requires i < |chain| && issuerIdx == NextCA(chain, i + 1) && (issuerIdx.Some? ==> issuerIdx.value < |chain|)
    ensures v == VerdictOf(env, chain, i, crl, env.clock(i, source))
    ensures saved.Some? <==> source.Net? && !v.NotAuthoritative? && env.trustedPath(i, source.k)
    ensures saved.Some? ==>
      var issuer := CRLIssuer(chain, i, crl);
      issuer.Some? && saved.value == SavedCRL(i, source.k, url, crl, issuer.value, env.clock(i, source))
    ensures saved.Some? && env.fetched(i, source.k) == Some(crl) && source.k < |Usable(chain[i])| ==>
      Usable(chain[i])[source.k] == url ==>
      SaveJustified(env, chain, saved.value)
  {
    v, saved := NotAuthoritative, None;
    var issuer := FindCRLIssuer(chain, i, issuerIdx, crl);
    var signature := Unchecked;
    if issuer.Some? && CanSignCRL(issuer.value) {
      signature := env.verify(crl.der, issuer.value.der);
    }
    var now := env.clock(i, source);
    var freshOK := true;
    if crl.thisUpdate.Some? && now < crl.thisUpdate.value {
      freshOK := false;
    } else if crl.nextUpdate.Some? && now > crl.nextUpdate.value {
      freshOK := false;
    }
    if signature.Verified? && freshOK {
      var revoked := env.isRevoked(crl.der, chain[i].der);
      if revoked.Some? {
        var covers := Covers(crl, chain[i]);
        v := if revoked.value then Decides(IsRevoked(CRL)) else if covers then Decides(NotRevoked(CRL)) else Silent;
      }
    }
    if !v.NotAuthoritative? && source.Net? && env.trustedPath(i, source.k) {
      saved := Some(SavedCRL(i, source.k, url, crl, issuer.value, now));
    }
  }

  // ---------------------------------------------------------------- one certificate

  /** After some URLs: the decision, and which URLs' cached copies were authoritative. */
  datatype Scan = Scan(d: Decision, ok: map<string, bool>)

  function Usable(c: CertInfo): seq<string> {
    URLs.FirstUsable(c.cdpURLs, MAX_CDP_URLS)
  }

  ghost function CachedScan(env: Env, chain: seq<CertInfo>, i: nat, k: nat): Scan
    requires i < |chain| && k <= |Usable(chain[i])|
  {
    if k == 0 then Scan(Undecided, map[]) else
    var s, url := CachedScan(env, chain, i, k - 1), Usable(chain[i])[k - 1];
    if s.d != Undecided || env.cached(i, k - 1).None? then s else
    var v := VerdictOf(env, chain, i, env.cached(i, k - 1).value, env.clock(i, Cache(k - 1)));
    Scan(if v.Decides? then v.d else Undecided, s.ok[url := !v.NotAuthoritative?])
  }

  ghost function FetchScan(env: Env, chain: seq<CertInfo>, i: nat, k: nat): Decision
    requires i < |chain| && k <= |Usable(chain[i])|
  {
    var s := CachedScan(env, chain, i, |Usable(chain[i])|);
    if k == 0 then s.d else
    var d := FetchScan(env, chain, i, k - 1);
    if d != Undecided then d else FetchStep(env, chain, i, k - 1, Usable(chain[i])[k - 1], s.ok)
  }

  /** Whether the certificate has a revocation source and is not self-signed. */
  predicate Relevant(c: CertInfo) {
    !c.selfSigned && (c.cdpURLs != [] || c.ocspURLs != [])
  }

  /** The first response of the first n responders, from the k-th on, that parses. */
  function Posted(env: Env, i: nat, cert: Bytes, issuer: Bytes, k: nat, n: nat): Option<OCSPAnswer>
    decreases n - k
  {
    if k >= n then None else
    var der := env.ocspPost(i, k);
    if der.Some? && env.parseOCSP(cert, issuer, der.value).Some? then
      Some(OCSPAnswer(der.value, env.parseOCSP(cert, issuer, der.value).value, true))
    else Posted(env, i, cert, issuer, k + 1, n)
  }

  /** The response resolveOCSP settles on: the stored one if it parses, else the first that parses. */
  function OCSPFor(env: Env, i: nat, cert: CertInfo, issuer: CertInfo): Option<OCSPAnswer> {
    var der := env.ocspCached(i);
    if der.Some? && env.parseOCSP(cert.der, issuer.der, der.value).Some? then
      Some(OCSPAnswer(der.value, env.parseOCSP(cert.der, issuer.der, der.value).value, false))
    else if !env.ocspRequest(cert.der, issuer.der) then None
    else Posted(env, i, cert.der, issuer.der, 0, |URLs.FirstUsable(cert.ocspURLs, MAX_OCSP_URLS)|)
  }

  function OCSPOf(env: Env, chain: seq<CertInfo>, i: nat): Option<OCSPAnswer>
    requires i < |chain|
  {
    var j := NextCA(chain, i + 1);
    if j.Some? && j.value < |chain| then OCSPFor(env, i, chain[i], chain[j.value]) else None
  }

  function OCSPDecision(o: Option<OCSPAnswer>): Decision {
    if o.None? || !o.value.res.verified then Undecided
    else match o.value.res.status
      case Revoked => IsRevoked(OCSP)
      case Good => NotRevoked(OCSP)
      case UnknownStatus => Undecided
  }

  method ResolveOCSP(env: Env, i: nat, cert: CertInfo, issuer: CertInfo) returns (o: Option<OCSPAnswer>)
    ensures o == OCSPFor(env, i, cert, issuer)
  {
    var der := env.ocspCached(i);
    if der.Some? {
      var res := env.parseOCSP(cert.der, issuer.der, der.value);
      if res.Some? { return Some(OCSPAnswer(der.value, res.value, false)); }
    }
    if !env.ocspRequest(cert.der, issuer.der) { return None; }
    var urls := URLs.UsableURLs(cert.ocspURLs, MAX_OCSP_URLS);
    for k := 0 to |urls|
      invariant Posted(env, i, cert.der, issuer.der, 0, |urls|) == Posted(env, i, cert.der, issuer.der, k, |urls|)
    {
      var body := env.ocspPost(i, k);
      if body.None? { continue; }
      var res := env.parseOCSP(cert.der, issuer.der, body.value);
      if res.Some? { return Some(OCSPAnswer(body.value, res.value, true)); }
    }
    return None;
  }

  /** The decision: cached copies in order, then fetched ones, then the store, then OCSP. */
  ghost function DecisionOf(env: Env, chain: seq<CertInfo>, i: nat): Decision
    requires i < |chain|
  {
    if !Relevant(chain[i]) then Undecided else
    var d := FetchScan(env, chain, i, |Usable(chain[i])|);
    if d != Undecided then d else
    var v := if env.byIssuer(i).None? then NotAuthoritative
      else VerdictOf(env, chain, i, env.byIssuer(i).value, env.clock(i, Store));
    if v.Decides? then v.d
    else if chain[i].ocspURLs != [] && NextCA(chain, i + 1).Some? then OCSPDecision(OCSPOf(env, chain, i))
    else Undecided
  }

  /** The CRLs offered to the store while fetching the first k URLs: authoritative ones with a trusted issuer. */
  ghost function FetchSaves(env: Env, chain: seq<CertInfo>, i: nat, k: nat): seq<SavedCRL>
    requires i < |chain| && k <= |Usable(chain[i])|
  {
    if k == 0 then [] else
    FetchSaves(env, chain, i, k - 1) +
    if FetchScan(env, chain, i, k - 1) != Undecided then []
    else SaveStep(env, chain, i, k - 1, Usable(chain[i])[k - 1], CachedScan(env, chain, i, |Usable(chain[i])|).ok)
  }

  ghost function SaveStep(env: Env, chain: seq<CertInfo>, i: nat, k: nat, url: string, ok: map<string,
      bool>): seq<SavedCRL>
    requires i < |chain|
  {
    if (url in ok && ok[url]) || env.fetched(i, k).None? then [] else
    var crl, t := env.fetched(i, k).value, env.clock(i, Net(k));
    if VerdictOf(env, chain, i, crl, t).NotAuthoritative? || !env.trustedPath(i, k) then []
    else [SavedCRL(i, k, url, crl, CRLIssuer(chain, i, crl).value, t)]
  }

  /** All offers of the first n entries. */
  ghost function SavesOf(env: Env, chain: seq<CertInfo>, n: nat): seq<SavedCRL>
    requires n <= |chain|
  {
    if n == 0 then []
    else
      SavesOf(env, chain, n - 1) +
      if Relevant(chain[n - 1]) then FetchSaves(env, chain, n - 1, |Usable(chain[n - 1])|) else []
  }

  ghost predicate SaveJustified(env: Env, chain: seq<CertInfo>, s: SavedCRL) {
    && s.entry < |chain| && env.fetched(s.entry, s.k) == Some(s.crl)
    && s.k < |Usable(chain[s.entry])| && s.url == Usable(chain[s.entry])[s.k]
    && Some(s.issuer) == CRLIssuer(chain, s.entry, s.crl) && CanSignCRL(s.issuer)
    && env.verify(s.crl.der, s.issuer.der).Verified? && FreshAt(s.crl, s.at) && env.trustedPath(s.entry, s.k)
  }

  /** Once the context is done it stays done. */
  ghost predicate ContextStaysDone(env: Env) {
    forall i, k :: env.done(i, CachedHead(k)) || env.done(i, FetchHead(k)) ==> env.done(i, AfterCdp)
  }

  /** The loop over cached copies; it ends early once decided or cancelled. */
  method ScanCached(env: Env, chain: seq<CertInfo>, i: nat, issuerIdx: Option<nat>, urls: seq<string>) returns (s: Scan)
    requires i < |chain| && issuerIdx == NextCA(chain, i + 1) && (issuerIdx.Some? ==> issuerIdx.value < |chain|)
    requires urls == Usable(chain[i]) && ContextStaysDone(env)
    ensures env.done(i, AfterCdp) || s == CachedScan(env, chain, i, |urls|)
  {
    s := Scan(Undecided, map[]);
    var k := 0;
    while k < |urls|
      invariant k <= |urls| && s == CachedScan(env, chain, i, k)
    {
      if s.d != Undecided {
        SettledStays(env, chain, i, k);
        return;
      }
      if env.done(i, CachedHead(k)) { return; }
      var crl := env.cached(i, k);
      if crl.Some? {
        var v, _ := ProcessCRL(env, chain, i, issuerIdx, crl.value, Cache(k), urls[k]);
        s := Scan(if v.Decides? then v.d else Undecided, s.ok[urls[k] := !v.NotAuthoritative?]);
      }
      k := k + 1;
    }
  }

  lemma {:induction false} SettledStays(env: Env, chain: seq<CertInfo>, i: nat, k: nat)
    requires i < |chain| && k <= |Usable(chain[i])| && CachedScan(env, chain, i, k).d != Undecided
    ensures CachedScan(env, chain, i, |Usable(chain[i])|) == CachedScan(env, chain, i, k)
    decreases |Usable(chain[i])| - k
  {
    if k < |Usable(chain[i])| { SettledStays(env, chain, i, k + 1); }
  }

  lemma {:induction false} FetchSettledStays(env: Env, chain: seq<CertInfo>, i: nat, k: nat)
    requires i < |chain| && k <= |Usable(chain[i])| && FetchScan(env, chain, i, k) != Undecided
    ensures FetchScan(env, chain, i, |Usable(chain[i])|) == FetchScan(env, chain, i, k)
    ensures FetchSaves(env, chain, i, |Usable(chain[i])|) == FetchSaves(env, chain, i, k)
    decreases |Usable(chain[i])| - k
  {
    if k < |Usable(chain[i])| { FetchSettledStays(env, chain, i, k + 1); }
  }

  /** One URL to fetch, for a certificate not decided yet. */
  ghost function FetchStep(env: Env, chain: seq<CertInfo>, i: nat, k: nat, url: string, ok: map<string, bool>): Decision
    requires i < |chain|
  {
    if (url in ok && ok[url]) || env.fetched(i, k).None? then Undecided else
    var v := VerdictOf(env, chain, i, env.fetched(i, k).value, env.clock(i, Net(k)));
    if v.Decides? then v.d else Undecided
  }

  method FetchOne(env: Env, chain: seq<CertInfo>, i: nat, issuerIdx: Option<nat>, k: nat, url: string,
      ok: map<string, bool>)
    returns (d: Decision, saves: seq<SavedCRL>)
    requires i < |chain| && issuerIdx == NextCA(chain, i + 1) && (issuerIdx.Some? ==> issuerIdx.value < |chain|)
    requires k < |Usable(chain[i])| && url == Usable(chain[i])[k]
    ensures d == FetchStep(env, chain, i, k, url, ok) && saves == SaveStep(env, chain, i, k, url, ok)
    ensures forall x :: x in saves ==> SaveJustified(env, chain, x)
  {
    d, saves := Undecided, [];
    if url in ok && ok[url] { return; }
    var crl := env.fetched(i, k);
    if crl.None? { return; }
    var v, saved := ProcessCRL(env, chain, i, issuerIdx, crl.value, Net(k), url);
    if saved.Some? { saves := [saved.value]; }
    if v.Decides? { d := v.d; }
  }

  /** The loop over CRLs to fetch, skipping URLs with an authoritative cached copy. */
  method ScanFetched(env: Env, chain: seq<CertInfo>, i: nat, issuerIdx: Option<nat>, urls: seq<string>, s: Scan)
    returns (d: Decision, saves: seq<SavedCRL>)
    requires i < |chain| && issuerIdx == NextCA(chain, i + 1) && (issuerIdx.Some? ==> issuerIdx.value < |chain|)
    requires urls == Usable(chain[i]) && ContextStaysDone(env)
    requires env.done(i, AfterCdp) || s == CachedScan(env, chain, i, |urls|)
    ensures !env.done(i, AfterCdp) ==>
      d == FetchScan(env, chain, i, |urls|) && saves == FetchSaves(env, chain, i, |urls|)
    ensures forall x :: x in saves ==> SaveJustified(env, chain, x)
  {
    d, saves := s.d, [];
    var k := 0;
    while k < |urls|
      invariant k <= |urls|
      invariant !env.done(i, AfterCdp) ==>
        d == FetchScan(env, chain, i, k) && saves == FetchSaves(env, chain, i, k)
      invariant forall x :: x in saves ==> SaveJustified(env, chain, x)
    {
      if d != Undecided {
        if !env.done(i, AfterCdp) { FetchSettledStays(env, chain, i, k); }
        return;
      }
      if env.done(i, FetchHead(k)) { return; }
      var more: seq<SavedCRL>;
      d, more := FetchOne(env, chain, i, issuerIdx, k, urls[k], s.ok);
      saves := saves + more;
      k := k + 1;
    }
  }

  /** The response for an entry, if OCSP is asked, to offer to the store: fetched, verified, with a nextUpdate. */
  ghost function KeptOf(env: Env, chain: seq<CertInfo>, i: nat): seq<KeptOCSP>
    requires i < |chain|
  {
    var j, o := NextCA(chain, i + 1), OCSPOf(env, chain, i);
    if AsksOCSP(env, chain, i) && j.Some? && j.value < |chain| && Keepable(o)
    then [KeptOCSP(i, chain[j.value], o.value)] else []
  }

  predicate Keepable(o: Option<OCSPAnswer>) {
    o.Some? && o.value.fetched && o.value.res.verified && o.value.res.nextUpdate.Some?
  }

  ghost predicate AsksOCSP(env: Env, chain: seq<CertInfo>, i: nat)
    requires i < |chain|
  {
    && Relevant(chain[i]) && chain[i].ocspURLs != []
    && FetchScan(env, chain, i, |Usable(chain[i])|) == Undecided
    && !(env.byIssuer(i).Some? && VerdictOf(env, chain, i, env.byIssuer(i).value, env.clock(i, Store)).Decides?)
  }

  ghost function KeptsOf(env: Env, chain: seq<CertInfo>, n: nat): seq<KeptOCSP>
    requires n <= |chain|
  {
    Flatten(seq(n, i requires 0 <= i < n => KeptOf(env, chain, i)))
  }

  lemma KeptsNext(env: Env, chain: seq<CertInfo>, n: nat)
    requires n < |chain|
    ensures KeptsOf(env, chain, n + 1) == KeptsOf(env, chain, n) + KeptOf(env, chain, n)
  {
    var all := seq(n + 1, i requires 0 <= i < n + 1 => KeptOf(env, chain, i));
    assert all[..n] == seq(n, i requires 0 <= i < n => KeptOf(env, chain, i));
  }

  ghost predicate KeptJustified(env: Env, chain: seq<CertInfo>, x: KeptOCSP) {
    && x.entry < |chain| && x.issuer in chain && Keepable(Some(x.answer))
    && env.parseOCSP(chain[x.entry].der, x.issuer.der, x.answer.der) == Some(x.answer.res)
  }

  lemma {:induction false} PostedParses(env: Env, i: nat, cert: Bytes, issuer: Bytes, k: nat, n: nat)
    ensures
      var o := Posted(env, i, cert, issuer, k, n);
      o.Some? ==> env.parseOCSP(cert, issuer, o.value.der) == Some(o.value.res)
    decreases n - k
  {
    if k < n { PostedParses(env, i, cert, issuer, k + 1, n); }
  }

  lemma OCSPParses(env: Env, i: nat, cert: CertInfo, issuer: CertInfo)
    ensures
      var o := OCSPFor(env, i, cert, issuer);
      o.Some? ==> env.parseOCSP(cert.der, issuer.der, o.value.der) == Some(o.value.res)
  {
    PostedParses(env, i, cert.der, issuer.der, 0, |URLs.FirstUsable(cert.ocspURLs, MAX_OCSP_URLS)|);
  }

  /** One iteration of the revocation loop; None when the context is done. */
  method DecideOne(env: Env, chain: seq<CertInfo>, i: nat)
    returns (r: Option<Decision>, saves: seq<SavedCRL>, kept: seq<KeptOCSP>)
    requires i < |chain| && ContextStaysDone(env)
    ensures r.None? <==> Relevant(chain[i]) && env.done(i, AfterCdp)
    ensures r.Some? ==> r.value == DecisionOf(env, chain, i)
    ensures r.Some? ==> saves == if Relevant(chain[i]) then FetchSaves(env, chain, i, |Usable(chain[i])|) else []
    ensures r.Some? ==> kept == KeptOf(env, chain, i)
    ensures forall x :: x in kept ==> KeptJustified(env, chain, x)
    ensures forall x :: x in saves ==> SaveJustified(env, chain, x)
  {
    saves, kept := [], [];
    if chain[i].selfSigned || (|chain[i].cdpURLs| == 0 && |chain[i].ocspURLs| == 0) { return Some(Undecided), [], []; }
    var issuerIdx := FindNextCA(chain, i);
    var urls := URLs.UsableURLs(chain[i].cdpURLs, MAX_CDP_URLS);
    var s := ScanCached(env, chain, i, issuerIdx, urls);
    var d: Decision;
    d, saves := ScanFetched(env, chain, i, issuerIdx, urls, s);
    if env.done(i, AfterCdp) { return None, saves, []; }
    if d == Undecided {
      var crl := env.byIssuer(i);
      if crl.Some? {
        var v, _ := ProcessCRL(env, chain, i, issuerIdx, crl.value, Store, "");
        if v.Decides? { d := v.d; }
      }
    }
    if d == Undecided && |chain[i].ocspURLs| > 0 && issuerIdx.Some? {
      var o := ResolveOCSP(env, i, chain[i], chain[issuerIdx.value]);
      if o.Some? && o.value.fetched && o.value.res.verified && o.value.res.nextUpdate.Some? {
        OCSPParses(env, i, chain[i], chain[issuerIdx.value]);
        kept := [KeptOCSP(i, chain[issuerIdx.value], o.value)];
      }
      if o.Some? && o.value.res.verified {
        if o.value.res.status == Revoked { d := IsRevoked(OCSP); }
        else if o.value.res.status == Good { d := NotRevoked(OCSP); }
      }
    }
    r := Some(d);
  }

  // ---------------------------------------------------------------- what a source shows

  /** The CRL a source gives for entry i. */
  function Given(env: Env, i: nat, source: Source): Option<CRLInfo> {
    match source case Cache(k) => env.cached(i, k) case Net(k) => env.fetched(i, k) case Store => env.byIssuer(i)
  }

  /** chain[j] is the first CA above entry i. */
  ghost predicate IsNextCA(chain: seq<CertInfo>, i: nat, j: nat) {
    i < j < |chain| && chain[j].isCA && forall k :: i < k < j ==> !chain[k].isCA
  }

  /** The certificate has the CRL's issuer name, and no other key identifier than the CRL's. */
  predicate HasName(c: CertInfo, crl: CRLInfo) {
    crl.issuerName != [] && c.subjectName == crl.issuerName && (crl.aki == "" || c.ski == "" || c.ski == crl.aki)
  }

  /** chain[j] should have signed the CRL: the first of its name, or without one the next CA. */
  ghost predicate IsSigner(chain: seq<CertInfo>, i: nat, crl: CRLInfo, j: nat) {
    && j < |chain|
    && (IsFirstNamed(chain, crl, j) || (NoneNamed(chain, crl) && IsNextCA(chain, i, j)))
  }

  ghost predicate IsFirstNamed(chain: seq<CertInfo>, crl: CRLInfo, j: nat) {
    j < |chain| && HasName(chain[j], crl) && forall k :: 0 <= k < j ==> !HasName(chain[k], crl)
  }

  ghost predicate NoneNamed(chain: seq<CertInfo>, crl: CRLInfo) {
    forall k :: 0 <= k < |chain| ==> !HasName(chain[k], crl)
  }

  /** Signed by its issuer, which may sign CRLs, and at time t neither of the future nor expired. */
  ghost predicate Vouched(env: Env, chain: seq<CertInfo>, i: nat, crl: CRLInfo, t: int) {
    && (exists j: nat ::
          IsSigner(chain, i, crl, j) && CanSignCRL(chain[j]) && env.verify(crl.der, chain[j].der).Verified?)
    && (crl.thisUpdate.Some? ==> crl.thisUpdate.value <= t)
    && (crl.nextUpdate.Some? ==> t <= crl.nextUpdate.value)
  }

  /** The source gives a verified, fresh CRL that could be searched for the certificate, with this result. */
  ghost predicate Answers(env: Env, chain: seq<CertInfo>, i: nat, source: Source, listed: bool)
    requires i < |chain|
  {
    var crl := Given(env, i, source);
    && crl.Some? && Vouched(env, chain, i, crl.value, env.clock(i, source))
    && env.isRevoked(crl.value.der, chain[i].der) == Some(listed)
  }

  ghost predicate Authoritative(env: Env, chain: seq<CertInfo>, i: nat, source: Source)
    requires i < |chain|
  {
    Answers(env, chain, i, source, true) || Answers(env, chain, i, source, false)
  }

  /** A verified, fresh, covering CRL that omits the certificate. */
  ghost predicate CRLShowsGood(env: Env, chain: seq<CertInfo>, i: nat, source: Source)
    requires i < |chain|
  {
    Answers(env, chain, i, source, false) && CoversCert(Given(env, i, source).value, chain[i])
  }

  /** A verified, fresh CRL that lists it. */
  ghost predicate CRLShowsRevoked(env: Env, chain: seq<CertInfo>, i: nat, source: Source)
    requires i < |chain|
  {
    Answers(env, chain, i, source, true)
  }

  ghost predicate Shows(env: Env, chain: seq<CertInfo>, i: nat, source: Source)
    requires i < |chain|
  {
    CRLShowsGood(env, chain, i, source) || CRLShowsRevoked(env, chain, i, source)
  }

  lemma {:induction false} NextCAIs(chain: seq<CertInfo>, i: nat, n: nat)
    requires i < n && forall k :: i < k < n && k < |chain| ==> !chain[k].isCA
    ensures forall j: nat :: NextCA(chain, n) == Some(j) <==> IsNextCA(chain, i, j)
    decreases |chain| - n
  {
    if n < |chain| && !chain[n].isCA { NextCAIs(chain, i, n + 1); }
  }

  lemma {:induction false} FirstNamedIs(chain: seq<CertInfo>, crl: CRLInfo, n: nat) returns (j: nat)
    requires crl.issuerName != [] && forall k :: 0 <= k < n && k < |chain| ==> !HasName(chain[k], crl)
    ensures if FirstNamed(chain, crl, n).None? then NoneNamed(chain, crl)
      else IsFirstNamed(chain, crl, j) && FirstNamed(chain, crl, n) == Some(chain[j])
    decreases |chain| - n
  {
    j := n;
    if n < |chain| && !NamesIssuer(chain[n], crl) { j := FirstNamedIs(chain, crl, n + 1); }
  }

  /** The CRL's issuer is its signer, if it has one. */
  lemma SignerIs(chain: seq<CertInfo>, i: nat, crl: CRLInfo) returns (j: nat)
    ensures if CRLIssuer(chain, i, crl).None? then forall k: nat :: !IsSigner(chain, i, crl, k)
      else IsSigner(chain, i, crl, j) && CRLIssuer(chain, i, crl) == Some(chain[j])
  {
    NextCAIs(chain, i, i + 1);
    var next := NextCA(chain, i + 1);
    j := if next.Some? then next.value else 0;
    if crl.issuerName != [] {
      var named := FirstNamedIs(chain, crl, 0);
      if FirstNamed(chain, crl, 0).Some? { j := named; }
    }
  }

  lemma OneSigner(chain: seq<CertInfo>, i: nat, crl: CRLInfo, j: nat, k: nat)
    requires IsSigner(chain, i, crl, j) && IsSigner(chain, i, crl, k)
    ensures j == k
  {
  }

  lemma TrustworthyIs(env: Env, chain: seq<CertInfo>, i: nat, crl: CRLInfo, t: int)
    ensures Trustworthy(env, chain, i, crl, t) <==> Vouched(env, chain, i, crl, t)
  {
    var j := SignerIs(chain, i, crl);
    if k: nat :| IsSigner(chain, i, crl, k) && CanSignCRL(chain[k]) && env.verify(crl.der, chain[k].der).Verified? {
      if IsSigner(chain, i, crl, j) { OneSigner(chain, i, crl, j, k); }
    }
  }

  ghost function Verdicts(env: Env, chain: seq<CertInfo>, i: nat, source: Source): Verdict
    requires i < |chain|
  {
    if Given(env, i, source).None? then NotAuthoritative
    else VerdictOf(env, chain, i, Given(env, i, source).value, env.clock(i, source))
  }

  /**
   What one CRL counts for: a certificate it lists is revoked whether it covers
   it or not; one it omits is unrevoked when it covers it; and it is
   authoritative when it is verified, fresh and could be searched.
   */
  lemma VerdictIff(env: Env, chain: seq<CertInfo>, i: nat, source: Source)
    requires i < |chain|
    ensures Verdicts(env, chain, i, source) == Decides(IsRevoked(CRL)) <==> CRLShowsRevoked(env, chain, i, source)
    ensures Verdicts(env, chain, i, source) == Decides(NotRevoked(CRL)) <==> CRLShowsGood(env, chain, i, source)
    ensures Verdicts(env, chain, i, source).NotAuthoritative? <==> !Authoritative(env, chain, i, source)
    ensures Verdicts(env, chain, i, source).Decides? <==> Shows(env, chain, i, source)
  {
    var crl := Given(env, i, source);
    if crl.Some? { TrustworthyIs(env, chain, i, crl.value, env.clock(i, source)); }
  }

  // ---------------------------------------------------------------- which sources are consulted

  /** Whether the last cached copy under the URL, among the first k, was authoritative; None without a copy. */
  ghost function LastCopy(env: Env, chain: seq<CertInfo>, i: nat, url: string, k: nat): Option<bool>
    requires i < |chain| && k <= |Usable(chain[i])|
  {
    if k == 0 then None
    else if Usable(chain[i])[k - 1] == url && env.cached(i, k - 1).Some? then
      Some(Authoritative(env, chain, i, Cache(k - 1)))
    else LastCopy(env, chain, i, url, k - 1)
  }

  /** The order in which sources are consulted: cached copies, then the net, then the store. */
  function Rank(n: nat, source: Source): nat {
    match source case Cache(k) => k case Net(k) => n + k case Store => 2 * n
  }

  /** The source has a CRL to offer; a URL with an authoritative cached copy is not fetched again. */
  ghost predicate Offers(env: Env, chain: seq<CertInfo>, i: nat, source: Source)
    requires i < |chain|
  {
    var urls := Usable(chain[i]);
    && Given(env, i, source).Some?
    && match source
       case Cache(k) => k < |urls|
       case Net(k) => k < |urls| && LastCopy(env, chain, i, urls[k], |urls|) != Some(true)
       case Store => true
  }

  /** The source offers a CRL and none before it shows anything: the analysis consults it. */
  ghost predicate Consulted(env: Env, chain: seq<CertInfo>, i: nat, source: Source)
    requires i < |chain|
  {
    var n := |Usable(chain[i])|;
    && Offers(env, chain, i, source)
    && forall s :: Offers(env, chain, i, s) && Rank(n, s) < Rank(n, source) ==> !Shows(env, chain, i, s)
  }

  ghost predicate NoneShows(env: Env, chain: seq<CertInfo>, i: nat)
    requires i < |chain|
  {
    forall s :: Offers(env, chain, i, s) ==> !Shows(env, chain, i, s)
  }

  /** The source is the first to show anything, and shows d. */
  ghost predicate Decider(env: Env, chain: seq<CertInfo>, i: nat, s: Source, d: Decision)
    requires i < |chain|
  {
    && Consulted(env, chain, i, s)
    && match d
       case IsRevoked(CRL) => CRLShowsRevoked(env, chain, i, s)
       case NotRevoked(CRL) => CRLShowsGood(env, chain, i, s)
       case _ => false
  }

  lemma DecidersVerdict(env: Env, chain: seq<CertInfo>, i: nat, s: Source)
    requires i < |chain| && Consulted(env, chain, i, s) && Verdicts(env, chain, i, s).Decides?
    ensures Decider(env, chain, i, s, Verdicts(env, chain, i, s).d)
  {
    VerdictIff(env, chain, i, s);
    VerdictIsCRLs(env, chain, i, s);
  }

  lemma VerdictIsCRLs(env: Env, chain: seq<CertInfo>, i: nat, s: Source)
    requires i < |chain| && Verdicts(env, chain, i, s).Decides?
    ensures Verdicts(env, chain, i, s).d == IsRevoked(CRL) || Verdicts(env, chain, i, s).d == NotRevoked(CRL)
  {
  }

  lemma {:induction false} OkIsLastCopy(env: Env, chain: seq<CertInfo>, i: nat, k: nat, url: string)
    requires i < |chain| && k <= |Usable(chain[i])| && CachedScan(env, chain, i, k).d == Undecided
    ensures
      var ok := CachedScan(env, chain, i, k).ok;
      LastCopy(env, chain, i, url, k) == if url in ok then Some(ok[url]) else None
  {
    if k > 0 {
      assert CachedScan(env, chain, i, k - 1).d == Undecided;
      OkIsLastCopy(env, chain, i, k - 1, url);
      VerdictIff(env, chain, i, Cache(k - 1));
    }
  }

  /** The scan of cached copies stops at the first that shows anything. */
  lemma CachedScanIs(env: Env, chain: seq<CertInfo>, i: nat, k: nat)
    requires i < |chain| && k <= |Usable(chain[i])|
    ensures CacheScanned(env, chain, i, k, CachedScan(env, chain, i, k).d)
  {
    var n := |Usable(chain[i])|;
    var p := (m: nat) => m <= n ==> CacheScanned(env, chain, i, m, CachedScan(env, chain, i, m).d);
    forall m: nat | p(m) ensures p(m + 1) {
      if m < n { CacheScannedNext(env, chain, i, m); }
    }
    Inductive(p, k);
  }

  lemma CacheScannedNext(env: Env, chain: seq<CertInfo>, i: nat, k: nat)
    requires i < |chain| && k < |Usable(chain[i])|
    requires CacheScanned(env, chain, i, k, CachedScan(env, chain, i, k).d)
    ensures CacheScanned(env, chain, i, k + 1, CachedScan(env, chain, i, k + 1).d)
  {
    if CachedScan(env, chain, i, k).d == Undecided {
      CacheStepIs(env, chain, i, k);
    } else {
      CacheScannedLater(env, chain, i, k);
    }
  }

  lemma CacheScannedLater(env: Env, chain: seq<CertInfo>, i: nat, k: nat)
    requires i < |chain| && k < |Usable(chain[i])| && CachedScan(env, chain, i, k).d != Undecided
    requires CacheScanned(env, chain, i, k, CachedScan(env, chain, i, k).d)
    ensures CacheScanned(env, chain, i, k + 1, CachedScan(env, chain, i, k + 1).d)
  {
    var d := CachedScan(env, chain, i, k).d;
    var j: nat :| j < k && Decider(env, chain, i, Cache(j), d);
    CachedStays(env, chain, i, k);
    assert j < k + 1 && Decider(env, chain, i, Cache(j), d);
  }

  lemma CachedStays(env: Env, chain: seq<CertInfo>, i: nat, k: nat)
    requires i < |chain| && k < |Usable(chain[i])| && CachedScan(env, chain, i, k).d != Undecided
    ensures CachedScan(env, chain, i, k + 1).d == CachedScan(env, chain, i, k).d
  {
  }

  /** No cached copy of the first k URLs shows anything, or one is the decider. */
  ghost predicate CacheScanned(env: Env, chain: seq<CertInfo>, i: nat, k: nat, d: Decision)
    requires i < |chain|
  {
    if d == Undecided then forall j :: 0 <= j < k ==> !Shows(env, chain, i, Cache(j))
    else exists j: nat :: j < k && Decider(env, chain, i, Cache(j), d)
  }

  lemma CacheStepIs(env: Env, chain: seq<CertInfo>, i: nat, k: nat)
    requires i < |chain| && k < |Usable(chain[i])| && CachedScan(env, chain, i, k).d == Undecided
    requires CacheScanned(env, chain, i, k, Undecided)
    ensures CacheScanned(env, chain, i, k + 1, CachedScan(env, chain, i, k + 1).d)
  {
    var v := Verdicts(env, chain, i, Cache(k));
    VerdictIff(env, chain, i, Cache(k));
    CacheStepGives(env, chain, i, k);
    if v.Decides? {
      CacheConsulted(env, chain, i, k);
      DecidersVerdict(env, chain, i, Cache(k));
      assert Decider(env, chain, i, Cache(k), v.d);
    }
  }

  lemma CacheStepGives(env: Env, chain: seq<CertInfo>, i: nat, k: nat)
    requires i < |chain| && k < |Usable(chain[i])| && CachedScan(env, chain, i, k).d == Undecided
    ensures
      var v := Verdicts(env, chain, i, Cache(k));
      CachedScan(env, chain, i, k + 1).d == if v.Decides? then v.d else Undecided
  {
  }

  lemma CacheConsulted(env: Env, chain: seq<CertInfo>, i: nat, k: nat)
    requires i < |chain| && k < |Usable(chain[i])| && Given(env, i, Cache(k)).Some?
    requires forall j :: 0 <= j < k ==> !Shows(env, chain, i, Cache(j))
    ensures Consulted(env, chain, i, Cache(k))
  {
    var n := |Usable(chain[i])|;
    forall s | Offers(env, chain, i, s) && Rank(n, s) < Rank(n, Cache(k)) ensures !Shows(env, chain, i, s) {
      assert s == Cache(Rank(n, s));
    }
  }

  /** The scan of the net stops at the first CRL that shows anything, if no cached copy did. */
  lemma FetchScanIs(env: Env, chain: seq<CertInfo>, i: nat, k: nat)
    requires i < |chain| && k <= |Usable(chain[i])|
    requires CachedScan(env, chain, i, |Usable(chain[i])|).d == Undecided
    ensures NetScanned(env, chain, i, k, FetchScan(env, chain, i, k))
  {
    var n := |Usable(chain[i])|;
    var p := (m: nat) => m <= n ==> NetScanned(env, chain, i, m, FetchScan(env, chain, i, m));
    forall m: nat | p(m) ensures p(m + 1) {
      if m < n { NetScannedNext(env, chain, i, m); }
    }
    Inductive(p, k);
  }

  lemma NetScannedNext(env: Env, chain: seq<CertInfo>, i: nat, k: nat)
    requires i < |chain| && k < |Usable(chain[i])|
    requires CachedScan(env, chain, i, |Usable(chain[i])|).d == Undecided
    requires NetScanned(env, chain, i, k, FetchScan(env, chain, i, k))
    ensures NetScanned(env, chain, i, k + 1, FetchScan(env, chain, i, k + 1))
  {
    if FetchScan(env, chain, i, k) == Undecided {
      FetchStepIs(env, chain, i, k);
      NetScannedStep(env, chain, i, k, FetchScan(env, chain, i, k + 1));
    } else {
      NetScannedLater(env, chain, i, k);
    }
  }

  lemma NetScannedLater(env: Env, chain: seq<CertInfo>, i: nat, k: nat)
    requires i < |chain| && k < |Usable(chain[i])| && FetchScan(env, chain, i, k) != Undecided
    requires NetScanned(env, chain, i, k, FetchScan(env, chain, i, k))
    ensures NetScanned(env, chain, i, k + 1, FetchScan(env, chain, i, k + 1))
  {
    var d := FetchScan(env, chain, i, k);
    var j: nat :| j < k && Decider(env, chain, i, Net(j), d);
    FetchStays(env, chain, i, k);
    assert j < k + 1 && Decider(env, chain, i, Net(j), d);
  }

  lemma FetchStays(env: Env, chain: seq<CertInfo>, i: nat, k: nat)
    requires i < |chain| && k < |Usable(chain[i])| && FetchScan(env, chain, i, k) != Undecided
    ensures FetchScan(env, chain, i, k + 1) == FetchScan(env, chain, i, k)
  {
  }

  /** No CRL of the first k URLs shows anything, or one is the decider. */
  ghost predicate NetScanned(env: Env, chain: seq<CertInfo>, i: nat, k: nat, d: Decision)
    requires i < |chain|
  {
    if d == Undecided then forall j :: 0 <= j < k && Offers(env, chain, i, Net(j)) ==> !Shows(env, chain, i, Net(j))
    else exists j: nat :: j < k && Decider(env, chain, i, Net(j), d)
  }

  lemma NetScannedStep(env: Env, chain: seq<CertInfo>, i: nat, k: nat, d: Decision)
    requires i < |chain| && NetScanned(env, chain, i, k, Undecided)
    requires if d == Undecided then Offers(env, chain, i, Net(k)) ==> !Shows(env, chain, i, Net(k))
      else Decider(env, chain, i, Net(k), d)
    ensures NetScanned(env, chain, i, k + 1, d)
  {
  }

  lemma FetchStepIs(env: Env, chain: seq<CertInfo>, i: nat, k: nat)
    requires i < |chain| && k < |Usable(chain[i])| && FetchScan(env, chain, i, k) == Undecided
    requires CachedScan(env, chain, i, |Usable(chain[i])|).d == Undecided
    requires NetScanned(env, chain, i, k, Undecided)
    ensures
      var d := FetchScan(env, chain, i, k + 1);
      if d == Undecided then Offers(env, chain, i, Net(k)) ==> !Shows(env, chain, i, Net(k))
      else Decider(env, chain, i, Net(k), d)
  {
    var n, url := |Usable(chain[i])|, Usable(chain[i])[k];
    OkIsLastCopy(env, chain, i, n, url);
    VerdictIff(env, chain, i, Net(k));
    if Offers(env, chain, i, Net(k)) && Verdicts(env, chain, i, Net(k)).Decides? {
      NetConsulted(env, chain, i, k);
      DecidersVerdict(env, chain, i, Net(k));
    }
  }

  lemma NetConsulted(env: Env, chain: seq<CertInfo>, i: nat, k: nat)
    requires i < |chain| && k < |Usable(chain[i])| && Offers(env, chain, i, Net(k))
    requires CachedScan(env, chain, i, |Usable(chain[i])|).d == Undecided && NetScanned(env, chain, i, k, Undecided)
    ensures Consulted(env, chain, i, Net(k))
  {
    var n := |Usable(chain[i])|;
    CachedScanIs(env, chain, i, n);
    forall s | Offers(env, chain, i, s) && Rank(n, s) < Rank(n, Net(k)) ensures !Shows(env, chain, i, s) {
      match s case Cache(j) => case Net(j) => case Store =>
    }
  }

  // ---------------------------------------------------------------- the decision

  /** After both scans and the store: OCSP. */
  ghost function Fallback(env: Env, chain: seq<CertInfo>, i: nat): Decision
    requires i < |chain|
  {
    if chain[i].ocspURLs != [] && NextCA(chain, i + 1).Some? then OCSPDecision(OCSPOf(env, chain, i)) else Undecided
  }

  /** A decision is that of the first source that shows anything; when none does, of the OCSP fallback. */
  lemma DecisionHasDecider(env: Env, chain: seq<CertInfo>, i: nat)
    requires i < |chain| && Relevant(chain[i])
    ensures
      var d := DecisionOf(env, chain, i);
      || (NoneShows(env, chain, i) && d == Fallback(env, chain, i))
      || exists s :: Decider(env, chain, i, s, d)
  {
    var n := |Usable(chain[i])|;
    var d := FetchScan(env, chain, i, n);
    CachedScanIs(env, chain, i, n);
    if CachedScan(env, chain, i, n).d != Undecided {
      FetchSettledStays(env, chain, i, 0);
      var c := CachedScan(env, chain, i, n).d;
      var j: nat :| j < n && Decider(env, chain, i, Cache(j), c);
      assert Decider(env, chain, i, Cache(j), c) && DecisionOf(env, chain, i) == c;
    } else {
      FetchScanIs(env, chain, i, n);
      if d == Undecided {
        StoreDecides(env, chain, i);
      } else {
        var j: nat :| j < n && Decider(env, chain, i, Net(j), d);
        assert Decider(env, chain, i, Net(j), d) && DecisionOf(env, chain, i) == d;
      }
    }
  }

  lemma StoreDecides(env: Env, chain: seq<CertInfo>, i: nat)
    requires i < |chain| && Relevant(chain[i]) && FetchScan(env, chain, i, |Usable(chain[i])|) == Undecided
    requires CacheScanned(env, chain, i, |Usable(chain[i])|, Undecided)
    requires NetScanned(env, chain, i, |Usable(chain[i])|, Undecided)
    ensures
      var d := DecisionOf(env, chain, i);
      || (NoneShows(env, chain, i) && d == Fallback(env, chain, i))
      || Decider(env, chain, i, Store, d)
  {
    VerdictIff(env, chain, i, Store);
    forall s | Offers(env, chain, i, s) && s != Store ensures !Shows(env, chain, i, s) {
      match s case Cache(j) => case Net(j) => case Store =>
    }
    if Verdicts(env, chain, i, Store).Decides? { DecidersVerdict(env, chain, i, Store); }
  }

  /**
   A decision is never overwritten: the first source, in the order they are
   consulted, that shows the certificate revoked or good is the decision.
   */
  lemma FirstDeciderWins(env: Env, chain: seq<CertInfo>, i: nat, source: Source)
    requires i < |chain| && !chain[i].selfSigned && (chain[i].cdpURLs != [] || chain[i].ocspURLs != [])
    requires Consulted(env, chain, i, source)
    ensures CRLShowsRevoked(env, chain, i, source) ==> DecisionOf(env, chain, i) == IsRevoked(CRL)
    ensures CRLShowsGood(env, chain, i, source) ==> DecisionOf(env, chain, i) == NotRevoked(CRL)
  {
    DecisionHasDecider(env, chain, i);
    var n, d := |Usable(chain[i])|, DecisionOf(env, chain, i);
    if s :| Decider(env, chain, i, s, d) {
      assert Shows(env, chain, i, s);
      RankIsInjective(env, chain, i, s, source);
    }
  }

  lemma RankIsInjective(env: Env, chain: seq<CertInfo>, i: nat, s: Source, s': Source)
    requires i < |chain| && Offers(env, chain, i, s) && Offers(env, chain, i, s')
    ensures Rank(|Usable(chain[i])|, s) == Rank(|Usable(chain[i])|, s') ==> s == s'
  {
  }

  // ---------------------------------------------------------------- what OCSP shows

  /** The answer settled on: the stored response if it parses, else that of the first responder whose does. */
  ghost predicate Settles(env: Env, i: nat, cert: CertInfo, issuer: CertInfo, a: OCSPAnswer) {
    if ParsesTo(env, cert, issuer, env.ocspCached(i)).Some? then
      !a.fetched && env.ocspCached(i) == Some(a.der) && ParsesTo(env, cert, issuer, Some(a.der)) == Some(a.res)
    else a.fetched && env.ocspRequest(cert.der, issuer.der) && exists k :: FirstPosted(env, i, cert, issuer, k, a)
  }

  /** What a response, if there is one, says of the certificate. */
  function ParsesTo(env: Env, cert: CertInfo, issuer: CertInfo, der: Option<Bytes>): Option<OCSPResult> {
    match der case None => None case Some(d) => env.parseOCSP(cert.der, issuer.der, d)
  }

  /** The k-th responder is the first whose response parses, and a is that. */
  ghost predicate FirstPosted(env: Env, i: nat, cert: CertInfo, issuer: CertInfo, k: nat, a: OCSPAnswer) {
    && k < |URLs.FirstUsable(cert.ocspURLs, MAX_OCSP_URLS)|
    && env.ocspPost(i, k) == Some(a.der) && ParsesTo(env, cert, issuer, Some(a.der)) == Some(a.res)
    && forall l :: 0 <= l < k ==> ParsesTo(env, cert, issuer, env.ocspPost(i, l)).None?
  }

  lemma {:induction false} PostedIs(env: Env, i: nat, cert: CertInfo, issuer: CertInfo, k: nat, n: nat)
    requires n == |URLs.FirstUsable(cert.ocspURLs, MAX_OCSP_URLS)|
    requires forall l :: 0 <= l < k && l < n ==> ParsesTo(env, cert, issuer, env.ocspPost(i, l)).None?
    ensures
      var o := Posted(env, i, cert.der, issuer.der, k, n);
      && (o.Some? ==> o.value.fetched && exists m :: FirstPosted(env, i, cert, issuer, m, o.value))
      && (o.None? ==> forall l :: 0 <= l < n ==> ParsesTo(env, cert, issuer, env.ocspPost(i, l)).None?)
    decreases n - k
  {
    if k < n {
      var der := env.ocspPost(i, k);
      if ParsesTo(env, cert, issuer, der).Some? {
        assert FirstPosted(env, i, cert, issuer, k, Posted(env, i, cert.der, issuer.der, k, n).value);
      } else {
        PostedIs(env, i, cert, issuer, k + 1, n);
      }
    }
  }

  /** resolveOCSP settles on exactly that answer. */
  lemma OCSPForIs(env: Env, i: nat, cert: CertInfo, issuer: CertInfo, a: OCSPAnswer)
    ensures OCSPFor(env, i, cert, issuer) == Some(a) <==> Settles(env, i, cert, issuer, a)
  {
    PostedIs(env, i, cert, issuer, 0, |URLs.FirstUsable(cert.ocspURLs, MAX_OCSP_URLS)|);
    var o := OCSPFor(env, i, cert, issuer);
    if o.Some? && o.value.fetched && Settles(env, i, cert, issuer, a) {
      var m :| FirstPosted(env, i, cert, issuer, m, o.value);
      var k :| FirstPosted(env, i, cert, issuer, k, a);
      assert m == k;
    }
  }

  /** The certificate names a responder; the answer settled on for it and the next CA is verified, of this status. */
  ghost predicate OCSPShows(env: Env, chain: seq<CertInfo>, i: nat, status: OCSPStatus)
    requires i < |chain|
  {
    && chain[i].ocspURLs != []
    && exists j: nat, a :: OCSPGives(env, chain, i, j, a) && a.res.verified && a.res.status == status
  }

  ghost predicate OCSPGives(env: Env, chain: seq<CertInfo>, i: nat, j: nat, a: OCSPAnswer)
    requires i < |chain|
  {
    IsNextCA(chain, i, j) && Settles(env, i, chain[i], chain[j], a)
  }

  /** When no CRL shows anything the decision is what OCSP shows, and otherwise none of OCSP's. */
  lemma FallbackIs(env: Env, chain: seq<CertInfo>, i: nat)
    requires i < |chain|
    ensures Fallback(env, chain, i) == IsRevoked(OCSP) <==> OCSPShows(env, chain, i, Revoked)
    ensures Fallback(env, chain, i) == NotRevoked(OCSP) <==> OCSPShows(env, chain, i, Good)
    ensures Fallback(env, chain, i) in {IsRevoked(OCSP), NotRevoked(OCSP), Undecided}
  {
    NextCAIs(chain, i, i + 1);
    var next, o := NextCA(chain, i + 1), OCSPOf(env, chain, i);
    if next.Some? {
      assert IsNextCA(chain, i, next.value);
      forall a ensures o == Some(a) <==> Settles(env, i, chain[i], chain[next.value], a) {
        OCSPForIs(env, i, chain[i], chain[next.value], a);
      }
      if o.Some? { assert OCSPGives(env, chain, i, next.value, o.value); }
    }
  }

  /** What OCSP shows is the decision exactly when no CRL shows anything; then, without an answer, there is none. */
  lemma OCSPOnlyAsFallback(env: Env, chain: seq<CertInfo>, i: nat)
    requires i < |chain| && !chain[i].selfSigned && (chain[i].cdpURLs != [] || chain[i].ocspURLs != [])
    ensures NoneShows(env, chain, i) && OCSPShows(env, chain, i, Revoked) ==>
      DecisionOf(env, chain, i) == IsRevoked(OCSP)
    ensures NoneShows(env, chain, i) && OCSPShows(env, chain, i, Good) ==>
      DecisionOf(env, chain, i) == NotRevoked(OCSP)
    ensures
      NoneShows(env, chain, i) && !OCSPShows(env, chain, i, Revoked) && !OCSPShows(env, chain, i, Good) <==>
      DecisionOf(env, chain, i) == Undecided
    ensures !NoneShows(env, chain, i) ==>
      DecisionOf(env, chain, i) != Undecided && DecisionOf(env, chain, i).via == CRL
  {
    DecisionHasDecider(env, chain, i);
    FallbackIs(env, chain, i);
    if s :| Decider(env, chain, i, s, DecisionOf(env, chain, i)) {
      assert Offers(env, chain, i, s) && Shows(env, chain, i, s);
    }
  }

  ghost predicate Justified(env: Env, chain: seq<CertInfo>, i: nat, d: Decision)
    requires i < |chain|
  {
    match d
    case Undecided => true
    case NotRevoked(CRL) => exists s :: Consulted(env, chain, i, s) && CRLShowsGood(env, chain, i, s)
    case IsRevoked(CRL) => exists s :: Consulted(env, chain, i, s) && CRLShowsRevoked(env, chain, i, s)
    case NotRevoked(OCSP) => NoneShows(env, chain, i) && OCSPShows(env, chain, i, Good)
    case IsRevoked(OCSP) => NoneShows(env, chain, i) && OCSPShows(env, chain, i, Revoked)
  }

  /**
   "not_revoked" takes a verified, fresh, covering CRL that omits the
   certificate or a verified good OCSP response; "revoked" a verified, fresh
   CRL that lists it or a verified revoked response. The CRL comes from a
   source the analysis consulted; OCSP counts when no CRL shows anything.
   */
  lemma DecisionJustified(env: Env, chain: seq<CertInfo>, i: nat)
    requires i < |chain|
    ensures Justified(env, chain, i, DecisionOf(env, chain, i))
  {
    if Relevant(chain[i]) {
      DecisionHasDecider(env, chain, i);
      FallbackIs(env, chain, i);
      if s :| Decider(env, chain, i, s, DecisionOf(env, chain, i)) { assert Consulted(env, chain, i, s); }
    }
  }

  // ---------------------------------------------------------------- what is offered to the store

  /**
   A fetched CRL to save: the analysis fetched it, nothing before it showing
   anything, it is authoritative, and its signer verifies to trust.
   */
  ghost predicate SaveDue(env: Env, chain: seq<CertInfo>, x: SavedCRL) {
    && x.entry < |chain| && Relevant(chain[x.entry]) && Consulted(env, chain, x.entry, Net(x.k))
    && Authoritative(env, chain, x.entry, Net(x.k)) && env.trustedPath(x.entry, x.k)
    && x.url == Usable(chain[x.entry])[x.k] && env.fetched(x.entry, x.k) == Some(x.crl)
    && x.at == env.clock(x.entry, Net(x.k))
    && exists j: nat :: IsSigner(chain, x.entry, x.crl, j) && x.issuer == chain[j]
  }

  /** A response to keep: no CRL shows anything, and the answer settled on was fetched and is verified and dated. */
  ghost predicate KeepDue(env: Env, chain: seq<CertInfo>, x: KeptOCSP) {
    && x.entry < |chain| && Relevant(chain[x.entry]) && chain[x.entry].ocspURLs != [] && NoneShows(env, chain, x.entry)
    && x.answer.fetched && x.answer.res.verified && x.answer.res.nextUpdate.Some?
    && exists j: nat :: OCSPGives(env, chain, x.entry, j, x.answer) && x.issuer == chain[j]
  }

  /** The k-th URL is fetched exactly when it offers a CRL and nothing before showed anything. */
  lemma FetchedIff(env: Env, chain: seq<CertInfo>, i: nat, k: nat)
    requires i < |chain| && k < |Usable(chain[i])| && Offers(env, chain, i, Net(k))
    ensures FetchScan(env, chain, i, k) == Undecided <==> Consulted(env, chain, i, Net(k))
  {
    var n := |Usable(chain[i])|;
    CachedScanIs(env, chain, i, n);
    var c := CachedScan(env, chain, i, n).d;
    if c != Undecided {
      FetchScanSettled(env, chain, i, k);
      var j: nat :| j < n && Decider(env, chain, i, Cache(j), c);
      assert Offers(env, chain, i, Cache(j)) && Shows(env, chain, i, Cache(j));
    } else {
      FetchScanIs(env, chain, i, k);
      if FetchScan(env, chain, i, k) == Undecided {
        NetConsulted(env, chain, i, k);
      } else {
        var j: nat :| j < k && Decider(env, chain, i, Net(j), FetchScan(env, chain, i, k));
        assert Offers(env, chain, i, Net(j)) && Shows(env, chain, i, Net(j));
      }
    }
  }

  lemma {:induction false} FetchScanSettled(env: Env, chain: seq<CertInfo>, i: nat, k: nat)
    requires i < |chain| && k <= |Usable(chain[i])| && CachedScan(env, chain, i, |Usable(chain[i])|).d != Undecided
    ensures FetchScan(env, chain, i, k) == CachedScan(env, chain, i, |Usable(chain[i])|).d
  {
    if k > 0 { FetchScanSettled(env, chain, i, k - 1); }
  }

  /** A fetched CRL is offered if it is authoritative and its signer verifies to trust. */
  lemma SaveStepGives(env: Env, chain: seq<CertInfo>, i: nat, k: nat, j: nat)
    requires i < |chain| && k < |Usable(chain[i])| && Offers(env, chain, i, Net(k))
    requires Authoritative(env, chain, i, Net(k)) ==> IsSigner(chain, i, env.fetched(i, k).value, j)
    requires CachedScan(env, chain, i, |Usable(chain[i])|).d == Undecided
    ensures
      var url, crl := Usable(chain[i])[k], env.fetched(i, k).value;
      SaveStep(env, chain, i, k, url, CachedScan(env, chain, i, |Usable(chain[i])|).ok) ==
      if !Authoritative(env, chain, i, Net(k)) || !env.trustedPath(i, k) then []
      else [SavedCRL(i, k, url, crl, chain[j], env.clock(i, Net(k)))]
  {
    OkIsLastCopy(env, chain, i, |Usable(chain[i])|, Usable(chain[i])[k]);
    VerdictIff(env, chain, i, Net(k));
    if Authoritative(env, chain, i, Net(k)) {
      var l := SignerIs(chain, i, env.fetched(i, k).value);
      OneSigner(chain, i, env.fetched(i, k).value, j, l);
    }
  }

  lemma NotOffered(env: Env, chain: seq<CertInfo>, i: nat, k: nat)
    requires i < |chain| && k < |Usable(chain[i])| && !Offers(env, chain, i, Net(k))
    requires CachedScan(env, chain, i, |Usable(chain[i])|).d == Undecided
    ensures
      SaveStep(env, chain, i, k, Usable(chain[i])[k], CachedScan(env, chain, i, |Usable(chain[i])|).ok) == []
  {
    OkIsLastCopy(env, chain, i, |Usable(chain[i])|, Usable(chain[i])[k]);
  }

  /** What the k-th fetch offers, if it happens. */
  ghost function FetchedSave(env: Env, chain: seq<CertInfo>, i: nat, k: nat): seq<SavedCRL>
    requires i < |chain| && k < |Usable(chain[i])|
  {
    if FetchScan(env, chain, i, k) != Undecided then []
    else SaveStep(env, chain, i, k, Usable(chain[i])[k], CachedScan(env, chain, i, |Usable(chain[i])|).ok)
  }

  lemma FetchedSaveIs(env: Env, chain: seq<CertInfo>, i: nat, k: nat, x: SavedCRL)
    requires i < |chain| && Relevant(chain[i]) && k < |Usable(chain[i])|
    ensures x in FetchedSave(env, chain, i, k) <==> x.entry == i && x.k == k && SaveDue(env, chain, x)
  {
    var n := |Usable(chain[i])|;
    if FetchScan(env, chain, i, k) == Undecided && CachedScan(env, chain, i, n).d != Undecided {
      FetchScanSettled(env, chain, i, k);
    }
    if !Offers(env, chain, i, Net(k)) {
      if FetchScan(env, chain, i, k) == Undecided { NotOffered(env, chain, i, k); }
    } else {
      FetchedIff(env, chain, i, k);
      var j := SignerOf(env, chain, i, Net(k));
      if FetchScan(env, chain, i, k) == Undecided { SaveStepGives(env, chain, i, k, j); }
      if x.entry == i && x.k == k && SaveDue(env, chain, x) {
        var l: nat :| IsSigner(chain, i, x.crl, l) && x.issuer == chain[l];
        OneSigner(chain, i, x.crl, j, l);
      }
    }
  }

  lemma SignerOf(env: Env, chain: seq<CertInfo>, i: nat, source: Source) returns (j: nat)
    requires i < |chain|
    ensures Authoritative(env, chain, i, source) ==> IsSigner(chain, i, Given(env, i, source).value, j)
  {
    j := 0;
    if Authoritative(env, chain, i, source) { j :| IsSigner(chain, i, Given(env, i, source).value, j); }
  }

  lemma {:induction false} FetchSavesFrom(env: Env, chain: seq<CertInfo>, i: nat, n: nat, x: SavedCRL) returns (k: nat)
    requires i < |chain| && n <= |Usable(chain[i])| && x in FetchSaves(env, chain, i, n)
    ensures k < n && x in FetchedSave(env, chain, i, k)
  {
    k := n - 1;
    if x !in FetchedSave(env, chain, i, k) { k := FetchSavesFrom(env, chain, i, n - 1, x); }
  }

  lemma {:induction false} FetchSavesHold(env: Env, chain: seq<CertInfo>, i: nat, n: nat, k: nat, x: SavedCRL)
    requires i < |chain| && k < n <= |Usable(chain[i])| && x in FetchedSave(env, chain, i, k)
    ensures x in FetchSaves(env, chain, i, n)
  {
    if k < n - 1 { FetchSavesHold(env, chain, i, n - 1, k, x); }
  }

  lemma {:induction false} SavesFrom(env: Env, chain: seq<CertInfo>, n: nat, x: SavedCRL) returns (i: nat)
    requires n <= |chain| && x in SavesOf(env, chain, n)
    ensures i < n && Relevant(chain[i]) && x in FetchSaves(env, chain, i, |Usable(chain[i])|)
  {
    i := n - 1;
    if !Relevant(chain[i]) || x !in FetchSaves(env, chain, i, |Usable(chain[i])|) {
      i := SavesFrom(env, chain, n - 1, x);
    }
  }

  lemma {:induction false} SavesHold(env: Env, chain: seq<CertInfo>, n: nat, i: nat, x: SavedCRL)
    requires i < n <= |chain| && Relevant(chain[i]) && x in FetchSaves(env, chain, i, |Usable(chain[i])|)
    ensures x in SavesOf(env, chain, n)
  {
    if i < n - 1 { SavesHold(env, chain, n - 1, i, x); }
  }

  /** Exactly the CRLs due are offered to the store. */
  lemma SavedIff(env: Env, chain: seq<CertInfo>, x: SavedCRL)
    ensures x in SavesOf(env, chain, |chain|) <==> SaveDue(env, chain, x)
  {
    if x in SavesOf(env, chain, |chain|) {
      var i := SavesFrom(env, chain, |chain|, x);
      var k := FetchSavesFrom(env, chain, i, |Usable(chain[i])|, x);
      FetchedSaveIs(env, chain, i, k, x);
    }
    if SaveDue(env, chain, x) {
      FetchedSaveIs(env, chain, x.entry, x.k, x);
      FetchSavesHold(env, chain, x.entry, |Usable(chain[x.entry])|, x.k, x);
      SavesHold(env, chain, |chain|, x.entry, x);
    }
  }

  lemma AsksIff(env: Env, chain: seq<CertInfo>, i: nat)
    requires i < |chain| && Relevant(chain[i])
    ensures AsksOCSP(env, chain, i) <==> chain[i].ocspURLs != [] && NoneShows(env, chain, i)
  {
    var n := |Usable(chain[i])|;
    CachedScanIs(env, chain, i, n);
    VerdictIff(env, chain, i, Store);
    var c := CachedScan(env, chain, i, n).d;
    if c != Undecided {
      FetchScanSettled(env, chain, i, n);
      var j: nat :| j < n && Decider(env, chain, i, Cache(j), c);
      assert Offers(env, chain, i, Cache(j)) && Shows(env, chain, i, Cache(j));
    } else {
      FetchScanIs(env, chain, i, n);
      var d := FetchScan(env, chain, i, n);
      if d != Undecided {
        var j: nat :| j < n && Decider(env, chain, i, Net(j), d);
        assert Offers(env, chain, i, Net(j)) && Shows(env, chain, i, Net(j));
      } else {
        forall s | Offers(env, chain, i, s) && s != Store ensures !Shows(env, chain, i, s) {
          match s case Cache(j) => case Net(j) => case Store =>
        }
        assert Given(env, i, Store) == env.byIssuer(i);
      }
    }
  }

  lemma KeptOfIs(env: Env, chain: seq<CertInfo>, i: nat, x: KeptOCSP)
    requires i < |chain|
    ensures x in KeptOf(env, chain, i) <==> x.entry == i && KeepDue(env, chain, x)
  {
    if Relevant(chain[i]) {
      AsksIff(env, chain, i);
      NextCAIs(chain, i, i + 1);
      var next := NextCA(chain, i + 1);
      if next.Some? {
        assert IsNextCA(chain, i, next.value);
        OCSPForIs(env, i, chain[i], chain[next.value], x.answer);
        if OCSPOf(env, chain, i) == Some(x.answer) { assert OCSPGives(env, chain, i, next.value, x.answer); }
      }
    }
  }

  /** Exactly the responses due are offered to the store. */
  lemma KeptIff(env: Env, chain: seq<CertInfo>, x: KeptOCSP)
    ensures x in KeptsOf(env, chain, |chain|) <==> KeepDue(env, chain, x)
  {
    var parts := seq(|chain|, i requires 0 <= i < |chain| => KeptOf(env, chain, i));
    InFlatten(parts, x);
    forall i | 0 <= i < |chain|
      ensures x in parts[i] <==> x.entry == i && KeepDue(env, chain, x)
    {
      KeptOfIs(env, chain, i, x);
    }
    if KeepDue(env, chain, x) { assert x in parts[x.entry]; }
  }

  // ---------------------------------------------------------------- the verdict

  datatype Overall = RevokedOverall | NotApplicable | Checked | Incomplete

  datatype Status = OK | Warn | Error | OtherStatus

  datatype Response = Response(decisions: seq<Decision>, overall: Overall, status: Status)

  ghost predicate OverallIs(chain: seq<CertInfo>, ds: seq<Decision>, r: Overall)
    requires |ds| == |chain|
  {
    && (r == RevokedOverall <==> exists i :: 0 <= i < |chain| && Relevant(chain[i]) && ds[i].IsRevoked?)
    && (r == NotApplicable <==> forall i :: 0 <= i < |chain| ==> !Relevant(chain[i]))
    && (r == Checked <==>
        (exists i :: 0 <= i < |chain| && Relevant(chain[i])) &&
        forall i :: 0 <= i < |chain| && Relevant(chain[i]) ==> ds[i].NotRevoked?)
  }

  /** The aggregation after the chain was verified with chainStatus. */
  method Aggregate(chain: seq<CertInfo>, ds: seq<Decision>, chainStatus: Status)
    returns (overall: Overall, status: Status)
    requires |ds| == |chain|
    ensures OverallIs(chain, ds, overall)
    ensures status == if chainStatus != OK then chainStatus
      else if overall == RevokedOverall then Error else if overall == Incomplete then Warn else OK
  {
    var anyMethod, anyRevoked, notChecked := false, false, 0;
    for i := 0 to |chain|
      invariant anyMethod <==> exists k :: 0 <= k < i && Relevant(chain[k])
      invariant anyRevoked <==> exists k :: 0 <= k < i && Relevant(chain[k]) && ds[k].IsRevoked?
      invariant notChecked >= 0
      invariant notChecked == 0 <==> forall k :: 0 <= k < i && Relevant(chain[k]) ==> !ds[k].Undecided?
    {
      if chain[i].selfSigned || (|chain[i].cdpURLs| == 0 && |chain[i].ocspURLs| == 0) { continue; }
      anyMethod := true;
      if ds[i].IsRevoked? { anyRevoked := true; }
      if ds[i].Undecided? { notChecked := notChecked + 1; }
    }
    status := chainStatus;
    if anyRevoked {
      overall := RevokedOverall;
      if status == OK { status := Error; }
    } else if !anyMethod {
      overall := NotApplicable;
    } else if notChecked == 0 {
      overall := Checked;
    } else {
      overall := Incomplete;
      if status == OK { status := Warn; }
    }
  }

  /** The context is done where the loop looks: before an entry, after a relevant one's CRLs, or at the end. */
  ghost predicate Interrupted(env: Env, chain: seq<CertInfo>) {
    env.top(|chain|) || exists i :: 0 <= i < |chain| && !Passes(env, chain, i)
  }

  predicate Passes(env: Env, chain: seq<CertInfo>, i: nat)
    requires i < |chain|
  {
    !env.top(i) && !(Relevant(chain[i]) && env.done(i, AfterCdp))
  }

  /** The revocation loop: the decisions, None when the context was done, and what it offers the store. */
  method RevocationPhase(env: Env, chain: seq<CertInfo>)
    returns (r: Option<seq<Decision>>, saves: seq<SavedCRL>, kept: seq<KeptOCSP>)
    requires ContextStaysDone(env)
    ensures r.None? <==> Interrupted(env, chain)
    ensures r.Some? ==> |r.value| == |chain| && forall i :: 0 <= i < |chain| ==> r.value[i] == DecisionOf(env, chain, i)
    ensures r.Some? ==> saves == SavesOf(env, chain, |chain|) && kept == KeptsOf(env, chain, |chain|)
    ensures forall s :: s in saves ==> SaveJustified(env, chain, s)
    ensures forall x :: x in kept ==> KeptJustified(env, chain, x)
  {
    var decisions: seq<Decision> := [];
    saves, kept := [], [];
    for i := 0 to |chain|
      invariant Phase(env, chain, i, decisions, saves, kept)
    {
      var ok;
      ok, decisions, saves, kept := DecideNext(env, chain, i, decisions, saves, kept);
      if !ok { return None, saves, kept; }
    }
    if env.top(|chain|) { return None, saves, kept; }
    r := Some(decisions);
  }

  ghost predicate OffersJustified(env: Env, chain: seq<CertInfo>, saves: seq<SavedCRL>, kept: seq<KeptOCSP>) {
    (forall s :: s in saves ==> SaveJustified(env, chain, s)) && forall x :: x in kept ==> KeptJustified(env, chain, x)
  }

  /** After the first n entries. */
  ghost predicate Phase(env: Env, chain: seq<CertInfo>, n: nat, ds: seq<Decision>, saves: seq<SavedCRL>,
      kept: seq<KeptOCSP>)
    requires n <= |chain|
  {
    && |ds| == n && saves == SavesOf(env, chain, n) && kept == KeptsOf(env, chain, n)
    && (forall k :: 0 <= k < n ==> ds[k] == DecisionOf(env, chain, k) && Passes(env, chain, k))
    && OffersJustified(env, chain, saves, kept)
  }

  /** The next entry. */
  method DecideNext(env: Env, chain: seq<CertInfo>, i: nat, ds: seq<Decision>, saves: seq<SavedCRL>,
      kept: seq<KeptOCSP>)
    returns (ok: bool, ds': seq<Decision>, saves': seq<SavedCRL>, kept': seq<KeptOCSP>)
    requires ContextStaysDone(env) && i < |chain| && Phase(env, chain, i, ds, saves, kept)
    ensures ok <==> Passes(env, chain, i)
    ensures if ok then Phase(env, chain, i + 1, ds', saves', kept') else OffersJustified(env, chain, saves', kept')
  {
    if env.top(i) { return false, ds, saves, kept; }
    var d, more, keeps := DecideOne(env, chain, i);
    saves', kept' := saves + more, kept + keeps;
    if d.None? { return false, ds, saves', kept'; }
    PhaseNext(env, chain, i, ds, saves, kept, more, keeps);
    ok, ds' := true, ds + [d.value];
  }

  lemma PhaseNext(env: Env, chain: seq<CertInfo>, i: nat, ds: seq<Decision>, saves: seq<SavedCRL>, kept: seq<KeptOCSP>,
      more: seq<SavedCRL>, keeps: seq<KeptOCSP>)
    requires i < |chain| && Phase(env, chain, i, ds, saves, kept) && Passes(env, chain, i)
    requires more == if Relevant(chain[i]) then FetchSaves(env, chain, i, |Usable(chain[i])|) else []
    requires keeps == KeptOf(env, chain, i) && OffersJustified(env, chain, more, keeps)
    ensures Phase(env, chain, i + 1, ds + [DecisionOf(env, chain, i)], saves + more, kept + keeps)
  {
    KeptsNext(env, chain, i);
  }

  /** A verdict as it must be: from justified decisions; a final OK shows every relevant certificate unrevoked. */
  ghost predicate Sound(env: Env, chain: seq<CertInfo>, r: Response) {
    && |r.decisions| == |chain|
    && (forall i {:trigger Justified(env, chain, i, r.decisions[i])} :: 0 <= i < |chain| ==>
          Justified(env, chain, i, r.decisions[i]))
    && OverallIs(chain, r.decisions, r.overall)
    && (r.status == OK ==> forall i :: 0 <= i < |chain| && Relevant(chain[i]) ==> r.decisions[i].NotRevoked?)
  }

  /** The end of the analysis, once the chain was verified. */
  method Conclude(env: Env, chain: seq<CertInfo>, ds: seq<Decision>, chainStatus: Status) returns (r: Response)
    requires |ds| == |chain| && forall i :: 0 <= i < |chain| ==> ds[i] == DecisionOf(env, chain, i)
    ensures r.decisions == ds && Sound(env, chain, r)
    ensures r.status == OK <==> chainStatus == OK && (r.overall == NotApplicable || r.overall == Checked)
  {
    var overall, status := Aggregate(chain, ds, chainStatus);
    forall i | 0 <= i < |chain| ensures Justified(env, chain, i, ds[i]) { DecisionJustified(env, chain, i); }
    r := Response(ds, overall, status);
  }
}
