/**
 The handler over the store (cmd/certview/handler.go, link.go): every operation
 keeps the store's history well formed, so that Provenance's lemmas hold of it.
 */
module Handler {
  import opened Common
  import opened PKI
  import opened CertStore
  import opened Provenance
  import opened HandlerSpec
  import opened PoolHistory
  import Chain
  import CRLStore
  import IDP
  import IssuerWalk
  import OCSPStore
  import RespCache
  import Revocation
  import TrustBundle

  class Handler {
    const w: World
    const certs: Store
    const crls: CRLStore.Store
    const ocsps: OCSPStore.Store
    const analysisCache: RespCache.Store
    const siteCache: RespCache.Store?
    ghost var log: seq<Entry>
    ghost var whys: seq<CRLWhy>
    ghost var ocspWhys: seq<OCSPWhy>

    /** Everything but that the table is what the log gives. */
    ghost predicate Consistent()
      reads this, certs, crls, ocsps
    {
      && GoodWorld(w) && certs.Valid() && crls.Valid() && ocsps.Valid() && certs.env == w.env
      && WellFormed(w, log) && CRLsJustified(w, log, crls.log, whys) && OCSPsJustified(w, log, ocsps.log, ocspWhys)
      && (forall d :: crls.env.nextUpdate(d) == StoredTime(w.crlInfo(d).nextUpdate))
    }

    ghost predicate Valid()
      reads this, certs, crls, ocsps
    {
      Consistent() && certs.certs == StateAfter(w.env, log)
    }

    /** The store is as it was: its tables are functions of what was done to them. */
    ghost predicate Unchanged(entries: seq<Entry>, saves: seq<CRLStore.Save>, rows: seq<OCSPStore.Row>)
      reads this, certs, crls, ocsps
    {
      log == entries && certs.certs == StateAfter(w.env, entries) && crls.log == saves && ocsps.log == rows
    }

    constructor (w: World, cenv: CRLStore.Env, analysisCache: RespCache.Store, siteCache: RespCache.Store?)
      requires GoodWorld(w) && Injective(cenv.sha)
      requires forall d :: cenv.nextUpdate(d) == StoredTime(w.crlInfo(d).nextUpdate)
      ensures Valid() && log == [] && crls.log == [] && ocsps.log == [] && this.w == w && crls.env == cenv
      ensures this.analysisCache == analysisCache && this.siteCache == siteCache
      ensures fresh(certs) && fresh(crls) && fresh(ocsps) && crls.now == 0 && ocsps.now == 0 && whys == []
      ensures crls.crls == map[] && crls.crlUrls == map[]
    {
      this.w := w;
      this.analysisCache, this.siteCache := analysisCache, siteCache;
      var cs := new Store(w.env);
      var crs := new CRLStore.Store(cenv);
      var ocs := new OCSPStore.Store();
      certs, crls, ocsps := cs, crs, ocs;
      log, whys, ocspWhys := [], [], [];
    }

    /** Adds what has just happened to the table to the history. */
    ghost method Note(x: Entry)
      requires Consistent() && EntryOK(w, log, x)
      requires certs.certs == TrustBundle.Applied(w.env, StateAfter(w.env, log), EventOf(x))
      modifies this`log
      ensures Valid() && log == old(log) + [x]
    {
      StateAppend(w.env, log, x);
      WellFormedAppend(w, log, x);
      CRLsStayJustified(w, log, log + [x], crls.log, whys);
      OCSPsStayJustified(w, log, log + [x], ocsps.log, ocspWhys);
      log := log + [x];
    }

    /** ImportDefaults, at the start of the program. */
    method Restart(mozilla: seq<Bytes>, ruGov: seq<Bytes>)
      requires Valid() && forall d :: d in mozilla || d in ruGov ==> Canonical(w, d)
      modifies this`log, certs
      ensures Valid() && log == old(log) + [Plain(TrustBundle.Restart(mozilla, ruGov))]
    {
      TrustBundle.ImportDefaults(certs, mozilla, ruGov);
      Note(Plain(TrustBundle.Restart(mozilla, ruGov)));
    }

    /** SaveCert of an analysis or of the administrator. */
    method Save(der: Bytes, source: string)
      requires Valid() && Canonical(w, der) && source != TrustBundle.MOZILLA && source != TrustBundle.RU_GOV
      modifies this`log, certs
      ensures Valid() && log == old(log) + [Plain(TrustBundle.Archive(der, source))]
    {
      certs.SaveCert(der, source);
      Note(Plain(TrustBundle.Archive(der, source)));
    }

    /** A certificate the administrator sends along is archived, if it is the one named. */
    method StoreSent(sha: string, der: Bytes) returns (ok: bool)
      requires Valid()
      modifies this`log, certs
      ensures Valid() && OnlyAnalysis(old(log), log, {}) && SameTrust(old(certs.certs), certs.certs)
      ensures ok <==> w.parse(der).Some? && w.env.sha(w.parse(der).value.der) == Upper(sha)
      ensures ok ==> Upper(sha) in certs.certs.rows
      ensures !ok ==> log == old(log)
    {
      var info := w.parse(der);
      if info.None? || w.env.sha(info.value.der) != Upper(sha) { return false; }
      Save(info.value.der, "admin");
      ArchivedOne(w.env, old(log), info.value.der, "admin");
      return true;
    }

    /**
     toggleTrust; der is empty when the request has none, the hash in either
     case. On success nothing computed before is answered from the caches.
     */
    method ToggleTrust(sha: string, der: Bytes, trusted: bool) returns (ok: bool)
      requires Valid()
      modifies this`log, certs, analysisCache, siteCache
      ensures Valid() && old(log) <= log
      ensures ok ==> Upper(sha) in certs.certs.rows && certs.certs.rows[Upper(sha)].trusted == trusted
      ensures ok ==> AdminDecided(w.env, old(log), log, Upper(sha), trusted)
      ensures forall s :: s != Upper(sha) ==> (IsTrusted(certs.certs, s) <==> IsTrusted(old(certs.certs), s))
      ensures !ok ==> SameTrust(old(certs.certs), certs.certs)
      ensures ok ==> analysisCache.View() == RespCache.Purged(old(analysisCache.View()))
      ensures ok && siteCache != null ==> siteCache.View() == RespCache.Purged(old(siteCache.View()))
      ensures !ok ==> analysisCache.View() == old(analysisCache.View())
    {
      ok := ChangeTrust(sha, der, trusted);
      if ok { PurgeCaches(); }
    }

    /** What toggleTrust does to the table. */
    method ChangeTrust(sha: string, der: Bytes, trusted: bool) returns (ok: bool)
      requires Valid()
      modifies this`log, certs
      ensures Valid() && old(log) <= log
      ensures ok ==> Upper(sha) in certs.certs.rows && certs.certs.rows[Upper(sha)].trusted == trusted
      ensures ok ==> AdminDecided(w.env, old(log), log, Upper(sha), trusted)
      ensures forall s :: s != Upper(sha) ==> (IsTrusted(certs.certs, s) <==> IsTrusted(old(certs.certs), s))
      ensures !ok ==> SameTrust(old(certs.certs), certs.certs)
    {
      if trusted && |der| > 0 {
        var stored := StoreSent(sha, der);
        if !stored { return false; }
      }
      ok := SetTrust(sha, trusted);
    }

    method PurgeCaches()
      modifies analysisCache, siteCache
      ensures analysisCache.View() == RespCache.Purged(old(analysisCache.View()))
      ensures siteCache != null ==> siteCache.View() == RespCache.Purged(old(siteCache.View()))
    {
      analysisCache.Purge();
      if siteCache != null { siteCache.Purge(); }
    }

    method SetTrust(sha: string, trusted: bool) returns (ok: bool)
      requires Valid()
      modifies this`log, certs
      ensures Valid() && old(log) <= log
      ensures certs.certs == WithTrust(old(certs.certs), Upper(sha), trusted)
      ensures ok <==> Upper(sha) in old(certs.certs).rows
      ensures log == old(log) + [Plain(TrustBundle.Admin(Upper(sha), trusted))]
    {
      ok := certs.SetTrusted(sha, trusted);
      Note(Plain(TrustBundle.Admin(Upper(sha), trusted)));
    }

    // -------------------------------------------------------------- trusted paths

    method TrustedRoots(roots: seq<Bytes>) returns (anchors: seq<Bytes>)
      requires Valid()
      ensures anchors == TrustedOf(w.env, certs.certs, roots)
    {
      anchors := [];
      for k := 0 to |roots|
        invariant anchors == TrustedOf(w.env, certs.certs, roots[..k])
      {
        assert roots[..k + 1][..k] == roots[..k];
        var t := certs.IsCertTrusted(w.env.sha(roots[k]));
        if t { anchors := anchors + [roots[k]]; }
      }
      assert roots[..|roots|] == roots;
    }

    method PoolPath(path: seq<CertInfo>, transient: set<Bytes>, ghost p: Path)
      requires Valid() && PathHolds(w, log, p) && path == VerifiedPath(w, p)
      modifies this`log, certs
      ensures Valid() && PathHolds(w, log, p) && log == old(log) + PathEntries(path, p, transient)
      ensures OnlyAnalysis(old(log), log, transient)
    {
      for k := 0 to |path|
        invariant Valid() && PathHolds(w, log, p) && log == old(log) + PathEntries(path[..k], p, transient)
      {
        PathEntriesNext(old(log), path, k, p, transient);
        PoolOne(path[k], transient, p);
      }
      assert path[..|path|] == path;
    }

    method PoolOne(c: CertInfo, transient: set<Bytes>, ghost p: Path)
      requires Valid() && PathHolds(w, log, p) && c in VerifiedPath(w, p)
      modifies this`log, certs
      ensures Valid() && PathHolds(w, log, p) && log == old(log) + PathEntry(c, p, transient)
    {
      if c.isCA && |c.der| > 0 && c.der !in transient {
        assert Canonical(w, c.der) && IsPathCA(w, p, c.der);
        certs.SavePoolCert(c.der, "");
        Note(OnPath(c.der, p));
        PathStillHolds(w, old(log), log, p);
      }
    }

    /**
     trustedPath at a time: the anchor of a path of der to the trusted ones
     among roots. The path's CAs that are not transient join the pool.
     */
    method TrustedPath(der: Bytes, roots: seq<Bytes>, inters: seq<Bytes>, transient: set<Bytes>, time: int)
      returns (via: Option<CertInfo>)
      requires Valid()
      modifies this`log, certs
      ensures Valid() && OnlyAnalysis(old(log), log, transient)
      ensures
        var p := Path(der, TrustedOf(w.env, old(certs.certs), roots), inters, |old(log)|, time);
        var path := VerifiedPath(w, p);
        if PathOK(w, p) then
          via == Some(path[|path| - 1]) && PathHolds(w, log, p) && log == old(log) + PathEntries(path, p, transient)
        else via == None && log == old(log)
      ensures via.Some? ==>
        var anchors := TrustedOf(w.env, old(certs.certs), roots);
        PathPooled(w.env, certs.certs, w.verify(time, der, anchors, inters).path, transient)
    {
      var anchors := TrustedRoots(roots);
      if |anchors| == 0 { return None; }
      via := PathTo(der, anchors, inters, transient, time, roots);
    }

    /** The path of der to these anchors, the trusted ones among roots. */
    method PathTo(der: Bytes, anchors: seq<Bytes>, inters: seq<Bytes>, transient: set<Bytes>, time: int,
        ghost roots: seq<Bytes>)
      returns (via: Option<CertInfo>)
      requires Valid() && anchors != [] && anchors == TrustedOf(w.env, certs.certs, roots)
      modifies this`log, certs
      ensures Valid() && OnlyAnalysis(old(log), log, transient)
      ensures
        var p := Path(der, anchors, inters, |old(log)|, time);
        var path := VerifiedPath(w, p);
        if PathOK(w, p) then
          via == Some(path[|path| - 1]) && PathHolds(w, log, p) && log == old(log) + PathEntries(path, p, transient)
        else via == None && log == old(log)
      ensures via.Some? ==>
        var anchors := TrustedOf(w.env, old(certs.certs), roots);
        PathPooled(w.env, certs.certs, w.verify(time, der, anchors, inters).path, transient)
    {
      var v := w.verify(time, der, anchors, inters);
      if v.status != Revocation.OK || |v.path| == 0 { return None; }
      ghost var p := Path(der, anchors, inters, |log|, time);
      PathHoldsNow(w, log, roots, p);
      PoolPath(v.path, transient, p);
      PathIsPooled(w, old(log), v.path, p, transient);
      return Some(v.path[|v.path| - 1]);
    }

    /** poolIssuers. */
    method PoolIssuers(name: Bytes) returns (ders: seq<Bytes>)
      requires certs.Valid()
      ensures ders == PoolDERs(certs.certs, name)
    {
      var cands := certs.FindIssuers(name, "", Chain.MAX_ALT_CANDIDATES, 0);
      ders := seq(|cands|, i requires 0 <= i < |cands| => cands[i].der);
    }

    /** The candidates of chainsToTrust. */
    method StoredCandidates(cert: CertInfo) returns (roots: seq<Bytes>, inters: seq<Bytes>)
      requires Valid()
      ensures
        var f := IssuerWalk.Candidates(w, certs.certs, cert);
        roots == f.roots && inters == f.inters
    {
      roots, inters := WalkNames(cert.issuerName, Chain.MAX_CHAIN_DEPTH, IssuerWalk.PoolOf(certs.certs));
    }

    /** The loop of chainsToTrust over names, from one name on. */
    method WalkNames(first: Bytes, max: nat, ghost pool: Bytes -> seq<Bytes>)
      returns (roots: seq<Bytes>, inters: seq<Bytes>)
      requires certs.Valid() && IssuerWalk.IsPoolOf(pool, certs.certs)
      ensures
        var f := IssuerWalk.Walk(w, pool, [first], {}, max);
        roots == f.roots && inters == f.inters
    {
      roots, inters := [], [];
      var names, seen, depth := [first], {}, 0;
      ghost var whole := IssuerWalk.Walk(w, pool, [first], {}, max);
      assert [] + whole.roots == whole.roots && [] + whole.inters == whole.inters;
      while depth < max && |names| > 0
        invariant depth <= max
        invariant whole == IssuerWalk.Joined(roots, inters, IssuerWalk.Walk(w, pool, names, seen, max - depth))
      {
        roots, inters, names, seen := WalkOne(roots, inters, names, seen, max - depth, pool);
        depth := depth + 1;
      }
      IssuerWalk.WalkEnds(w, pool, roots, inters, names, seen, max - depth);
    }

    /** One round of the loop, with this many left. */
    method WalkOne(roots: seq<Bytes>, inters: seq<Bytes>, names: seq<Bytes>, seen: set<Bytes>, ghost left: nat,
        ghost pool: Bytes -> seq<Bytes>)
      returns (roots': seq<Bytes>, inters': seq<Bytes>, names': seq<Bytes>, seen': set<Bytes>)
      requires certs.Valid() && names != [] && left > 0 && IssuerWalk.IsPoolOf(pool, certs.certs)
      ensures
        IssuerWalk.Joined(roots, inters, IssuerWalk.Walk(w, pool, names, seen, left)) ==
        IssuerWalk.Joined(roots', inters', IssuerWalk.Walk(w, pool, names', seen', left - 1))
    {
      var name := names[0];
      if name in seen { return roots, inters, names[1..], seen; }
      IssuerWalk.WalkStep(w, pool, roots, inters, names, seen, left);
      roots', inters', names' := AddNamed(name, roots, inters, names[1..]);
      seen' := seen + {name};
    }

    method AddNamed(name: Bytes, roots: seq<Bytes>, inters: seq<Bytes>, names: seq<Bytes>)
      returns (roots': seq<Bytes>, inters': seq<Bytes>, names': seq<Bytes>)
      requires certs.Valid()
      ensures
        var f := IssuerWalk.Sorted(w, PoolDERs(certs.certs, name));
        roots' == roots + f.roots && inters' == inters + f.inters && names' == names + f.names
    {
      var ders := PoolIssuers(name);
      roots', inters', names' := SortNamed(ders, roots, inters, names);
    }

    /** One name's certificates: roots and intermediates, whose issuers are looked for next. */
    method SortNamed(ders: seq<Bytes>, roots: seq<Bytes>, inters: seq<Bytes>, names: seq<Bytes>)
      returns (roots': seq<Bytes>, inters': seq<Bytes>, names': seq<Bytes>)
      ensures
        var f := IssuerWalk.Sorted(w, ders);
        roots' == roots + f.roots && inters' == inters + f.inters && names' == names + f.names
    {
      roots', inters', names' := roots, inters, names;
      for k := 0 to |ders|
        invariant
          var f := IssuerWalk.Sorted(w, ders[..k]);
          roots' == roots + f.roots && inters' == inters + f.inters && names' == names + f.names
      {
        assert ders[..k + 1][..k] == ders[..k];
        var info := w.parse(ders[k]);
        if info.None? { continue; }
        if info.value.selfSigned {
          roots' := roots' + [ders[k]];
        } else {
          inters', names' := inters' + [ders[k]], names' + [info.value.issuerName];
        }
      }
      assert ders[..|ders|] == ders;
    }

    /** chainsToTrust: exactly when cert is trusted, or verifies through pool certificates to a trusted one. */
    method ChainsToTrust(cert: CertInfo, time: int) returns (ok: bool, ghost trust: IssuerTrust)
      requires Valid()
      modifies this`log, certs
      ensures Valid() && OnlyAnalysis(old(log), log, {})
      ensures ok <==> HandlerSpec.ChainsToTrust(w, old(certs.certs), cert, time)
      ensures ok ==> IssuerTrusted(w, log, cert.der, trust)
    {
      trust := Itself(|log|);
      assert log[..|log|] == log;
      var t := certs.IsCertTrusted(w.env.sha(cert.der));
      if t { return true, trust; }
      var roots, inters := StoredCandidates(cert);
      trust := Via(StoredPath(w, certs.certs, cert, |log|, time));
      var via := TrustedPath(cert.der, roots, inters, {}, time);
      ok := via.Some?;
    }

    // -------------------------------------------------------------- CRLs and OCSP responses

    /** FindFreshCRL gives the CRL under the URL until it expires. */
    ghost predicate Found(url: string, der: Bytes)
      reads this, crls
    {
      forall t :: url != "" && crls.now <= t < crls.env.nextUpdate(der) ==>
        CRLStore.FindFresh(CRLStore.Tables(crls.crls, crls.crlUrls), url, t) == Some(der)
    }

    /** SaveCRL, with what justifies it. */
    method SaveCRL(url: string, der: Bytes, t0: int, t1: int, ghost why: CRLWhy)
      requires Valid() && CRLJustified(w, log, der, why) && why.inserted == t1 && crls.now <= t0 <= t1
      modifies this`whys, crls
      ensures Valid() && crls.log == old(crls.log) + [CRLStore.Save(url, der)] && crls.now == t1
      ensures whys == old(whys) + [why] && Found(url, der)
      ensures CRLStore.Tables(crls.crls, crls.crlUrls) ==
        CRLStore.Saved(crls.env, old(CRLStore.Tables(crls.crls, crls.crlUrls)), CRLStore.Save(url, der), t0, t1)
    {
      crls.SaveCRL(url, der, t0, t1);
      whys := whys + [why];
      CRLStore.LastIsFound(crls.env, CRLStore.Tables(crls.crls, crls.crlUrls), crls.log, crls.now);
    }

    /** The first pool certificate of the CRL's issuer that fits its key identifier and may sign CRLs. */
    method FindSigner(crl: IDP.CRLInfo) returns (r: Option<CertInfo>)
      requires Valid()
      ensures r == SignerOf(w, certs.certs, crl)
      ensures r.Some? ==> CanSignCRL(r.value)
    {
      if crl.issuerName == [] { return None; }
      var ders := PoolIssuers(crl.issuerName);
      for k := 0 to |ders|
        invariant FirstSigner(w, ders, crl) == FirstSigner(w, ders[k..], crl)
      {
        assert ders[k..][1..] == ders[k + 1..];
        var info := w.parse(ders[k]);
        if info.None? { continue; }
        if (crl.aki != "" && info.value.ski != "" && crl.aki != info.value.ski) || !CanSignCRL(info.value) { continue; }
        return info;
      }
      return None;
    }

    /**
     doAnalyzeCRL: an uploaded CRL is saved exactly when the first pool
     certificate that fits it verifies it and chains to trust, and it is not
     expired.
     */
    method AnalyzeCRL(der: Bytes, now: int, time: int, t0: int, t1: int) returns (saved: bool)
      requires Valid() && crls.now <= t0 <= t1
      modifies this`log, this`whys, certs, crls
      ensures Valid() && OnlyAnalysis(old(log), log, {}) && SameTrust(old(certs.certs), certs.certs)
      ensures saved <==> SavesUpload(w, old(certs.certs), der, now, time)
      ensures crls.log == old(crls.log) + if saved then [CRLStore.Save("", der)] else []
      ensures |whys| == |old(whys)| + (if saved then 1 else 0) && (saved ==> whys[|old(whys)|].inserted == t1)
      ensures
        var before := old(CRLStore.Tables(crls.crls, crls.crlUrls));
        var after := CRLStore.Saved(crls.env, before, CRLStore.Save("", der), t0, t1);
        CRLStore.Tables(crls.crls, crls.crlUrls) == if saved then after else before
    {
      var crl := w.crlInfo(der);
      var signer := FindSigner(crl);
      if signer.None? || !w.verifyCRL(der, signer.value.der).Verified? { return false; }
      var ok, trust := ChainsToTrust(signer.value, time);
      AnalysisKeeps(w.env, old(log), log, {});
      if !ok { return false; }
      saved := SaveUnexpired(der, now, t0, t1, CRLWhy(signer.value, now, t1, trust));
    }

    /** The CRL is saved unless it is expired. */
    method SaveUnexpired(der: Bytes, now: int, t0: int, t1: int, ghost why: CRLWhy) returns (saved: bool)
      requires Valid() && crls.now <= t0 <= t1 && why.checked == now && why.inserted == t1
      requires !Expired(w.crlInfo(der), now) ==> CRLJustified(w, log, der, why)
      modifies this`whys, crls
      ensures Valid() && saved == !Expired(w.crlInfo(der), now)
      ensures crls.log == old(crls.log) + if saved then [CRLStore.Save("", der)] else []
      ensures whys == old(whys) + if saved then [why] else []
      ensures
        var before := old(CRLStore.Tables(crls.crls, crls.crlUrls));
        var after := CRLStore.Saved(crls.env, before, CRLStore.Save("", der), t0, t1);
        CRLStore.Tables(crls.crls, crls.crlUrls) == if saved then after else before
    {
      var crl := w.crlInfo(der);
      if crl.nextUpdate.Some? && now > crl.nextUpdate.value { return false; }
      SaveCRL("", der, t0, t1, why);
      return true;
    }

    /** processCRL's end: a fetched CRL is saved when its issuer verifies to a trusted root. */
    method SaveFetched(chain: seq<CertInfo>, rev: Revocation.Env, s: Revocation.SavedCRL,
        roots: seq<Bytes>, inters: seq<Bytes>, transient: set<Bytes>, time: int, t0: int, t1: int)
      requires Valid() && crls.now <= t0 <= t1
      requires Revocation.SaveJustified(rev, chain, s) && w.crlInfo(s.crl.der) == s.crl && rev.verify == w.verifyCRL
      modifies this`log, this`whys, certs, crls
      ensures Valid() && crls.now <= t1 && OnlyAnalysis(old(log), log, transient)
      ensures TrustedOf(w.env, certs.certs, roots) == TrustedOf(w.env, old(certs.certs), roots)
      ensures crls.log == old(crls.log) + SaveMade(w, TrustedOf(w.env, old(certs.certs), roots), inters, s, time)
      ensures
        var saved := PathOK(w, Path(s.issuer.der, TrustedOf(w.env, old(certs.certs), roots), inters, 0, time));
        if saved then crls.log == old(crls.log) + [CRLStore.Save(s.url, s.crl.der)] && Found(s.url, s.crl.der)
        else crls.log == old(crls.log)
    {
      ghost var p := Path(s.issuer.der, TrustedOf(w.env, certs.certs, roots), inters, |log|, time);
      var via := TrustedPath(s.issuer.der, roots, inters, transient, time);
      AnalysisKeeps(w.env, old(log), log, transient);
      TrustedOfSame(w.env, old(certs.certs), certs.certs, roots);
      if via.None? { return; }
      SaveCRL(s.url, s.crl.der, t0, t1, CRLWhy(s.issuer, s.at, t1, Via(p)));
    }

    /** A fetched, verified OCSP response is kept when its issuer verifies to a trusted root. */
    method KeepOCSP(chain: seq<CertInfo>, rev: Revocation.Env, x: Revocation.KeptOCSP,
        roots: seq<Bytes>, inters: seq<Bytes>, transient: set<Bytes>, time: int, t: int)
      requires Valid() && ocsps.now <= t
      requires Revocation.KeptJustified(rev, chain, x) && rev.parseOCSP == w.parseOCSP
      modifies this`log, this`ocspWhys, certs, ocsps
      ensures Valid() && ocsps.now <= t && OnlyAnalysis(old(log), log, transient)
      ensures TrustedOf(w.env, certs.certs, roots) == TrustedOf(w.env, old(certs.certs), roots)
      ensures ocsps.log ==
        old(ocsps.log) + KeepMade(w, chain, TrustedOf(w.env, old(certs.certs), roots), inters, x, time)
      ensures
        var kept := PathOK(w, Path(x.issuer.der, TrustedOf(w.env, old(certs.certs), roots), inters, 0, time));
        ocsps.log == old(ocsps.log) + if kept then [RowOf(w, chain, x)] else []
    {
      ghost var p := Path(x.issuer.der, TrustedOf(w.env, certs.certs, roots), inters, |log|, time);
      var via := TrustedPath(x.issuer.der, roots, inters, transient, time);
      AnalysisKeeps(w.env, old(log), log, transient);
      TrustedOfSame(w.env, old(certs.certs), certs.certs, roots);
      if via.None? { return; }
      SaveOCSP(RowOf(w, chain, x), t, OCSPWhy(chain[x.entry].der, p));
    }

    method SaveOCSP(row: OCSPStore.Row, t: int, ghost why: OCSPWhy)
      requires Valid() && OCSPJustified(w, log, row, why) && ocsps.now <= t
      modifies this`ocspWhys, ocsps
      ensures Valid() && ocsps.log == old(ocsps.log) + [row] && ocsps.now == t
    {
      ocsps.SaveOCSP(row, t);
      ocspWhys := ocspWhys + [why];
    }

    // -------------------------------------------------------------- an analysis

    /** The archive keeps the resolved chain. */
    method ArchiveChain(rest: seq<Chain.Link>, transient: set<Bytes>)
      requires Valid() && forall l :: l in rest ==> Canonical(w, l.info.der)
      modifies this`log, certs
      ensures Valid() && log == old(log) + ChainEntries(rest, transient)
      ensures ChainKept(w.env, certs.certs, rest, transient)
    {
      for k := 0 to |rest|
        invariant Valid() && log == old(log) + ChainEntries(rest[..k], transient)
      {
        assert rest[k] in rest;
        ChainEntriesNext(old(log), rest, k, transient);
        ArchiveOne(rest[k], transient);
      }
      assert rest[..|rest|] == rest;
      assert ChainEntries(rest, transient) + SiteEntries([]) == ChainEntries(rest, transient);
      ArchivesAreKept(w, old(log), rest, [], transient, log);
    }

    method ArchiveOne(l: Chain.Link, transient: set<Bytes>)
      requires Valid() && Canonical(w, l.info.der)
      modifies this`log, certs
      ensures Valid() && log == old(log) + ChainEntry(l, transient)
    {
      if l.info.der !in transient { Save(l.info.der, Label(l.source)); }
    }

    /** It also keeps up to MAX_CHAIN_DEPTH certificates a site presented. */
    method ArchiveSite(bag: seq<Chain.BagCert>)
      requires Valid() && forall b :: b in bag ==> Canonical(w, b.info.der)
      modifies this`log, certs
      ensures Valid() && log == old(log) + SiteEntries(bag)
      ensures SiteKept(w.env, certs.certs, bag)
    {
      var siteCerts := 0;
      for k := 0 to |bag|
        invariant Valid() && log == old(log) + SiteEntries(bag[..k]) && siteCerts == |SiteEntries(bag[..k])|
      {
        assert bag[..k + 1][..k] == bag[..k] && bag[k] in bag;
        ghost var before := SiteEntries(bag[..k]);
        if bag[k].source.FromTLS? && siteCerts < Chain.MAX_CHAIN_DEPTH {
          Save(bag[k].info.der, Label(bag[k].source));
          AppendEntries(old(log), before, [Plain(TrustBundle.Archive(bag[k].info.der, Label(bag[k].source)))]);
          siteCerts := siteCerts + 1;
        }
      }
      assert bag[..|bag|] == bag;
      assert ChainEntries([], {}) + SiteEntries(bag) == SiteEntries(bag);
      ArchivesAreKept(w, old(log), [], bag, {}, log);
    }

    method ArchiveAll(rest: seq<Chain.Link>, bag: seq<Chain.BagCert>, transient: set<Bytes>)
      requires Valid() && forall l :: l in rest ==> Canonical(w, l.info.der)
      requires forall b :: b in bag ==> Canonical(w, b.info.der)
      requires transient == {} || forall b :: b in bag ==> b.source == Chain.FromLink
      modifies this`log, certs
      ensures Valid() && OnlyAnalysis(old(log), log, transient)
      ensures log == old(log) + ChainEntries(rest, transient) + SiteEntries(bag)
    {
      ArchiveChain(rest, transient);
      ArchiveSite(bag);
      ArchiveIsAnalysis(old(log), rest, bag, transient);
    }

    /** The chain loop over the current table, and the bag it leaves. */
    method Build(leaf: CertInfo, source: Chain.Source, bag: seq<Chain.BagCert>, net: Net)
      returns (chain: Option<seq<Chain.Link>>, bag': seq<Chain.BagCert>)
      requires Valid() && w.parse(leaf.der) == Some(leaf)
      requires forall b :: b in bag ==> w.parse(b.info.der) == Some(b.info)
      ensures bag <= bag' && forall b :: b in bag' ==> w.parse(b.info.der) == Some(b.info)
      ensures |bag'| <= |bag| + Chain.MAX_AIA_CERTS * Chain.MAX_FETCHES
        + 2 * Chain.ARCHIVE_SAMPLE * (Chain.MAX_CHAIN_DEPTH - 1)
      ensures chain.Some? ==>
        GoodChain(leaf, chain.value) && forall l :: l in chain.value ==> w.parse(l.info.der) == Some(l.info)
      ensures
        var env := ChainEnv(w, certs.certs, net);
        var (built, held) := BuiltFrom(w, log, leaf, source, bag, net);
        chain == built && bag' == held.bag && (chain.Some? ==> Chain.Stops(env, chain.value, held))
    {
      StateIsGood(w, log);
      ChainEnvIsGood(w, certs.certs, net);
      var a := new Chain.Analysis(ChainEnv(w, certs.certs, net), bag, Chain.MAX_FETCHES);
      chain := Chain.BuildChain(a, leaf, source);
      bag' := a.bag;
    }

    /** The candidates for the verifier: what the chain, the bag and the pool offer. */
    method Candidates(chain: seq<Chain.Link>, bag: seq<Chain.BagCert>, net: Net)
      returns (roots: seq<Bytes>, inters: seq<Bytes>)
      requires Valid() && chain != []
      requires forall l :: l in chain ==> w.parse(l.info.der) == Some(l.info)
      requires forall b :: b in bag ==> w.parse(b.info.der) == Some(b.info)
      ensures Partitions(ChainEnv(w, certs.certs, net), chain, bag, roots, inters)
    {
      var cands := new Chain.Candidates(ChainEnv(w, certs.certs, net));
      cands.Collect(chain, bag);
      roots, inters := cands.roots, cands.intermediates;
    }

    /** The k-th save, at the k-th three clock readings. */
    method SaveNext(chain: seq<CertInfo>, rev: Revocation.Env, s: Revocation.SavedCRL,
        roots: seq<Bytes>, inters: seq<Bytes>, transient: set<Bytes>, clock: nat -> int, k: nat)
      requires Valid() && GoodClock(clock, clock(0)) && crls.now <= clock(3 * k)
      requires Revocation.SaveJustified(rev, chain, s) && w.crlInfo(s.crl.der) == s.crl && rev.verify == w.verifyCRL
      modifies this`log, this`whys, certs, crls
      ensures Valid() && OnlyAnalysis(old(log), log, transient) && crls.now <= clock(3 * (k + 1))
      ensures TrustedOf(w.env, certs.certs, roots) == TrustedOf(w.env, old(certs.certs), roots)
      ensures crls.log ==
        old(crls.log) + SaveMade(w, TrustedOf(w.env, old(certs.certs), roots), inters, s, clock(3 * k))
    {
      assert clock(3 * k) <= clock(3 * k + 1) <= clock(3 * k + 2) <= clock(3 * (k + 1));
      SaveFetched(chain, rev, s, roots, inters, transient, clock(3 * k), clock(3 * k + 1), clock(3 * k + 2));
    }

    /** The fetched CRLs whose issuers verify to a trusted root are saved, in order. */
    method SaveCRLs(chain: seq<CertInfo>, rev: Revocation.Env, saves: seq<Revocation.SavedCRL>,
        roots: seq<Bytes>, inters: seq<Bytes>, transient: set<Bytes>, clock: nat -> int)
      requires Valid() && GoodClock(clock, crls.now) && rev.verify == w.verifyCRL
      requires forall s :: s in saves ==> Revocation.SaveJustified(rev, chain, s) && w.crlInfo(s.crl.der) == s.crl
      modifies this`log, this`whys, certs, crls
      ensures Valid() && OnlyAnalysis(old(log), log, transient)
      ensures TrustedOf(w.env, certs.certs, roots) == TrustedOf(w.env, old(certs.certs), roots)
      ensures crls.log ==
        old(crls.log) + SavesMade(w, TrustedOf(w.env, old(certs.certs), roots), inters, saves, clock)
    {
      ghost var anchors, before := TrustedOf(w.env, certs.certs, roots), crls.log;
      for k := 0 to |saves|
        invariant Valid() && OnlyAnalysis(old(log), log, transient) && crls.now <= clock(3 * k)
        invariant anchors == TrustedOf(w.env, certs.certs, roots)
        invariant crls.log == before + SavesMade(w, anchors, inters, saves[..k], clock)
      {
        SavesMadeNext(w, anchors, inters, saves, clock, k, before);
        SaveNext(chain, rev, saves[k], roots, inters, transient, clock, k);
      }
      assert saves[..|saves|] == saves;
    }

    method KeepNext(chain: seq<CertInfo>, rev: Revocation.Env, x: Revocation.KeptOCSP,
        roots: seq<Bytes>, inters: seq<Bytes>, transient: set<Bytes>, clock: nat -> int, k: nat)
      requires Valid() && GoodClock(clock, clock(0)) && ocsps.now <= clock(2 * k)
      requires Revocation.KeptJustified(rev, chain, x) && rev.parseOCSP == w.parseOCSP
      modifies this`log, this`ocspWhys, certs, ocsps
      ensures Valid() && OnlyAnalysis(old(log), log, transient) && ocsps.now <= clock(2 * (k + 1))
      ensures TrustedOf(w.env, certs.certs, roots) == TrustedOf(w.env, old(certs.certs), roots)
      ensures ocsps.log ==
        old(ocsps.log) + KeepMade(w, chain, TrustedOf(w.env, old(certs.certs), roots), inters, x, clock(2 * k))
    {
      assert clock(2 * k) <= clock(2 * k + 1) <= clock(2 * (k + 1));
      KeepOCSP(chain, rev, x, roots, inters, transient, clock(2 * k), clock(2 * k + 1));
    }

    /** The OCSP responses whose issuers verify to a trusted root are kept, in order. */
    method KeepOCSPs(chain: seq<CertInfo>, rev: Revocation.Env, kept: seq<Revocation.KeptOCSP>,
        roots: seq<Bytes>, inters: seq<Bytes>, transient: set<Bytes>, clock: nat -> int)
      requires Valid() && GoodClock(clock, ocsps.now) && rev.parseOCSP == w.parseOCSP
      requires forall x :: x in kept ==> Revocation.KeptJustified(rev, chain, x)
      modifies this`log, this`ocspWhys, certs, ocsps
      ensures Valid() && OnlyAnalysis(old(log), log, transient)
      ensures TrustedOf(w.env, certs.certs, roots) == TrustedOf(w.env, old(certs.certs), roots)
      ensures ocsps.log ==
        old(ocsps.log) + KeepsMade(w, chain, TrustedOf(w.env, old(certs.certs), roots), inters, kept, clock)
    {
      ghost var anchors, before := TrustedOf(w.env, certs.certs, roots), ocsps.log;
      for k := 0 to |kept|
        invariant Valid() && OnlyAnalysis(old(log), log, transient) && ocsps.now <= clock(2 * k)
        invariant anchors == TrustedOf(w.env, certs.certs, roots)
        invariant ocsps.log == before + KeepsMade(w, chain, anchors, inters, kept[..k], clock)
      {
        KeepsMadeNext(w, chain, anchors, inters, kept, clock, k, before);
        KeepNext(chain, rev, kept[k], roots, inters, transient, clock, k);
      }
      assert kept[..|kept|] == kept;
    }

    /** What the revocation phase offers the store: fetched CRLs, then OCSP responses. */
    method SaveOffers(chain: seq<CertInfo>, rev: Revocation.Env, saves: seq<Revocation.SavedCRL>,
        kept: seq<Revocation.KeptOCSP>, roots: seq<Bytes>, inters: seq<Bytes>, transient: set<Bytes>, clock: nat -> int)
      requires Valid() && GoodClock(clock, crls.now) && GoodClock(clock, ocsps.now)
      requires rev.verify == w.verifyCRL && rev.parseOCSP == w.parseOCSP
      requires forall s :: s in saves ==> Revocation.SaveJustified(rev, chain, s) && w.crlInfo(s.crl.der) == s.crl
      requires forall x :: x in kept ==> Revocation.KeptJustified(rev, chain, x)
      modifies this`log, this`whys, this`ocspWhys, certs, crls, ocsps
      ensures Valid() && OnlyAnalysis(old(log), log, transient)
      ensures TrustedOf(w.env, certs.certs, roots) == TrustedOf(w.env, old(certs.certs), roots)
      ensures crls.log ==
        old(crls.log) + SavesMade(w, TrustedOf(w.env, old(certs.certs), roots), inters, saves, clock)
      ensures ocsps.log == old(ocsps.log)
        + KeepsMade(w, chain, TrustedOf(w.env, old(certs.certs), roots), inters, kept, Later(clock, 3 * |saves|))
    {
      SaveCRLs(chain, rev, saves, roots, inters, transient, clock);
      assert clock(0) <= clock(3 * |saves|);
      KeepOCSPs(chain, rev, kept, roots, inters, transient, Later(clock, 3 * |saves|));
    }

    /** The last step: whether the leaf verifies to a trusted anchor. */
    method TrustLeaf(leaf: Bytes, roots: seq<Bytes>, inters: seq<Bytes>, transient: set<Bytes>, time: int)
      returns (via: Option<CertInfo>)
      requires Valid()
      modifies this`log, certs
      ensures Valid() && OnlyAnalysis(old(log), log, transient)
      ensures via.Some? <==> PathOK(w, Path(leaf, TrustedOf(w.env, old(certs.certs), roots), inters, 0, time))
      ensures via.Some? ==> Anchored(w, log, leaf, via.value)
    {
      ghost var p := Path(leaf, TrustedOf(w.env, certs.certs, roots), inters, |log|, time);
      via := TrustedPath(leaf, roots, inters, transient, time);
      if via.Some? {
        PathIsRooted(w, log, p);
        var path := w.verify(time, leaf, p.anchors, inters).path;
        assert path[|path| - 1] in path;
      }
    }

    /** After the revocation phase: the leaf is verified over all candidates, then over the trusted roots. */
    method Finish(leaf: CertInfo, chain: seq<Chain.Link>, ds: seq<Revocation.Decision>, roots: seq<Bytes>,
        inters: seq<Bytes>, transient: set<Bytes>, rev: Revocation.Env, time: int, later: int)
      returns (a: Analysis)
      requires Valid() && GoodChain(leaf, chain) && Decided(rev, chain, ds)
      modifies this`log, certs
      ensures Valid() && OnlyAnalysis(old(log), log, transient)
      ensures GoodAnalysis(w, log, rev, leaf, a) && a.chain == chain
      ensures Outcome(w, TrustedOf(w.env, old(certs.certs), roots), roots, inters, time, later, a)
    {
      var status := w.verify(time, leaf.der, roots, inters).status;
      var verdict := Revocation.Conclude(Offering(rev), Infos(chain), ds, status);
      var via := None;
      if status == Revocation.OK {
        via := TrustLeaf(leaf.der, roots, inters, transient, later);
      }
      a := Analyzed(chain, verdict, via);
    }

    /** The revocation phase and what it stores; n is the number of clock readings taken. */
    method RevokeAndStore(chain: seq<Chain.Link>, roots: seq<Bytes>, inters: seq<Bytes>, transient: set<Bytes>,
        rev: Revocation.Env, clock: nat -> int)
      returns (ds: Option<seq<Revocation.Decision>>, n: nat)
      requires Valid() && GoodRevocation(w, rev) && GoodClock(clock, crls.now) && GoodClock(clock, ocsps.now)
      modifies this`log, this`whys, this`ocspWhys, certs, crls, ocsps
      ensures Valid() && OnlyAnalysis(old(log), log, transient) && old(crls.log) <= crls.log
      ensures TrustedOf(w.env, certs.certs, roots) == TrustedOf(w.env, old(certs.certs), roots)
      ensures ds.None? <==> Revocation.Interrupted(Offering(rev), Infos(chain))
      ensures ds.Some? ==> Decided(rev, chain, ds.value) && n == Readings(rev, chain)
      ensures ds.Some? ==>
        crls.log == old(crls.log) + CRLsMade(w, TrustedOf(w.env, old(certs.certs), roots), inters, rev, chain, clock)
      ensures ds.Some? ==>
        ocsps.log == old(ocsps.log) + OCSPsMade(w, TrustedOf(w.env, old(certs.certs), roots), inters, rev, chain, clock)
    {
      var saves, kept;
      ds, saves, kept := Revoke(w, rev, Infos(chain));
      n := 3 * |saves| + 2 * |kept|;
      SaveOffers(Infos(chain), Offering(rev), saves, kept, roots, inters, transient, clock);
    }

    /** Revocation, what is stored, the verifier and trust over these candidates. */
    method JudgeOver(leaf: CertInfo, chain: seq<Chain.Link>, roots: seq<Bytes>, inters: seq<Bytes>,
        transient: set<Bytes>, rev: Revocation.Env, clock: nat -> int)
      returns (r: Option<Analysis>)
      requires Valid() && GoodChain(leaf, chain) && GoodRevocation(w, rev)
      requires GoodClock(clock, crls.now) && GoodClock(clock, ocsps.now)
      modifies this`log, this`whys, this`ocspWhys, certs, crls, ocsps
      ensures Valid() && OnlyAnalysis(old(log), log, transient) && old(crls.log) <= crls.log
      ensures r.None? <==> Revocation.Interrupted(Offering(rev), Infos(chain))
      ensures r.Some? ==> GoodAnalysis(w, log, rev, leaf, r.value) && r.value.chain == chain
      ensures r.Some? ==>
        var anchors, n := TrustedOf(w.env, old(certs.certs), roots), Readings(rev, chain);
        && crls.log == old(crls.log) + CRLsMade(w, anchors, inters, rev, chain, clock)
        && ocsps.log == old(ocsps.log) + OCSPsMade(w, anchors, inters, rev, chain, clock)
        && Outcome(w, anchors, roots, inters, clock(n), clock(n + 1), r.value)
    {
      var ds, n := RevokeAndStore(chain, roots, inters, transient, rev, clock);
      if ds.None? { return None; }
      var a := Finish(leaf, chain, ds.value, roots, inters, transient, rev, clock(n), clock(n + 1));
      r := Some(a);
    }

    /**
     The second half of analyzeData: candidates, revocation, what is stored, the
     verifier, trust. The candidates are also returned.
     */
    method Judge(leaf: CertInfo, chain: seq<Chain.Link>, bag: seq<Chain.BagCert>, transient: set<Bytes>,
        net: Net, rev: Revocation.Env, clock: nat -> int)
      returns (r: Option<Analysis>, roots: seq<Bytes>, inters: seq<Bytes>)
      requires Valid() && GoodChain(leaf, chain) && GoodClock(clock, crls.now) && GoodClock(clock, ocsps.now)
      requires forall l :: l in chain ==> w.parse(l.info.der) == Some(l.info)
      requires forall b :: b in bag ==> w.parse(b.info.der) == Some(b.info)
      requires GoodRevocation(w, rev)
      modifies this`log, this`whys, this`ocspWhys, certs, crls, ocsps
      ensures Valid() && OnlyAnalysis(old(log), log, transient) && old(crls.log) <= crls.log
      ensures Partitions(ChainEnv(w, old(certs.certs), net), chain, bag, roots, inters)
      ensures r.None? <==> Revocation.Interrupted(Offering(rev), Infos(chain))
      ensures r.Some? ==> GoodAnalysis(w, log, rev, leaf, r.value) && r.value.chain == chain
      ensures r.Some? ==>
        var anchors, n := TrustedOf(w.env, old(certs.certs), roots), Readings(rev, chain);
        && crls.log == old(crls.log) + CRLsMade(w, anchors, inters, rev, chain, clock)
        && ocsps.log == old(ocsps.log) + OCSPsMade(w, anchors, inters, rev, chain, clock)
        && Outcome(w, anchors, roots, inters, clock(n), clock(n + 1), r.value)
      ensures r.Some? ==> JudgedOver(w, old(certs.certs), net, bag, rev, clock, roots, inters, r.value)
    {
      StateIsGood(w, log);
      roots, inters := Candidates(chain, bag, net);
      r := JudgeOver(leaf, chain, roots, inters, transient, rev, clock);
      if r.Some? {
        GivenFromTable(w, old(certs.certs), net, chain, bag, roots, inters);
        ghost var env, time := ChainEnv(w, old(certs.certs), net), clock(Readings(rev, chain));
        OkHasMeaning(w, env, bag, roots, inters, rev, time, r.value);
      }
    }

    /** What follows once the chain is built: the chain and what the site presented are archived, then judged. */
    method ArchiveAndJudge(leaf: CertInfo, chain: seq<Chain.Link>, bag: seq<Chain.BagCert>, held: seq<Chain.BagCert>,
        transient: set<Bytes>, net: Net, rev: Revocation.Env, clock: nat -> int)
      returns (r: Option<Analysis>, roots: seq<Bytes>, inters: seq<Bytes>)
      requires Valid() && GoodChain(leaf, chain) && GoodClock(clock, crls.now) && GoodClock(clock, ocsps.now)
      requires forall l :: l in chain ==> w.parse(l.info.der) == Some(l.info)
      requires bag <= held && forall b :: b in held ==> w.parse(b.info.der) == Some(b.info)
      requires transient == {} || forall b :: b in bag ==> b.source == Chain.FromLink
      requires GoodRevocation(w, rev)
      modifies this`log, this`whys, this`ocspWhys, certs, crls, ocsps
      ensures Valid() && OnlyAnalysis(old(log), log, transient) && old(crls.log) <= crls.log
      ensures old(log) + Archives(chain, bag, transient) <= log
      ensures r.None? <==> Revocation.Interrupted(Offering(rev), Infos(chain))
      ensures r.Some? ==> GoodAnalysis(w, log, rev, leaf, r.value) && r.value.chain == chain
      ensures r.Some? ==> JudgedOver(w, StateAfter(w.env, old(log) + Archives(chain, bag, transient)), net, held, rev,
        clock, roots, inters, r.value)
    {
      ArchiveAll(chain[1..], bag, transient);
      AppendEntries(old(log), ChainEntries(chain[1..], transient), SiteEntries(bag));
      r, roots, inters := Judge(leaf, chain, held, transient, net, rev, clock);
    }

    /** analyzeData once the leaf is parsed and stored. */
    method AnalyzeLeaf(leaf: CertInfo, source: Chain.Source, bag: seq<Chain.BagCert>, transient: set<Bytes>,
        net: Net, rev: Revocation.Env, clock: nat -> int)
      returns (r: Option<Analysis>)
      requires Valid() && GoodRevocation(w, rev) && w.parse(leaf.der) == Some(leaf)
      requires GoodClock(clock, crls.now) && GoodClock(clock, ocsps.now)
      requires forall b :: b in bag ==> w.parse(b.info.der) == Some(b.info)
      requires transient == {} || forall b :: b in bag ==> b.source == Chain.FromLink
      modifies this`log, this`whys, this`ocspWhys, certs, crls, ocsps
      ensures Valid() && OnlyAnalysis(old(log), log, transient) && old(crls.log) <= crls.log
      ensures r.Some? ==> GoodAnalysis(w, log, rev, leaf, r.value)
      ensures r.Some? ==> old(log) + Archives(r.value.chain, bag, transient) <= log
      ensures r.Some? ==>
        ChainKept(w.env, certs.certs, r.value.chain[1..], transient) && SiteKept(w.env, certs.certs, bag)
      ensures AnswersFrom(w, old(log), leaf, source, bag, transient, net, rev, clock, r)
    {
      var chain, held := Build(leaf, source, bag, net);
      if chain.None? { return None; }
      var roots, inters;
      r, roots, inters := ArchiveAndJudge(leaf, chain.value, bag, held, transient, net, rev, clock);
      ArchivesAreKept(w, old(log), chain.value[1..], bag, transient, log);
    }

    /** An uploaded leaf is stored for shareable links; a link is its own. */
    method StoreLeaf(leaf: CertInfo, link: bool, ghost bag: seq<Chain.BagCert>)
      requires Valid() && Canonical(w, leaf.der)
      modifies this`log, certs
      ensures Valid() && log == old(log) + LeafEntries(leaf, link)
      ensures OnlyAnalysis(old(log), log, Transient(leaf, bag, link))
    {
      if !link { Save(leaf.der, ""); }
    }

    /** analyzeData of a parsed leaf. */
    method AnalyzeParsed(leaf: CertInfo, bag: seq<Chain.BagCert>, link: bool,
        net: Net, rev: Revocation.Env, clock: nat -> int)
      returns (r: Option<Analysis>)
      requires Valid() && GoodRevocation(w, rev) && w.parse(leaf.der) == Some(leaf)
      requires GoodClock(clock, crls.now) && GoodClock(clock, ocsps.now)
      requires forall b :: b in bag ==> w.parse(b.info.der) == Some(b.info) && (link ==> b.source == Chain.FromLink)
      modifies this`log, this`whys, this`ocspWhys, certs, crls, ocsps
      ensures Valid() && OnlyAnalysis(old(log), log, Transient(leaf, bag, link)) && old(crls.log) <= crls.log
      ensures r.Some? ==> GoodAnalysis(w, log, rev, leaf, r.value)
      ensures r.Some? ==>
        old(log) + LeafEntries(leaf, link) + Archives(r.value.chain, bag, Transient(leaf, bag, link)) <= log
      ensures r.Some? ==> ChainKept(w.env, certs.certs, r.value.chain, Transient(leaf, bag, link))
      ensures r.Some? ==> SiteKept(w.env, certs.certs, bag)
      ensures Answers(w, old(log), leaf, bag, link, net, rev, clock, r)
    {
      StoreLeaf(leaf, link, bag);
      ghost var mid := log;
      r := AnalyzeLeaf(leaf, SourceOf(link), bag, Transient(leaf, bag, link), net, rev, clock);
      OnlyAnalysisThen(old(log), mid, log, Transient(leaf, bag, link));
      if r.Some? { WholeChainKept(w, old(log), leaf, bag, link, log, r.value.chain); }
    }

    /** analyzeData of an input that is no CRL. */
    method AnalyzeCert(data: Bytes, bag: seq<Chain.BagCert>, link: bool,
        net: Net, rev: Revocation.Env, clock: nat -> int)
      returns (r: Option<Analysis>)
      requires Valid() && GoodRevocation(w, rev) && GoodClock(clock, crls.now) && GoodClock(clock, ocsps.now)
      requires forall b :: b in bag ==> w.parse(b.info.der) == Some(b.info) && (link ==> b.source == Chain.FromLink)
      modifies this`log, this`whys, this`ocspWhys, certs, crls, ocsps
      ensures Valid() && SameTrust(old(certs.certs), certs.certs)
      ensures Usable(w, data) ==>
        Untouched(w.env, old(certs.certs), certs.certs, Transient(w.parse(data).value, bag, link))
      ensures r == Some(Unusable) <==> !Usable(w, data)
      ensures !Usable(w, data) ==> Unchanged(old(log), old(crls.log), old(ocsps.log))
      ensures OnlyAnalysis(old(log), log, {})
      ensures r.Some? && Usable(w, data) ==> GoodAnalysis(w, log, rev, w.parse(data).value, r.value)
      ensures Usable(w, data) ==> Answers(w, old(log), w.parse(data).value, bag, link, net, rev, clock, r)
    {
      var leaf := w.parse(data);
      if |data| > 2 * Chain.CERT_SIZE || leaf.None? || |leaf.value.der| > Chain.CERT_SIZE { return Some(Unusable); }
      r := AnalyzeParsed(leaf.value, bag, link, net, rev, clock);
      AnalysisKeeps(w.env, old(log), log, Transient(leaf.value, bag, link));
    }

    /**
     analyzeData; None when the context is done. What parses as a CRL is handled
     as one. No certificate's trust changes, and a link's certificates not at all.
     */
    method AnalyzeData(data: Bytes, bag: seq<Chain.BagCert>, link: bool, around: Around, clock: nat -> int)
      returns (r: Option<Analysis>)
      requires Valid() && GoodRevocation(w, around.rev) && GoodClock(clock, crls.now) && GoodClock(clock, ocsps.now)
      requires forall b :: b in bag ==> w.parse(b.info.der) == Some(b.info) && (link ==> b.source == Chain.FromLink)
      modifies this`log, this`whys, this`ocspWhys, certs, crls, ocsps
      ensures Valid() && OnlyAnalysis(old(log), log, {}) && SameTrust(old(certs.certs), certs.certs)
      ensures around.admitted && w.readCRL(data).Some? ==>
        var der := w.readCRL(data).value;
        var saved := SavesUpload(w, old(certs.certs), der, clock(0), clock(1));
        var before := old(CRLStore.Tables(crls.crls, crls.crlUrls));
        var after := CRLStore.Saved(crls.env, before, CRLStore.Save("", der), clock(2), clock(3));
        && r == Some(UploadedCRL(saved)) && ocsps.log == old(ocsps.log)
        && crls.log == old(crls.log) + (if saved then [CRLStore.Save("", der)] else [])
        && CRLStore.Tables(crls.crls, crls.crlUrls) == if saved then after else before
      ensures !(around.admitted && w.readCRL(data).Some?) ==>
        && (around.early ==> r == None)
        && (!around.early ==> (r == Some(Unusable) <==> !Usable(w, data)))
        && (around.early || !Usable(w, data) ==> Unchanged(old(log), old(crls.log), old(ocsps.log)))
        && (Usable(w, data) ==>
              Untouched(w.env, old(certs.certs), certs.certs, Transient(w.parse(data).value, bag, link)))
        && (r.Some? && Usable(w, data) ==> GoodAnalysis(w, log, around.rev, w.parse(data).value, r.value))
        && (!around.early && Usable(w, data) ==>
              Answers(w, old(log), w.parse(data).value, bag, link, around.net, around.rev, clock, r))
    {
      if around.admitted {
        var der := w.readCRL(data);
        if der.Some? {
          assert clock(0) <= clock(2) <= clock(3);
          var saved := AnalyzeCRL(der.value, clock(0), clock(1), clock(2), clock(3));
          return Some(UploadedCRL(saved));
        }
      }
      if around.early { return None; }
      r := AnalyzeCert(data, bag, link, around.net, around.rev, clock);
    }

    /**
     doAnalyzeLink: the first certificate is the leaf, the others are its bag; no
     row of theirs is added or changed.
     */
    method DoAnalyzeLink(infos: seq<CertInfo>, around: Around, clock: nat -> int) returns (r: Option<Analysis>)
      requires Valid() && GoodRevocation(w, around.rev) && GoodClock(clock, crls.now) && GoodClock(clock, ocsps.now)
      requires infos != [] && forall c :: c in infos ==> w.parse(c.der) == Some(c)
      modifies this`log, this`whys, this`ocspWhys, certs, crls, ocsps
      ensures Valid() && OnlyAnalysis(old(log), log, {}) && SameTrust(old(certs.certs), certs.certs)
      ensures forall c :: c in infos ==> Untouched(w.env, old(certs.certs), certs.certs, {c.der})
      ensures if around.early then r == None else r == Some(Unusable) <==> !Usable(w, infos[0].der)
      ensures r.Some? && Usable(w, infos[0].der) ==> GoodAnalysis(w, log, around.rev, infos[0], r.value)
      ensures around.early || !Usable(w, infos[0].der) ==> Unchanged(old(log), old(crls.log), old(ocsps.log))
    {
      var bag := LinkBag(infos);
      assert infos[0] in infos && Canonical(w, infos[0].der);
      r := AnalyzeData(infos[0].der, bag, true, around, clock);
      LinkUntouched(w.env, old(certs.certs), certs.certs, infos);
    }

    /**
     analyzeLink: the link's certificates decoded, then analyzed: what is answered
     of the first is sound. None of their rows is added or changed; a link
     refused changes nothing.
     */
    method AnalyzeLink(values: seq<string>, decode: string -> Option<Bytes>, around: Around, clock: nat -> int)
      returns (r: Result<Option<Analysis>, string>)
      requires Valid() && GoodRevocation(w, around.rev) && GoodClock(clock, crls.now) && GoodClock(clock, ocsps.now)
      modifies this`log, this`whys, this`ocspWhys, certs, crls, ocsps
      ensures Valid() && OnlyAnalysis(old(log), log, {}) && SameTrust(old(certs.certs), certs.certs)
      ensures r.Ok? <==>
        1 <= |values| <= Chain.MAX_CHAIN_DEPTH && forall k :: 0 <= k < |values| ==> Decoded(w, decode, values[k]).Some?
      ensures r.Ok? ==> forall k :: 0 <= k < |values| ==>
        Untouched(w.env, old(certs.certs), certs.certs, {Decoded(w, decode, values[k]).value.der})
      ensures r.Ok? && r.value.Some? && Usable(w, Decoded(w, decode, values[0]).value.der) ==>
        GoodAnalysis(w, log, around.rev, Decoded(w, decode, values[0]).value, r.value.value)
      ensures r.Ok? && !around.early ==>
        (r.value == Some(Unusable) <==> !Usable(w, Decoded(w, decode, values[0]).value.der))
      ensures r.Err? ==> Unchanged(old(log), old(crls.log), old(ocsps.log))
    {
      var parsed := ParseLink(w, values, decode);
      if parsed.Err? { return Err(parsed.error); }
      DecodedParse(w, decode, values);
      var a := DoAnalyzeLink(parsed.value, around, clock);
      assert forall k :: 0 <= k < |values| ==> parsed.value[k] in parsed.value;
      return Ok(a);
    }
  }

  method Revoke(w: World, rev: Revocation.Env, chain: seq<CertInfo>)
    returns (ds: Option<seq<Revocation.Decision>>, saves: seq<Revocation.SavedCRL>, kept: seq<Revocation.KeptOCSP>)
    requires GoodRevocation(w, rev)
    ensures forall s :: s in saves ==>
      Revocation.SaveJustified(Offering(rev), chain, s) && w.crlInfo(s.crl.der) == s.crl
    ensures forall x :: x in kept ==> Revocation.KeptJustified(Offering(rev), chain, x)
    ensures ds.None? <==> Revocation.Interrupted(Offering(rev), chain)
    ensures ds.Some? ==>
      && saves == Revocation.SavesOf(Offering(rev), chain, |chain|)
      && kept == Revocation.KeptsOf(Offering(rev), chain, |chain|)
      && |ds.value| == |chain|
      && forall i :: 0 <= i < |chain| ==> ds.value[i] == Revocation.DecisionOf(Offering(rev), chain, i)
  {
    ds, saves, kept := Revocation.RevocationPhase(Offering(rev), chain);
  }

  method ParseLink(w: World, values: seq<string>, decode: string -> Option<Bytes>)
    returns (r: Result<seq<CertInfo>, string>)
    ensures r.Ok? <==>
      1 <= |values| <= Chain.MAX_CHAIN_DEPTH && forall k :: 0 <= k < |values| ==> Decoded(w, decode, values[k]).Some?
    ensures r.Ok? ==>
      |r.value| == |values| && forall k :: 0 <= k < |values| ==> Decoded(w, decode, values[k]) == Some(r.value[k])
  {
    if |values| == 0 { return Err("no certificate"); }
    if |values| > Chain.MAX_CHAIN_DEPTH { return Err("too many certificates"); }
    var certs: seq<CertInfo> := [];
    for i := 0 to |values|
      invariant |certs| == i && forall k :: 0 <= k < i ==> Decoded(w, decode, values[k]) == Some(certs[k])
    {
      var der := decode(values[i]);
      if der.None? || |der.value| == 0 || der.value[0] != 0x30 { return Err("not base64url DER"); }
      if |der.value| > Chain.CERT_SIZE { return Err("too large"); }
      var info := w.parse(der.value);
      if info.None? { return Err("not a certificate"); }
      certs := certs + [info.value];
    }
    return Ok(certs);
  }

  /** The histories of the store while the cache is in the states of a run. */
  ghost predicate Alongside(logs: seq<seq<Entry>>, run: seq<RespCache.Cache>) {
    |logs| == |run| && forall k, k' :: 0 <= k && k' == k + 1 < |logs| ==> logs[k] <= logs[k']
  }

  /**
   A get on the administrator's listener that looks up after a toggle is
   answered with a computation that began after it, under the new trust. The
   toggle is entry t of the history, the purge that follows it step m of the
   cache; whatever the handler did since was no restart and no other toggle of
   the certificate.
   */
  lemma GetAfterToggle(env: CertStore.Env, ttl: int, run: seq<RespCache.Cache>, logs: seq<seq<Entry>>, t: nat,
      s: string, trusted: bool, m: nat, n: nat, p: nat)
    requires RespCache.Run(ttl, run) && Alongside(logs, run) && m < n < |run| && RespCache.PurgeStep(run[m], run[m + 1])
    requires DecidedAt(env, logs[m], t, s, trusted)
    requires TrustLeftAlone(logs[|run| - 1], t, s)
    requires RespCache.NotYet(run[n], p) && p < |RespCache.Last(run).callers|
    requires
      var pc := RespCache.Last(run).callers[p].pc;
      pc.Returned? && (pc.result.Hit? || pc.result.Fresh?)
    ensures m <= RespCache.Last(run).callers[p].pc.result.resp.began
    ensures forall k :: m <= k < |run| ==> TrustIs(StateAfter(env, logs[k]), s, trusted)
  {
    RespCache.AnswersFollowPurge(ttl, run, m, n, p);
    forall k | m <= k < |run| ensures TrustIs(StateAfter(env, logs[k]), s, trusted) {
      TrustAt(env, logs, t, s, trusted, m, k);
    }
  }

  lemma TrustAt(env: CertStore.Env, logs: seq<seq<Entry>>, t: nat, s: string, trusted: bool, m: nat, k: nat)
    requires m <= k < |logs| && DecidedAt(env, logs[m], t, s, trusted) && TrustLeftAlone(logs[|logs| - 1], t, s)
    requires forall k, k' :: 0 <= k && k' == k + 1 < |logs| ==> logs[k] <= logs[k']
    ensures TrustIs(StateAfter(env, logs[k]), s, trusted)
  {
    LogsGrow(logs, m, k);
    LogsGrow(logs, k, |logs| - 1);
    assert logs[k][..t] == logs[m][..t];
    TrustLasts(env, logs[k], t, s, trusted);
  }

  lemma {:induction false} LogsGrow(logs: seq<seq<Entry>>, i: nat, k: nat)
    requires i <= k < |logs| && forall k, k' :: 0 <= k && k' == k + 1 < |logs| ==> logs[k] <= logs[k']
    ensures logs[i] <= logs[k]
  {
    if k > i { LogsGrow(logs, i, k - 1); }
  }

  /** In every state the handler can reach, all that its store holds is justified. */
  lemma StoreIsJustified(h: Handler)
    requires h.Valid()
    ensures forall s :: s in h.certs.certs.rows && InPool(h.certs.certs.rows[s]) ==>
      PoolJustified(h.w, h.log, h.certs.certs.rows[s].der)
    ensures forall s :: IsTrusted(h.certs.certs, s) ==> WasTrusted(h.w.env, h.log, h.certs.certs.rows[s].der)
    ensures forall s :: s in h.crls.crls ==> exists why :: CRLJustified(h.w, h.log, h.crls.crls[s].der, why)
    ensures forall i :: 0 <= i < |h.ocsps.rows| ==> OCSPIsJustified(h, i)
  {
    CertsAreJustified(h);
    forall s | s in h.crls.crls ensures exists why :: CRLJustified(h.w, h.log, h.crls.crls[s].der, why) {
      var k := CRLProvenance(h.w, h.log, h.crls.env, h.crls.crls, h.crls.log, h.whys, s);
      assert CRLJustified(h.w, h.log, h.crls.crls[s].der, h.whys[k]);
    }
    forall i | 0 <= i < |h.ocsps.rows| ensures OCSPIsJustified(h, i) {
      var k := OCSPProvenance(h.w, h.log, h.ocsps.rows, h.ocsps.log, h.ocspWhys, h.ocsps.now, i);
      assert OCSPJustified(h.w, h.log, h.ocsps.rows[i], h.ocspWhys[k]);
    }
  }

  ghost predicate OCSPIsJustified(h: Handler, i: nat)
    reads h, h.ocsps
    requires i < |h.ocsps.rows|
  {
    exists why :: OCSPJustified(h.w, h.log, h.ocsps.rows[i], why)
  }

  lemma CertsAreJustified(h: Handler)
    requires h.Valid()
    ensures forall s :: s in h.certs.certs.rows && InPool(h.certs.certs.rows[s]) ==>
      PoolJustified(h.w, h.log, h.certs.certs.rows[s].der)
    ensures forall s :: IsTrusted(h.certs.certs, s) ==> WasTrusted(h.w.env, h.log, h.certs.certs.rows[s].der)
  {
    StateIsGood(h.w, h.log);
    forall s | s in h.certs.certs.rows && InPool(h.certs.certs.rows[s])
      ensures PoolJustified(h.w, h.log, h.certs.certs.rows[s].der)
    {
      PoolProvenance(h.w, h.log, s);
    }
    forall s | IsTrusted(h.certs.certs, s) ensures WasTrusted(h.w.env, h.log, h.certs.certs.rows[s].der) {
      assert GoodRow(h.w.env, s, h.certs.certs.rows[s]);
      TrustProvenance(h.w, h.log, h.certs.certs.rows[s].der);
    }
  }
}
