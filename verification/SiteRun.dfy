/**
 A run of the handler whose final ok rests on a path outside the chain it
 checked: what HandlerSpec.PathsStayInChainIff shuts out. The site presents a
 certificate of its issuer's name, cross-signed by an older root; the chain goes
 to the root in the pool, the verifier over the cross certificate to the other.
 */
module SiteRun {
  import opened Common
  import opened PKI
  import opened CertStore
  import opened Provenance
  import opened HandlerSpec
  import opened Samples
  import Chain
  import CRLStore
  import Handler
  import IDP
  import RespCache
  import Revocation
  import TrustBundle

  function Cert(der: Bytes, subjectName: Bytes, issuerName: Bytes, ski: string, aki: string, isCA: bool,
      cdpURLs: seq<string>): CertInfo
  {
    CertInfo(der, "", "", subjectName, issuerName, ski, aki, isCA, subjectName == issuerName, NO_KEY_USAGE, 0, 100, [],
      cdpURLs, [])
  }

  const LEAF: CertInfo := Cert([1], [7], [9], "", "K", false, [])
  const ROOT: CertInfo := Cert([2], [9], [9], "K", "", true, [])
  const CROSS: CertInfo := Cert([3], [9], [8], "", "", true, ["http://ca.test/crl"])
  const OLDER: CertInfo := Cert([4], [8], [8], "", "", true, [])

  function Info(d: Bytes): CertInfo {
    if d == LEAF.der then LEAF else if d == ROOT.der then ROOT else if d == CROSS.der then CROSS
    else if d == OLDER.der then OLDER else Cert(d, [6], [5], "", "", false, [])
  }

  const ENV: CertStore.Env := CertStore.Env(Hash, Info)

  /** The verifier goes over the cross certificate whenever it may. */
  function Verify(t: int, d: Bytes, roots: seq<Bytes>, inters: seq<Bytes>): Verification {
    if d == LEAF.der && OLDER.der in roots && CROSS.der in inters
    then Verification(Revocation.OK, [LEAF, CROSS, OLDER]) else Verification(Revocation.Error, [])
  }

  const VERIFY_CRL: (Bytes, Bytes) -> Revocation.Signature := (crl, issuer) => Revocation.Bad
  const PARSE_OCSP: (Bytes, Bytes, Bytes) -> Option<Revocation.OCSPResult> := (cert, issuer, der) => None

  const WORLD: World := World(
    ENV,
    d => Some(Info(d)),
    d => None,
    d => IDP.CRLInfo("", [], "", None, None, false, false, d),
    Verify,
    VERIFY_CRL,
    PARSE_OCSP,
    d => "")

  /** The network fails, the context is never done, and it is always time 50. */
  const NET: Net := Net((n, url) => Chain.FetchFailed, n => false, n => 50, n => 50)

  const REVOCATION: Revocation.Env := Revocation.Env(
    VERIFY_CRL, (crl, cert) => None, (i, k) => None, (i, k) => None, i => None, i => None, (cert, issuer) => false,
    (i, k) => None, PARSE_OCSP, (i, source) => 50, (i, k) => false, i => false, (i, at) => false)

  const BAG: seq<Chain.BagCert> := [Chain.BagCert(CROSS, Chain.FromTLS), Chain.BagCert(OLDER, Chain.FromTLS)]

  const CHAIN: seq<Chain.Link> := [Chain.Link(LEAF, Chain.Upload), Chain.Link(ROOT, Chain.FromPool)]

  lemma WorldIsGood()
    ensures GoodEnv(ENV) && GoodWorld(WORLD) && GoodRevocation(WORLD, REVOCATION)
  {
    HashIsInjective();
    forall t, d, roots, inters | Verify(t, d, roots, inters).status.OK?
      ensures IsPath(WORLD, Verify(t, d, roots, inters).path, d, roots, inters)
    {
      VerifiedIsPath(t, d, roots, inters);
    }
  }

  lemma VerifiedIsPath(t: int, d: Bytes, roots: seq<Bytes>, inters: seq<Bytes>)
    requires Verify(t, d, roots, inters).status.OK?
    ensures IsPath(WORLD, Verify(t, d, roots, inters).path, d, roots, inters)
  {
    assert IsOneOf(WORLD, OLDER, roots) by { assert WORLD.parse(OLDER.der) == Some(OLDER); }
    assert IsOneOf(WORLD, CROSS, inters) by { assert WORLD.parse(CROSS.der) == Some(CROSS); }
  }

  const HELD: Chain.Held := Chain.Held(BAG, 0, Chain.MAX_FETCHES)

  /** The table's one match for the leaf's issuer is the root, and the network does not matter. */
  predicate GoesToRoot(env: Chain.Env) {
    && env.candidates(LEAF.issuerName, LEAF.aki) == [Candidate(ROOT.der, true)] && env.now(1) == 50 && !env.done(1)
    && env.parse(ROOT.der) == Some(ROOT) && env.parse(CROSS.der) == Some(CROSS) && env.parse(OLDER.der) == Some(OLDER)
  }

  /** The cross certificate has no key identifier, so the root in the pool is taken. */
  lemma RootResolves(env: Chain.Env)
    requires GoesToRoot(env)
    ensures Chain.Resolve(env, LEAF, 1, HELD) == (Some(CHAIN[1]), HELD)
  {
    var cands := [Candidate(ROOT.der, true)];
    assert cands[..0] == [];
    assert Chain.PoolCerts(env, cands) == Chain.PoolCerts(env, []) + [ROOT] == [ROOT];
    assert BAG[1..] == [BAG[1]] && BAG[1..][1..] == [];
    assert !Chain.Issues(CROSS, LEAF) && !Chain.Issues(OLDER, LEAF);
    assert Chain.FirstInBag([BAG[1]], LEAF) == Chain.FirstInBag([], LEAF) == None;
  }

  /** The chain loop passes the cross certificate by. */
  lemma ChainIsBuilt(env: Chain.Env)
    requires GoesToRoot(env)
    ensures Chain.Built(env, [CHAIN[0]], HELD) == (Some(CHAIN), HELD)
  {
    RootResolves(env);
    assert [CHAIN[0]] + [CHAIN[1]] == CHAIN;
    assert !Chain.InChainAlready([CHAIN[0]], CHAIN[1]);
  }

  lemma TableGoesToRoot(c: Certs)
    requires OnlyPooled(ENV, c, ROOT.der)
    ensures GoesToRoot(ChainEnv(WORLD, c, NET))
  {
    RootMatches(c);
    ParsesAll(ChainEnv(WORLD, c, NET));
  }

  lemma RootMatches(c: Certs)
    requires OnlyPooled(ENV, c, ROOT.der)
    ensures ChainEnv(WORLD, c, NET).candidates(LEAF.issuerName, LEAF.aki) == [Candidate(ROOT.der, true)]
  {
    EnvIsGood();
    OnlyRootMatches(ENV, c, ROOT.der);
  }

  lemma ParsesAll(env: Chain.Env)
    requires env.parse == WORLD.parse && env.now == NET.now && env.done == NET.done
    requires env.candidates(LEAF.issuerName, LEAF.aki) == [Candidate(ROOT.der, true)]
    ensures GoesToRoot(env)
  {
  }

  lemma EnvIsGood()
    ensures GoodEnv(ENV) && forall d :: ENV.info(d).ski == ENV.info(ROOT.der).ski ==> d == ROOT.der
  {
    HashIsInjective();
  }

  /** The bag offers the other path. */
  lemma OtherPathOffered(env: Chain.Env, roots: seq<Bytes>, inters: seq<Bytes>)
    requires GoesToRoot(env) && Partitions(env, CHAIN, BAG, roots, inters)
    ensures CROSS.der in inters && OLDER.der in roots && !OffersChain(env, CHAIN, BAG)
  {
    assert BAG[0] in BAG && Chain.Offered(env, CHAIN, BAG, CROSS.der);
    assert BAG[1] in BAG && Chain.Offered(env, CHAIN, BAG, OLDER.der);
    assert !ChainHolds(CHAIN, CROSS.der);
  }

  /**
   Over whatever candidates the chain, the bag and the table offer, the verifier
   accepts a path over the cross certificate: revocation applies to it, and it
   is not in the chain.
   */
  lemma OkPathCanLeaveChain(env: Chain.Env, roots: seq<Bytes>, inters: seq<Bytes>, time: int)
    requires GoesToRoot(env) && Partitions(env, CHAIN, BAG, roots, inters)
    ensures Chain.Built(env, [CHAIN[0]], HELD) == (Some(CHAIN), HELD)
    ensures
      var v := WORLD.verify(time, LEAF.der, roots, inters);
      v.status.OK? && CROSS in v.path && Revocation.Relevant(CROSS) && !ChainHolds(CHAIN, CROSS.der)
    ensures !OffersChain(env, CHAIN, BAG)
  {
    ChainIsBuilt(env);
    OtherPathOffered(env, roots, inters);
    CrossVerifies(roots, inters, time);
  }

  lemma CrossVerifies(roots: seq<Bytes>, inters: seq<Bytes>, time: int)
    requires CROSS.der in inters && OLDER.der in roots
    ensures
      var v := WORLD.verify(time, LEAF.der, roots, inters);
      v.status.OK? && CROSS in v.path && Revocation.Relevant(CROSS) && !ChainHolds(CHAIN, CROSS.der)
  {
    assert [LEAF, CROSS, OLDER][1] == CROSS;
  }

  // ---------------------------------------------------------------- the run

  /** What the analysis archives leaves the root alone in the pool. */
  lemma StillOnlyPooled(log: seq<Entry>)
    requires OnlyPooled(ENV, StateAfter(ENV, log), ROOT.der)
    ensures OnlyPooled(ENV, StateAfter(ENV, log + LeafEntries(LEAF, false)), ROOT.der)
    ensures
      var later := log + LeafEntries(LEAF, false) + Archives(CHAIN, BAG, Transient(LEAF, BAG, false));
      OnlyPooled(ENV, StateAfter(ENV, later), ROOT.der)
  {
    WorldIsGood();
    ArchivingKeepsPool(ENV, log, LeafEntries(LEAF, false), ROOT.der);
    ChainArchives(CHAIN[1..], Transient(LEAF, BAG, false));
    SiteArchives(BAG);
    var start, archives := log + LeafEntries(LEAF, false), Archives(CHAIN, BAG, Transient(LEAF, BAG, false));
    ArchivingKeepsPool(ENV, start, archives, ROOT.der);
  }

  lemma {:induction false} ChainArchives(rest: seq<Chain.Link>, transient: set<Bytes>)
    ensures ArchivesOnly(ChainEntries(rest, transient))
  {
    if rest != [] { ChainArchives(rest[..|rest| - 1], transient); }
  }

  lemma {:induction false} SiteArchives(bag: seq<Chain.BagCert>)
    ensures ArchivesOnly(SiteEntries(bag))
  {
    if bag != [] { SiteArchives(bag[..|bag| - 1]); }
  }

  const CLOCK: nat -> int := n => 50

  lemma NoneIsRelevant(r: Revocation.Response)
    requires |r.decisions| == |CHAIN| && Revocation.OverallIs(Infos(CHAIN), r.decisions, r.overall)
    ensures r.overall == Revocation.NotApplicable
  {
    assert forall i :: 0 <= i < |CHAIN| ==> !Revocation.Relevant(Infos(CHAIN)[i]);
  }

  /** Judged over what the table offers, the answer is ok, by the path over the cross certificate. */
  lemma JudgedOk(env: Chain.Env, anchors: seq<Bytes>, roots: seq<Bytes>, inters: seq<Bytes>, a: Analysis)
    requires GoesToRoot(env) && Partitions(env, CHAIN, BAG, roots, inters) && a.Analyzed? && a.chain == CHAIN
    requires |a.revocation.decisions| == |CHAIN|
    requires Revocation.OverallIs(Infos(CHAIN), a.revocation.decisions, a.revocation.overall)
    requires Outcome(WORLD, anchors, roots, inters, 50, 50, a)
    ensures a.revocation.status == Revocation.OK
  {
    OkPathCanLeaveChain(env, roots, inters, 50);
    NoneIsRelevant(a.revocation);
  }

  lemma NeverInterrupted()
    ensures !Revocation.Interrupted(Offering(REVOCATION), Infos(CHAIN))
  {
    assert forall i :: !Offering(REVOCATION).top(i);
  }

  /**
   The answer to what the site presents is ok, over the candidates of the table
   c: the verifier accepts a path over the cross certificate, to which
   revocation applies and which is not in the chain.
   */
  method OkLeavesChain() returns (h: Handler.Handler, a: Analysis, ghost c: Certs, ghost roots: seq<Bytes>,
      ghost inters: seq<Bytes>)
    ensures fresh(h) && h.Valid() && h.w == WORLD
    ensures a.Analyzed? && a.chain == CHAIN && a.revocation.status == Revocation.OK
    ensures JudgedOver(WORLD, c, NET, BAG, REVOCATION, CLOCK, roots, inters, a)
    ensures
      var v := WORLD.verify(50, LEAF.der, roots, inters);
      v.status.OK? && CROSS in v.path && Revocation.Relevant(CROSS) && !ChainHolds(CHAIN, CROSS.der)
  {
    h := Start();
    a, c, roots, inters := AnalyzeSite(h);
    TableGoesToRoot(c);
    OkPathCanLeaveChain(ChainEnv(WORLD, c, NET), roots, inters, 50);
  }

  /** The site's certificates analyzed, with the table they are judged over and its candidates. */
  method AnalyzeSite(h: Handler.Handler) returns (a: Analysis, ghost c: Certs, ghost roots: seq<Bytes>,
      ghost inters: seq<Bytes>)
    requires h.Valid() && h.w == WORLD && h.crls.now == 0 && h.ocsps.now == 0
    requires OnlyPooled(ENV, StateAfter(ENV, h.log), ROOT.der)
    modifies h, h.certs, h.crls, h.ocsps
    ensures h.Valid() && a.Analyzed? && a.chain == CHAIN && a.revocation.status == Revocation.OK
    ensures OnlyPooled(ENV, c, ROOT.der) && JudgedOver(WORLD, c, NET, BAG, REVOCATION, CLOCK, roots, inters, a)
  {
    WorldIsGood();
    InputIsUsable();
    ghost var log := h.log;
    var r := h.AnalyzeData(LEAF.der, BAG, false, Around(true, false, NET, REVOCATION), CLOCK);
    StillOnlyPooled(log);
    ghost var start := log + LeafEntries(LEAF, false);
    TableGoesToRoot(StateAfter(ENV, start));
    ChainIsBuilt(ChainEnv(WORLD, StateAfter(ENV, start), NET));
    NeverInterrupted();
    a := r.value;
    c := StateAfter(ENV, start + Archives(CHAIN, BAG, Transient(LEAF, BAG, false)));
    roots, inters :| JudgedOver(WORLD, c, NET, BAG, REVOCATION, CLOCK, roots, inters, a);
    TableGoesToRoot(c);
    JudgedOk(ChainEnv(WORLD, c, NET), TrustedOf(ENV, c, roots), roots, inters, a);
  }

  lemma InputIsUsable()
    ensures Usable(WORLD, LEAF.der) && WORLD.parse(LEAF.der) == Some(LEAF) && WORLD.readCRL(LEAF.der) == None
    ensures GoodClock(CLOCK, 0) && forall b :: b in BAG ==> WORLD.parse(b.info.der) == Some(b.info)
  {
  }

  /** A handler just started, with the root bundled. */
  method Start() returns (h: Handler.Handler)
    ensures fresh(h) && fresh(h.certs) && fresh(h.crls) && fresh(h.ocsps) && h.Valid() && h.w == WORLD
    ensures h.crls.now == 0 && h.ocsps.now == 0
    ensures OnlyPooled(ENV, StateAfter(ENV, h.log), ROOT.der)
  {
    WorldIsGood();
    var cache := new RespCache.Store(0);
    h := new Handler.Handler(WORLD, CRLStore.Env(Hash, d => "", d => ZERO_TIME, d => ZERO_TIME), cache, null);
    h.Restart([ROOT.der], []);
    ghost var c := Started(ENV, ROOT.der);
    StartedPool(ENV, ROOT.der);
  }
}
