/**
 Runs of the handler that store CRLs whose rows are expired: one without
 nextUpdate, stored as of the year 1, and one that expires between the check and
 the insert. They are what Provenance.CRLProvenance's conditions shut out.
 */
module ExpiryRuns {
  import opened Common
  import opened PKI
  import opened CertStore
  import opened Provenance
  import opened Samples
  import CRLStore
  import Handler
  import HandlerSpec
  import IDP
  import RespCache
  import Revocation
  import TrustBundle

  const ROOT: Bytes := [1]
  const CRL: Bytes := [2]
  const SHORT: Bytes := [4]   // a CRL with nextUpdate 20
  const NAME: Bytes := [3]

  /** Every certificate is a self-signed CA of one name. */
  function Info(d: Bytes): CertInfo {
    CertInfo(d, "CA", "CA", NAME, NAME, "", "", true, true, NO_KEY_USAGE, 0, 100, [], [], [])
  }

  function CRLOf(d: Bytes): IDP.CRLInfo {
    IDP.CRLInfo("CA", NAME, "", None, if d == SHORT then Some(20) else None, false, false, d)
  }

  const ENV: CertStore.Env := CertStore.Env(Hash, Info)

  const WORLD: World := World(
    ENV,
    d => if d == CRL || d == SHORT then None else Some(Info(d)),
    d => if d == CRL || d == SHORT then Some(d) else None,
    CRLOf,
    (t, d, roots, inters) => Verification(Revocation.Error, []),
    (crl, issuer) => Revocation.Verified,
    (cert, issuer, der) => None,
    d => "")

  const CRL_ENV: CRLStore.Env :=
    CRLStore.Env(Hash, d => "CA", d => ZERO_TIME, d => if d == SHORT then 20 else ZERO_TIME)

  lemma WorldIsGood()
    ensures GoodEnv(ENV) && GoodWorld(WORLD)
  {
    HashIsInjective();
  }

  /** The table after the first start with the root bundled. */
  lemma RootStarted() returns (c: Certs)
    ensures c == StateAfter(ENV, [Plain(TrustBundle.Restart([ROOT], []))])
    ensures OnlyPooled(ENV, c, ROOT) && IsTrusted(c, Hash(ROOT))
  {
    WorldIsGood();
    c := Started(ENV, ROOT);
    StartedPool(ENV, ROOT);
  }

  /** The root signs either CRL, is trusted itself, and at time 10 neither has expired. */
  lemma RootSigns(c: Certs, crl: Bytes)
    requires OnlyPooled(ENV, c, ROOT) && IsTrusted(c, Hash(ROOT))
    ensures HandlerSpec.SavesUpload(WORLD, c, crl, 10, 10)
  {
    RootIsSigner(c, crl);
    assert WORLD.env.sha(ROOT) == Hash(ROOT) && IsTrusted(c, Hash(ROOT));
  }

  lemma RootIsSigner(c: Certs, crl: Bytes)
    requires OnlyPooled(ENV, c, ROOT)
    ensures HandlerSpec.SignerOf(WORLD, c, CRLOf(crl)) == Some(Info(ROOT))
  {
    WorldIsGood();
    RootIsCandidate(ENV, c, ROOT);
    RootSignsAmong(PoolDERs(c, NAME), crl);
  }

  lemma RootSignsAmong(ders: seq<Bytes>, crl: Bytes)
    requires ROOT in ders && forall d :: d in ders ==> d == ROOT
    ensures HandlerSpec.FirstSigner(WORLD, ders, CRLOf(crl)) == Some(Info(ROOT))
  {
    HandlerSpec.FirstSignerFits(WORLD, ders, CRLOf(crl));
    assert WORLD.parse(ROOT) == Some(Info(ROOT)) && HandlerSpec.Fits(Info(ROOT), CRLOf(crl));
  }

  /** A CRL uploaded and checked at time 10 to a handler just started, and inserted at time t. */
  method Upload(crl: Bytes, t: int) returns (h: Handler.Handler)
    requires t >= 10
    ensures fresh(h) && h.Valid() && h.w == WORLD
    ensures Hash(crl) in h.crls.crls && h.crls.crls[Hash(crl)] == CRLStore.RowOf(CRL_ENV, crl)
    ensures |h.whys| == 1 && h.whys[0].inserted == t && h.crls.log == [CRLStore.Save("", crl)]
  {
    WorldIsGood();
    HashIsInjective();
    var cache := new RespCache.Store(0);
    h := new Handler.Handler(WORLD, CRL_ENV, cache, null);
    h.Restart([ROOT], []);
    ghost var c := RootStarted();
    RootSigns(c, crl);
    var saved := h.AnalyzeCRL(crl, 10, 10, t, t);
    CRLStore.SavedTables(CRL_ENV, CRLStore.Tables(map[], map[]), CRLStore.Save("", crl), t, t);
  }

  /** Uploaded at time 10, the CRL without nextUpdate is saved; its row says it expired in the year 1. */
  method StoresUndatedCRL() returns (h: Handler.Handler)
    ensures fresh(h) && h.Valid() && WORLD.crlInfo(CRL).nextUpdate == None
    ensures Hash(CRL) in h.crls.crls && h.crls.crls[Hash(CRL)].der == CRL
    ensures h.crls.crls[Hash(CRL)].nextUpdate == ZERO_TIME < 10
  {
    h := Upload(CRL, 10);
  }

  /** Checked at time 10 and inserted at time 30, a CRL that expired at time 20 is saved. */
  method StoresCRLExpiredMeanwhile() returns (h: Handler.Handler)
    ensures fresh(h) && h.Valid() && WORLD.crlInfo(SHORT).nextUpdate == Some(20)
    ensures Hash(SHORT) in h.crls.crls && h.crls.crls[Hash(SHORT)].der == SHORT
    ensures |h.whys| == 1 && 10 <= h.crls.crls[Hash(SHORT)].nextUpdate == 20 < h.whys[0].inserted
  {
    h := Upload(SHORT, 30);
  }
}
