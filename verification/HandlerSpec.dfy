/**
 What the handler's operations (cmd/certview/handler.go, link.go) do to the
 store and answer, as functions and predicates of the state they start in.
 */
module HandlerSpec {
  import opened Common
  import opened PKI
  import opened CertStore
  import opened Provenance
  import opened PoolHistory
  import Chain
  import CRLStore
  import IDP
  import IssuerWalk
  import OCSPStore
  import Revocation
  import TrustBundle

  /** The chain, the revocation verdict, and the anchor's certificate when trusted. */
  datatype Analysis =
    | Unusable
    | UploadedCRL(saved: bool)
    | Analyzed(chain: seq<Chain.Link>, revocation: Revocation.Response, trustVia: Option<CertInfo>)

  /** The context and the gate while the input is tried as a CRL, then the network and the revocation sources. */
  datatype Around = Around(admitted: bool, early: bool, net: Net, rev: Revocation.Env)

  /** Monotone clock readings, the first not before now. */
  ghost predicate GoodClock(clock: nat -> int, now: int) {
    now <= clock(0) && forall i, j :: 0 <= i <= j ==> clock(i) <= clock(j)
  }

  /** The revocation phase's oracles agree with the handler's. */
  ghost predicate GoodRevocation(w: World, rev: Revocation.Env) {
    && Revocation.ContextStaysDone(rev) && rev.verify == w.verifyCRL && rev.parseOCSP == w.parseOCSP
    && forall i, k :: rev.fetched(i, k).Some? ==> w.crlInfo(rev.fetched(i, k).value.der) == rev.fetched(i, k).value
  }

  /** The revocation phase offers every CRL its issuer's trust could let in; the handler then checks that trust. */
  function Offering(rev: Revocation.Env): Revocation.Env {
    rev.(trustedPath := (i, k) => true)
  }

  function Infos(chain: seq<Chain.Link>): (r: seq<CertInfo>)
    ensures |r| == |chain| && forall i :: 0 <= i < |chain| ==> r[i] == chain[i].info
  {
    seq(|chain|, i requires 0 <= i < |chain| => chain[i].info)
  }

  // ---------------------------------------------------------------- trust

  /** leaf verifies over a path with via on it to anchors whose trust comes from a bundle or the administrator. */
  ghost predicate Anchored(w: World, log: seq<Entry>, leaf: Bytes, via: CertInfo) {
    exists p :: RootedPath(w, log, p) && p.leaf == leaf && via in VerifiedPath(w, p)
  }

  /** The path chainsToTrust tries: over pool certificates to the trusted ones among the self-signed. */
  function StoredPath(w: World, c: Certs, cert: CertInfo, at: nat, time: int): Path {
    var f := IssuerWalk.Candidates(w, c, cert);
    Path(cert.der, TrustedOf(w.env, c, f.roots), f.inters, at, time)
  }

  ghost predicate ChainsToTrust(w: World, c: Certs, cert: CertInfo, time: int) {
    IsTrusted(c, w.env.sha(cert.der)) || PathOK(w, StoredPath(w, c, cert, 0, time))
  }

  // ---------------------------------------------------------------- uploaded CRLs

  /** The first of the certificates that fits the CRL's key identifier and may sign CRLs. */
  function FirstSigner(w: World, ders: seq<Bytes>, crl: IDP.CRLInfo): Option<CertInfo> {
    if ders == [] then None else
    var info := w.parse(ders[0]);
    if info.Some? && Fits(info.value, crl) then info else FirstSigner(w, ders[1..], crl)
  }

  predicate Fits(info: CertInfo, crl: IDP.CRLInfo) {
    !(crl.aki != "" && info.ski != "" && crl.aki != info.ski) && CanSignCRL(info)
  }

  function SignerOf(w: World, c: Certs, crl: IDP.CRLInfo): Option<CertInfo> {
    if crl.issuerName == [] then None else FirstSigner(w, PoolDERs(c, crl.issuerName), crl)
  }

  /** An uploaded CRL is saved: verified by its signer, which chains to trust, and not expired. */
  ghost predicate SavesUpload(w: World, c: Certs, der: Bytes, now: int, time: int) {
    var crl := w.crlInfo(der);
    var signer := SignerOf(w, c, crl);
    && signer.Some? && w.verifyCRL(der, signer.value.der).Verified?
    && ChainsToTrust(w, c, signer.value, time) && !Expired(crl, now)
  }

  /** The signer found fits, and one is found when some certificate fits. */
  lemma {:induction false} FirstSignerFits(w: World, ders: seq<Bytes>, crl: IDP.CRLInfo)
    ensures match FirstSigner(w, ders, crl)
      case Some(info) => Fits(info, crl) && exists d :: d in ders && w.parse(d) == Some(info)
      case None => forall d :: d in ders && w.parse(d).Some? ==> !Fits(w.parse(d).value, crl)
  {
    if ders != [] { FirstSignerFits(w, ders[1..], crl); }
  }

  /** The k-th certificate parses, may sign CRLs and has no other key identifier than the CRL's. */
  predicate MaySign(w: World, ders: seq<Bytes>, crl: IDP.CRLInfo, k: nat) {
    && k < |ders| && w.parse(ders[k]).Some?
    && var c := w.parse(ders[k]).value;
       CanSignCRL(c) && (crl.aki == "" || c.ski == "" || c.ski == crl.aki)
  }

  /** The signer is the first certificate that may sign the CRL. */
  lemma {:induction false} FirstSignerIs(w: World, ders: seq<Bytes>, crl: IDP.CRLInfo, k: nat)
    requires MaySign(w, ders, crl, k) && forall j: nat :: j < k ==> !MaySign(w, ders, crl, j)
    ensures FirstSigner(w, ders, crl) == w.parse(ders[k])
  {
    if k > 0 {
      assert !MaySign(w, ders, crl, 0);
      forall j: nat | j < k - 1 ensures !MaySign(w, ders[1..], crl, j) { assert !MaySign(w, ders, crl, j + 1); }
      FirstSignerIs(w, ders[1..], crl, k - 1);
    }
  }

  /** The verifier accepts the certificate over the walk's candidates, with all the trusted ones among its roots. */
  ghost predicate VerifiesOver(w: World, c: Certs, cert: CertInfo, time: int) {
    var f := IssuerWalk.Candidates(w, c, cert);
    exists anchors :: anchors == TrustedOf(w.env, c, f.roots) && anchors != []
      && (forall a :: a in anchors <==> a in f.roots && IsTrusted(c, w.env.sha(a)))
      && var v := w.verify(time, cert.der, anchors, f.inters); v.status.OK? && v.path != []
  }

  lemma StoredPathIs(w: World, c: Certs, cert: CertInfo, time: int)
    ensures PathOK(w, StoredPath(w, c, cert, 0, time)) <==> VerifiesOver(w, c, cert, time)
  {
    TrustedOfIs(w.env, c, IssuerWalk.Candidates(w, c, cert).roots);
  }

  /**
   An uploaded CRL is saved exactly when the first pool certificate of its
   issuer that may sign it did, that one is trusted or verifies over the walk's
   candidates to trusted ones, and the CRL is not expired.
   */
  lemma UploadIsVouchedFor(w: World, c: Certs, der: Bytes, now: int, time: int, k: nat)
    requires
      var crl, ders := w.crlInfo(der), PoolDERs(c, w.crlInfo(der).issuerName);
      crl.issuerName != [] && MaySign(w, ders, crl, k) && forall j: nat :: j < k ==> !MaySign(w, ders, crl, j)
    ensures
      var crl := w.crlInfo(der);
      var signer := w.parse(PoolDERs(c, crl.issuerName)[k]).value;
      SavesUpload(w, c, der, now, time) <==>
        w.verifyCRL(der, signer.der).Verified? && !(crl.nextUpdate.Some? && now > crl.nextUpdate.value)
        && (IsTrusted(c, w.env.sha(signer.der)) || VerifiesOver(w, c, signer, time))
  {
    var crl, ders := w.crlInfo(der), PoolDERs(c, w.crlInfo(der).issuerName);
    FirstSignerIs(w, ders, crl, k);
    StoredPathIs(w, c, w.parse(ders[k]).value, time);
  }

  /** One that no certificate in the pool may sign is not saved. */
  lemma UploadNeedsSigner(w: World, c: Certs, der: Bytes, now: int, time: int)
    requires
      var crl := w.crlInfo(der);
      crl.issuerName == [] || forall k: nat :: !MaySign(w, PoolDERs(c, crl.issuerName), crl, k)
    ensures !SavesUpload(w, c, der, now, time)
  {
    var crl := w.crlInfo(der);
    if crl.issuerName != [] {
      var ders := PoolDERs(c, crl.issuerName);
      FirstSignerFits(w, ders, crl);
      if FirstSigner(w, ders, crl).Some? {
        var d :| d in ders && w.parse(d) == FirstSigner(w, ders, crl);
        var k :| 0 <= k < |ders| && ders[k] == d;
        assert MaySign(w, ders, crl, k);
      }
    }
  }

  // ---------------------------------------------------------------- fetched CRLs and OCSP responses

  /** A fetched CRL is saved when its issuer verifies to the anchors. */
  function SaveMade(w: World, anchors: seq<Bytes>, inters: seq<Bytes>, s: Revocation.SavedCRL, time: int):
    seq<CRLStore.Save>
  {
    if PathOK(w, Path(s.issuer.der, anchors, inters, 0, time)) then [CRLStore.Save(s.url, s.crl.der)] else []
  }

  /** The saves of an analysis: the k-th offer is verified at the clock's 3k-th reading. */
  function SavesMade(w: World, anchors: seq<Bytes>, inters: seq<Bytes>, saves: seq<Revocation.SavedCRL>,
      clock: nat -> int): seq<CRLStore.Save>
  {
    if saves == [] then []
    else
      var k := |saves| - 1;
      SavesMade(w, anchors, inters, saves[..k], clock) + SaveMade(w, anchors, inters, saves[k], clock(3 * k))
  }

  function RowOf(w: World, chain: seq<CertInfo>, x: Revocation.KeptOCSP): OCSPStore.Row
    requires x.entry < |chain|
  {
    OCSPStore.Row(w.thumb(chain[x.entry].der), x.answer.der, x.answer.res.thisUpdate, x.answer.res.nextUpdate)
  }

  function KeepMade(w: World, chain: seq<CertInfo>, anchors: seq<Bytes>, inters: seq<Bytes>, x: Revocation.KeptOCSP,
      time: int): seq<OCSPStore.Row>
  {
    if x.entry < |chain| && PathOK(w, Path(x.issuer.der, anchors, inters, 0, time)) then [RowOf(w, chain, x)] else []
  }

  /** The responses an analysis keeps: the k-th offer is verified at the clock's 2k-th reading. */
  function KeepsMade(w: World, chain: seq<CertInfo>, anchors: seq<Bytes>, inters: seq<Bytes>,
      kept: seq<Revocation.KeptOCSP>, clock: nat -> int): seq<OCSPStore.Row>
  {
    if kept == [] then []
    else
      var k := |kept| - 1;
      KeepsMade(w, chain, anchors, inters, kept[..k], clock)
      + KeepMade(w, chain, anchors, inters, kept[k], clock(2 * k))
  }

  /** The readings from the n-th on. */
  function Later(clock: nat -> int, n: nat): nat -> int {
    (k: nat) => clock(n + k)
  }

  lemma SavesMadeNext(w: World, anchors: seq<Bytes>, inters: seq<Bytes>, saves: seq<Revocation.SavedCRL>,
      clock: nat -> int, k: nat, before: seq<CRLStore.Save>)
    requires k < |saves|
    ensures before + SavesMade(w, anchors, inters, saves[..k + 1], clock) ==
      before + SavesMade(w, anchors, inters, saves[..k], clock) + SaveMade(w, anchors, inters, saves[k], clock(3 * k))
  {
    assert saves[..k + 1][..k] == saves[..k];
  }

  lemma KeepsMadeNext(w: World, chain: seq<CertInfo>, anchors: seq<Bytes>, inters: seq<Bytes>,
      kept: seq<Revocation.KeptOCSP>, clock: nat -> int, k: nat, before: seq<OCSPStore.Row>)
    requires k < |kept|
    ensures before + KeepsMade(w, chain, anchors, inters, kept[..k + 1], clock) ==
      before + KeepsMade(w, chain, anchors, inters, kept[..k], clock)
      + KeepMade(w, chain, anchors, inters, kept[k], clock(2 * k))
  {
    assert kept[..k + 1][..k] == kept[..k];
  }

  ghost function AllSaves(rev: Revocation.Env, chain: seq<Chain.Link>): seq<Revocation.SavedCRL> {
    Revocation.SavesOf(Offering(rev), Infos(chain), |chain|)
  }

  ghost function AllKept(rev: Revocation.Env, chain: seq<Chain.Link>): seq<Revocation.KeptOCSP> {
    Revocation.KeptsOf(Offering(rev), Infos(chain), |chain|)
  }

  /** The CRLs an analysis saves. */
  ghost function CRLsMade(w: World, anchors: seq<Bytes>, inters: seq<Bytes>, rev: Revocation.Env,
      chain: seq<Chain.Link>, clock: nat -> int): seq<CRLStore.Save>
  {
    SavesMade(w, anchors, inters, AllSaves(rev, chain), clock)
  }

  /** The OCSP responses it keeps. */
  ghost function OCSPsMade(w: World, anchors: seq<Bytes>, inters: seq<Bytes>, rev: Revocation.Env,
      chain: seq<Chain.Link>, clock: nat -> int): seq<OCSPStore.Row>
  {
    KeepsMade(w, Infos(chain), anchors, inters, AllKept(rev, chain), Later(clock, 3 * |AllSaves(rev, chain)|))
  }

  /** How many clock readings its offers take: three a CRL, two a response. */
  ghost function Readings(rev: Revocation.Env, chain: seq<Chain.Link>): nat {
    3 * |AllSaves(rev, chain)| + 2 * |AllKept(rev, chain)|
  }

  ghost predicate Decided(rev: Revocation.Env, chain: seq<Chain.Link>, ds: seq<Revocation.Decision>) {
    && |ds| == |chain|
    && forall i :: 0 <= i < |chain| ==> ds[i] == Revocation.DecisionOf(Offering(rev), Infos(chain), i)
  }

  // ---------------------------------------------------------------- archiving

  function Label(s: Chain.Source): string {
    match s
    case Upload => "upload"
    case FromLink => "link"
    case FromTLS => "tls"
    case FromAIA => "fetched"
    case FromArchive => "archive"
    case FromPool => "cache"
  }

  /** The certificates of a link: never to be stored. */
  function Transient(leaf: CertInfo, bag: seq<Chain.BagCert>, link: bool): set<Bytes> {
    if link then {leaf.der} + set b | b in bag :: b.info.der else {}
  }

  /** An uploaded leaf is archived, a link's is not. */
  function LeafEntries(leaf: CertInfo, link: bool): seq<Entry> {
    if link then [] else [Plain(TrustBundle.Archive(leaf.der, ""))]
  }

  function ChainEntry(l: Chain.Link, transient: set<Bytes>): seq<Entry> {
    if l.info.der in transient then [] else [Plain(TrustBundle.Archive(l.info.der, Label(l.source)))]
  }

  function ChainEntries(rest: seq<Chain.Link>, transient: set<Bytes>): seq<Entry> {
    if rest == [] then []
    else ChainEntries(rest[..|rest| - 1], transient) + ChainEntry(rest[|rest| - 1], transient)
  }

  lemma ChainEntriesNext(before: seq<Entry>, rest: seq<Chain.Link>, k: nat, transient: set<Bytes>)
    requires k < |rest|
    ensures before + ChainEntries(rest[..k + 1], transient) ==
      before + ChainEntries(rest[..k], transient) + ChainEntry(rest[k], transient)
  {
    assert rest[..k + 1][..k] == rest[..k];
  }

  /** The first MAX_CHAIN_DEPTH certificates a site presented. */
  function SiteEntries(bag: seq<Chain.BagCert>): seq<Entry> {
    if bag == [] then []
    else
      var init, last := SiteEntries(bag[..|bag| - 1]), bag[|bag| - 1];
      if last.source.FromTLS? && |init| < Chain.MAX_CHAIN_DEPTH
      then init + [Plain(TrustBundle.Archive(last.info.der, Label(last.source)))] else init
  }

  /** Every certificate of these links that is not transient has a row. */
  ghost predicate ChainKept(env: CertStore.Env, c: Certs, rest: seq<Chain.Link>, transient: set<Bytes>) {
    forall l :: l in rest && l.info.der !in transient ==> HasRow(env, c, l.info.der)
  }

  /** The k-th certificate of the bag is among the first MAX_CHAIN_DEPTH a site presented. */
  ghost predicate Presented(bag: seq<Chain.BagCert>, k: nat) {
    k < |bag| && bag[k].source.FromTLS? && FromSite(bag[..k]) < Chain.MAX_CHAIN_DEPTH
  }

  function FromSite(bag: seq<Chain.BagCert>): nat {
    if bag == [] then 0 else FromSite(bag[..|bag| - 1]) + if bag[|bag| - 1].source.FromTLS? then 1 else 0
  }

  ghost predicate SiteKept(env: CertStore.Env, c: Certs, bag: seq<Chain.BagCert>) {
    forall k: nat :: Presented(bag, k) ==> HasRow(env, c, bag[k].info.der)
  }

  lemma {:induction false} ChainEntryOf(rest: seq<Chain.Link>, transient: set<Bytes>, l: Chain.Link) returns (k: nat)
    requires l in rest && l.info.der !in transient
    ensures k < |ChainEntries(rest, transient)|
    ensures Records(EventOf(ChainEntries(rest, transient)[k]), l.info.der)
  {
    var init, last := rest[..|rest| - 1], rest[|rest| - 1];
    assert rest == init + [last];
    if l in init { k := ChainEntryOf(init, transient, l); } else { k := |ChainEntries(init, transient)|; }
  }

  /** As many entries as certificates the site presented, up to the limit. */
  lemma {:induction false} SiteEntriesCount(bag: seq<Chain.BagCert>)
    ensures |SiteEntries(bag)| ==
      if FromSite(bag) < Chain.MAX_CHAIN_DEPTH then FromSite(bag) else Chain.MAX_CHAIN_DEPTH
  {
    if bag != [] { SiteEntriesCount(bag[..|bag| - 1]); }
  }

  lemma {:induction false} SiteEntryOf(bag: seq<Chain.BagCert>, k: nat) returns (n: nat)
    requires Presented(bag, k)
    ensures n < |SiteEntries(bag)| && Records(EventOf(SiteEntries(bag)[n]), bag[k].info.der)
  {
    var init := bag[..|bag| - 1];
    if k < |init| {
      assert init[..k] == bag[..k];
      n := SiteEntryOf(init, k);
    } else {
      SiteEntriesCount(init);
      n := |SiteEntries(init)|;
    }
  }

  /** What was archived has a row in every later table: the chain but for transient certificates, and the site's. */
  lemma ArchivesAreKept(w: World, before: seq<Entry>, rest: seq<Chain.Link>, bag: seq<Chain.BagCert>,
      transient: set<Bytes>, log: seq<Entry>)
    requires GoodWorld(w) && WellFormed(w, log)
    requires before + (ChainEntries(rest, transient) + SiteEntries(bag)) <= log
    ensures ChainKept(w.env, StateAfter(w.env, log), rest, transient)
    ensures SiteKept(w.env, StateAfter(w.env, log), bag)
  {
    forall l | l in rest && l.info.der !in transient ensures HasRow(w.env, StateAfter(w.env, log), l.info.der) {
      LinkIsKept(w, before, rest, SiteEntries(bag), transient, log, l);
    }
    forall k: nat | Presented(bag, k) ensures HasRow(w.env, StateAfter(w.env, log), bag[k].info.der) {
      PresentedIsKept(w, before, ChainEntries(rest, transient), bag, log, k);
    }
  }

  lemma LinkIsKept(w: World, before: seq<Entry>, rest: seq<Chain.Link>, after: seq<Entry>, transient: set<Bytes>,
      log: seq<Entry>, l: Chain.Link)
    requires GoodWorld(w) && WellFormed(w, log) && before + (ChainEntries(rest, transient) + after) <= log
    requires l in rest && l.info.der !in transient
    ensures HasRow(w.env, StateAfter(w.env, log), l.info.der)
  {
    var k := ChainEntryOf(rest, transient, l);
    EntryAt(before, ChainEntries(rest, transient), after, k);
    RecordedAt(w, log, before + (ChainEntries(rest, transient) + after), |before| + k, l.info.der);
  }

  lemma PresentedIsKept(w: World, before: seq<Entry>, links: seq<Entry>, bag: seq<Chain.BagCert>, log: seq<Entry>,
      k: nat)
    requires GoodWorld(w) && WellFormed(w, log) && before + (links + SiteEntries(bag)) <= log && Presented(bag, k)
    ensures HasRow(w.env, StateAfter(w.env, log), bag[k].info.der)
  {
    var m := SiteEntryOf(bag, k);
    EntryAt(before, links, SiteEntries(bag), |links| + m);
    RecordedAt(w, log, before + (links + SiteEntries(bag)), |before| + (|links| + m), bag[k].info.der);
  }

  lemma EntryAt(a: seq<Entry>, b: seq<Entry>, c: seq<Entry>, k: nat)
    requires k < |b| + |c|
    ensures (a + (b + c))[|a| + k] == if k < |b| then b[k] else c[k - |b|]
  {
  }

  lemma RecordedAt(w: World, log: seq<Entry>, early: seq<Entry>, k: nat, der: Bytes)
    requires GoodWorld(w) && WellFormed(w, log) && early <= log && k < |early| && Records(EventOf(early[k]), der)
    ensures HasRow(w.env, StateAfter(w.env, log), der)
  {
    assert log[k] == early[k];
    PoolIff(w, log, der);
  }

  lemma AppendEntries(a: seq<Entry>, b: seq<Entry>, c: seq<Entry>)
    ensures a + b + c == a + (b + c)
  {
  }

  /** What is archived is never transient: a link's bag holds no certificate a site presented. */
  lemma ArchiveIsAnalysis(log: seq<Entry>, rest: seq<Chain.Link>, bag: seq<Chain.BagCert>, transient: set<Bytes>)
    requires transient == {} || forall b :: b in bag ==> b.source == Chain.FromLink
    ensures OnlyAnalysis(log, log + ChainEntries(rest, transient) + SiteEntries(bag), transient)
  {
    ChainEntriesStay(rest, transient);
    SiteEntriesStay(bag, transient);
  }

  lemma {:induction false} ChainEntriesStay(rest: seq<Chain.Link>, transient: set<Bytes>)
    ensures forall x :: x in ChainEntries(rest, transient) ==> FromAnalysis(x, transient)
  {
    if rest != [] { ChainEntriesStay(rest[..|rest| - 1], transient); }
  }

  lemma {:induction false} SiteEntriesStay(bag: seq<Chain.BagCert>, transient: set<Bytes>)
    requires transient == {} || forall b :: b in bag ==> b.source == Chain.FromLink
    ensures forall x :: x in SiteEntries(bag) ==> FromAnalysis(x, transient)
    ensures |SiteEntries(bag)| <= Chain.MAX_CHAIN_DEPTH
  {
    if bag != [] { SiteEntriesStay(bag[..|bag| - 1], transient); }
  }

  // ---------------------------------------------------------------- an analysis

  predicate Usable(w: World, data: Bytes) {
    |data| <= 2 * Chain.CERT_SIZE && w.parse(data).Some? && |w.parse(data).value.der| <= Chain.CERT_SIZE
  }

  /** At most MAX_CHAIN_DEPTH distinct certificates from the leaf on, linked, only the last self-signed. */
  ghost predicate GoodChain(leaf: CertInfo, chain: seq<Chain.Link>) {
    && 1 <= |chain| <= Chain.MAX_CHAIN_DEPTH && chain[0].info == leaf
    && Chain.DistinctDERs(chain) && Chain.OnlyLastSelfSigned(chain) && Chain.Linked(chain)
  }

  /** The verifier's candidates: exactly what is offered, each once, self-signed certificates as roots. */
  ghost predicate Partitions(env: Chain.Env, chain: seq<Chain.Link>, bag: seq<Chain.BagCert>,
      roots: seq<Bytes>, inters: seq<Bytes>)
    requires chain != []
  {
    && Distinct(roots + inters)
    && (forall d :: d in roots <==>
          Chain.Offered(env, chain, bag, d) && env.parse(d).Some? && env.parse(d).value.selfSigned)
    && (forall d :: d in inters <==>
          Chain.Offered(env, chain, bag, d) && env.parse(d).Some? && !env.parse(d).value.selfSigned)
  }

  /** What an analysis answers is sound: its chain, its verdict and its trust. */
  ghost predicate GoodAnalysis(w: World, log: seq<Entry>, rev: Revocation.Env, leaf: CertInfo, a: Analysis) {
    && a.Analyzed? && GoodChain(leaf, a.chain)
    && Revocation.Sound(Offering(rev), Infos(a.chain), a.revocation)
    && (a.trustVia.Some? ==> Anchored(w, log, leaf.der, a.trustVia.value))
  }

  /**
   A final ok takes a verified chain and a checked or inapplicable revocation;
   the leaf is trusted exactly when it verifies over all candidates and, the
   moment after, over the trusted roots alone.
   */
  ghost predicate Outcome(w: World, anchors: seq<Bytes>, roots: seq<Bytes>, inters: seq<Bytes>, time: int, later: int,
      a: Analysis)
  {
    && a.Analyzed? && a.chain != []
    && var leaf := a.chain[0].info.der;
       var verified := w.verify(time, leaf, roots, inters).status.OK?;
       && (a.revocation.status == Revocation.OK <==>
             verified && (a.revocation.overall.NotApplicable? || a.revocation.overall.Checked?))
       && (a.trustVia.Some? <==> verified && PathOK(w, Path(leaf, anchors, inters, 0, later)))
  }

  // ---------------------------------------------------------------- the verified path and the checked chain

  predicate ChainHolds(chain: seq<Chain.Link>, d: Bytes) {
    exists i :: 0 <= i < |chain| && chain[i].info.der == d
  }

  predicate StaysIn(chain: seq<Chain.Link>, path: seq<CertInfo>) {
    forall k :: 0 <= k < |path| ==> ChainHolds(chain, path[k].der)
  }

  /** The certificate is in the chain, and unless revocation does not apply to it it was shown unrevoked. */
  ghost predicate ShownUnrevoked(chain: seq<Chain.Link>, ds: seq<Revocation.Decision>, d: Bytes)
    requires |ds| == |chain|
  {
    exists i :: 0 <= i < |chain| && chain[i].info.der == d && (Revocation.Relevant(chain[i].info) ==> ds[i].NotRevoked?)
  }

  /** Every certificate of the path was shown unrevoked, or the bag or the pool offered it outside the chain. */
  ghost predicate PathChecked(env: Chain.Env, chain: seq<Chain.Link>, bag: seq<Chain.BagCert>,
      ds: seq<Revocation.Decision>, path: seq<CertInfo>)
    requires chain != [] && |ds| == |chain|
  {
    forall k :: 0 <= k < |path| ==>
      if ChainHolds(chain, path[k].der) then ShownUnrevoked(chain, ds, path[k].der)
      else Chain.Offered(env, chain, bag, path[k].der)
  }

  /** The chain, the bag and the pool hold certificates as the parser gives them back. */
  ghost predicate Given(w: World, chain: seq<Chain.Link>, roots: seq<Bytes>, inters: seq<Bytes>) {
    (forall l :: l in chain ==> Canonical(w, l.info.der)) && forall d :: d in roots + inters ==> Canonical(w, d)
  }

  lemma GivenFromTable(w: World, c: Certs, net: Net, chain: seq<Chain.Link>, bag: seq<Chain.BagCert>,
      roots: seq<Bytes>, inters: seq<Bytes>)
    requires GoodWorld(w) && GoodTable(w.env, c) && RowsCanonical(w, c) && chain != []
    requires forall l :: l in chain ==> w.parse(l.info.der) == Some(l.info)
    requires forall b :: b in bag ==> w.parse(b.info.der) == Some(b.info)
    requires Partitions(ChainEnv(w, c, net), chain, bag, roots, inters)
    ensures Given(w, chain, roots, inters)
  {
    var env := ChainEnv(w, c, net);
    forall d | d in roots + inters ensures Canonical(w, d) {
      assert Chain.Offered(env, chain, bag, d);
      if l :| l in chain && l.info.issuerName != [] && d in env.poolIssuers(l.info.issuerName) {
        PoolDERsArePooled(w.env, c, l.info.issuerName);
        assert PoolDER(w.env, c, d);
      }
    }
  }

  lemma OneOfGiven(w: World, c: CertInfo, ders: seq<Bytes>)
    requires GoodWorld(w) && IsOneOf(w, c, ders) && forall d :: d in ders ==> Canonical(w, d)
    ensures c.der in ders
  {
    var d :| d in ders && w.parse(d) == Some(c);
    assert c == w.env.info(d) && c == w.env.info(c.der) && Canonical(w, c.der);
  }

  /**
   A final ok speaks of the resolved chain. Of the path the verifier accepted,
   every certificate was shown unrevoked but those the bag or the pool offered
   outside the chain.
   */
  lemma OkChecksPath(w: World, env: Chain.Env, chain: seq<Chain.Link>, bag: seq<Chain.BagCert>, roots: seq<Bytes>,
      inters: seq<Bytes>, rev: Revocation.Env, r: Revocation.Response, time: int)
    requires GoodWorld(w) && chain != [] && Partitions(env, chain, bag, roots, inters) && Given(w, chain, roots, inters)
    requires Revocation.Sound(Offering(rev), Infos(chain), r) && r.status == Revocation.OK
    requires w.verify(time, chain[0].info.der, roots, inters).status.OK?
    ensures PathChecked(env, chain, bag, r.decisions, w.verify(time, chain[0].info.der, roots, inters).path)
  {
    var leaf := chain[0].info;
    var path := w.verify(time, leaf.der, roots, inters).path;
    assert IsPath(w, path, leaf.der, roots, inters);
    forall k | 0 <= k < |path|
      ensures if ChainHolds(chain, path[k].der) then ShownUnrevoked(chain, r.decisions, path[k].der)
        else Chain.Offered(env, chain, bag, path[k].der)
    {
      CertOfPath(w, path, chain, roots, inters, k);
      if ChainHolds(chain, path[k].der) {
        var i :| 0 <= i < |chain| && chain[i].info.der == path[k].der;
        assert Revocation.Relevant(Infos(chain)[i]) ==> r.decisions[i].NotRevoked?;
      }
    }
  }

  lemma CertOfPath(w: World, path: seq<CertInfo>, chain: seq<Chain.Link>, roots: seq<Bytes>, inters: seq<Bytes>, k: nat)
    requires GoodWorld(w) && chain != [] && Given(w, chain, roots, inters)
    requires IsPath(w, path, chain[0].info.der, roots, inters) && k < |path|
    ensures ChainHolds(chain, path[k].der) || path[k].der in roots || path[k].der in inters
  {
    if k == 0 {
      assert chain[0] in chain;
      OneOfGiven(w, path[0], [chain[0].info.der]);
    } else if IsOneOf(w, path[k], roots) {
      OneOfGiven(w, path[k], roots);
    } else {
      OneOfGiven(w, path[k], inters);
    }
  }

  /** The bag and the pool offer nothing outside the chain, or no root. */
  ghost predicate OffersChain(env: Chain.Env, chain: seq<Chain.Link>, bag: seq<Chain.BagCert>)
    requires chain != []
  {
    || (forall d {:trigger Chain.Offered(env, chain, bag, d)} ::
          Chain.Offered(env, chain, bag, d) && env.parse(d).Some? ==> ChainHolds(chain, d))
    || (forall d {:trigger Chain.Offered(env, chain, bag, d)} ::
          Chain.Offered(env, chain, bag, d) && env.parse(d).Some? ==> !env.parse(d).value.selfSigned)
  }

  /**
   Every path the verifier may accept lies within the checked chain exactly when
   the candidates do, or none of them is a root.
   */
  lemma PathsStayInChainIff(w: World, env: Chain.Env, chain: seq<Chain.Link>, bag: seq<Chain.BagCert>,
      roots: seq<Bytes>, inters: seq<Bytes>)
    requires GoodWorld(w) && chain != []
    requires Partitions(env, chain, bag, roots, inters) && Given(w, chain, roots, inters)
    ensures
      (forall path :: IsPath(w, path, chain[0].info.der, roots, inters) ==> StaysIn(chain, path)) <==>
      OffersChain(env, chain, bag)
  {
    var leaf := chain[0].info.der;
    if forall path :: IsPath(w, path, leaf, roots, inters) ==> StaysIn(chain, path) {
      forall d, r | d in roots + inters && r in roots ensures ChainHolds(chain, d) {
        var path := PathOver(w, chain, roots, inters, d, r);
        assert ChainHolds(chain, path[1].der);
      }
    }
    if OffersChain(env, chain, bag) {
      forall path | IsPath(w, path, leaf, roots, inters) ensures StaysIn(chain, path) {
        PathStaysIn(w, env, chain, bag, roots, inters, path);
      }
    }
  }

  /** A path from the leaf over d to r. */
  lemma PathOver(w: World, chain: seq<Chain.Link>, roots: seq<Bytes>, inters: seq<Bytes>, d: Bytes, r: Bytes)
    returns (path: seq<CertInfo>)
    requires GoodWorld(w) && chain != [] && Given(w, chain, roots, inters) && d in roots + inters && r in roots
    ensures IsPath(w, path, chain[0].info.der, roots, inters) && |path| == 3 && path[1].der == d
  {
    assert chain[0] in chain && Canonical(w, d) && Canonical(w, r);
    path := [w.env.info(chain[0].info.der), w.env.info(d), w.env.info(r)];
    assert IsOneOf(w, path[2], roots) && (IsOneOf(w, path[1], roots) || IsOneOf(w, path[1], inters));
  }

  lemma PathStaysIn(w: World, env: Chain.Env, chain: seq<Chain.Link>, bag: seq<Chain.BagCert>, roots: seq<Bytes>,
      inters: seq<Bytes>, path: seq<CertInfo>)
    requires GoodWorld(w) && chain != [] && OffersChain(env, chain, bag)
    requires Partitions(env, chain, bag, roots, inters) && Given(w, chain, roots, inters)
    requires IsPath(w, path, chain[0].info.der, roots, inters)
    ensures StaysIn(chain, path)
  {
    OneOfGiven(w, path[|path| - 1], roots);
    forall k | 0 <= k < |path| ensures ChainHolds(chain, path[k].der) {
      CertOfPath(w, path, chain, roots, inters, k);
    }
  }

  /** Then every certificate of the verified path was shown unrevoked. */
  lemma OkPathUnrevoked(w: World, env: Chain.Env, chain: seq<Chain.Link>, bag: seq<Chain.BagCert>, roots: seq<Bytes>,
      inters: seq<Bytes>, rev: Revocation.Env, r: Revocation.Response, time: int)
    requires GoodWorld(w) && chain != []
    requires Partitions(env, chain, bag, roots, inters) && Given(w, chain, roots, inters)
    requires Revocation.Sound(Offering(rev), Infos(chain), r) && r.status == Revocation.OK
    requires w.verify(time, chain[0].info.der, roots, inters).status.OK? && OffersChain(env, chain, bag)
    ensures
      var path := w.verify(time, chain[0].info.der, roots, inters).path;
      forall k :: 0 <= k < |path| ==> ShownUnrevoked(chain, r.decisions, path[k].der)
  {
    var path := w.verify(time, chain[0].info.der, roots, inters).path;
    OkChecksPath(w, env, chain, bag, roots, inters, rev, r, time);
    PathStaysIn(w, env, chain, bag, roots, inters, path);
  }

  // ---------------------------------------------------------------- a whole analysis

  /** What is concluded over the candidates of a table; a final ok speaks of the verified path as far as it can. */
  ghost predicate JudgedOver(w: World, c: Certs, net: Net, bag: seq<Chain.BagCert>, rev: Revocation.Env,
      clock: nat -> int, roots: seq<Bytes>, inters: seq<Bytes>, a: Analysis)
  {
    JudgedBy(w, ChainEnv(w, c, net), TrustedOf(w.env, c, roots), bag, rev, clock, roots, inters, a)
  }

  ghost predicate JudgedBy(w: World, env: Chain.Env, anchors: seq<Bytes>, bag: seq<Chain.BagCert>,
      rev: Revocation.Env, clock: nat -> int, roots: seq<Bytes>, inters: seq<Bytes>, a: Analysis)
  {
    && a.Analyzed? && a.chain != [] && |a.revocation.decisions| == |a.chain|
    && Partitions(env, a.chain, bag, roots, inters)
    && var n := Readings(rev, a.chain);
       && Outcome(w, anchors, roots, inters, clock(n), clock(n + 1), a)
       && (a.revocation.status == Revocation.OK ==> OkMeans(w, env, bag, roots, inters, clock(n), a))
  }

  /** The verified path is checked, all of it when bag and pool offer nothing outside the chain. */
  ghost predicate OkMeans(w: World, env: Chain.Env, bag: seq<Chain.BagCert>, roots: seq<Bytes>, inters: seq<Bytes>,
      time: int, a: Analysis)
    requires a.Analyzed? && a.chain != [] && |a.revocation.decisions| == |a.chain|
  {
    var v := w.verify(time, a.chain[0].info.der, roots, inters);
    && v.status.OK? && PathChecked(env, a.chain, bag, a.revocation.decisions, v.path)
    && (OffersChain(env, a.chain, bag) ==>
          forall k :: 0 <= k < |v.path| ==> ShownUnrevoked(a.chain, a.revocation.decisions, v.path[k].der))
  }

  lemma OkHasMeaning(w: World, env: Chain.Env, bag: seq<Chain.BagCert>, roots: seq<Bytes>, inters: seq<Bytes>,
      rev: Revocation.Env, time: int, a: Analysis)
    requires GoodWorld(w) && a.Analyzed? && a.chain != []
    requires Partitions(env, a.chain, bag, roots, inters) && Given(w, a.chain, roots, inters)
    requires Revocation.Sound(Offering(rev), Infos(a.chain), a.revocation)
    requires a.revocation.status == Revocation.OK ==> w.verify(time, a.chain[0].info.der, roots, inters).status.OK?
    ensures a.revocation.status == Revocation.OK ==> OkMeans(w, env, bag, roots, inters, time, a)
  {
    if a.revocation.status == Revocation.OK {
      OkChecksPath(w, env, a.chain, bag, roots, inters, rev, a.revocation, time);
      if OffersChain(env, a.chain, bag) {
        OkPathUnrevoked(w, env, a.chain, bag, roots, inters, rev, a.revocation, time);
      }
    }
  }

  /** The chain loop over the table a history gives. */
  ghost function BuiltFrom(w: World, log: seq<Entry>, leaf: CertInfo, source: Chain.Source, bag: seq<Chain.BagCert>,
      net: Net): (Option<seq<Chain.Link>>, Chain.Held)
  {
    Chain.Built(ChainEnv(w, StateAfter(w.env, log), net), [Chain.Link(leaf, source)],
      Chain.Held(bag, 0, Chain.MAX_FETCHES))
  }

  /** What an analysis archives before it judges. */
  function Archives(chain: seq<Chain.Link>, bag: seq<Chain.BagCert>, transient: set<Bytes>): seq<Entry>
    requires chain != []
  {
    ChainEntries(chain[1..], transient) + SiteEntries(bag)
  }

  /** The analysis of a leaf from a history on: its chain is the one built, judged over what the table then offers. */
  ghost predicate AnalyzedAs(w: World, log: seq<Entry>, leaf: CertInfo, source: Chain.Source, bag: seq<Chain.BagCert>,
      transient: set<Bytes>, net: Net, rev: Revocation.Env, clock: nat -> int, a: Analysis)
  {
    var (built, held) := BuiltFrom(w, log, leaf, source, bag, net);
    && a.Analyzed? && built == Some(a.chain) && a.chain != []
    && exists roots, inters :: JudgedOver(w, StateAfter(w.env, log + Archives(a.chain, bag, transient)), net, held.bag,
         rev, clock, roots, inters, a)
  }

  /** The context is done before the analysis has an answer. */
  ghost predicate GivesUp(w: World, log: seq<Entry>, leaf: CertInfo, source: Chain.Source, bag: seq<Chain.BagCert>,
      net: Net, rev: Revocation.Env)
  {
    var built := BuiltFrom(w, log, leaf, source, bag, net).0;
    built.None? || Revocation.Interrupted(Offering(rev), Infos(built.value))
  }

  function SourceOf(link: bool): Chain.Source {
    if link then Chain.FromLink else Chain.Upload
  }

  /** With the leaf archived, unless it came in a link, the whole chain is. */
  lemma WholeChainKept(w: World, before: seq<Entry>, leaf: CertInfo, bag: seq<Chain.BagCert>, link: bool,
      log: seq<Entry>, chain: seq<Chain.Link>)
    requires GoodWorld(w) && WellFormed(w, log) && before + LeafEntries(leaf, link) <= log
    requires chain != [] && chain[0].info == leaf
    requires ChainKept(w.env, StateAfter(w.env, log), chain[1..], Transient(leaf, bag, link))
    ensures ChainKept(w.env, StateAfter(w.env, log), chain, Transient(leaf, bag, link))
  {
    if !link {
      assert log[|before|] == (before + LeafEntries(leaf, link))[|before|];
      assert Records(EventOf(log[|before|]), leaf.der);
      PoolIff(w, log, leaf.der);
    }
    assert chain == [chain[0]] + chain[1..];
  }

  /** What is answered from a history on: nothing when the context is done, else the analysis. */
  ghost predicate AnswersFrom(w: World, log: seq<Entry>, leaf: CertInfo, source: Chain.Source,
      bag: seq<Chain.BagCert>, transient: set<Bytes>, net: Net, rev: Revocation.Env, clock: nat -> int,
      r: Option<Analysis>)
  {
    if GivesUp(w, log, leaf, source, bag, net, rev) then r == None
    else r.Some? && AnalyzedAs(w, log, leaf, source, bag, transient, net, rev, clock, r.value)
  }

  /** What is answered of a leaf, once it is archived unless it came in a link. */
  ghost predicate Answers(w: World, log: seq<Entry>, leaf: CertInfo, bag: seq<Chain.BagCert>, link: bool, net: Net,
      rev: Revocation.Env, clock: nat -> int, r: Option<Analysis>)
  {
    AnswersFrom(w, log + LeafEntries(leaf, link), leaf, SourceOf(link), bag, Transient(leaf, bag, link), net, rev,
      clock, r)
  }

  // ---------------------------------------------------------------- links

  /** A link's certificate: base64url of something that starts like DER, not too large, that parses. */
  function Decoded(w: World, decode: string -> Option<Bytes>, v: string): Option<CertInfo> {
    var d := decode(v);
    if d.None? || d.value == [] || d.value[0] != 0x30 || |d.value| > Chain.CERT_SIZE then None else w.parse(d.value)
  }

  lemma DecodedParse(w: World, decode: string -> Option<Bytes>, values: seq<string>)
    requires GoodWorld(w)
    ensures forall v :: v in values && Decoded(w, decode, v).Some? ==>
      w.parse(Decoded(w, decode, v).value.der) == Decoded(w, decode, v)
  {
  }

  /** The link's other certificates, offered as issuers. */
  function LinkBag(infos: seq<CertInfo>): (r: seq<Chain.BagCert>)
    requires infos != []
    ensures forall b :: b in r ==> b.info in infos && b.source == Chain.FromLink
    ensures forall c :: c in infos && c != infos[0] ==> Chain.BagCert(c, Chain.FromLink) in r
  {
    var r := seq(|infos| - 1, i requires 0 <= i < |infos| - 1 => Chain.BagCert(infos[i + 1], Chain.FromLink));
    assert forall k :: 0 < k < |infos| ==> r[k - 1] == Chain.BagCert(infos[k], Chain.FromLink);
    r
  }

  lemma LinkIsTransient(infos: seq<CertInfo>)
    requires infos != []
    ensures forall c :: c in infos ==> c.der in Transient(infos[0], LinkBag(infos), true)
  {
    forall c | c in infos ensures c.der in Transient(infos[0], LinkBag(infos), true) {
      if c != infos[0] { assert Chain.BagCert(c, Chain.FromLink) in LinkBag(infos); }
    }
  }

  lemma LinkUntouched(env: CertStore.Env, c: Certs, c': Certs, infos: seq<CertInfo>)
    requires infos != [] && (c' == c || Untouched(env, c, c', Transient(infos[0], LinkBag(infos), true)))
    ensures forall x :: x in infos ==> Untouched(env, c, c', {x.der})
  {
    LinkIsTransient(infos);
  }
}
