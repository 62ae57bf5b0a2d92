/**
 Where what the store holds comes from (cmd/certview/handler.go, link.go): the
 handler's operations on the certificate and CRL tables, over whole runs.
 */
module Provenance {
  import opened Common
  import opened PKI
  import opened CertStore
  import Chain
  import CRLStore
  import IDP
  import OCSPStore
  import Revocation
  import TrustBundle

  /** nextUpdate of a CRL without one, as the store keeps it: the year 1. */
  const ZERO_TIME: int := -62135596800

  datatype Verification = Verification(status: Revocation.Status, path: seq<CertInfo>)

  /**
   The C library: certificates and CRLs in PEM or DER, what a CRL's DER says,
   the path verifier at a time over a certificate, anchors and intermediates,
   signatures of CRLs, OCSP responses; and the SHA-1 of a certificate.
   */
  datatype World = World(
    env: CertStore.Env,
    parse: Bytes -> Option<CertInfo>,
    readCRL: Bytes -> Option<Bytes>,
    crlInfo: Bytes -> IDP.CRLInfo,
    verify: (int, Bytes, seq<Bytes>, seq<Bytes>) -> Verification,
    verifyCRL: (Bytes, Bytes) -> Revocation.Signature,
    parseOCSP: (Bytes, Bytes, Bytes) -> Option<Revocation.OCSPResult>,
    thumb: Bytes -> string)

  /** d is the DER of a certificate, as the parser gives it back. */
  ghost predicate Canonical(w: World, d: Bytes) {
    w.parse(d) == Some(w.env.info(d))
  }

  /** A path as the verifier accepts it: from the leaf to one of the roots, over what it was given. */
  ghost predicate IsPath(w: World, path: seq<CertInfo>, leaf: Bytes, roots: seq<Bytes>, inters: seq<Bytes>) {
    && path != [] && w.parse(leaf) == Some(path[0])
    && IsOneOf(w, path[|path| - 1], roots)
    && forall k :: 0 < k < |path| ==> IsOneOf(w, path[k], roots) || IsOneOf(w, path[k], inters)
  }

  ghost predicate IsOneOf(w: World, c: CertInfo, ders: seq<Bytes>) {
    exists d :: d in ders && w.parse(d) == Some(c)
  }

  ghost predicate GoodWorld(w: World) {
    && GoodEnv(w.env)
    && (forall d :: w.parse(d).Some? ==>
        w.parse(d).value == w.env.info(w.parse(d).value.der) && Canonical(w, w.parse(d).value.der))
    && (forall t, d, roots, inters ::
          forall c :: c in w.verify(t, d, roots, inters).path ==> c.der == [] || Canonical(w, c.der))
    && (forall t, d, roots, inters {:trigger IsPath(w, w.verify(t, d, roots, inters).path, d, roots, inters)} ::
          w.verify(t, d, roots, inters).status.OK? ==>
          IsPath(w, w.verify(t, d, roots, inters).path, d, roots, inters))
    && (forall d :: w.crlInfo(d).der == d)
    && (forall d :: Canonical(w, d) ==> w.readCRL(d).None?)
  }

  // ---------------------------------------------------------------- the history of the certificate table

  /** A verification: the certificate, the anchors, the history when they were found trusted, and its time. */
  datatype Path = Path(leaf: Bytes, anchors: seq<Bytes>, inters: seq<Bytes>, at: nat, time: int)

  function VerifiedPath(w: World, p: Path): seq<CertInfo> {
    w.verify(p.time, p.leaf, p.anchors, p.inters).path
  }

  /** What the table went through: restarts, the administrator, archived certificates, CAs of verified paths. */
  datatype Entry = Plain(e: TrustBundle.Event) | OnPath(der: Bytes, path: Path)

  function EventOf(x: Entry): TrustBundle.Event {
    match x case Plain(e) => e case OnPath(der, _) => TrustBundle.Verified(der)
  }

  function StateAfter(env: CertStore.Env, log: seq<Entry>): Certs {
    if log == [] then EMPTY
    else TrustBundle.Applied(env, StateAfter(env, log[..|log| - 1]), EventOf(log[|log| - 1]))
  }

  predicate PathOK(w: World, p: Path) {
    p.anchors != [] && w.verify(p.time, p.leaf, p.anchors, p.inters).status.OK? && VerifiedPath(w, p) != []
  }

  /** The path verifies to anchors that were all trusted at its moment. */
  ghost predicate PathHolds(w: World, log: seq<Entry>, p: Path) {
    && p.at <= |log| && PathOK(w, p)
    && forall a :: a in p.anchors ==> IsTrusted(StateAfter(w.env, log[..p.at]), w.env.sha(a))
  }

  ghost predicate IsPathCA(w: World, p: Path, der: Bytes) {
    exists c :: c in VerifiedPath(w, p) && c.isCA && c.der == der
  }

  /** What may happen next: no event without its reason, no archived certificate labelled like a bundle. */
  ghost predicate EntryOK(w: World, log: seq<Entry>, x: Entry) {
    match x
    case Plain(Restart(m, g)) => forall d :: d in m || d in g ==> Canonical(w, d)
    case Plain(Admin(_, _)) => true
    case Plain(Archive(d, source)) => Canonical(w, d) && source != TrustBundle.MOZILLA && source != TrustBundle.RU_GOV
    case Plain(Verified(_)) => false
    case OnPath(d, p) => Canonical(w, d) && PathHolds(w, log, p) && IsPathCA(w, p, d)
  }

  ghost predicate WellFormed(w: World, log: seq<Entry>) {
    log != [] ==> WellFormed(w, log[..|log| - 1]) && EntryOK(w, log[..|log| - 1], log[|log| - 1])
  }

  ghost predicate RowsCanonical(w: World, c: Certs) {
    forall s :: s in c.rows ==> Canonical(w, c.rows[s].der)
  }

  lemma StateAppend(env: CertStore.Env, log: seq<Entry>, x: Entry)
    ensures StateAfter(env, log + [x]) == TrustBundle.Applied(env, StateAfter(env, log), EventOf(x))
  {
    assert (log + [x])[..|log|] == log;
  }

  lemma WellFormedAppend(w: World, log: seq<Entry>, x: Entry)
    requires WellFormed(w, log) && EntryOK(w, log, x)
    ensures WellFormed(w, log + [x])
  {
    assert (log + [x])[..|log|] == log;
  }

  /** A path holds in every later history. */
  lemma PathStillHolds(w: World, log: seq<Entry>, later: seq<Entry>, p: Path)
    requires PathHolds(w, log, p) && log <= later
    ensures PathHolds(w, later, p)
  {
    assert later[..p.at] == log[..p.at];
  }

  // ---------------------------------------------------------------- one event

  /** A certificate of the table is in the pool or trusted, and if so why. */
  predicate EntersPool(env: CertStore.Env, e: TrustBundle.Event, der: Bytes) {
    match e
    case Restart(m, g) => der in m || der in g
    case Admin(s, trusted) => trusted && s == env.sha(der)
    case Archive(_, _) => false
    case Verified(d) => d == der
  }

  predicate GrantsTrust(env: CertStore.Env, e: TrustBundle.Event, der: Bytes) {
    match e
    case Restart(m, g) => (der in m || der in g) && env.info(der).selfSigned
    case Admin(s, trusted) => trusted && s == env.sha(der)
    case _ => false
  }

  /** From c to c': rows keep their DER, enter the pool only from ders, gain trust only as roots of ders. */
  ghost predicate Grows(env: CertStore.Env, c: Certs, c': Certs, ders: seq<Bytes>) {
    forall s :: s in c'.rows ==>
      && (s in c.rows || c'.rows[s].der in ders) && (s in c.rows ==> c'.rows[s].der == c.rows[s].der)
      && (InPool(c'.rows[s]) ==> (s in c.rows && InPool(c.rows[s])) || c'.rows[s].der in ders)
      && (c'.rows[s].trusted ==>
            (s in c.rows && c.rows[s].trusted) || (c'.rows[s].der in ders && env.info(c'.rows[s].der).selfSigned))
  }

  lemma {:induction false} BlocksGrow(env: CertStore.Env, c: Certs, ders: seq<Bytes>, source: string)
    requires GoodEnv(env) && GoodTable(env, c)
    ensures GoodTable(env, TrustBundle.ImportedBlocks(env, c, ders, source))
    ensures Grows(env, c, TrustBundle.ImportedBlocks(env, c, ders, source), ders)
  {
    if ders != [] {
      var init, last := ders[..|ders| - 1], ders[|ders| - 1];
      BlocksGrow(env, c, init, source);
      assert ders == init + [last];
      BlockGrows(env, TrustBundle.ImportedBlocks(env, c, init, source), last, source);
    }
  }

  lemma BlockGrows(env: CertStore.Env, c: Certs, der: Bytes, source: string)
    requires GoodEnv(env) && GoodTable(env, c)
    ensures GoodTable(env, TrustBundle.ImportedBlock(env, c, der, source))
    ensures Grows(env, c, TrustBundle.ImportedBlock(env, c, der, source), [der])
  {
    if env.info(der).selfSigned {
      ImportedGrows(env, c, der, source);
    } else {
      SavedPoolGrows(env, c, der, source);
    }
  }

  lemma ImportedGrows(env: CertStore.Env, c: Certs, der: Bytes, source: string)
    requires GoodEnv(env) && GoodTable(env, c) && env.info(der).selfSigned
    ensures GoodTable(env, Imported(env, c, der, source)) && Grows(env, c, Imported(env, c, der, source), [der])
  {
    var s := env.sha(der);
    if s in c.rows {
      assert GoodRow(env, s, c.rows[s]);
    } else {
      InsertGood(env, c, der, true, true, source);
    }
  }

  lemma SavedPoolGrows(env: CertStore.Env, c: Certs, der: Bytes, source: string)
    requires GoodEnv(env) && GoodTable(env, c)
    ensures GoodTable(env, SavedPool(env, c, der, source)) && Grows(env, c, SavedPool(env, c, der, source), [der])
  {
    var s := env.sha(der);
    if s in c.rows {
      assert GoodRow(env, s, c.rows[s]);
    } else {
      InsertGood(env, c, der, false, true, source);
    }
  }

  lemma SavedCertGood(env: CertStore.Env, c: Certs, der: Bytes, source: string)
    requires GoodEnv(env) && GoodTable(env, c)
    ensures GoodTable(env, SavedCert(env, c, der, source))
  {
    if env.sha(der) !in c.rows { InsertGood(env, c, der, false, false, source); }
  }

  lemma BundleGrows(env: CertStore.Env, c: Certs, ders: seq<Bytes>, source: string)
    requires GoodEnv(env) && GoodTable(env, c)
    ensures GoodTable(env, TrustBundle.BundleImported(env, c, ders, source))
    ensures Grows(env, c, TrustBundle.BundleImported(env, c, ders, source), ders)
  {
    BlocksGrow(env, c, ders, source);
  }

  /** What one event may change: rows keep their DER, enter the pool and gain trust only by it. */
  ghost predicate Moves(env: CertStore.Env, c: Certs, c': Certs, e: TrustBundle.Event) {
    forall s :: s in c'.rows ==>
      && (s in c.rows ==> c'.rows[s].der == c.rows[s].der)
      && (InPool(c'.rows[s]) ==> (s in c.rows && InPool(c.rows[s])) || EntersPool(env, e, c'.rows[s].der))
      && (c'.rows[s].trusted ==> (s in c.rows && c.rows[s].trusted) || GrantsTrust(env, e, c'.rows[s].der))
  }

  lemma EventGrows(env: CertStore.Env, c: Certs, e: TrustBundle.Event)
    requires GoodEnv(env) && GoodTable(env, c)
    ensures GoodTable(env, TrustBundle.Applied(env, c, e)) && Moves(env, c, TrustBundle.Applied(env, c, e), e)
  {
    match e
    case Restart(m, g) => RestartGrows(env, c, m, g);
    case Admin(s, trusted) => AdminGrows(env, c, s, trusted);
    case Archive(der, source) => SavedCertGood(env, c, der, source);
    case Verified(der) => SavedPoolMoves(env, c, der);
  }

  lemma RestartGrows(env: CertStore.Env, c: Certs, m: seq<Bytes>, g: seq<Bytes>)
    requires GoodEnv(env) && GoodTable(env, c)
    ensures
      var e := TrustBundle.Restart(m, g);
      GoodTable(env, TrustBundle.Applied(env, c, e)) && Moves(env, c, TrustBundle.Applied(env, c, e), e)
  {
    BundleGrows(env, c, m, TrustBundle.MOZILLA);
    BundleGrows(env, TrustBundle.BundleImported(env, c, m, TrustBundle.MOZILLA), g, TrustBundle.RU_GOV);
  }

  lemma AdminGrows(env: CertStore.Env, c: Certs, s: string, trusted: bool)
    requires GoodEnv(env) && GoodTable(env, c)
    ensures
      var e := TrustBundle.Admin(s, trusted);
      GoodTable(env, WithTrust(c, s, trusted)) && Moves(env, c, WithTrust(c, s, trusted), e)
  {
    if s in c.rows { assert GoodRow(env, s, c.rows[s]); }
  }

  lemma SavedPoolMoves(env: CertStore.Env, c: Certs, der: Bytes)
    requires GoodEnv(env) && GoodTable(env, c)
    ensures GoodTable(env, SavedPool(env, c, der, ""))
    ensures Moves(env, c, SavedPool(env, c, der, ""), TrustBundle.Verified(der))
  {
    SavedPoolGrows(env, c, der, "");
    assert der in [der];
    if env.sha(der) !in c.rows { assert !NewRow(env, der, false, true, "").trusted; }
  }

  lemma EventKeepsCanonical(w: World, log: seq<Entry>, c: Certs, x: Entry)
    requires GoodEnv(w.env) && GoodTable(w.env, c) && RowsCanonical(w, c) && EntryOK(w, log, x)
    ensures RowsCanonical(w, TrustBundle.Applied(w.env, c, EventOf(x)))
  {
    var e := EventOf(x);
    if e.Restart? {
      var c1 := TrustBundle.BundleImported(w.env, c, e.mozilla, TrustBundle.MOZILLA);
      BundleGrows(w.env, c, e.mozilla, TrustBundle.MOZILLA);
      BundleGrows(w.env, c1, e.ruGov, TrustBundle.RU_GOV);
    }
  }

  // ---------------------------------------------------------------- whole runs

  lemma {:induction false} StateIsGood(w: World, log: seq<Entry>)
    requires GoodWorld(w) && WellFormed(w, log)
    ensures GoodTable(w.env, StateAfter(w.env, log)) && RowsCanonical(w, StateAfter(w.env, log))
  {
    if log != [] {
      var k := |log| - 1;
      PrefixWellFormed(w, log, k);
      StateIsGood(w, log[..k]);
      EventGrows(w.env, StateAfter(w.env, log[..k]), EventOf(log[k]));
      EventKeepsCanonical(w, log[..k], StateAfter(w.env, log[..k]), log[k]);
    }
  }

  lemma {:induction false} PrefixWellFormed(w: World, log: seq<Entry>, k: nat)
    requires WellFormed(w, log) && k <= |log|
    ensures WellFormed(w, log[..k])
    ensures k < |log| ==> EntryOK(w, log[..k], log[k])
  {
    if k + 1 < |log| {
      PrefixWellFormed(w, log[..|log| - 1], k);
      assert log[..|log| - 1][..k] == log[..k];
    } else if k == |log| {
      assert log[..k] == log;
    }
  }

  /**
   Some event of the history granted the certificate trust: it was bundled as a
   root, or trusted by the administrator.
   */
  ghost predicate WasTrusted(env: CertStore.Env, log: seq<Entry>, der: Bytes) {
    exists k :: 0 <= k < |log| && GrantsTrust(env, EventOf(log[k]), der)
  }

  /** Bundled or trusted at some point, or a CA on a path verified to anchors that were. */
  ghost predicate PoolJustified(w: World, log: seq<Entry>, der: Bytes) {
    || (exists k :: 0 <= k < |log| && log[k].Plain? && EntersPool(w.env, log[k].e, der))
    || (exists k :: 0 <= k < |log| && log[k].OnPath? && log[k].der == der
          && RootedPath(w, log[..k], log[k].path) && IsPathCA(w, log[k].path, der))
  }

  /** The path holds, and each anchor's trust itself comes from a bundle or the administrator. */
  ghost predicate RootedPath(w: World, log: seq<Entry>, p: Path) {
    PathHolds(w, log, p) && forall a :: a in p.anchors ==> WasTrusted(w.env, log[..p.at], a)
  }

  /** Every trusted certificate was bundled as a root or trusted by the administrator: no analysis grants trust. */
  lemma {:induction false} TrustProvenance(w: World, log: seq<Entry>, der: Bytes)
    requires GoodWorld(w) && WellFormed(w, log) && IsTrusted(StateAfter(w.env, log), w.env.sha(der))
    ensures WasTrusted(w.env, log, der)
  {
    if log != [] {
      var k := |log| - 1;
      var before, s := StateAfter(w.env, log[..k]), w.env.sha(der);
      PrefixWellFormed(w, log, k);
      StateIsGood(w, log[..k]);
      StateIsGood(w, log);
      EventGrows(w.env, before, EventOf(log[k]));
      if s in before.rows && before.rows[s].trusted {
        TrustProvenance(w, log[..k], der);
        var j :| 0 <= j < k && GrantsTrust(w.env, EventOf(log[..k][j]), der);
        assert log[..k][j] == log[j];
      } else {
        assert StateAfter(w.env, log).rows[s].der == der;
      }
    }
  }

  /** A path that holds leads to anchors whose trust comes from a bundle or the administrator. */
  lemma PathIsRooted(w: World, log: seq<Entry>, p: Path)
    requires GoodWorld(w) && WellFormed(w, log) && PathHolds(w, log, p)
    ensures RootedPath(w, log, p)
  {
    PrefixWellFormed(w, log, p.at);
    forall a | a in p.anchors ensures WasTrusted(w.env, log[..p.at], a) {
      TrustProvenance(w, log[..p.at], a);
    }
  }

  /** Every candidate issuer of every reachable table is justified. */
  lemma {:induction false} PoolProvenance(w: World, log: seq<Entry>, s: string)
    requires GoodWorld(w) && WellFormed(w, log)
    requires s in StateAfter(w.env, log).rows && InPool(StateAfter(w.env, log).rows[s])
    ensures PoolJustified(w, log, StateAfter(w.env, log).rows[s].der)
  {
    if log != [] {
      var k := |log| - 1;
      var before, der := StateAfter(w.env, log[..k]), StateAfter(w.env, log).rows[s].der;
      PrefixWellFormed(w, log, k);
      StateIsGood(w, log[..k]);
      EventGrows(w.env, before, EventOf(log[k]));
      if s in before.rows && InPool(before.rows[s]) {
        PoolProvenance(w, log[..k], s);
        PoolStaysJustified(w, log, k, der);
      } else if log[k].OnPath? {
        assert EntryOK(w, log[..k], log[k]);
        PathIsRooted(w, log[..k], log[k].path);
      }
    }
  }

  lemma PoolStaysJustified(w: World, log: seq<Entry>, n: nat, der: Bytes)
    requires n <= |log| && PoolJustified(w, log[..n], der)
    ensures PoolJustified(w, log, der)
  {
    if k :| 0 <= k < n && log[..n][k].Plain? && EntersPool(w.env, log[..n][k].e, der) {
      assert log[k].Plain?;
    } else {
      var k :| 0 <= k < n && log[..n][k].OnPath? && log[..n][k].der == der
        && RootedPath(w, log[..n][..k], log[..n][k].path) && IsPathCA(w, log[..n][k].path, der);
      assert log[..n][..k] == log[..k] && log[k].OnPath?;
    }
  }

  function EventsOf(log: seq<Entry>): (r: seq<TrustBundle.Event>)
    ensures |r| == |log| && forall k :: 0 <= k < |log| ==> r[k] == EventOf(log[k])
  {
    if log == [] then [] else EventsOf(log[..|log| - 1]) + [EventOf(log[|log| - 1])]
  }

  lemma {:induction false} StateIsReplay(env: CertStore.Env, log: seq<Entry>)
    ensures StateAfter(env, log) == TrustBundle.AppliedAll(env, EMPTY, EventsOf(log))
  {
    if log != [] {
      StateIsReplay(env, log[..|log| - 1]);
      assert EventsOf(log)[..|log| - 1] == EventsOf(log[..|log| - 1]);
    }
  }

  /**
   Over every run of the handler, a root only one bundle ever holds is trusted
   exactly when the trust automaton says so, whatever was analysed in between.
   */
  lemma HandlerTrust(w: World, log: seq<Entry>, root: Bytes, bundle: string)
    requires GoodWorld(w) && WellFormed(w, log) && w.env.info(root).selfSigned
    requires bundle == TrustBundle.MOZILLA || bundle == TrustBundle.RU_GOV
    requires forall k :: 0 <= k < |log| && EventOf(log[k]).Restart? ==>
      root !in TrustBundle.Other(EventOf(log[k]), bundle)
    ensures
      TrustBundle.TrustOf(StateAfter(w.env, log), w.env.sha(root), bundle) ==
      TrustBundle.NextAll(w.env, root, bundle, TrustBundle.Unknown, EventsOf(log))
  {
    StateIsReplay(w.env, log);
    forall k | 0 <= k < |log| ensures TrustBundle.Allowed(root, bundle, EventsOf(log)[k]) {
      PrefixWellFormed(w, log, k);
    }
    TrustBundle.TrustOverTime(w.env, root, bundle, EventsOf(log));
  }

  // ---------------------------------------------------------------- what an analysis may do to the table

  /** An analysis archives certificates and pools CAs of verified paths, never transient ones. */
  predicate FromAnalysis(x: Entry, transient: set<Bytes>) {
    match x
    case Plain(Archive(d, _)) => d !in transient
    case OnPath(d, _) => d !in transient
    case _ => false
  }

  ghost predicate SameTrust(c: Certs, c': Certs) {
    forall s :: IsTrusted(c', s) <==> IsTrusted(c, s)
  }

  /** The rows of these certificates, or their absence, are as before. */
  ghost predicate Untouched(env: CertStore.Env, c: Certs, c': Certs, ders: set<Bytes>) {
    forall d :: d in ders ==>
      && (env.sha(d) in c'.rows <==> env.sha(d) in c.rows)
      && (env.sha(d) in c.rows ==> c'.rows[env.sha(d)] == c.rows[env.sha(d)])
  }

  ghost predicate OnlyAnalysis(log: seq<Entry>, later: seq<Entry>, transient: set<Bytes>) {
    log <= later && forall k :: |log| <= k < |later| ==> FromAnalysis(later[k], transient)
  }

  lemma OnlyAnalysisThen(a: seq<Entry>, b: seq<Entry>, c: seq<Entry>, transient: set<Bytes>)
    requires OnlyAnalysis(a, b, transient) && OnlyAnalysis(b, c, transient)
    ensures OnlyAnalysis(a, c, transient)
  {
    forall k | |a| <= k < |c| ensures FromAnalysis(c[k], transient) {
      if k < |b| { assert c[k] == b[k]; }
    }
  }

  /** Whatever an analysis does, it changes the trust of nothing and leaves transient certificates alone. */
  lemma {:induction false} AnalysisKeeps(env: CertStore.Env, log: seq<Entry>, later: seq<Entry>, transient: set<Bytes>)
    requires GoodEnv(env) && OnlyAnalysis(log, later, transient)
    ensures SameTrust(StateAfter(env, log), StateAfter(env, later))
    ensures Untouched(env, StateAfter(env, log), StateAfter(env, later), transient)
    decreases |later|
  {
    if |later| > |log| {
      var k := |later| - 1;
      AnalysisKeeps(env, log, later[..k], transient);
      StepUntouched(env, StateAfter(env, later[..k]), later[k], transient);
      KeptTwice(env, StateAfter(env, log), StateAfter(env, later[..k]), StateAfter(env, later), transient);
    } else {
      assert later == log;
    }
  }

  lemma ArchivedOne(env: CertStore.Env, log: seq<Entry>, der: Bytes, source: string)
    requires GoodEnv(env)
    ensures
      var later := log + [Plain(TrustBundle.Archive(der, source))];
      && OnlyAnalysis(log, later, {}) && SameTrust(StateAfter(env, log), StateAfter(env, later))
      && env.sha(der) in StateAfter(env, later).rows
  {
    var x := Plain(TrustBundle.Archive(der, source));
    StateAppend(env, log, x);
    StepUntouched(env, StateAfter(env, log), x, {});
  }

  lemma KeptTwice(env: CertStore.Env, a: Certs, b: Certs, c: Certs, transient: set<Bytes>)
    requires SameTrust(a, b) && SameTrust(b, c) && Untouched(env, a, b, transient) && Untouched(env, b, c, transient)
    ensures SameTrust(a, c) && Untouched(env, a, c, transient)
  {
    forall s ensures IsTrusted(c, s) <==> IsTrusted(a, s) { assert IsTrusted(b, s) <==> IsTrusted(a, s); }
  }

  /** The entry is neither a restart nor a decision of the administrator on the certificate. */
  predicate LeavesTrust(x: Entry, s: string) {
    match EventOf(x) case Restart(_, _) => false case Admin(s', _) => s' != s case _ => true
  }

  predicate TrustLeftAlone(log: seq<Entry>, t: nat, s: string) {
    forall j :: t < j < |log| ==> LeavesTrust(log[j], s)
  }

  /** Entry t is the administrator's decision on a certificate the table has. */
  ghost predicate DecidedAt(env: CertStore.Env, log: seq<Entry>, t: nat, s: string, trusted: bool) {
    t < |log| && log[t] == Plain(TrustBundle.Admin(s, trusted)) && s in StateAfter(env, log[..t]).rows
  }

  /** From log to later a certificate was archived, if any, and then the administrator decided. */
  ghost predicate AdminDecided(env: CertStore.Env, log: seq<Entry>, later: seq<Entry>, s: string, trusted: bool) {
    |log| < |later| && DecidedAt(env, later, |later| - 1, s, trusted) && OnlyAnalysis(log, later[..|later| - 1], {})
  }

  predicate TrustIs(c: Certs, s: string, trusted: bool) {
    s in c.rows && c.rows[s].trusted == trusted
  }

  /** What the administrator decided last holds until the next decision or restart. */
  lemma {:induction false} TrustLasts(env: CertStore.Env, log: seq<Entry>, t: nat, s: string, trusted: bool)
    requires DecidedAt(env, log, t, s, trusted)
    requires TrustLeftAlone(log, t, s)
    ensures TrustIs(StateAfter(env, log), s, trusted)
    decreases |log|
  {
    var k := |log| - 1;
    if t < k {
      assert log[..k][..t] == log[..t];
      TrustLasts(env, log[..k], t, s, trusted);
      StepLeavesTrust(env, StateAfter(env, log[..k]), log[k], s);
    }
  }

  lemma StepLeavesTrust(env: CertStore.Env, c: Certs, x: Entry, s: string)
    requires s in c.rows && LeavesTrust(x, s)
    ensures TrustIs(TrustBundle.Applied(env, c, EventOf(x)), s, c.rows[s].trusted)
  {
  }

  lemma StepUntouched(env: CertStore.Env, c: Certs, x: Entry, transient: set<Bytes>)
    requires GoodEnv(env) && FromAnalysis(x, transient)
    ensures SameTrust(c, TrustBundle.Applied(env, c, EventOf(x)))
    ensures Untouched(env, c, TrustBundle.Applied(env, c, EventOf(x)), transient)
  {
  }

  // ---------------------------------------------------------------- trusted paths

  function TrustedOf(env: CertStore.Env, c: Certs, roots: seq<Bytes>): seq<Bytes> {
    if roots == [] then []
    else
      var last := roots[|roots| - 1];
      TrustedOf(env, c, roots[..|roots| - 1]) + if IsTrusted(c, env.sha(last)) then [last] else []
  }

  lemma {:induction false} TrustedOfIs(env: CertStore.Env, c: Certs, roots: seq<Bytes>)
    ensures forall a :: a in TrustedOf(env, c, roots) <==> a in roots && IsTrusted(c, env.sha(a))
  {
    if roots != [] {
      TrustedOfIs(env, c, roots[..|roots| - 1]);
      assert roots == roots[..|roots| - 1] + [roots[|roots| - 1]];
    }
  }

  /** A path that verifies to the trusted ones among roots holds at once. */
  lemma PathHoldsNow(w: World, log: seq<Entry>, roots: seq<Bytes>, p: Path)
    requires p.anchors == TrustedOf(w.env, StateAfter(w.env, log), roots) && p.at == |log| && PathOK(w, p)
    ensures PathHolds(w, log, p)
  {
    TrustedOfIs(w.env, StateAfter(w.env, log), roots);
    assert log[..|log|] == log;
  }

  lemma {:induction false} TrustedOfSame(env: CertStore.Env, c: Certs, c': Certs, roots: seq<Bytes>)
    requires SameTrust(c, c')
    ensures TrustedOf(env, c, roots) == TrustedOf(env, c', roots)
  {
    if roots != [] { TrustedOfSame(env, c, c', roots[..|roots| - 1]); }
  }

  predicate Kept(c: CertInfo, transient: set<Bytes>) {
    c.isCA && c.der != [] && c.der !in transient
  }

  /** The CAs of a verified path that join the pool. */
  function PathEntries(cas: seq<CertInfo>, p: Path, transient: set<Bytes>): (r: seq<Entry>)
    ensures forall x :: x in r ==> x.OnPath? && x.path == p && x.der !in transient
  {
    if cas == [] then []
    else
      PathEntries(cas[..|cas| - 1], p, transient) + PathEntry(cas[|cas| - 1], p, transient)
  }

  function PathEntry(c: CertInfo, p: Path, transient: set<Bytes>): seq<Entry> {
    if Kept(c, transient) then [OnPath(c.der, p)] else []
  }

  lemma PathEntriesNext(before: seq<Entry>, path: seq<CertInfo>, k: nat, p: Path, transient: set<Bytes>)
    requires k < |path|
    ensures before + PathEntries(path[..k + 1], p, transient) ==
      before + PathEntries(path[..k], p, transient) + PathEntry(path[k], p, transient)
  {
    assert path[..k + 1][..k] == path[..k];
  }

  // ---------------------------------------------------------------- what justifies a stored CRL

  /** The issuer was trusted itself, or verified to trusted anchors. */
  datatype IssuerTrust = Itself(at: nat) | Via(path: Path)

  datatype CRLWhy = CRLWhy(issuer: CertInfo, checked: int, inserted: int, trust: IssuerTrust)

  ghost predicate IssuerTrusted(w: World, log: seq<Entry>, issuer: Bytes, t: IssuerTrust) {
    match t
    case Itself(at) => at <= |log| && IsTrusted(StateAfter(w.env, log[..at]), w.env.sha(issuer))
    case Via(p) => p.leaf == issuer && PathHolds(w, log, p)
  }

  predicate Expired(crl: IDP.CRLInfo, t: int) {
    crl.nextUpdate.Some? && t > crl.nextUpdate.value
  }

  /** Verified by a CA that may sign CRLs and was trusted or verified to trust; not expired when that was checked. */
  ghost predicate CRLJustified(w: World, log: seq<Entry>, der: Bytes, why: CRLWhy) {
    && w.verifyCRL(der, why.issuer.der).Verified? && CanSignCRL(why.issuer)
    && !Expired(w.crlInfo(der), why.checked)
    && IssuerTrusted(w, log, why.issuer.der, why.trust)
  }

  lemma CRLStaysJustified(w: World, log: seq<Entry>, later: seq<Entry>, der: Bytes, why: CRLWhy)
    requires CRLJustified(w, log, der, why) && log <= later
    ensures CRLJustified(w, later, der, why)
  {
    match why.trust
    case Itself(at) => assert later[..at] == log[..at];
    case Via(p) => PathStillHolds(w, log, later, p);
  }

  function StoredTime(t: Option<int>): int {
    match t case None => ZERO_TIME case Some(x) => x
  }

  ghost predicate CRLsJustified(w: World, log: seq<Entry>, saves: seq<CRLStore.Save>, whys: seq<CRLWhy>) {
    && |whys| == |saves|
    && forall k {:trigger CRLJustified(w, log, saves[k].der, whys[k])} :: 0 <= k < |saves| ==>
        CRLJustified(w, log, saves[k].der, whys[k])
  }

  lemma CRLsStayJustified(w: World, log: seq<Entry>, later: seq<Entry>, saves: seq<CRLStore.Save>, whys: seq<CRLWhy>)
    requires CRLsJustified(w, log, saves, whys) && log <= later
    ensures CRLsJustified(w, later, saves, whys)
  {
    forall k | 0 <= k < |saves| ensures CRLJustified(w, later, saves[k].der, whys[k]) {
      CRLStaysJustified(w, log, later, saves[k].der, whys[k]);
    }
  }

  /** A stored OCSP response: for which certificate, from which issuer, and that issuer's path. */
  datatype OCSPWhy = OCSPWhy(cert: Bytes, path: Path)

  /** Verified for the certificate and its issuer, with a nextUpdate; the issuer verified to trust. */
  ghost predicate OCSPJustified(w: World, log: seq<Entry>, row: OCSPStore.Row, why: OCSPWhy) {
    var res := w.parseOCSP(why.cert, why.path.leaf, row.der);
    && row.thumb == w.thumb(why.cert) && row.nextUpdate.Some?
    && res.Some? && res.value.verified && res.value.nextUpdate == row.nextUpdate
    && PathHolds(w, log, why.path)
  }

  ghost predicate OCSPsJustified(w: World, log: seq<Entry>, saves: seq<OCSPStore.Row>, whys: seq<OCSPWhy>) {
    && |whys| == |saves|
    && forall k {:trigger OCSPJustified(w, log, saves[k], whys[k])} :: 0 <= k < |saves| ==>
        OCSPJustified(w, log, saves[k], whys[k])
  }

  lemma OCSPsStayJustified(w: World, log: seq<Entry>, later: seq<Entry>, saves: seq<OCSPStore.Row>, whys: seq<OCSPWhy>)
    requires OCSPsJustified(w, log, saves, whys) && log <= later
    ensures OCSPsJustified(w, later, saves, whys)
  {
    forall k | 0 <= k < |saves| ensures OCSPJustified(w, later, saves[k], whys[k]) {
      assert OCSPJustified(w, log, saves[k], whys[k]);
      PathStillHolds(w, log, later, whys[k].path);
    }
  }

  /** Every stored response is justified, down to where the trust of its issuer's anchors comes from. */
  lemma OCSPProvenance(w: World, log: seq<Entry>, rows: seq<OCSPStore.Row>, saves: seq<OCSPStore.Row>,
      whys: seq<OCSPWhy>, now: int, i: nat)
    returns (k: nat)
    requires GoodWorld(w) && WellFormed(w, log) && OCSPsJustified(w, log, saves, whys)
    requires OCSPStore.Refines(rows, saves, now) && i < |rows|
    ensures k < |saves| && saves[k] == rows[i] && OCSPJustified(w, log, rows[i], whys[k])
    ensures RootedPath(w, log, whys[k].path)
  {
    k := LastIsSaved(saves, rows[i].thumb);
    assert OCSPJustified(w, log, saves[k], whys[k]);
    PathIsRooted(w, log, whys[k].path);
  }

  lemma {:induction false} LastIsSaved(saves: seq<OCSPStore.Row>, thumb: string) returns (k: nat)
    requires OCSPStore.LastFor(saves, thumb).Some?
    ensures k < |saves| && saves[k] == OCSPStore.LastFor(saves, thumb).value
  {
    k := |saves| - 1;
    if saves[k].thumb != thumb { k := LastIsSaved(saves[..k], thumb); }
  }

  /** The save's issuer and its trust, down to where it comes from. */
  ghost predicate CRLRooted(w: World, log: seq<Entry>, der: Bytes, why: CRLWhy) {
    && CRLJustified(w, log, der, why)
    && match why.trust
       case Via(p) => RootedPath(w, log, p)
       case Itself(at) => WasTrusted(w.env, log[..at], why.issuer.der)
  }

  /** The row was unexpired at the check if its CRL has a nextUpdate, and at the insert if that was not past. */
  ghost predicate UnexpiredIff(w: World, row: CRLStore.Row, why: CRLWhy) {
    var crl := w.crlInfo(row.der);
    && (why.checked > ZERO_TIME ==> (row.nextUpdate >= why.checked <==> crl.nextUpdate.Some?))
    && (why.inserted > ZERO_TIME ==>
          (row.nextUpdate >= why.inserted <==> crl.nextUpdate.Some? && !Expired(crl, why.inserted)))
  }

  /**
   Every CRL row was saved, and every save of its content is justified, down to
   where the trust of its issuer comes from. The row was unexpired at a save's
   check exactly when the CRL has a nextUpdate: one without passes the check and
   is stored as of the year 1. It was unexpired at the save's insert exactly
   when, besides, the CRL did not expire in between.
   */
  lemma CRLProvenance(w: World, log: seq<Entry>, cenv: CRLStore.Env, crls: map<string, CRLStore.Row>,
      saves: seq<CRLStore.Save>, whys: seq<CRLWhy>, s: string)
    returns (k: nat)
    requires GoodWorld(w) && WellFormed(w, log) && CRLsJustified(w, log, saves, whys)
    requires CRLStore.RowsMatch(cenv, crls) && CRLStore.RowsWereSaved(crls, saves) && s in crls
    requires forall d :: cenv.nextUpdate(d) == StoredTime(w.crlInfo(d).nextUpdate)
    ensures k < |saves| && saves[k].der == crls[s].der
    ensures forall j :: 0 <= j < |saves| && saves[j].der == crls[s].der ==>
      CRLRooted(w, log, saves[j].der, whys[j]) && UnexpiredIff(w, crls[s], whys[j])
  {
    k :| 0 <= k < |saves| && saves[k].der == crls[s].der;
    forall j | 0 <= j < |saves| && saves[j].der == crls[s].der
      ensures CRLRooted(w, log, saves[j].der, whys[j]) && UnexpiredIff(w, crls[s], whys[j])
    {
      SaveIsRooted(w, log, saves[j].der, whys[j]);
    }
  }

  lemma SaveIsRooted(w: World, log: seq<Entry>, der: Bytes, why: CRLWhy)
    requires GoodWorld(w) && WellFormed(w, log) && CRLJustified(w, log, der, why)
    ensures CRLRooted(w, log, der, why)
  {
    match why.trust
    case Via(p) => PathIsRooted(w, log, p);
    case Itself(at) =>
      PrefixWellFormed(w, log, at);
      TrustProvenance(w, log[..at], why.issuer.der);
  }

  // ---------------------------------------------------------------- candidates from the table

  function CandidatesOf(c: Certs, name: Bytes, aki: string, pool: nat, archive: nat): seq<Candidate> {
    var keys := IssuerKeys(c, name, aki, pool, archive);
    seq(|keys|, i requires 0 <= i < |keys| =>
      if keys[i] in c.rows then Candidate(c.rows[keys[i]].der, InPool(c.rows[keys[i]])) else Candidate([], false))
  }

  function PoolDERs(c: Certs, name: Bytes): seq<Bytes> {
    var cands := CandidatesOf(c, name, "", Chain.MAX_ALT_CANDIDATES, 0);
    seq(|cands|, i requires 0 <= i < |cands| => cands[i].der)
  }

  predicate PoolDER(env: CertStore.Env, c: Certs, d: Bytes) {
    var s := env.sha(d);
    s in c.rows && c.rows[s].der == d && InPool(c.rows[s])
  }

  /** poolIssuers gives pool certificates of the name, at most MAX_ALT_CANDIDATES, none twice. */
  lemma PoolDERsArePooled(env: CertStore.Env, c: Certs, name: Bytes)
    requires GoodEnv(env) && GoodTable(env, c)
    ensures |PoolDERs(c, name)| <= Chain.MAX_ALT_CANDIDATES && Distinct(PoolDERs(c, name))
    ensures forall d :: d in PoolDERs(c, name) ==> PoolDER(env, c, d) && env.info(d).subjectName == name
  {
    var keys := IssuerKeys(c, name, "", Chain.MAX_ALT_CANDIDATES, 0);
    IssuerKeysAgree(c, name, "", Chain.MAX_ALT_CANDIDATES, 0);
    QueryIsPoolThenArchive(c, name, "", Chain.MAX_ALT_CANDIDATES, 0);
    ArchiveRowsAgree(c, name, "", 0);
    DedupKeepsElements(QueryRows(c, name, "", Chain.MAX_ALT_CANDIDATES, 0));
    PoolKeysDER(env, c, name, keys);
  }

  /** The candidates are the rows FindIssuers gives, in its order. */
  lemma CandidatesOfIs(c: Certs, name: Bytes, aki: string, pool: nat, archive: nat)
    requires Distinct(c.order) && forall s :: s in c.order <==> s in c.rows
    ensures
      var keys, cands := IssuerKeys(c, name, aki, pool, archive), CandidatesOf(c, name, aki, pool, archive);
      |cands| == |keys| && forall i :: 0 <= i < |keys| ==>
        keys[i] in c.rows && cands[i] == Candidate(c.rows[keys[i]].der, InPool(c.rows[keys[i]]))
  {
    IssuerKeysAgree(c, name, aki, pool, archive);
  }

  /** poolIssuers gives every pool certificate of the name when there are at most MAX_ALT_CANDIDATES. */
  lemma PoolDERsComplete(env: CertStore.Env, c: Certs, d: Bytes)
    requires GoodEnv(env) && GoodTable(env, c) && PoolDER(env, c, d) && env.info(d).subjectName != []
    requires |PoolRanked(c, env.info(d).subjectName, "")| <= Chain.MAX_ALT_CANDIDATES
    ensures d in PoolDERs(c, env.info(d).subjectName)
  {
    var s, name := env.sha(d), env.info(d).subjectName;
    assert GoodRow(env, s, c.rows[s]);
    IssuerKeysComplete(c, name, "", Chain.MAX_ALT_CANDIDATES, 0, s);
    var keys := IssuerKeys(c, name, "", Chain.MAX_ALT_CANDIDATES, 0);
    var i :| 0 <= i < |keys| && keys[i] == s;
    assert PoolDERs(c, name)[i] == d;
  }

  lemma PoolKeysDER(env: CertStore.Env, c: Certs, name: Bytes, keys: seq<string>)
    requires GoodEnv(env) && GoodTable(env, c) && keys == IssuerKeys(c, name, "", Chain.MAX_ALT_CANDIDATES, 0)
    requires Distinct(keys) && forall k :: 0 <= k < |keys| ==>
      keys[k] in c.rows && Matches(c.rows[keys[k]], name, "") && InPool(c.rows[keys[k]])
    ensures |PoolDERs(c, name)| == |keys| && Distinct(PoolDERs(c, name))
    ensures forall d :: d in PoolDERs(c, name) ==> PoolDER(env, c, d) && env.info(d).subjectName == name
  {
    var ders := PoolDERs(c, name);
    forall i | 0 <= i < |keys|
      ensures env.sha(ders[i]) == keys[i] && PoolDER(env, c, ders[i]) && env.info(ders[i]).subjectName == name
    {
      assert GoodRow(env, keys[i], c.rows[keys[i]]);
    }
  }

  /** The network, the context and the clock during one chain building. */
  datatype Net = Net(
    fetch: (nat, string) -> Chain.FetchResult,
    done: nat -> bool,
    now: nat -> int,
    archiveNow: nat -> int)

  function ChainEnv(w: World, c: Certs, net: Net): Chain.Env {
    Chain.Env(w.env.sha, w.parse,
      (name, aki) => CandidatesOf(c, name, aki, Chain.MAX_ALT_CANDIDATES, Chain.ARCHIVE_SAMPLE),
      name => PoolDERs(c, name), net.fetch, net.done, net.now, net.archiveNow)
  }

  /** The chain builder's assumptions hold of every reachable table. */
  lemma ChainEnvIsGood(w: World, c: Certs, net: Net)
    requires GoodWorld(w) && GoodTable(w.env, c) && RowsCanonical(w, c)
    ensures Chain.GoodEnv(ChainEnv(w, c, net))
  {
    var env := ChainEnv(w, c, net);
    forall cert ensures Chain.GoodCandidates(env, cert) {
      IssuerKeysAgree(c, cert.issuerName, cert.aki, Chain.MAX_ALT_CANDIDATES, Chain.ARCHIVE_SAMPLE);
      Chain.CandidatesAreGood(env, w.env, c, cert);
    }
  }
}
