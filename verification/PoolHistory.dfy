/**
 Which certificates the table has and which are in its pool, exactly, from what
 happened to it: nothing that enters is ever lost, and nothing else enters.
 */
module PoolHistory {
  import opened Common
  import opened PKI
  import opened CertStore
  import opened Provenance
  import TrustBundle

  ghost predicate HasRow(env: CertStore.Env, c: Certs, der: Bytes) {
    env.sha(der) in c.rows && c.rows[env.sha(der)].der == der
  }

  /** The certificate is marked as a candidate issuer, whoever trusts it. */
  ghost predicate Marked(env: CertStore.Env, c: Certs, der: Bytes) {
    HasRow(env, c, der) && c.rows[env.sha(der)].pool
  }

  /** A bundle held it or it was on a verified path. */
  predicate Marks(e: TrustBundle.Event, der: Bytes) {
    match e
    case Restart(m, g) => der in m || der in g
    case Verified(d) => d == der
    case _ => false
  }

  predicate Records(e: TrustBundle.Event, der: Bytes) {
    Marks(e, der) || (e.Archive? && e.der == der)
  }

  // ---------------------------------------------------------------- one statement

  /** SavePoolCert puts the certificate into the pool; a row it had keeps all else, and so do the other rows. */
  lemma SavedPoolIs(env: CertStore.Env, c: Certs, der: Bytes, source: string)
    requires GoodEnv(env) && GoodTable(env, c)
    ensures
      var s, c' := env.sha(der), SavedPool(env, c, der, source);
      && Marked(env, c', der) && c'.rows.Keys == c.rows.Keys + {s}
      && (forall t :: t in c.rows && t != s ==> c'.rows[t] == c.rows[t])
      && if s in c.rows then c'.rows[s] == c.rows[s].(pool := true)
         else !c'.rows[s].trusted && c'.rows[s].source == source
  {
    var s := env.sha(der);
    if s in c.rows { assert GoodRow(env, s, c.rows[s]); }
  }

  /** SaveCert gives the certificate a row outside the pool, or leaves the table as it is. */
  lemma SavedCertIs(env: CertStore.Env, c: Certs, der: Bytes, source: string)
    requires GoodEnv(env) && GoodTable(env, c)
    ensures
      var s, c' := env.sha(der), SavedCert(env, c, der, source);
      && HasRow(env, c', der) && c'.rows.Keys == c.rows.Keys + {s}
      && (forall t :: t in c.rows ==> c'.rows[t] == c.rows[t])
      && (s !in c.rows ==> !InPool(c'.rows[s]) && c'.rows[s].source == source)
  {
    var s := env.sha(der);
    if s in c.rows { assert GoodRow(env, s, c.rows[s]); }
  }

  // ---------------------------------------------------------------- one event

  /** From c to c' exactly these certificates got a row, and exactly these entered the pool. */
  ghost predicate Gains(env: CertStore.Env, c: Certs, c': Certs, der: Bytes, recorded: bool, marked: bool) {
    && (HasRow(env, c', der) <==> HasRow(env, c, der) || recorded)
    && (Marked(env, c', der) <==> Marked(env, c, der) || marked)
  }

  lemma BlockGains(env: CertStore.Env, c: Certs, d: Bytes, source: string, der: Bytes)
    requires GoodEnv(env) && GoodTable(env, c)
    ensures Gains(env, c, TrustBundle.ImportedBlock(env, c, d, source), der, d == der, d == der)
  {
    if env.sha(d) in c.rows { assert GoodRow(env, env.sha(d), c.rows[env.sha(d)]); }
    if env.sha(der) in c.rows { assert GoodRow(env, env.sha(der), c.rows[env.sha(der)]); }
  }

  lemma {:induction false} BlocksGain(env: CertStore.Env, c: Certs, ders: seq<Bytes>, source: string, der: Bytes)
    requires GoodEnv(env) && GoodTable(env, c)
    ensures Gains(env, c, TrustBundle.ImportedBlocks(env, c, ders, source), der, der in ders, der in ders)
  {
    if ders != [] {
      var init, last := ders[..|ders| - 1], ders[|ders| - 1];
      BlocksGain(env, c, init, source, der);
      BlocksGrow(env, c, init, source);
      assert ders == init + [last];
      BlockGains(env, TrustBundle.ImportedBlocks(env, c, init, source), last, source, der);
    }
  }

  lemma BundleGains(env: CertStore.Env, c: Certs, ders: seq<Bytes>, source: string, der: Bytes)
    requires GoodEnv(env) && GoodTable(env, c)
    ensures Gains(env, c, TrustBundle.BundleImported(env, c, ders, source), der, der in ders, der in ders)
  {
    BlocksGain(env, c, ders, source, der);
  }

  lemma EventGains(env: CertStore.Env, c: Certs, e: TrustBundle.Event, der: Bytes)
    requires GoodEnv(env) && GoodTable(env, c)
    ensures Gains(env, c, TrustBundle.Applied(env, c, e), der, Records(e, der), Marks(e, der))
  {
    if env.sha(der) in c.rows { assert GoodRow(env, env.sha(der), c.rows[env.sha(der)]); }
    match e
    case Restart(m, g) =>
      BundleGains(env, c, m, TrustBundle.MOZILLA, der);
      BundleGrows(env, c, m, TrustBundle.MOZILLA);
      BundleGains(env, TrustBundle.BundleImported(env, c, m, TrustBundle.MOZILLA), g, TrustBundle.RU_GOV, der);
    case Admin(s, trusted) =>
    case Archive(d, source) => SavedCertIs(env, c, d, source);
    case Verified(d) => SavedPoolIs(env, c, d, "");
  }

  // ---------------------------------------------------------------- whole histories

  ghost predicate WasRecorded(log: seq<Entry>, der: Bytes) {
    exists k :: 0 <= k < |log| && Records(EventOf(log[k]), der)
  }

  ghost predicate WasMarked(log: seq<Entry>, der: Bytes) {
    exists k :: 0 <= k < |log| && Marks(EventOf(log[k]), der)
  }

  lemma {:induction false} HistoryGains(w: World, log: seq<Entry>, der: Bytes)
    requires GoodWorld(w) && WellFormed(w, log)
    ensures HasRow(w.env, StateAfter(w.env, log), der) <==> WasRecorded(log, der)
    ensures Marked(w.env, StateAfter(w.env, log), der) <==> WasMarked(log, der)
  {
    if log != [] {
      var k := |log| - 1;
      PrefixWellFormed(w, log, k);
      HistoryGains(w, log[..k], der);
      StateIsGood(w, log[..k]);
      EventGains(w.env, StateAfter(w.env, log[..k]), EventOf(log[k]), der);
      RecordedSplit(log, der);
    }
  }

  lemma RecordedSplit(log: seq<Entry>, der: Bytes)
    requires log != []
    ensures
      var k := |log| - 1;
      && (WasRecorded(log, der) <==> WasRecorded(log[..k], der) || Records(EventOf(log[k]), der))
      && (WasMarked(log, der) <==> WasMarked(log[..k], der) || Marks(EventOf(log[k]), der))
  {
    var k := |log| - 1;
    if j :| 0 <= j < k && Records(EventOf(log[..k][j]), der) { assert log[..k][j] == log[j]; }
    if j :| 0 <= j < k && Marks(EventOf(log[..k][j]), der) { assert log[..k][j] == log[j]; }
    if j :| 0 <= j < |log| && Records(EventOf(log[j]), der) { if j < k { assert log[..k][j] == log[j]; } }
    if j :| 0 <= j < |log| && Marks(EventOf(log[j]), der) { if j < k { assert log[..k][j] == log[j]; } }
  }

  /**
   Over every history: a certificate has a row exactly when it was bundled, on a
   verified path or archived, and is a candidate issuer exactly when it was
   bundled or on a verified path or is trusted now.
   */
  lemma PoolIff(w: World, log: seq<Entry>, der: Bytes)
    requires GoodWorld(w) && WellFormed(w, log)
    ensures HasRow(w.env, StateAfter(w.env, log), der) <==> WasRecorded(log, der)
    ensures PoolDER(w.env, StateAfter(w.env, log), der) <==>
      WasMarked(log, der) || IsTrusted(StateAfter(w.env, log), w.env.sha(der))
  {
    HistoryGains(w, log, der);
    StateIsGood(w, log);
    var c, s := StateAfter(w.env, log), w.env.sha(der);
    if s in c.rows { assert GoodRow(w.env, s, c.rows[s]); }
  }

  /** What was recorded or marked stays so. */
  lemma StaysRecorded(log: seq<Entry>, later: seq<Entry>, der: Bytes)
    requires log <= later
    ensures WasRecorded(log, der) ==> WasRecorded(later, der)
    ensures WasMarked(log, der) ==> WasMarked(later, der)
  {
    if k :| 0 <= k < |log| && Records(EventOf(log[k]), der) { assert later[k] == log[k]; }
    if k :| 0 <= k < |log| && Marks(EventOf(log[k]), der) { assert later[k] == log[k]; }
  }

  /** All CAs of the path that are not transient are in the pool. */
  ghost predicate PathPooled(env: CertStore.Env, c: Certs, path: seq<CertInfo>, transient: set<Bytes>) {
    forall x :: x in path && x.isCA && x.der != [] && x.der !in transient ==> PoolDER(env, c, x.der)
  }

  /** The CAs of a verified path that are not transient are in the pool once they are recorded. */
  lemma PathIsPooled(w: World, before: seq<Entry>, path: seq<CertInfo>, p: Path, transient: set<Bytes>)
    requires GoodWorld(w) && WellFormed(w, before + PathEntries(path, p, transient))
    ensures PathPooled(w.env, StateAfter(w.env, before + PathEntries(path, p, transient)), path, transient)
  {
    var log := before + PathEntries(path, p, transient);
    forall x | x in path && x.isCA && x.der != [] && x.der !in transient
      ensures PoolDER(w.env, StateAfter(w.env, log), x.der)
    {
      var k := EntryOfPath(path, p, transient, x);
      assert log[|before| + k] == OnPath(x.der, p);
      assert Marks(EventOf(log[|before| + k]), x.der);
      PoolIff(w, log, x.der);
    }
  }

  lemma {:induction false} EntryOfPath(path: seq<CertInfo>, p: Path, transient: set<Bytes>, c: CertInfo)
    returns (k: nat)
    requires c in path && c.isCA && c.der != [] && c.der !in transient
    ensures k < |PathEntries(path, p, transient)| && PathEntries(path, p, transient)[k] == OnPath(c.der, p)
  {
    var init, last := path[..|path| - 1], path[|path| - 1];
    assert path == init + [last];
    if c in init {
      k := EntryOfPath(init, p, transient, c);
    } else {
      k := |PathEntries(init, p, transient)|;
    }
  }

  /** Archived certificates have a row from then on. */
  lemma ArchivedHasRow(w: World, log: seq<Entry>, k: nat, der: Bytes)
    requires GoodWorld(w) && WellFormed(w, log) && k < |log|
    requires EventOf(log[k]).Archive? && EventOf(log[k]).der == der
    ensures HasRow(w.env, StateAfter(w.env, log), der)
  {
    assert Records(EventOf(log[k]), der);
    PoolIff(w, log, der);
  }
}
