/**
 Importing the bundled roots (internal/trustbundle/trustbundle.go) and how trust
 evolves over restarts and the administrator's actions.
 */
module TrustBundle {
  import opened Common
  import opened CertStore

  const MOZILLA: string := "mozilla"
  const RU_GOV: string := "ru-gov"

  // ---------------------------------------------------------------- importing a bundle

  /** One parsed block: roots are imported, intermediates join the pool. */
  function ImportedBlock(env: Env, c: Certs, der: Bytes, source: string): Certs {
    if env.info(der).selfSigned then Imported(env, c, der, source) else SavedPool(env, c, der, source)
  }

  function ImportedBlocks(env: Env, c: Certs, ders: seq<Bytes>, source: string): Certs {
    if ders == [] then c
    else ImportedBlock(env, ImportedBlocks(env, c, ders[..|ders| - 1], source), ders[|ders| - 1], source)
  }

  function Roots(env: Env, ders: seq<Bytes>): seq<string> {
    if ders == [] then []
    else
      var last := ders[|ders| - 1];
      Roots(env, ders[..|ders| - 1]) + if env.info(last).selfSigned then [env.sha(last)] else []
  }

  /** importBundle; a bundle without roots withdraws nothing. */
  function BundleImported(env: Env, c: Certs, ders: seq<Bytes>, source: string): Certs {
    var c1 := ImportedBlocks(env, c, ders, source);
    if Roots(env, ders) == [] then c1 else Withdrawn(c1, source, Roots(env, ders))
  }

  /** ders are the bundle's parsed certificates. */
  method ImportBundle(st: Store, ders: seq<Bytes>, source: string)
    requires st.Valid()
    modifies st
    ensures st.Valid() && st.certs == BundleImported(st.env, old(st.certs), ders, source)
  {
    var roots: seq<string> := [];
    for i := 0 to |ders|
      invariant st.Valid()
      invariant roots == Roots(st.env, ders[..i])
      invariant st.certs == ImportedBlocks(st.env, old(st.certs), ders[..i], source)
    {
      assert ders[..i + 1][..i] == ders[..i];
      if st.env.info(ders[i]).selfSigned {
        roots := roots + [st.env.sha(ders[i])];
        var _ := st.ImportTrustedCert(ders[i], source);
      } else {
        st.SavePoolCert(ders[i], source);
      }
    }
    assert ders[..|ders|] == ders;
    if roots == [] { return; }
    st.WithdrawBundleRoots(source, roots);
  }

  method ImportDefaults(st: Store, mozilla: seq<Bytes>, ruGov: seq<Bytes>)
    requires st.Valid()
    modifies st
    ensures st.Valid() && st.certs == Applied(st.env, old(st.certs), Restart(mozilla, ruGov))
  {
    ImportBundle(st, mozilla, MOZILLA);
    ImportBundle(st, ruGov, RU_GOV);
  }

  // ---------------------------------------------------------------- trust over time

  /** What changes the certs table while the program is used and restarted. */
  datatype Event =
    | Restart(mozilla: seq<Bytes>, ruGov: seq<Bytes>)
    | Admin(sha: string, trusted: bool)
    | Archive(der: Bytes, source: string)   // SaveCert by an analysis or the administrator
    | Verified(der: Bytes)                  // SavePoolCert by an analysis

  function Applied(env: Env, c: Certs, e: Event): Certs {
    match e
    case Restart(m, g) => BundleImported(env, BundleImported(env, c, m, MOZILLA), g, RU_GOV)
    case Admin(s, t) => WithTrust(c, s, t)
    case Archive(der, source) => SavedCert(env, c, der, source)
    case Verified(der) => SavedPool(env, c, der, "")
  }

  /** A root as the trust automaton sees it: unknown, outside its bundle, or in it. */
  datatype Trust = Unknown | Outside(trusted: bool) | Bundled(trusted: bool)

  function TrustOf(c: Certs, s: string, bundle: string): Trust {
    if s !in c.rows then Unknown
    else if c.rows[s].source == bundle then Bundled(c.rows[s].trusted)
    else Outside(c.rows[s].trusted)
  }

  function Own(e: Event, bundle: string): seq<Bytes>
    requires e.Restart?
  {
    if bundle == MOZILLA then e.mozilla else e.ruGov
  }

  function Other(e: Event, bundle: string): seq<Bytes>
    requires e.Restart?
  {
    if bundle == MOZILLA then e.ruGov else e.mozilla
  }

  /** The automaton: appearing trusts, staying keeps, leaving untrusts, only the administrator changes the rest. */
  function Next(env: Env, root: Bytes, bundle: string, t: Trust, e: Event): Trust {
    match e
    case Restart(_, _) =>
      if root in Own(e, bundle) then (if t.Bundled? then t else Bundled(true))
      else if t.Bundled? && Roots(env, Own(e, bundle)) != [] then Outside(false)
      else t
    case Admin(s, trusted) =>
      if s != env.sha(root) then t
      else (match t case Unknown => Unknown case Outside(_) => Outside(trusted) case Bundled(_) => Bundled(trusted))
    case Archive(der, _) => if der == root && t.Unknown? then Outside(false) else t
    case Verified(der) => if der == root && t.Unknown? then Outside(false) else t
  }

  /** The root never appears in the other bundle, and no archived certificate is labelled like a bundle. */
  predicate Allowed(root: Bytes, bundle: string, e: Event) {
    match e
    case Restart(_, _) => root !in Other(e, bundle)
    case Archive(_, source) => source != MOZILLA && source != RU_GOV
    case _ => true
  }

  lemma {:induction false} RootsHave(env: Env, ders: seq<Bytes>, root: Bytes)
    requires GoodEnv(env) && env.info(root).selfSigned
    ensures env.sha(root) in Roots(env, ders) <==> root in ders
  {
    if ders != [] {
      RootsHave(env, ders[..|ders| - 1], root);
      assert ders == ders[..|ders| - 1] + [ders[|ders| - 1]];
    }
  }

  /** Importing a bundle's blocks: the root is trusted if it appears and was not imported from there. */
  lemma {:induction false} BlocksTrust(env: Env, c: Certs, ders: seq<Bytes>, source: string, root: Bytes)
    requires GoodEnv(env) && env.info(root).selfSigned && source != ""
    ensures
      var s, c1 := env.sha(root), ImportedBlocks(env, c, ders, source);
      && (root !in ders ==> (s in c1.rows <==> s in c.rows))
      && (root !in ders && s in c.rows ==>
            && c1.rows[s].source == c.rows[s].source && c1.rows[s].trusted == c.rows[s].trusted
            && c1.rows[s].selfSigned == c.rows[s].selfSigned)
      && (root in ders ==>
            && TrustOf(c1, s, source) ==
                 (if TrustOf(c, s, source).Bundled? then TrustOf(c, s, source) else Bundled(true))
            && (s in c.rows ==> c1.rows[s].selfSigned == c.rows[s].selfSigned)
            && (s !in c.rows ==> c1.rows[s].selfSigned))
  {
    if ders != [] {
      BlocksTrust(env, c, ders[..|ders| - 1], source, root);
      assert ders == ders[..|ders| - 1] + [ders[|ders| - 1]];
    }
  }

  /** A bundle changes the trust of a root of its own as the automaton says. */
  lemma OwnBundle(env: Env, c: Certs, ders: seq<Bytes>, source: string, root: Bytes)
    requires GoodEnv(env) && env.info(root).selfSigned && source != ""
    requires env.sha(root) in c.rows ==> c.rows[env.sha(root)].selfSigned
    ensures
      var t := TrustOf(c, env.sha(root), source);
      var t' := TrustOf(BundleImported(env, c, ders, source), env.sha(root), source);
      t' == if root in ders then (if t.Bundled? then t else Bundled(true))
            else if t.Bundled? && Roots(env, ders) != [] then Outside(false) else t
  {
    BlocksTrust(env, c, ders, source, root);
    RootsHave(env, ders, root);
    assert |Removed(source)| != |source|;
  }

  /** Another bundle, without the root, changes neither its source nor its trust. */
  lemma ForeignBundle(env: Env, c: Certs, ders: seq<Bytes>, source: string, root: Bytes, bundle: string)
    requires GoodEnv(env) && env.info(root).selfSigned && source != "" && root !in ders
    requires env.sha(root) in c.rows ==> c.rows[env.sha(root)].source != source
    ensures TrustOf(BundleImported(env, c, ders, source), env.sha(root), bundle) == TrustOf(c, env.sha(root), bundle)
    ensures
      var s, c' := env.sha(root), BundleImported(env, c, ders, source);
      s in c.rows ==>
        && s in c'.rows && c'.rows[s].source == c.rows[s].source && c'.rows[s].selfSigned == c.rows[s].selfSigned
  {
    BlocksTrust(env, c, ders, source, root);
  }

  /** What is true of the root's row when only its own bundle ever held it. */
  predicate RootRow(env: Env, c: Certs, root: Bytes, bundle: string) {
    var s := env.sha(root);
    s in c.rows ==> c.rows[s].selfSigned && c.rows[s].source != (if bundle == MOZILLA then RU_GOV else MOZILLA)
  }

  /** One event moves the root exactly as the automaton does. */
  lemma TrustFollowsAutomaton(env: Env, c: Certs, root: Bytes, bundle: string, e: Event)
    requires GoodEnv(env) && env.info(root).selfSigned && (bundle == MOZILLA || bundle == RU_GOV)
    requires RootRow(env, c, root, bundle) && Allowed(root, bundle, e)
    ensures TrustOf(Applied(env, c, e), env.sha(root), bundle) ==
      Next(env, root, bundle, TrustOf(c, env.sha(root), bundle), e)
    ensures RootRow(env, Applied(env, c, e), root, bundle)
  {
    assert MOZILLA[0] != RU_GOV[0] && |MOZILLA| == 7 && |RU_GOV| == 6;
    if e.Restart? {
      var c1 := BundleImported(env, c, e.mozilla, MOZILLA);
      if bundle == MOZILLA {
        OwnBundle(env, c, e.mozilla, MOZILLA, root);
        OwnRow(env, c, e.mozilla, MOZILLA, root);
        ForeignBundle(env, c1, e.ruGov, RU_GOV, root, MOZILLA);
        ForeignBundleKnows(env, c1, e.ruGov, RU_GOV, root);
      } else {
        ForeignBundle(env, c, e.mozilla, MOZILLA, root, RU_GOV);
        ForeignBundleKnows(env, c, e.mozilla, MOZILLA, root);
        OwnBundle(env, c1, e.ruGov, RU_GOV, root);
        OwnRow(env, c1, e.ruGov, RU_GOV, root);
      }
    }
  }

  lemma ForeignBundleKnows(env: Env, c: Certs, ders: seq<Bytes>, source: string, root: Bytes)
    requires GoodEnv(env) && env.info(root).selfSigned && source != "" && root !in ders
    ensures env.sha(root) in BundleImported(env, c, ders, source).rows <==> env.sha(root) in c.rows
  {
    BlocksTrust(env, c, ders, source, root);
  }

  /** After its own bundle the root's source is the bundle, its removed label, or what it was. */
  lemma OwnRow(env: Env, c: Certs, ders: seq<Bytes>, source: string, root: Bytes)
    requires GoodEnv(env) && env.info(root).selfSigned && source != ""
    requires env.sha(root) in c.rows ==> c.rows[env.sha(root)].selfSigned
    ensures
      var s, c' := env.sha(root), BundleImported(env, c, ders, source);
      s in c'.rows ==>
        && c'.rows[s].selfSigned
        && (|| c'.rows[s].source == source || c'.rows[s].source == Removed(source)
            || (s in c.rows && c'.rows[s].source == c.rows[s].source))
  {
    BlocksTrust(env, c, ders, source, root);
  }

  function AppliedAll(env: Env, c: Certs, events: seq<Event>): Certs {
    if events == [] then c else Applied(env, AppliedAll(env, c, events[..|events| - 1]), events[|events| - 1])
  }

  function NextAll(env: Env, root: Bytes, bundle: string, t: Trust, events: seq<Event>): Trust {
    if events == [] then t
    else Next(env, root, bundle, NextAll(env, root, bundle, t, events[..|events| - 1]), events[|events| - 1])
  }

  /** Over any run from an empty database, the root's trust is the automaton's. */
  lemma {:induction false} TrustOverTime(env: Env, root: Bytes, bundle: string, events: seq<Event>)
    requires GoodEnv(env) && env.info(root).selfSigned && (bundle == MOZILLA || bundle == RU_GOV)
    requires forall i :: 0 <= i < |events| ==> Allowed(root, bundle, events[i])
    ensures TrustOf(AppliedAll(env, EMPTY, events), env.sha(root), bundle) ==
      NextAll(env, root, bundle, Unknown, events)
    ensures RootRow(env, AppliedAll(env, EMPTY, events), root, bundle)
  {
    if events != [] {
      var k := |events| - 1;
      TrustOverTime(env, root, bundle, events[..k]);
      TrustFollowsAutomaton(env, AppliedAll(env, EMPTY, events[..k]), root, bundle, events[k]);
    }
  }

  /**
   "An admin's untrust of a bundled root survives restarts" holds exactly when
   the root is in at most one bundle, and not newly in that one: a root in both
   bundles is trusted again at every start.
   */
  lemma UntrustSurvivesIff(env: Env, c: Certs, root: Bytes, m: seq<Bytes>, g: seq<Bytes>)
    requires GoodEnv(env) && env.info(root).selfSigned
    requires env.sha(root) in c.rows && c.rows[env.sha(root)].selfSigned && !c.rows[env.sha(root)].trusted
    ensures
      var s := env.sha(root);
      !IsTrusted(Applied(env, c, Restart(m, g)), s) <==>
        && !(root in m && root in g)
        && (root in m ==> c.rows[s].source == MOZILLA)
        && (root in g ==> c.rows[s].source == RU_GOV)
  {
    assert MOZILLA[0] != RU_GOV[0] && Removed(MOZILLA)[0] == 'm' && Removed(RU_GOV)[0] == 'r';
    var s, c1 := env.sha(root), BundleImported(env, c, m, MOZILLA);
    OwnBundle(env, c, m, MOZILLA, root);
    OwnRow(env, c, m, MOZILLA, root);
    if root !in m && c.rows[s].source != MOZILLA { ForeignBundle(env, c, m, MOZILLA, root, RU_GOV); }
    OwnBundle(env, c1, g, RU_GOV, root);
  }

  /** Leaving its bundle untrusts a root exactly when the bundle still holds some root. */
  lemma DroppedIsUntrustedIff(env: Env, c: Certs, root: Bytes, bundle: string, e: Event)
    requires GoodEnv(env) && env.info(root).selfSigned && (bundle == MOZILLA || bundle == RU_GOV)
    requires RootRow(env, c, root, bundle) && e.Restart? && Allowed(root, bundle, e)
    requires TrustOf(c, env.sha(root), bundle) == Bundled(true) && root !in Own(e, bundle)
    ensures !IsTrusted(Applied(env, c, e), env.sha(root)) <==> Roots(env, Own(e, bundle)) != []
  {
    TrustFollowsAutomaton(env, c, root, bundle, e);
  }

  /** The administrator untrusts a root that both bundles hold; the next start trusts it again. */
  lemma UntrustIsUndone(env: Env, root: Bytes)
    requires GoodEnv(env) && env.info(root).selfSigned
    ensures
      var start, untrust := Restart([root], [root]), Admin(env.sha(root), false);
      && !IsTrusted(AppliedAll(env, EMPTY, [start, untrust]), env.sha(root))
      && IsTrusted(AppliedAll(env, EMPTY, [start, untrust, start]), env.sha(root))
  {
    var s, start, untrust := env.sha(root), Restart([root], [root]), Admin(env.sha(root), false);
    var c1 := Applied(env, EMPTY, start);
    var c2 := Applied(env, c1, untrust);
    assert [start][..0] == [] && [start, untrust][..1] == [start] && [start, untrust, start][..2] == [start, untrust];
    assert AppliedAll(env, EMPTY, [start]) == c1;
    assert AppliedAll(env, EMPTY, [start, untrust]) == c2;
    BothBundles(env, EMPTY, root);
    assert c2 == WithTrust(c1, s, false);
    UntrustSurvivesIff(env, c2, root, [root], [root]);
  }

  lemma BothBundles(env: Env, c: Certs, root: Bytes)
    requires GoodEnv(env) && env.info(root).selfSigned && env.sha(root) !in c.rows
    ensures
      var c' := Applied(env, c, Restart([root], [root]));
      env.sha(root) in c'.rows && c'.rows[env.sha(root)].selfSigned
  {
    var c1 := BundleImported(env, c, [root], MOZILLA);
    OwnBundle(env, c, [root], MOZILLA, root);
    OwnRow(env, c, [root], MOZILLA, root);
    OwnBundle(env, c1, [root], RU_GOV, root);
    OwnRow(env, c1, [root], RU_GOV, root);
  }

  /** A root trusted from a bundle stays trusted when the bundle comes back empty. */
  lemma EmptyBundleWithdrawsNothing(env: Env, root: Bytes)
    requires GoodEnv(env) && env.info(root).selfSigned
    ensures IsTrusted(AppliedAll(env, EMPTY, [Restart([root], []), Restart([], [])]), env.sha(root))
  {
    var events := [Restart([root], []), Restart([], [])];
    TrustOverTime(env, root, MOZILLA, events);
    assert events[..1] == [Restart([root], [])] && events[..1][..0] == [];
    assert NextAll(env, root, MOZILLA, Unknown, events[..1]) == Bundled(true);
    assert NextAll(env, root, MOZILLA, Unknown, events) == Bundled(true);
  }
}
