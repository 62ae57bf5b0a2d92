/** What the sample runs share: a hash, and the table after a first start with one bundled root. */
module Samples {
  import opened Common
  import opened PKI
  import opened CertStore
  import opened Provenance
  import Chain
  import TrustBundle

  /** An injective stand-in for the hash: the octets themselves, none of them a letter. */
  function Hash(d: Bytes): (r: string)
    ensures |r| == |d| && forall i :: 0 <= i < |d| ==> r[i] == (d[i] as int + 0x100) as char
  {
    seq(|d|, i requires 0 <= i < |d| => (d[i] as int + 0x100) as char)
  }

  lemma HashIsInjective()
    ensures Injective(Hash) && forall d :: Upper(Hash(d)) == Hash(d)
  {
    forall a, b | Hash(a) == Hash(b) ensures a == b {
      forall i | 0 <= i < |a| ensures a[i] == b[i] { assert Hash(a)[i] == Hash(b)[i]; }
    }
  }

  /** The table holds the root, and nothing else is in the pool. */
  ghost predicate OnlyPooled(env: CertStore.Env, c: Certs, root: Bytes) {
    GoodTable(env, c) && PoolDER(env, c, root) && forall s :: s in c.rows && InPool(c.rows[s]) ==> s == env.sha(root)
  }

  /** After the first start with the root bundled, its row is all the table holds. */
  lemma Started(env: CertStore.Env, root: Bytes) returns (c: Certs)
    requires env.info(root).selfSigned
    ensures c == StateAfter(env, [Plain(TrustBundle.Restart([root], []))])
    ensures c == Certs(map[env.sha(root) := NewRow(env, root, true, true, TrustBundle.MOZILLA)], [env.sha(root)])
  {
    var start := Plain(TrustBundle.Restart([root], []));
    assert [start][..0] == [];
    c := TrustBundle.Applied(env, EMPTY, start.e);
    var imported := TrustBundle.ImportedBlocks(env, EMPTY, [root], TrustBundle.MOZILLA);
    assert [root][..0] == [];
    assert TrustBundle.ImportedBlocks(env, EMPTY, [], TrustBundle.MOZILLA) == EMPTY;
    assert env.info(root).selfSigned && [root][0] == root;
    assert imported == TrustBundle.ImportedBlock(env, EMPTY, root, TrustBundle.MOZILLA);
    assert imported == Insert(env, EMPTY, root, true, true, TrustBundle.MOZILLA);
    var bundled := TrustBundle.BundleImported(env, EMPTY, [root], TrustBundle.MOZILLA);
    assert bundled.rows == imported.rows;
    assert c == TrustBundle.BundleImported(env, bundled, [], TrustBundle.RU_GOV) == bundled;
  }

  lemma StartedPool(env: CertStore.Env, root: Bytes)
    requires GoodEnv(env)
    ensures
      var row := NewRow(env, root, true, true, TrustBundle.MOZILLA);
      OnlyPooled(env, Certs(map[env.sha(root) := row], [env.sha(root)]), root)
  {
  }

  lemma AtMostOne(s: seq<string>, x: string)
    requires Distinct(s) && forall i :: 0 <= i < |s| ==> s[i] == x
    ensures |s| <= 1
  {
    if |s| > 1 { FirstTwoDiffer(s); }
  }

  lemma FirstTwoDiffer(s: seq<string>)
    requires Distinct(s) && |s| > 1
    ensures s[0] != s[1]
  {
  }

  /** poolIssuers gives the root under its name, and nothing else under any. */
  lemma RootIsCandidate(env: CertStore.Env, c: Certs, root: Bytes)
    requires GoodEnv(env) && OnlyPooled(env, c, root) && env.info(root).subjectName != []
    ensures root in PoolDERs(c, env.info(root).subjectName)
    ensures forall name, d :: d in PoolDERs(c, name) ==> d == root
  {
    var s, name := env.sha(root), env.info(root).subjectName;
    RootRanked(env, c, root, "");
    IssuerKeysComplete(c, name, "", Chain.MAX_ALT_CANDIDATES, 0, s);
    var keys := IssuerKeys(c, name, "", Chain.MAX_ALT_CANDIDATES, 0);
    var i :| 0 <= i < |keys| && keys[i] == s;
    assert PoolDERs(c, name)[i] == root;
    forall name, d | d in PoolDERs(c, name) ensures d == root {
      PoolDERsArePooled(env, c, name);
      assert PoolDER(env, c, d);
    }
  }

  /** Under its name and key identifier the root is the one row found in the pool. */
  lemma RootRanked(env: CertStore.Env, c: Certs, root: Bytes, aki: string)
    requires GoodEnv(env) && OnlyPooled(env, c, root) && env.info(root).subjectName != []
    requires aki == "" || aki == env.info(root).ski
    ensures Matches(c.rows[env.sha(root)], env.info(root).subjectName, aki)
    ensures |PoolRanked(c, env.info(root).subjectName, aki)| <= 1
  {
    var s, name := env.sha(root), env.info(root).subjectName;
    assert GoodRow(env, s, c.rows[s]);
    PoolRankedDistinct(c, name, aki);
    var ranked := PoolRanked(c, name, aki);
    forall i | 0 <= i < |ranked| ensures ranked[i] == s { assert ranked[i] in ranked; }
    AtMostOne(ranked, s);
  }

  /** FindIssuers gives just the root, when no other certificate has its key identifier. */
  lemma OnlyRootMatches(env: CertStore.Env, c: Certs, root: Bytes)
    requires GoodEnv(env) && OnlyPooled(env, c, root) && env.info(root).subjectName != [] && env.info(root).ski != ""
    requires forall d :: env.info(d).ski == env.info(root).ski ==> d == root
    ensures
      var info := env.info(root);
      CandidatesOf(c, info.subjectName, info.ski, Chain.MAX_ALT_CANDIDATES, Chain.ARCHIVE_SAMPLE) ==
      [Candidate(root, true)]
  {
    OnlyRootKey(env, c, root);
  }

  lemma OnlyRootKey(env: CertStore.Env, c: Certs, root: Bytes)
    requires GoodEnv(env) && OnlyPooled(env, c, root) && env.info(root).subjectName != [] && env.info(root).ski != ""
    requires forall d :: env.info(d).ski == env.info(root).ski ==> d == root
    ensures
      var info := env.info(root);
      IssuerKeys(c, info.subjectName, info.ski, Chain.MAX_ALT_CANDIDATES, Chain.ARCHIVE_SAMPLE) == [env.sha(root)]
  {
    var s, info := env.sha(root), env.info(root);
    var keys := IssuerKeys(c, info.subjectName, info.ski, Chain.MAX_ALT_CANDIDATES, Chain.ARCHIVE_SAMPLE);
    RootRanked(env, c, root, info.ski);
    IssuerKeysComplete(c, info.subjectName, info.ski, Chain.MAX_ALT_CANDIDATES, Chain.ARCHIVE_SAMPLE, s);
    IssuerKeysAgree(c, info.subjectName, info.ski, Chain.MAX_ALT_CANDIDATES, Chain.ARCHIVE_SAMPLE);
    KeysAreRoot(env, c, root, keys);
  }

  lemma KeysAreRoot(env: CertStore.Env, c: Certs, root: Bytes, keys: seq<string>)
    requires GoodTable(env, c) && env.info(root).ski != "" && Distinct(keys) && env.sha(root) in keys
    requires forall d :: env.info(d).ski == env.info(root).ski ==> d == root
    requires forall k :: 0 <= k < |keys| ==>
      keys[k] in c.rows && Matches(c.rows[keys[k]], env.info(root).subjectName, env.info(root).ski)
    ensures keys == [env.sha(root)]
  {
    forall i | 0 <= i < |keys| ensures keys[i] == env.sha(root) { KeyIsRoot(env, c, root, keys[i]); }
    AtMostOne(keys, env.sha(root));
  }

  lemma KeyIsRoot(env: CertStore.Env, c: Certs, root: Bytes, key: string)
    requires GoodTable(env, c) && key in c.rows && env.info(root).ski != ""
    requires forall d :: env.info(d).ski == env.info(root).ski ==> d == root
    requires Matches(c.rows[key], env.info(root).subjectName, env.info(root).ski)
    ensures key == env.sha(root)
  {
    assert GoodRow(env, key, c.rows[key]);
  }

  // ---------------------------------------------------------------- archiving

  predicate ArchivesOnly(log: seq<Entry>) {
    forall x :: x in log ==> x.Plain? && x.e.Archive?
  }

  /** Archiving leaves the pool as it is. */
  lemma {:induction false} ArchivingKeepsPool(env: CertStore.Env, log: seq<Entry>, more: seq<Entry>, root: Bytes)
    requires GoodEnv(env) && OnlyPooled(env, StateAfter(env, log), root) && ArchivesOnly(more)
    ensures OnlyPooled(env, StateAfter(env, log + more), root)
  {
    if more == [] {
      assert log + more == log;
    } else {
      var k := |more| - 1;
      ArchivingKeepsPool(env, log, more[..k], root);
      assert log + more == log + more[..k] + [more[k]];
      StateAppend(env, log + more[..k], more[k]);
      assert more[k] in more;
      SavedKeepsPool(env, StateAfter(env, log + more[..k]), more[k].e.der, more[k].e.source, root);
    }
  }

  lemma SavedKeepsPool(env: CertStore.Env, c: Certs, der: Bytes, source: string, root: Bytes)
    requires GoodEnv(env) && OnlyPooled(env, c, root)
    ensures OnlyPooled(env, SavedCert(env, c, der, source), root)
  {
    SavedCertGood(env, c, der, source);
  }
}
