/**
 The certs table of internal/store/store.go: what is archived, what is a
 candidate issuer (the pool), and what is trusted. A certificate is its SHA-256.
 */
module CertStore {
  import opened Common
  import opened PKI

  /** The hash and the parser: ParseCertInfo is a function of the DER. */
  datatype Env = Env(sha: Bytes -> string, info: Bytes -> CertInfo)

  ghost predicate GoodEnv(env: Env) {
    Injective(env.sha) && forall d :: env.info(d).der == d && Upper(env.sha(d)) == env.sha(d)
  }

  datatype Row = Row(der: Bytes, name: Bytes, ski: string, selfSigned: bool, trusted: bool, pool: bool, source: string)

  /** rows is keyed by the unique column sha256; order lists the keys by id. */
  datatype Certs = Certs(rows: map<string, Row>, order: seq<string>)

  const EMPTY: Certs := Certs(map[], [])

  ghost predicate GoodTable(env: Env, c: Certs) {
    && Distinct(c.order)
    && (forall s :: s in c.order <==> s in c.rows)
    && forall s :: s in c.rows ==> GoodRow(env, s, c.rows[s])
  }

  predicate GoodRow(env: Env, s: string, r: Row) {
    var info := env.info(r.der);
    env.sha(r.der) == s && r.name == info.subjectName && r.ski == info.ski && r.selfSigned == info.selfSigned
  }

  // ---------------------------------------------------------------- statements

  function NewRow(env: Env, der: Bytes, trusted: bool, pool: bool, source: string): Row {
    var info := env.info(der);
    Row(der, info.subjectName, info.ski, info.selfSigned, trusted, pool, source)
  }

  function Insert(env: Env, c: Certs, der: Bytes, trusted: bool, pool: bool, source: string): Certs {
    Certs(c.rows[env.sha(der) := NewRow(env, der, trusted, pool, source)], c.order + [env.sha(der)])
  }

  /** INSERT OR IGNORE. */
  function SavedCert(env: Env, c: Certs, der: Bytes, source: string): Certs {
    if env.sha(der) in c.rows then c else Insert(env, c, der, false, false, source)
  }

  /** INSERT ... ON CONFLICT DO UPDATE SET pool = 1. */
  function SavedPool(env: Env, c: Certs, der: Bytes, source: string): Certs {
    var s := env.sha(der);
    if s in c.rows then c.(rows := c.rows[s := c.rows[s].(pool := true)]) else Insert(env, c, der, false, true, source)
  }

  /** Trusts a bundled certificate unless its row is already from that source. */
  function Imported(env: Env, c: Certs, der: Bytes, source: string): Certs {
    var s := env.sha(der);
    if s !in c.rows then Insert(env, c, der, true, true, source)
    else if c.rows[s].source == source then c.(rows := c.rows[s := c.rows[s].(pool := true)])
    else c.(rows := c.rows[s := c.rows[s].(pool := true, trusted := true, source := source)])
  }

  predicate Withdraws(r: Row, s: string, source: string, keep: seq<string>) {
    r.source == source && r.selfSigned && s !in keep
  }

  function Removed(source: string): string {
    source + ":removed"
  }

  function Withdrawn(c: Certs, source: string, keep: seq<string>): Certs {
    c.(rows := map s | s in c.rows :: WithdrawnRow(c.rows[s], s, source, keep))
  }

  function WithdrawnRow(r: Row, s: string, source: string, keep: seq<string>): Row {
    if Withdraws(r, s, source, keep) then r.(trusted := false, source := Removed(source)) else r
  }

  function WithTrust(c: Certs, s: string, trusted: bool): Certs {
    if s in c.rows then c.(rows := c.rows[s := c.rows[s].(trusted := trusted)]) else c
  }

  predicate IsTrusted(c: Certs, s: string) {
    s in c.rows && c.rows[s].trusted
  }

  // ---------------------------------------------------------------- candidate issuers

  datatype Candidate = Candidate(der: Bytes, pool: bool)

  predicate InPool(r: Row) {
    r.trusted || r.pool
  }

  /** A certificate without a name has the empty one here, NULL in the table: it matches nothing. */
  predicate Matches(r: Row, name: Bytes, aki: string) {
    name != [] && r.name == name && (aki == "" || r.ski == aki)
  }

  function Select(c: Certs, keys: seq<string>, p: Row -> bool): (r: seq<string>)
    ensures forall s :: s in r ==> s in keys && s in c.rows && p(c.rows[s])
    ensures forall s :: s in keys && s in c.rows && p(c.rows[s]) ==> s in r
  {
    if keys == [] then []
    else
      var last := keys[|keys| - 1];
      Select(c, keys[..|keys| - 1], p) + if last in c.rows && p(c.rows[last]) then [last] else []
  }

  lemma {:induction false} SelectDistinct(c: Certs, keys: seq<string>, p: Row -> bool)
    requires Distinct(keys)
    ensures Distinct(Select(c, keys, p))
  {
    if keys != [] { SelectDistinct(c, keys[..|keys| - 1], p); }
  }

  /** Pool matches: self-signed first, then trusted, then by id. */
  function PoolRanked(c: Certs, name: Bytes, aki: string): seq<string> {
    PoolClass(c, name, aki, true, true) + PoolClass(c, name, aki, true, false)
    + PoolClass(c, name, aki, false, true) + PoolClass(c, name, aki, false, false)
  }

  function PoolClass(c: Certs, name: Bytes, aki: string, selfSigned: bool, trusted: bool): seq<string> {
    Select(c, c.order, r => Matches(r, name, aki) && InPool(r) && r.selfSigned == selfSigned && r.trusted == trusted)
  }

  /** Archived matches outside the pool, by id. */
  function ArchivedKeys(c: Certs, name: Bytes, aki: string): seq<string> {
    Select(c, c.order, r => Matches(r, name, aki) && !InPool(r))
  }

  function Take(s: seq<string>, n: nat): seq<string> {
    if |s| <= n then s else s[..n]
  }

  function Reversed(s: seq<string>): (r: seq<string>)
    ensures |r| == |s| && forall i :: 0 <= i < |s| ==> r[i] == s[|s| - 1 - i]
  {
    if s == [] then [] else [s[|s| - 1]] + Reversed(s[..|s| - 1])
  }

  lemma PoolRankedDistinct(c: Certs, name: Bytes, aki: string)
    requires Distinct(c.order)
    ensures Distinct(PoolRanked(c, name, aki))
    ensures forall s :: s in PoolRanked(c, name, aki) <==>
      s in c.order && s in c.rows && Matches(c.rows[s], name, aki) && InPool(c.rows[s])
  {
    SelectDistinct(c, c.order, r => Matches(r, name, aki) && InPool(r) && r.selfSigned == true && r.trusted == true);
    SelectDistinct(c, c.order, r => Matches(r, name, aki) && InPool(r) && r.selfSigned == true && r.trusted == false);
    SelectDistinct(c, c.order, r => Matches(r, name, aki) && InPool(r) && r.selfSigned == false && r.trusted == true);
    SelectDistinct(c, c.order, r => Matches(r, name, aki) && InPool(r) && r.selfSigned == false && r.trusted == false);
    var a, b := PoolClass(c, name, aki, true, true), PoolClass(c, name, aki, true, false);
    var d, e := PoolClass(c, name, aki, false, true), PoolClass(c, name, aki, false, false);
    AppendDistinct(a, b);
    AppendDistinct(a + b, d);
    AppendDistinct(a + b + d, e);
  }

  lemma AppendDistinct(a: seq<string>, b: seq<string>)
    requires Distinct(a) && Distinct(b) && forall s :: s in a ==> s !in b
    ensures Distinct(a + b)
  {
    forall i, j | 0 <= i < j < |a + b| ensures (a + b)[i] != (a + b)[j] {
      if i < |a| <= j { assert a[i] in a; }
    }
  }

  /** The oldest and the newest n of at most 2n archived matches are all of them. */
  lemma BothEndsCover(s: seq<string>, n: nat, x: string)
    requires |s| <= 2 * n && x in s
    ensures x in Take(s, n) || x in Take(Reversed(s), n)
  {
    var i :| 0 <= i < |s| && s[i] == x;
    if i < n {
      assert x == Take(s, n)[i];
    } else {
      assert x == Reversed(s)[|s| - 1 - i] == Take(Reversed(s), n)[|s| - 1 - i];
    }
  }

  /** The rows of the query: pool matches, then the oldest and the newest archived ones. */
  function QueryRows(c: Certs, name: Bytes, aki: string, pool: nat, archive: nat): seq<string> {
    Take(PoolRanked(c, name, aki), pool)
    + Take(ArchivedKeys(c, name, aki), archive) + Take(Reversed(ArchivedKeys(c, name, aki)), archive)
  }

  /** The first occurrence of each element. */
  function Dedup(s: seq<string>): seq<string> {
    if s == [] then []
    else
      var d, last := Dedup(s[..|s| - 1]), s[|s| - 1];
      if last in d then d else d + [last]
  }

  lemma {:induction false} DedupKeepsElements(s: seq<string>)
    ensures Distinct(Dedup(s)) && |Dedup(s)| <= |s|
    ensures forall x :: x in Dedup(s) <==> x in s
  {
    if s != [] {
      DedupKeepsElements(s[..|s| - 1]);
      assert s == s[..|s| - 1] + [s[|s| - 1]];
    }
  }

  lemma {:induction false} DedupKeepsPrefix(a: seq<string>, b: seq<string>)
    requires Distinct(a)
    ensures |a| <= |Dedup(a + b)| && Dedup(a + b)[..|a|] == a
    ensures forall k :: |a| <= k < |Dedup(a + b)| ==> Dedup(a + b)[k] in b
  {
    if b != [] {
      assert (a + b)[..|a + b| - 1] == a + b[..|b| - 1];
      DedupKeepsPrefix(a, b[..|b| - 1]);
      assert b == b[..|b| - 1] + [b[|b| - 1]];
    } else {
      assert a + b == a;
      DedupOfDistinct(a);
    }
  }

  lemma {:induction false} DedupOfDistinct(a: seq<string>)
    requires Distinct(a)
    ensures Dedup(a) == a
  {
    if a != [] {
      DedupOfDistinct(a[..|a| - 1]);
      assert a == a[..|a| - 1] + [a[|a| - 1]];
    }
  }

  lemma QueryRowsExist(c: Certs, name: Bytes, aki: string, pool: nat, archive: nat)
    ensures forall s :: s in QueryRows(c, name, aki, pool, archive) ==> s in c.rows
  {
    forall s | s in QueryRows(c, name, aki, pool, archive) ensures s in c.rows {
      if s in Take(PoolRanked(c, name, aki), pool) {
        RankedExists(c, name, aki, s);
      } else {
        assert s in ArchivedKeys(c, name, aki);
      }
    }
  }

  lemma RankedExists(c: Certs, name: Bytes, aki: string, s: string)
    requires s in PoolRanked(c, name, aki)
    ensures s in c.rows
  {
  }

  function IssuerKeys(c: Certs, name: Bytes, aki: string, pool: nat, archive: nat): seq<string> {
    Dedup(QueryRows(c, name, aki, pool, archive))
  }

  function ArchiveRows(c: Certs, name: Bytes, aki: string, archive: nat): seq<string> {
    Take(ArchivedKeys(c, name, aki), archive) + Take(Reversed(ArchivedKeys(c, name, aki)), archive)
  }

  /** The query's archived rows are archived matches: all of them when twice the limit suffices. */
  lemma ArchiveRowsAgree(c: Certs, name: Bytes, aki: string, archive: nat)
    requires forall s :: s in c.order <==> s in c.rows
    ensures |ArchiveRows(c, name, aki, archive)| <= 2 * archive
    ensures forall s :: s in ArchiveRows(c, name, aki, archive) ==>
      s in c.rows && Matches(c.rows[s], name, aki) && !InPool(c.rows[s])
    ensures |ArchivedKeys(c, name, aki)| <= 2 * archive ==>
      forall s :: s in c.rows && Matches(c.rows[s], name, aki) && !InPool(c.rows[s]) ==>
        s in ArchiveRows(c, name, aki, archive)
  {
    var archived := ArchivedKeys(c, name, aki);
    forall s | s in archived && |archived| <= 2 * archive ensures s in ArchiveRows(c, name, aki, archive) {
      BothEndsCover(archived, archive, s);
    }
    forall s | s in ArchiveRows(c, name, aki, archive) ensures s in archived {}
  }

  lemma QueryIsPoolThenArchive(c: Certs, name: Bytes, aki: string, pool: nat, archive: nat)
    ensures QueryRows(c, name, aki, pool, archive) ==
      Take(PoolRanked(c, name, aki), pool) + ArchiveRows(c, name, aki, archive)
  {
  }

  /**
   FindIssuers agrees with the plain filter: matches only, none twice, pool
   matches (ranked) before archived ones, within the limits.
   */
  lemma IssuerKeysAgree(c: Certs, name: Bytes, aki: string, pool: nat, archive: nat)
    requires Distinct(c.order) && forall s :: s in c.order <==> s in c.rows
    ensures
      var keys := IssuerKeys(c, name, aki, pool, archive);
      var ranked := Take(PoolRanked(c, name, aki), pool);
      && Distinct(keys) && |keys| <= pool + 2 * archive
      && |ranked| <= |keys| && keys[..|ranked|] == ranked
      && (forall k :: 0 <= k < |keys| ==>
            keys[k] in c.rows && Matches(c.rows[keys[k]], name, aki) && (InPool(c.rows[keys[k]]) <==> k < |ranked|))
  {
    var keys := IssuerKeys(c, name, aki, pool, archive);
    var ranked := Take(PoolRanked(c, name, aki), pool);
    var rest := ArchiveRows(c, name, aki, archive);
    QueryIsPoolThenArchive(c, name, aki, pool, archive);
    PoolRankedDistinct(c, name, aki);
    ArchiveRowsAgree(c, name, aki, archive);
    DedupKeepsElements(ranked + rest);
    DedupKeepsPrefix(ranked, rest);
    forall k | 0 <= k < |keys|
      ensures keys[k] in c.rows && Matches(c.rows[keys[k]], name, aki) && (InPool(c.rows[keys[k]]) <==> k < |ranked|)
    {
      if k < |ranked| { assert keys[k] == keys[..|ranked|][k] && ranked[k] in PoolRanked(c, name, aki); }
    }
  }

  /** All pool matches when they fit the limit, all archived ones when they fit twice theirs. */
  lemma IssuerKeysComplete(c: Certs, name: Bytes, aki: string, pool: nat, archive: nat, s: string)
    requires Distinct(c.order) && forall s :: s in c.order <==> s in c.rows
    requires s in c.rows && Matches(c.rows[s], name, aki)
    requires InPool(c.rows[s]) ==> |PoolRanked(c, name, aki)| <= pool
    requires !InPool(c.rows[s]) ==> |ArchivedKeys(c, name, aki)| <= 2 * archive
    ensures s in IssuerKeys(c, name, aki, pool, archive)
  {
    QueryIsPoolThenArchive(c, name, aki, pool, archive);
    PoolRankedDistinct(c, name, aki);
    ArchiveRowsAgree(c, name, aki, archive);
    DedupKeepsElements(QueryRows(c, name, aki, pool, archive));
  }

  // ---------------------------------------------------------------- the order of candidates

  /** a was inserted before b. */
  ghost predicate Earlier(order: seq<string>, a: string, b: string) {
    exists x, y :: 0 <= x < y < |order| && order[x] == a && order[y] == b
  }

  /** Self-signed before others, then trusted before untrusted. */
  function Rank(r: Row): nat {
    (if r.selfSigned then 0 else 2) + if r.trusted then 0 else 1
  }

  /** ORDER BY is_self_signed DESC, trusted DESC, id. */
  ghost predicate Outranks(c: Certs, a: string, b: string) {
    && a in c.rows && b in c.rows
    && (Rank(c.rows[a]) < Rank(c.rows[b]) || (Rank(c.rows[a]) == Rank(c.rows[b]) && Earlier(c.order, a, b)))
  }

  lemma EarlierGrows(order: seq<string>, last: string, a: string, b: string)
    ensures Earlier(order, a, b) ==> Earlier(order + [last], a, b)
    ensures a in order && b == last ==> Earlier(order + [last], a, b)
  {
    if x, y :| 0 <= x < y < |order| && order[x] == a && order[y] == b {
      assert (order + [last])[x] == a && (order + [last])[y] == b;
    }
    if a in order && b == last {
      var x :| 0 <= x < |order| && order[x] == a;
      assert (order + [last])[x] == a && (order + [last])[|order|] == b;
    }
  }

  lemma {:induction false} SelectOrdered(c: Certs, keys: seq<string>, p: Row -> bool, i: nat, j: nat)
    requires i < j < |Select(c, keys, p)|
    ensures Earlier(keys, Select(c, keys, p)[i], Select(c, keys, p)[j])
  {
    var init, last := keys[..|keys| - 1], keys[|keys| - 1];
    assert keys == init + [last];
    var a, b := Select(c, keys, p)[i], Select(c, keys, p)[j];
    EarlierGrows(init, last, a, b);
    if j < |Select(c, init, p)| {
      SelectOrdered(c, init, p, i, j);
    } else {
      assert a == Select(c, init, p)[i] && a in Select(c, init, p);
    }
  }

  lemma ClassOrdered(c: Certs, name: Bytes, aki: string, selfSigned: bool, trusted: bool, i: nat, j: nat)
    requires i < j < |PoolClass(c, name, aki, selfSigned, trusted)|
    ensures
      var own := PoolClass(c, name, aki, selfSigned, trusted);
      Earlier(c.order, own[i], own[j])
  {
    SelectOrdered(c, c.order,
      r => Matches(r, name, aki) && InPool(r) && r.selfSigned == selfSigned && r.trusted == trusted, i, j);
  }

  /** The class of the i-th ranked match, and its place in it. */
  lemma ClassOf(c: Certs, name: Bytes, aki: string, i: nat) returns (selfSigned: bool, trusted: bool, k: nat)
    requires i < |PoolRanked(c, name, aki)|
    ensures
      var own := PoolClass(c, name, aki, selfSigned, trusted);
      var row := PoolRanked(c, name, aki)[i];
      k < |own| && own[k] == row && row in c.rows && c.rows[row].selfSigned == selfSigned
      && c.rows[row].trusted == trusted && i == ClassStart(c, name, aki, selfSigned, trusted) + k
  {
    var a, b := PoolClass(c, name, aki, true, true), PoolClass(c, name, aki, true, false);
    var d := PoolClass(c, name, aki, false, true);
    if i < |a| { selfSigned, trusted, k := true, true, i; }
    else if i < |a| + |b| { selfSigned, trusted, k := true, false, i - |a|; }
    else if i < |a| + |b| + |d| { selfSigned, trusted, k := false, true, i - |a| - |b|; }
    else { selfSigned, trusted, k := false, false, i - |a| - |b| - |d|; }
    var own := PoolClass(c, name, aki, selfSigned, trusted);
    assert own[k] in own;
  }

  function ClassStart(c: Certs, name: Bytes, aki: string, selfSigned: bool, trusted: bool): nat {
    (if selfSigned && trusted then 0 else |PoolClass(c, name, aki, true, true)|)
    + (if selfSigned then 0 else |PoolClass(c, name, aki, true, false)|)
    + (if selfSigned || trusted then 0 else |PoolClass(c, name, aki, false, true)|)
  }

  /** The pool matches are ranked as the query orders them. */
  lemma RankedInOrder(c: Certs, name: Bytes, aki: string, i: nat, j: nat)
    requires i < j < |PoolRanked(c, name, aki)|
    ensures Outranks(c, PoolRanked(c, name, aki)[i], PoolRanked(c, name, aki)[j])
  {
    var s, t, k := ClassOf(c, name, aki, i);
    var s', t', l := ClassOf(c, name, aki, j);
    if s == s' && t == t' { ClassOrdered(c, name, aki, s, t, k, l); }
  }

  /**
   Which candidates are given: pool matches in their order, and one left out is
   outranked by all that are given, as many as the limit; of the archived ones
   the oldest and the newest.
   */
  lemma FindIssuersOrder(c: Certs, name: Bytes, aki: string, pool: nat, archive: nat)
    requires Distinct(c.order) && forall s :: s in c.order <==> s in c.rows
    ensures
      var keys := IssuerKeys(c, name, aki, pool, archive);
      forall i, j :: 0 <= i < j < |keys| && keys[j] in c.rows && InPool(c.rows[keys[j]]) ==>
        Outranks(c, keys[i], keys[j])
    ensures
      var keys := IssuerKeys(c, name, aki, pool, archive);
      forall s :: s in c.rows && Matches(c.rows[s], name, aki) && InPool(c.rows[s]) && s !in keys ==>
        pool <= |keys| && forall i :: 0 <= i < pool ==> Outranks(c, keys[i], s)
    ensures
      var keys, archived := IssuerKeys(c, name, aki, pool, archive), ArchivedKeys(c, name, aki);
      forall i :: 0 <= i < |archived| ==> (archived[i] in keys <==> i < archive || i >= |archived| - archive)
  {
    var keys := IssuerKeys(c, name, aki, pool, archive);
    forall i, j | 0 <= i < j < |keys| && keys[j] in c.rows && InPool(c.rows[keys[j]])
      ensures Outranks(c, keys[i], keys[j])
    {
      GivenInOrder(c, name, aki, pool, archive, i, j);
    }
    forall s | s in c.rows && Matches(c.rows[s], name, aki) && InPool(c.rows[s]) && s !in keys
      ensures pool <= |keys| && forall i :: 0 <= i < pool ==> Outranks(c, keys[i], s)
    {
      PoolRankedDistinct(c, name, aki);
      LeftOut(c, name, aki, pool, archive, s);
    }
    forall i | 0 <= i < |ArchivedKeys(c, name, aki)|
      ensures ArchivedKeys(c, name, aki)[i] in keys <==> i < archive || i >= |ArchivedKeys(c, name, aki)| - archive
    {
      ArchivedGiven(c, name, aki, pool, archive, i);
    }
  }

  lemma GivenInOrder(c: Certs, name: Bytes, aki: string, pool: nat, archive: nat, i: nat, j: nat)
    requires Distinct(c.order) && forall s :: s in c.order <==> s in c.rows
    requires i < j < |IssuerKeys(c, name, aki, pool, archive)|
    requires
      var key := IssuerKeys(c, name, aki, pool, archive)[j];
      key in c.rows && InPool(c.rows[key])
    ensures
      var keys := IssuerKeys(c, name, aki, pool, archive);
      Outranks(c, keys[i], keys[j])
  {
    IssuerKeysAgree(c, name, aki, pool, archive);
    KeyAt(c, name, aki, pool, archive, i);
    KeyAt(c, name, aki, pool, archive, j);
    RankedInOrder(c, name, aki, i, j);
  }

  lemma LeftOut(c: Certs, name: Bytes, aki: string, pool: nat, archive: nat, s: string)
    requires Distinct(c.order) && forall s :: s in c.order <==> s in c.rows
    requires s in PoolRanked(c, name, aki) && s !in IssuerKeys(c, name, aki, pool, archive)
    ensures
      var keys := IssuerKeys(c, name, aki, pool, archive);
      pool <= |keys| && forall i :: 0 <= i < pool ==> Outranks(c, keys[i], s)
  {
    var keys, ranked := IssuerKeys(c, name, aki, pool, archive), PoolRanked(c, name, aki);
    var j :| 0 <= j < |ranked| && ranked[j] == s;
    TakenOf(ranked, pool, j);
    if s in Take(ranked, pool) { TakenGiven(c, name, aki, pool, archive, s); }
    forall i | 0 <= i < pool ensures i < |keys| && Outranks(c, keys[i], s) {
      KeyAt(c, name, aki, pool, archive, i);
      RankedInOrder(c, name, aki, i, j);
    }
    if pool > 0 { KeyAt(c, name, aki, pool, archive, pool - 1); }
  }

  lemma KeyAt(c: Certs, name: Bytes, aki: string, pool: nat, archive: nat, i: nat)
    requires Distinct(c.order) && forall s :: s in c.order <==> s in c.rows
    requires i < |PoolRanked(c, name, aki)| && i < pool
    ensures i < |IssuerKeys(c, name, aki, pool, archive)|
    ensures IssuerKeys(c, name, aki, pool, archive)[i] == PoolRanked(c, name, aki)[i]
  {
    var keys, taken := IssuerKeys(c, name, aki, pool, archive), Take(PoolRanked(c, name, aki), pool);
    IssuerKeysAgree(c, name, aki, pool, archive);
    assert i < |taken| && keys[i] == keys[..|taken|][i];
  }

  lemma TakenGiven(c: Certs, name: Bytes, aki: string, pool: nat, archive: nat, s: string)
    requires s in Take(PoolRanked(c, name, aki), pool)
    ensures s in IssuerKeys(c, name, aki, pool, archive)
  {
    DedupKeepsElements(QueryRows(c, name, aki, pool, archive));
  }

  lemma ArchivedGiven(c: Certs, name: Bytes, aki: string, pool: nat, archive: nat, i: nat)
    requires Distinct(c.order) && i < |ArchivedKeys(c, name, aki)|
    ensures
      var archived := ArchivedKeys(c, name, aki);
      archived[i] in IssuerKeys(c, name, aki, pool, archive) <==> i < archive || i >= |archived| - archive
  {
    var archived, x := ArchivedKeys(c, name, aki), ArchivedKeys(c, name, aki)[i];
    DedupKeepsElements(QueryRows(c, name, aki, pool, archive));
    PoolRankedDistinct(c, name, aki);
    SelectDistinct(c, c.order, r => Matches(r, name, aki) && !InPool(r));
    assert x in archived;
    TakenOf(archived, archive, i);
    TakenOf(Reversed(archived), archive, |archived| - 1 - i);
    ReversedDistinct(archived);
    assert Reversed(archived)[|archived| - 1 - i] == x;
    assert x !in PoolRanked(c, name, aki);
  }

  lemma ReversedDistinct(s: seq<string>)
    requires Distinct(s)
    ensures Distinct(Reversed(s))
  {
  }

  lemma TakenOf(s: seq<string>, n: nat, i: nat)
    requires i < |s|
    ensures i < n ==> s[i] in Take(s, n)
    ensures Distinct(s) && s[i] in Take(s, n) ==> i < n
  {
    if i < n { assert Take(s, n)[i] == s[i]; }
  }

  lemma InsertGood(env: Env, c: Certs, der: Bytes, trusted: bool, pool: bool, source: string)
    requires GoodEnv(env) && GoodTable(env, c) && env.sha(der) !in c.rows
    ensures GoodTable(env, Insert(env, c, der, trusted, pool, source))
  {
  }

  lemma WithdrawnGood(env: Env, c: Certs, source: string, keep: seq<string>)
    requires GoodTable(env, c)
    ensures GoodTable(env, Withdrawn(c, source, keep))
  {
  }

  lemma UpdateGood(env: Env, c: Certs, s: string, r: Row)
    requires GoodTable(env, c) && s in c.rows && GoodRow(env, s, r)
    ensures GoodTable(env, c.(rows := c.rows[s := r]))
  {
  }

  lemma ImportedGood(env: Env, c: Certs, der: Bytes, source: string)
    requires GoodEnv(env) && GoodTable(env, c)
    ensures GoodTable(env, Imported(env, c, der, source))
  {
    var s := env.sha(der);
    if s in c.rows {
      UpdateGood(env, c, s, c.rows[s].(pool := true));
      UpdateGood(env, c, s, c.rows[s].(pool := true, trusted := true, source := source));
    } else {
      InsertGood(env, c, der, true, true, source);
    }
  }

  // ---------------------------------------------------------------- the object

  class Store {
    const env: Env
    var certs: Certs

    ghost predicate Valid()
      reads this
    {
      GoodEnv(env) && GoodTable(env, certs)
    }

    constructor (env: Env)
      requires GoodEnv(env)
      ensures Valid() && certs == EMPTY && this.env == env
    {
      this.env := env;
      certs := EMPTY;
    }

    method SaveCert(der: Bytes, source: string)
      requires Valid()
      modifies this
      ensures Valid() && certs == SavedCert(env, old(certs), der, source)
    {
      var s := env.sha(der);
      if s !in certs.rows {
        certs := Certs(certs.rows[s := NewRow(env, der, false, false, source)], certs.order + [s]);
      }
    }

    method SavePoolCert(der: Bytes, source: string)
      requires Valid()
      modifies this
      ensures Valid() && certs == SavedPool(env, old(certs), der, source)
    {
      var s := env.sha(der);
      if s in certs.rows {
        certs := certs.(rows := certs.rows[s := certs.rows[s].(pool := true)]);
      } else {
        certs := Certs(certs.rows[s := NewRow(env, der, false, true, source)], certs.order + [s]);
      }
    }

    /** added: the certificate was inserted or newly trusted. */
    method ImportTrustedCert(der: Bytes, source: string) returns (added: bool)
      requires Valid()
      modifies this
      ensures Valid() && certs == Imported(env, old(certs), der, source)
      ensures added <==> env.sha(der) !in old(certs).rows || old(certs).rows[env.sha(der)].source != source
    {
      ImportedGood(env, certs, der, source);
      var s := env.sha(der);
      ghost var rows := certs.rows;
      if s in certs.rows {
        certs := certs.(rows := certs.rows[s := certs.rows[s].(pool := true)]);
      }
      if s !in certs.rows {
        certs := Certs(certs.rows[s := NewRow(env, der, true, true, source)], certs.order + [s]);
        return true;
      }
      if certs.rows[s].source == source { return false; }
      certs := certs.(rows := certs.rows[s := certs.rows[s].(trusted := true, source := source)]);
      assert certs.rows == rows[s := rows[s].(pool := true, trusted := true, source := source)];
      added := true;
    }

    method WithdrawBundleRoots(source: string, keep: seq<string>)
      requires Valid()
      modifies this
      ensures Valid() && certs == Withdrawn(old(certs), source, keep)
    {
      var order := certs.order;
      ghost var before := certs;
      for k := 0 to |order|
        invariant certs.order == order && certs.rows.Keys == before.rows.Keys
        invariant forall i :: 0 <= i < k ==>
          certs.rows[order[i]] == WithdrawnRow(before.rows[order[i]], order[i], source, keep)
        invariant forall i :: k <= i < |order| ==> certs.rows[order[i]] == before.rows[order[i]]
      {
        var s := order[k];
        if Withdraws(certs.rows[s], s, source, keep) {
          certs := certs.(rows := certs.rows[s := certs.rows[s].(trusted := false, source := Removed(source))]);
        }
      }
      assert certs.rows == Withdrawn(before, source, keep).rows;
      WithdrawnGood(env, before, source, keep);
    }

    /** The hash is in either case. */
    method SetTrusted(sha: string, trusted: bool) returns (found: bool)
      requires Valid()
      modifies this
      ensures Valid() && certs == WithTrust(old(certs), Upper(sha), trusted)
      ensures found <==> Upper(sha) in old(certs).rows
    {
      var s := Upper(sha);
      found := s in certs.rows;
      if found {
        certs := certs.(rows := certs.rows[s := certs.rows[s].(trusted := trusted)]);
      }
    }

    method IsCertTrusted(sha: string) returns (trusted: bool)
      ensures trusted <==> IsTrusted(certs, Upper(sha))
    {
      var s := Upper(sha);
      if s !in certs.rows { return false; }
      return certs.rows[s].trusted;
    }

    /** The query's rows in order, each id once. */
    method FindIssuers(name: Bytes, aki: string, pool: nat, archive: nat) returns (out: seq<Candidate>)
      requires Valid()
      ensures var keys := IssuerKeys(certs, name, aki, pool, archive);
        |out| == |keys| && forall i :: 0 <= i < |out| ==>
          keys[i] in certs.rows && out[i] == Candidate(certs.rows[keys[i]].der, InPool(certs.rows[keys[i]]))
    {
      var query := QueryRows(certs, name, aki, pool, archive);
      QueryRowsExist(certs, name, aki, pool, archive);
      out := Scan(query);
    }

    /** Rows in order, each id once. */
    method Scan(query: seq<string>) returns (out: seq<Candidate>)
      requires forall s :: s in query ==> s in certs.rows
      ensures |out| == |Dedup(query)| && forall i :: 0 <= i < |out| ==>
          var key := Dedup(query)[i];
          key in certs.rows && out[i] == Candidate(certs.rows[key].der, InPool(certs.rows[key]))
    {
      out := [];
      ghost var keys: seq<string> := [];
      var seen: set<string> := {};
      for i := 0 to |query|
        invariant keys == Dedup(query[..i]) && |out| == |keys|
        invariant forall s :: s in keys <==> s in seen
        invariant forall k :: 0 <= k < |out| ==>
          keys[k] in certs.rows && out[k] == Candidate(certs.rows[keys[k]].der, InPool(certs.rows[keys[k]]))
      {
        var s := query[i];
        assert query[..i + 1][..i] == query[..i];
        if s !in seen {
          seen := seen + {s};
          out := out + [Candidate(certs.rows[s].der, InPool(certs.rows[s]))];
          keys := keys + [s];
        }
      }
      assert query[..|query|] == query;
    }
  }
}
