/**
 The walk of chainsToTrust (cmd/certview/handler.go) over issuer names: from the
 issuer of a certificate to the issuers of what the pool has under each name.
 */
module IssuerWalk {
  import opened Common
  import opened PKI
  import opened Provenance
  import CertStore
  import Chain

  /** What a walk over names collects, and the names it has not looked at. */
  datatype Found = Found(roots: seq<Bytes>, inters: seq<Bytes>, names: seq<Bytes>)

  /** One name's certificates: self-signed ones, the others, and the issuers those name. */
  function Sorted(w: World, ders: seq<Bytes>): Found {
    if ders == [] then Found([], [], [])
    else
      var f, last := Sorted(w, ders[..|ders| - 1]), ders[|ders| - 1];
      match w.parse(last)
      case None => f
      case Some(info) =>
        if info.selfSigned then f.(roots := f.roots + [last])
        else f.(inters := f.inters + [last], names := f.names + [info.issuerName])
  }

  /** The certificates pool gives for the names, and for the issuers of what is found, for depth names. */
  function Walk(w: World, pool: Bytes -> seq<Bytes>, names: seq<Bytes>, seen: set<Bytes>, depth: nat): Found
    decreases depth
  {
    if depth == 0 || names == [] then Found([], [], names)
    else if names[0] in seen then Walk(w, pool, names[1..], seen, depth - 1)
    else
      WithName(w, pool, names[0],
        Walk(w, pool, names[1..] + Sorted(w, pool(names[0])).names, seen + {names[0]}, depth - 1))
  }

  function IssuerNameOf(w: World, d: Bytes): Bytes {
    if w.parse(d).Some? then w.parse(d).value.issuerName else []
  }

  /** Everything sorted parses and is split by self-signed; the names are the intermediates' issuers in order. */
  lemma {:induction false} SortedIs(w: World, ders: seq<Bytes>)
    ensures
      var f := Sorted(w, ders);
      && |f.roots| + |f.inters| <= |ders| && |f.names| == |f.inters|
      && (forall d :: d in f.roots <==> d in ders && w.parse(d).Some? && w.parse(d).value.selfSigned)
      && (forall d :: d in f.inters <==> d in ders && w.parse(d).Some? && !w.parse(d).value.selfSigned)
      && (forall k :: 0 <= k < |f.inters| ==> f.names[k] == IssuerNameOf(w, f.inters[k]))
  {
    if ders != [] {
      SortedIs(w, ders[..|ders| - 1]);
      assert ders == ders[..|ders| - 1] + [ders[|ders| - 1]];
    }
  }

  ghost predicate InPoolOf(pool: Bytes -> seq<Bytes>, d: Bytes) {
    exists name :: d in pool(name)
  }

  /** What a walk offers the verifier is in the pool, split by self-signed, at most MAX_ALT_CANDIDATES a name. */
  lemma {:induction false} WalkIsPooled(w: World, pool: Bytes -> seq<Bytes>, names: seq<Bytes>, seen: set<Bytes>,
      depth: nat)
    requires forall name :: |pool(name)| <= Chain.MAX_ALT_CANDIDATES
    ensures
      var f := Walk(w, pool, names, seen, depth);
      && |f.roots| + |f.inters| <= depth * Chain.MAX_ALT_CANDIDATES
      && (forall d :: d in f.roots ==> InPoolOf(pool, d) && w.parse(d).Some? && w.parse(d).value.selfSigned)
      && (forall d :: d in f.inters ==> InPoolOf(pool, d) && w.parse(d).Some? && !w.parse(d).value.selfSigned)
    decreases depth
  {
    if depth > 0 && names != [] {
      if names[0] in seen {
        WalkIsPooled(w, pool, names[1..], seen, depth - 1);
      } else {
        var ders := pool(names[0]);
        SortedIs(w, ders);
        WalkIsPooled(w, pool, names[1..] + Sorted(w, ders).names, seen + {names[0]}, depth - 1);
      }
    }
  }

  /** A walk that does not end has looked at as many names as its depth: it found that many issuers to look for. */
  lemma {:induction false} WalkLooksAtAll(w: World, pool: Bytes -> seq<Bytes>, names: seq<Bytes>, seen: set<Bytes>,
      depth: nat)
    ensures
      var f := Walk(w, pool, names, seen, depth);
      f.names != [] ==> |names| + |f.inters| == depth + |f.names|
    decreases depth
  {
    if depth > 0 && names != [] {
      if names[0] in seen {
        WalkLooksAtAll(w, pool, names[1..], seen, depth - 1);
      } else {
        var ders := pool(names[0]);
        SortedIs(w, ders);
        WalkLooksAtAll(w, pool, names[1..] + Sorted(w, ders).names, seen + {names[0]}, depth - 1);
      }
    }
  }

  /** All pool certificates of the name that parse are in what was found, but for names seen before. */
  ghost predicate Covered(w: World, pool: Bytes -> seq<Bytes>, f: Found, seen: set<Bytes>, name: Bytes) {
    name in seen || forall d :: d in pool(name) && w.parse(d).Some? ==> d in f.roots || d in f.inters
  }

  ghost predicate CoversNames(w: World, pool: Bytes -> seq<Bytes>, f: Found, seen: set<Bytes>, names: seq<Bytes>) {
    forall k :: 0 <= k < |names| ==> Covered(w, pool, f, seen, names[k])
  }

  ghost predicate CoversIssuers(w: World, pool: Bytes -> seq<Bytes>, f: Found, seen: set<Bytes>) {
    forall k :: 0 <= k < |f.inters| ==> Covered(w, pool, f, seen, IssuerNameOf(w, f.inters[k]))
  }

  /**
   A walk that ends before its depth is closed: it has the pool certificates of
   every name it started from and of every issuer of what it found.
   */
  lemma {:induction false} WalkIsClosed(w: World, pool: Bytes -> seq<Bytes>, names: seq<Bytes>, seen: set<Bytes>,
      depth: nat)
    requires Walk(w, pool, names, seen, depth).names == []
    ensures CoversNames(w, pool, Walk(w, pool, names, seen, depth), seen, names)
    ensures CoversIssuers(w, pool, Walk(w, pool, names, seen, depth), seen)
    decreases depth
  {
    if depth > 0 && names != [] {
      if names[0] in seen {
        WalkIsClosed(w, pool, names[1..], seen, depth - 1);
        CoversSeen(w, pool, Walk(w, pool, names[1..], seen, depth - 1), seen, names);
      } else {
        var f0 := Sorted(w, pool(names[0]));
        WalkIsClosed(w, pool, names[1..] + f0.names, seen + {names[0]}, depth - 1);
        NameWalked(w, pool, names, seen, Walk(w, pool, names[1..] + f0.names, seen + {names[0]}, depth - 1));
      }
    }
  }

  lemma CoversSeen(w: World, pool: Bytes -> seq<Bytes>, f: Found, seen: set<Bytes>, names: seq<Bytes>)
    requires names != [] && names[0] in seen && CoversNames(w, pool, f, seen, names[1..])
    ensures CoversNames(w, pool, f, seen, names)
  {
    forall k | 0 <= k < |names| ensures Covered(w, pool, f, seen, names[k]) {
      if k > 0 { assert Covered(w, pool, f, seen, names[1..][k - 1]); }
    }
  }

  /** What the walk finds once names[0]'s certificates are added to what the rest of it finds. */
  function WithName(w: World, pool: Bytes -> seq<Bytes>, first: Bytes, rest: Found): Found {
    var f0 := Sorted(w, pool(first));
    Found(f0.roots + rest.roots, f0.inters + rest.inters, rest.names)
  }

  lemma NameWalked(w: World, pool: Bytes -> seq<Bytes>, names: seq<Bytes>, seen: set<Bytes>, rest: Found)
    requires names != []
    requires CoversNames(w, pool, rest, seen + {names[0]}, names[1..] + Sorted(w, pool(names[0])).names)
    requires CoversIssuers(w, pool, rest, seen + {names[0]})
    ensures CoversNames(w, pool, WithName(w, pool, names[0], rest), seen, names)
    ensures CoversIssuers(w, pool, WithName(w, pool, names[0], rest), seen)
  {
    var f0 := Sorted(w, pool(names[0]));
    var queue := names[1..] + f0.names;
    forall k | 0 <= k < |names| ensures Covered(w, pool, WithName(w, pool, names[0], rest), seen, names[k]) {
      if k > 0 {
        assert queue[k - 1] == names[k];
        CoveredGrows(w, pool, names[0], seen, rest, names[k]);
      } else {
        CoveredFirst(w, pool, names[0], seen, rest);
      }
    }
    IssuersWalked(w, pool, names[0], names[1..], seen, rest);
  }

  lemma IssuersWalked(w: World, pool: Bytes -> seq<Bytes>, first: Bytes, later: seq<Bytes>, seen: set<Bytes>,
      rest: Found)
    requires CoversNames(w, pool, rest, seen + {first}, later + Sorted(w, pool(first)).names)
    requires CoversIssuers(w, pool, rest, seen + {first})
    ensures CoversIssuers(w, pool, WithName(w, pool, first, rest), seen)
  {
    var f0, f := Sorted(w, pool(first)), WithName(w, pool, first, rest);
    SortedIs(w, pool(first));
    forall k | 0 <= k < |f.inters| ensures Covered(w, pool, f, seen, IssuerNameOf(w, f.inters[k])) {
      if k < |f0.inters| {
        QueuedCovered(w, pool, rest, seen + {first}, later, f0.names, k);
        assert f.inters[k] == f0.inters[k];
      } else {
        assert f.inters[k] == rest.inters[k - |f0.inters|];
      }
      CoveredGrows(w, pool, first, seen, rest, IssuerNameOf(w, f.inters[k]));
    }
  }

  lemma QueuedCovered(w: World, pool: Bytes -> seq<Bytes>, f: Found, seen: set<Bytes>, later: seq<Bytes>,
      names: seq<Bytes>, k: nat)
    requires CoversNames(w, pool, f, seen, later + names) && k < |names|
    ensures Covered(w, pool, f, seen, names[k])
  {
    assert (later + names)[|later| + k] == names[k];
  }

  lemma CoveredFirst(w: World, pool: Bytes -> seq<Bytes>, first: Bytes, seen: set<Bytes>, rest: Found)
    ensures Covered(w, pool, WithName(w, pool, first, rest), seen, first)
  {
    SortedIs(w, pool(first));
  }

  lemma CoveredGrows(w: World, pool: Bytes -> seq<Bytes>, first: Bytes, seen: set<Bytes>, rest: Found, name: Bytes)
    requires Covered(w, pool, rest, seen + {first}, name)
    ensures Covered(w, pool, WithName(w, pool, first, rest), seen, name)
  {
    if name == first { CoveredFirst(w, pool, first, seen, rest); }
  }

  /** Roots and intermediates found so far, and what the rest of the walk finds. */
  function Joined(roots: seq<Bytes>, inters: seq<Bytes>, rest: Found): Found {
    Found(roots + rest.roots, inters + rest.inters, rest.names)
  }

  /** Looking at the next name moves its certificates from the rest to what was found. */
  lemma WalkStep(w: World, pool: Bytes -> seq<Bytes>, roots: seq<Bytes>, inters: seq<Bytes>, names: seq<Bytes>,
      seen: set<Bytes>, depth: nat)
    requires depth > 0 && names != [] && names[0] !in seen
    ensures
      var f := Sorted(w, pool(names[0]));
      Joined(roots, inters, Walk(w, pool, names, seen, depth)) ==
      Joined(roots + f.roots, inters + f.inters, Walk(w, pool, names[1..] + f.names, seen + {names[0]}, depth - 1))
  {
    var f := Sorted(w, pool(names[0]));
    JoinedTwice(w, pool, names[0], roots, inters, Walk(w, pool, names[1..] + f.names, seen + {names[0]}, depth - 1));
  }

  lemma JoinedTwice(w: World, pool: Bytes -> seq<Bytes>, name: Bytes, roots: seq<Bytes>, inters: seq<Bytes>,
      rest: Found)
    ensures
      var f := Sorted(w, pool(name));
      Joined(roots, inters, WithName(w, pool, name, rest)) == Joined(roots + f.roots, inters + f.inters, rest)
  {
    var f := Sorted(w, pool(name));
    assert roots + (f.roots + rest.roots) == roots + f.roots + rest.roots;
    assert inters + (f.inters + rest.inters) == inters + f.inters + rest.inters;
  }

  lemma WalkEnds(w: World, pool: Bytes -> seq<Bytes>, roots: seq<Bytes>, inters: seq<Bytes>, names: seq<Bytes>,
      seen: set<Bytes>, depth: nat)
    requires depth == 0 || names == []
    ensures Joined(roots, inters, Walk(w, pool, names, seen, depth)) == Found(roots, inters, names)
  {
  }

  // ---------------------------------------------------------------- over the pool of a table

  function PoolOf(c: CertStore.Certs): Bytes -> seq<Bytes> {
    name => PoolDERs(c, name)
  }

  /** pool answers as the table does. */
  ghost predicate IsPoolOf(pool: Bytes -> seq<Bytes>, c: CertStore.Certs) {
    forall name {:trigger PoolDERs(c, name)} :: pool(name) == PoolDERs(c, name)
  }

  /** What chainsToTrust offers the verifier for a certificate. */
  function Candidates(w: World, c: CertStore.Certs, cert: CertInfo): Found {
    Walk(w, PoolOf(c), [cert.issuerName], {}, Chain.MAX_CHAIN_DEPTH)
  }

  /** All of it is in the pool, at most 80 certificates, split by whether they are self-signed. */
  lemma CandidatesArePooled(w: World, c: CertStore.Certs, cert: CertInfo)
    requires CertStore.GoodEnv(w.env) && CertStore.GoodTable(w.env, c)
    ensures
      var f := Candidates(w, c, cert);
      && |f.roots| + |f.inters| <= Chain.MAX_CHAIN_DEPTH * Chain.MAX_ALT_CANDIDATES
      && (forall d :: d in f.roots ==> PoolDER(w.env, c, d) && w.parse(d).Some? && w.parse(d).value.selfSigned)
      && (forall d :: d in f.inters ==> PoolDER(w.env, c, d) && w.parse(d).Some? && !w.parse(d).value.selfSigned)
  {
    forall name ensures |PoolOf(c)(name)| <= Chain.MAX_ALT_CANDIDATES { PoolDERsArePooled(w.env, c, name); }
    WalkIsPooled(w, PoolOf(c), [cert.issuerName], {}, Chain.MAX_CHAIN_DEPTH);
    forall d | InPoolOf(PoolOf(c), d) ensures PoolDER(w.env, c, d) {
      var name :| d in PoolOf(c)(name);
      PoolDERsArePooled(w.env, c, name);
    }
  }

  /** The walk ends, so that nothing is missing, whenever it finds fewer intermediates than its depth. */
  lemma CandidatesEnd(w: World, c: CertStore.Certs, cert: CertInfo)
    requires |Candidates(w, c, cert).inters| < Chain.MAX_CHAIN_DEPTH
    ensures Candidates(w, c, cert).names == []
  {
    WalkLooksAtAll(w, PoolOf(c), [cert.issuerName], {}, Chain.MAX_CHAIN_DEPTH);
  }

  /** When the walk ends before its depth, no pool certificate that could be on a path is missing. */
  lemma CandidatesAreClosed(w: World, c: CertStore.Certs, cert: CertInfo)
    requires Candidates(w, c, cert).names == []
    ensures
      var f := Candidates(w, c, cert);
      && Covered(w, PoolOf(c), f, {}, cert.issuerName)
      && forall k :: 0 <= k < |f.inters| ==> Covered(w, PoolOf(c), f, {}, IssuerNameOf(w, f.inters[k]))
  {
    WalkIsClosed(w, PoolOf(c), [cert.issuerName], {}, Chain.MAX_CHAIN_DEPTH);
    assert [cert.issuerName][0] == cert.issuerName;
  }
}
