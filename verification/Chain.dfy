/**
 Chain building in cmd/certview/handler.go: resolveIssuer, archiveIssuer, the
 chain loop of analyzeData and its candidates for the verifier.
 */
module Chain {
  import opened Common
  import opened PKI
  import URLs
  import CertStore

  const MAX_CHAIN_DEPTH: nat := 10
  const MAX_AIA_URLS: nat := 3
  const MAX_AIA_CERTS: nat := 32
  const MAX_ALT_CANDIDATES: nat := 8
  const ARCHIVE_SAMPLE: nat := 16
  const MAX_FETCHES: int := 20
  const CERT_SIZE: nat := 0x1_0000

  datatype Source = Upload | FromLink | FromTLS | FromAIA | FromArchive | FromPool

  datatype BagCert = BagCert(info: CertInfo, source: Source)

  /** A fetch is refused as a recent failure, fails, or gives the certificates of the object. */
  datatype FetchResult = RecentFailure | FetchFailed | Fetched(ders: seq<Bytes>)

  /**
   The parser, the store's candidates and pool certificates by name, the n-th
   fetch of the analysis, and, for the issuer of a chain's n-th certificate, the
   context and the clock: as resolveIssuer reads it, and then archiveIssuer.
   */
  datatype Env = Env(
    sha: Bytes -> string,
    parse: Bytes -> Option<CertInfo>,
    candidates: (Bytes, string) -> seq<CertStore.Candidate>,
    poolIssuers: Bytes -> seq<Bytes>,
    fetch: (nat, string) -> FetchResult,
    done: nat -> bool,
    now: nat -> int,
    archiveNow: nat -> int)

  /** cert names info as its issuer: by key identifier, or by name when it has none. */
  predicate Issues(info: CertInfo, cert: CertInfo) {
    if cert.aki != "" then info.ski == cert.aki else info.subjectName == cert.issuerName
  }

  /** The candidates are matches of the store, archived ones a bounded sample (see CandidatesAreGood). */
  ghost predicate GoodCandidates(env: Env, cert: CertInfo) {
    var cands := env.candidates(cert.issuerName, cert.aki);
    && |Archived(env, cands)| <= 2 * ARCHIVE_SAMPLE
    && forall c :: c in cands && env.parse(c.der).Some? ==>
        Issues(env.parse(c.der).value, cert) && env.parse(c.der).value.subjectName == cert.issuerName
  }

  ghost predicate GoodEnv(env: Env) {
    && Injective(env.sha)
    && (forall cert :: GoodCandidates(env, cert))
    && (forall d :: env.parse(d).Some? ==> env.parse(env.parse(d).value.der) == env.parse(d))
  }

  predicate ValidAt(t: int, c: CertInfo) {
    c.notBefore < t < c.notAfter
  }

  // ---------------------------------------------------------------- what resolveIssuer prefers

  function FirstInBag(bag: seq<BagCert>, cert: CertInfo): Option<BagCert> {
    if bag == [] then None else if Issues(bag[0].info, cert) then Some(bag[0]) else FirstInBag(bag[1..], cert)
  }

  /** The parsed pool candidates, in order. */
  function PoolCerts(env: Env, cands: seq<CertStore.Candidate>): seq<CertInfo> {
    Sifted(env, cands, true)
  }

  function Archived(env: Env, cands: seq<CertStore.Candidate>): seq<CertInfo> {
    Sifted(env, cands, false)
  }

  function Sifted(env: Env, cands: seq<CertStore.Candidate>, pool: bool): seq<CertInfo> {
    if cands == [] then [] else Sifted(env, cands[..|cands| - 1], pool) + One(env, cands[|cands| - 1], pool)
  }

  function One(env: Env, c: CertStore.Candidate, pool: bool): seq<CertInfo> {
    if c.pool == pool && env.parse(c.der).Some? then [env.parse(c.der).value] else []
  }

  function Labelled(infos: seq<CertInfo>, source: Source): seq<BagCert> {
    seq(|infos|, i requires 0 <= i < |infos| => BagCert(infos[i], source))
  }

  /** Without a bag match, a valid pool match or an AIA certificate: the first pool match, else an archived one. */
  function Fallback(env: Env, cands: seq<CertStore.Candidate>, t: int): Option<Link> {
    if PoolCerts(env, cands) != [] then Some(Link(PoolCerts(env, cands)[0], FromPool))
    else match PickArchived(t, Archived(env, cands))
      case None => None
      case Some(c) => Some(Link(c, FromArchive))
  }

  /** The usable certificates of an object: neither too large nor unparsable. */
  function UsableCerts(env: Env, ders: seq<Bytes>): seq<CertInfo> {
    if ders == [] then []
    else
      var last := ders[|ders| - 1];
      UsableCerts(env, ders[..|ders| - 1])
      + if |last| <= CERT_SIZE && env.parse(last).Some? then [env.parse(last).value] else []
  }

  /** What the n-th fetch of the analysis gives under a URL, with this much budget left. */
  function ObjectCerts(env: Env, n: nat, url: string, budget: int): seq<CertInfo> {
    match env.fetch(n, url)
    case Fetched(ders) => if budget > 0 && |ders| <= MAX_AIA_CERTS then UsableCerts(env, ders) else []
    case _ => []
  }

  /** A refused fetch costs nothing. */
  function Spent(env: Env, n: nat, url: string, budget: int): int {
    budget - if env.fetch(n, url).RecentFailure? then 0 else 1
  }

  datatype AIA = AIA(infos: seq<CertInfo>, fetches: nat, budget: int)

  /** The certificates of the first object that has some, and what is left of the budget. */
  function FirstObject(env: Env, urls: seq<string>, n: nat, budget: int): AIA {
    if urls == [] then AIA([], n, budget)
    else
      var infos, left := ObjectCerts(env, n, urls[0], budget), Spent(env, n, urls[0], budget);
      if infos != [] then AIA(infos, n + 1, left) else FirstObject(env, urls[1..], n + 1, left)
  }

  lemma FirstObjectStep(env: Env, urls: seq<string>, k: nat, n: nat, budget: int, infos: seq<CertInfo>, left: int)
    requires k < |urls| && infos == ObjectCerts(env, n, urls[k], budget) && left == Spent(env, n, urls[k], budget)
    ensures FirstObject(env, urls[k..], n, budget) ==
      if infos != [] then AIA(infos, n + 1, left) else FirstObject(env, urls[k + 1..], n + 1, left)
  {
    assert urls[k..][1..] == urls[k + 1..] && urls[k..][0] == urls[k];
  }

  /** The budget before the fetch of the k-th URL. */
  function BudgetAt(env: Env, urls: seq<string>, n: nat, budget: int, k: nat): int
    requires k <= |urls|
  {
    if k == 0 then budget else Spent(env, n + k - 1, urls[k - 1], BudgetAt(env, urls, n, budget, k - 1))
  }

  /** What the k-th URL gives. */
  function ObjectAt(env: Env, urls: seq<string>, n: nat, budget: int, k: nat): seq<CertInfo>
    requires k < |urls|
  {
    ObjectCerts(env, n + k, urls[k], BudgetAt(env, urls, n, budget, k))
  }

  lemma {:induction false} BudgetShift(env: Env, urls: seq<string>, n: nat, budget: int, k: nat)
    requires 0 < k <= |urls|
    ensures BudgetAt(env, urls, n, budget, k) == BudgetAt(env, urls[1..], n + 1, Spent(env, n, urls[0], budget), k - 1)
  {
    if k > 1 { BudgetShift(env, urls, n, budget, k - 1); }
  }

  lemma ObjectShift(env: Env, urls: seq<string>, n: nat, budget: int, k: nat)
    requires 0 < k < |urls|
    ensures ObjectAt(env, urls, n, budget, k) == ObjectAt(env, urls[1..], n + 1, Spent(env, n, urls[0], budget), k - 1)
  {
    BudgetShift(env, urls, n, budget, k);
  }

  /** They are the object's of the k-th URL, and no URL before it gave any; without one, none gives any. */
  lemma {:induction false} FirstObjectIsFirst(env: Env, urls: seq<string>, n: nat, budget: int) returns (k: nat)
    ensures k <= |urls| && forall j :: 0 <= j < k ==> ObjectAt(env, urls, n, budget, j) == []
    ensures
      var infos := FirstObject(env, urls, n, budget).infos;
      if k == |urls| then infos == [] else infos == ObjectAt(env, urls, n, budget, k) != []
  {
    k := 0;
    if urls != [] && ObjectAt(env, urls, n, budget, 0) == [] {
      var later := FirstObjectIsFirst(env, urls[1..], n + 1, Spent(env, n, urls[0], budget));
      k := later + 1;
      forall j | 0 <= j < k ensures ObjectAt(env, urls, n, budget, j) == [] {
        if j > 0 { ObjectShift(env, urls, n, budget, j); }
      }
      if k < |urls| { ObjectShift(env, urls, n, budget, k); }
    }
  }

  /** What the AIA step fetches for a certificate. */
  function AIAOf(env: Env, cert: CertInfo, n: nat, budget: int): AIA {
    FirstObject(env, URLs.FirstUsable(cert.aiaURLs, MAX_AIA_URLS), n, budget)
  }

  /** What the last resort adds to the bag. */
  function Fallen(env: Env, cands: seq<CertStore.Candidate>): seq<BagCert> {
    if PoolCerts(env, cands) == [] then Labelled(Archived(env, cands), FromArchive) else []
  }

  /** What an analysis holds while it builds the chain. */
  datatype Held = Held(bag: seq<BagCert>, fetches: nat, budget: int)

  /** resolveIssuer of the n-th certificate beyond the bag: a valid pool match, else AIA, else the last resort. */
  function Beyond(env: Env, cert: CertInfo, n: nat, h: Held): (Option<Link>, Held) {
    var cands := env.candidates(cert.issuerName, cert.aki);
    var valid, aia := FirstValid(env.now(n), PoolCerts(env, cands)), AIAOf(env, cert, h.fetches, h.budget);
    if valid.Some? then (Some(Link(valid.value, FromPool)), h)
    else if aia.infos != [] then
      (Some(Link(PickAIA(cert, aia.infos).value, FromAIA)),
       Held(h.bag + Labelled(aia.infos, FromAIA), aia.fetches, aia.budget))
    else (Fallback(env, cands, env.archiveNow(n)), Held(h.bag + Fallen(env, cands), aia.fetches, aia.budget))
  }

  /** resolveIssuer: the issuer found and what the analysis then holds. */
  function Resolve(env: Env, cert: CertInfo, n: nat, h: Held): (Option<Link>, Held) {
    match FirstInBag(h.bag, cert)
    case Some(b) => (Some(Link(b.info, b.source)), h)
    case None => Beyond(env, cert, n, h)
  }

  /** Whatever does not come from AIA parses and issues the certificate. */
  lemma BeyondIssues(env: Env, cert: CertInfo, n: nat, h: Held)
    requires GoodEnv(env)
    ensures
      var r := Beyond(env, cert, n, h).0;
      r.Some? && !r.value.source.FromAIA? ==>
        Issues(r.value.info, cert) && env.parse(r.value.info.der) == Some(r.value.info)
  {
    var cands := env.candidates(cert.issuerName, cert.aki);
    assert GoodCandidates(env, cert);
    CandidatesIssue(env, cands, cert);
    CandidatesAreParsed(env, cands);
    FirstValidIsValid(env.now(n), PoolCerts(env, cands));
    FirstValidIsValid(env.archiveNow(n), Archived(env, cands));
  }

  function FirstValid(t: int, infos: seq<CertInfo>): Option<CertInfo> {
    if infos == [] then None else if ValidAt(t, infos[0]) then Some(infos[0]) else FirstValid(t, infos[1..])
  }

  /** Among the certificates of one AIA object: a self-signed key match, any key match, the first. */
  function PickAIA(cert: CertInfo, infos: seq<CertInfo>): Option<CertInfo> {
    var best := FirstKeyMatch(cert, infos, true);
    var any := FirstKeyMatch(cert, infos, false);
    if best.Some? then best else if any.Some? then any else if infos != [] then Some(infos[0]) else None
  }

  function FirstKeyMatch(cert: CertInfo, infos: seq<CertInfo>, selfSigned: bool): Option<CertInfo> {
    if infos == [] then None
    else if cert.aki != "" && infos[0].ski == cert.aki && (selfSigned ==> infos[0].selfSigned) then Some(infos[0])
    else FirstKeyMatch(cert, infos[1..], selfSigned)
  }

  /** The archived candidate to fall back on: the first valid one, else the oldest. */
  function PickArchived(t: int, infos: seq<CertInfo>): Option<CertInfo> {
    if infos == [] then None else if FirstValid(t, infos).Some? then FirstValid(t, infos) else Some(infos[0])
  }

  lemma {:induction false} FirstValidAppend(t: int, infos: seq<CertInfo>, x: CertInfo)
    ensures FirstValid(t, infos + [x]) ==
      if FirstValid(t, infos).Some? then FirstValid(t, infos) else if ValidAt(t, x) then Some(x) else None
  {
    if infos == [] {
      assert infos + [x] == [x];
    } else {
      assert (infos + [x])[1..] == infos[1..] + [x];
      FirstValidAppend(t, infos[1..], x);
    }
  }

  /** A pick is one of the certificates, valid if any is. */
  lemma {:induction false} FirstValidIsValid(t: int, infos: seq<CertInfo>)
    ensures FirstValid(t, infos).Some? ==>
      FirstValid(t, infos).value in infos && ValidAt(t, FirstValid(t, infos).value)
    ensures FirstValid(t, infos).None? ==> forall c :: c in infos ==> !ValidAt(t, c)
  {
    if infos != [] { FirstValidIsValid(t, infos[1..]); }
  }

  lemma {:induction false} FirstInBagMatches(bag: seq<BagCert>, cert: CertInfo)
    ensures match FirstInBag(bag, cert)
      case Some(b) => b in bag && Issues(b.info, cert)
      case None => forall b :: b in bag ==> !Issues(b.info, cert)
  {
    if bag != [] { FirstInBagMatches(bag[1..], cert); }
  }

  lemma {:induction false} FirstKeyMatchIs(cert: CertInfo, infos: seq<CertInfo>, selfSigned: bool)
    ensures match FirstKeyMatch(cert, infos, selfSigned)
      case Some(c) => c in infos && cert.aki != "" && c.ski == cert.aki && (selfSigned ==> c.selfSigned)
      case None => forall c :: c in infos ==> !(cert.aki != "" && c.ski == cert.aki && (selfSigned ==> c.selfSigned))
  {
    if infos != [] { FirstKeyMatchIs(cert, infos[1..], selfSigned); }
  }

  /** The pick of an AIA object issues the certificate by key whenever any of its certificates does. */
  lemma PickAIAPrefersKey(cert: CertInfo, infos: seq<CertInfo>)
    requires cert.aki != "" && exists c :: c in infos && c.ski == cert.aki
    ensures PickAIA(cert, infos).Some? && PickAIA(cert, infos).value in infos
    ensures Issues(PickAIA(cert, infos).value, cert)
    ensures (exists c :: c in infos && c.ski == cert.aki && c.selfSigned) ==> PickAIA(cert, infos).value.selfSigned
  {
    FirstKeyMatchIs(cert, infos, true);
    FirstKeyMatchIs(cert, infos, false);
  }

  lemma {:induction false} CandidatesIssue(env: Env, cands: seq<CertStore.Candidate>, cert: CertInfo)
    requires forall c :: c in cands && env.parse(c.der).Some? ==> Issues(env.parse(c.der).value, cert)
    ensures forall c :: c in PoolCerts(env, cands) || c in Archived(env, cands) ==> Issues(c, cert)
  {
    if cands != [] { CandidatesIssue(env, cands[..|cands| - 1], cert); }
  }

  lemma {:induction false} CandidatesAreParsed(env: Env, cands: seq<CertStore.Candidate>)
    requires forall d :: env.parse(d).Some? ==> env.parse(env.parse(d).value.der) == env.parse(d)
    ensures forall c :: c in PoolCerts(env, cands) || c in Archived(env, cands) ==> env.parse(c.der) == Some(c)
  {
    if cands != [] { CandidatesAreParsed(env, cands[..|cands| - 1]); }
  }

  /** With this many pool candidates in front, at most the others are archived ones. */
  lemma {:induction false} ArchivedCount(env: Env, cands: seq<CertStore.Candidate>, pools: nat)
    requires pools <= |cands| && forall i :: 0 <= i < pools ==> cands[i].pool
    ensures |Archived(env, cands)| <= |cands| - pools
  {
    if cands != [] {
      var last := |cands| - 1;
      if pools <= last { ArchivedCount(env, cands[..last], pools); } else { ArchivedCount(env, cands[..last], last); }
    }
  }

  /**
   What FindIssuers answers from a certificate table is good: every candidate
   matches, the archived ones are at most 32.
   */
  lemma CandidatesAreGood(env: Env, senv: CertStore.Env, c: CertStore.Certs, cert: CertInfo)
    requires CertStore.GoodEnv(senv) && CertStore.GoodTable(senv, c)
    requires forall k :: k in c.rows && env.parse(c.rows[k].der).Some? ==>
      env.parse(c.rows[k].der).value == senv.info(c.rows[k].der)
    requires
      var keys := CertStore.IssuerKeys(c, cert.issuerName, cert.aki, MAX_ALT_CANDIDATES, ARCHIVE_SAMPLE);
      var cands := env.candidates(cert.issuerName, cert.aki);
      |cands| == |keys| && forall i :: 0 <= i < |cands| ==>
        keys[i] in c.rows && cands[i] == CertStore.Candidate(c.rows[keys[i]].der, CertStore.InPool(c.rows[keys[i]]))
    ensures GoodCandidates(env, cert)
  {
    var name, aki := cert.issuerName, cert.aki;
    var keys := CertStore.IssuerKeys(c, name, aki, MAX_ALT_CANDIDATES, ARCHIVE_SAMPLE);
    var cands := env.candidates(name, aki);
    CertStore.IssuerKeysAgree(c, name, aki, MAX_ALT_CANDIDATES, ARCHIVE_SAMPLE);
    var ranked := CertStore.Take(CertStore.PoolRanked(c, name, aki), MAX_ALT_CANDIDATES);
    CertStore.QueryIsPoolThenArchive(c, name, aki, MAX_ALT_CANDIDATES, ARCHIVE_SAMPLE);
    CertStore.ArchiveRowsAgree(c, name, aki, ARCHIVE_SAMPLE);
    CertStore.DedupKeepsElements(CertStore.QueryRows(c, name, aki, MAX_ALT_CANDIDATES, ARCHIVE_SAMPLE));
    ArchivedCount(env, cands, |ranked|);
    forall x | x in cands && env.parse(x.der).Some?
      ensures Issues(env.parse(x.der).value, cert) && env.parse(x.der).value.subjectName == name
    {
      var i :| 0 <= i < |cands| && cands[i] == x;
      assert CertStore.GoodRow(senv, keys[i], c.rows[keys[i]]) && CertStore.Matches(c.rows[keys[i]], name, aki);
    }
  }

  // ---------------------------------------------------------------- which issuer is found

  /** The k-th candidate is in the pool, or not, and parses. */
  predicate Usable(env: Env, cands: seq<CertStore.Candidate>, pool: bool, k: nat) {
    k < |cands| && cands[k].pool == pool && env.parse(cands[k].der).Some?
  }

  predicate UsableNow(env: Env, cands: seq<CertStore.Candidate>, pool: bool, t: int, k: nat) {
    Usable(env, cands, pool, k) && env.parse(cands[k].der).value.notBefore < t < env.parse(cands[k].der).value.notAfter
  }

  /** It is the first such candidate. */
  ghost predicate IsFirst(env: Env, cands: seq<CertStore.Candidate>, pool: bool, k: nat) {
    Usable(env, cands, pool, k) && forall j: nat :: j < k ==> !Usable(env, cands, pool, j)
  }

  ghost predicate IsFirstNow(env: Env, cands: seq<CertStore.Candidate>, pool: bool, t: int, k: nat) {
    UsableNow(env, cands, pool, t, k) && forall j: nat :: j < k ==> !UsableNow(env, cands, pool, t, j)
  }

  lemma {:induction false} SiftedAre(env: Env, cands: seq<CertStore.Candidate>, pool: bool, c: CertInfo)
    ensures c in Sifted(env, cands, pool) <==>
      exists k: nat :: Usable(env, cands, pool, k) && env.parse(cands[k].der).value == c
  {
    if cands != [] {
      var last := |cands| - 1;
      SiftedAre(env, cands[..last], pool, c);
      if k: nat :| Usable(env, cands[..last], pool, k) && env.parse(cands[..last][k].der).value == c {
        assert Usable(env, cands, pool, k);
      }
      if k: nat :| Usable(env, cands, pool, k) && env.parse(cands[k].der).value == c {
        if k < last { assert Usable(env, cands[..last], pool, k); }
      }
      if c in One(env, cands[last], pool) { assert Usable(env, cands, pool, last); }
    }
  }

  lemma {:induction false} FirstSifted(env: Env, cands: seq<CertStore.Candidate>, pool: bool, k: nat)
    requires IsFirst(env, cands, pool, k)
    ensures Sifted(env, cands, pool) != [] && Sifted(env, cands, pool)[0] == env.parse(cands[k].der).value
  {
    var last := |cands| - 1;
    if k < last {
      assert IsFirst(env, cands[..last], pool, k) by {
        forall j: nat | j < k ensures !Usable(env, cands[..last], pool, j) { assert !Usable(env, cands, pool, j); }
      }
      FirstSifted(env, cands[..last], pool, k);
    } else if Sifted(env, cands[..last], pool) != [] {
      var c := Sifted(env, cands[..last], pool)[0];
      SiftedAre(env, cands[..last], pool, c);
      var j: nat :| Usable(env, cands[..last], pool, j) && env.parse(cands[..last][j].der).value == c;
      assert Usable(env, cands, pool, j);
    }
  }

  lemma NoneSifted(env: Env, cands: seq<CertStore.Candidate>, pool: bool)
    requires forall k: nat :: !Usable(env, cands, pool, k)
    ensures Sifted(env, cands, pool) == []
  {
    if Sifted(env, cands, pool) != [] { SiftedAre(env, cands, pool, Sifted(env, cands, pool)[0]); }
  }

  lemma NoneSiftedNow(env: Env, cands: seq<CertStore.Candidate>, pool: bool, t: int)
    requires forall k: nat :: !UsableNow(env, cands, pool, t, k)
    ensures FirstValid(t, Sifted(env, cands, pool)) == None
  {
    FirstValidIsValid(t, Sifted(env, cands, pool));
    var v := FirstValid(t, Sifted(env, cands, pool));
    if v.Some? {
      SiftedAre(env, cands, pool, v.value);
      var k: nat :| Usable(env, cands, pool, k) && env.parse(cands[k].der).value == v.value;
      assert UsableNow(env, cands, pool, t, k);
    }
  }

  lemma {:induction false} FirstSiftedNow(env: Env, cands: seq<CertStore.Candidate>, pool: bool, t: int, k: nat)
    requires IsFirstNow(env, cands, pool, t, k)
    ensures FirstValid(t, Sifted(env, cands, pool)) == env.parse(cands[k].der)
  {
    var last := |cands| - 1;
    var init, one := Sifted(env, cands[..last], pool), One(env, cands[last], pool);
    if k < last {
      assert IsFirstNow(env, cands[..last], pool, t, k) by {
        forall j: nat | j < k ensures !UsableNow(env, cands[..last], pool, t, j) {
          assert !UsableNow(env, cands, pool, t, j);
        }
      }
      FirstSiftedNow(env, cands[..last], pool, t, k);
    } else {
      forall j: nat ensures !UsableNow(env, cands[..last], pool, t, j) {
        assert j < k ==> !UsableNow(env, cands, pool, t, j);
      }
      NoneSiftedNow(env, cands[..last], pool, t);
    }
    if one != [] { FirstValidAppend(t, init, one[0]); } else { assert init + one == init; }
  }

  lemma {:induction false} FirstInBagAt(bag: seq<BagCert>, cert: CertInfo, k: nat)
    requires k < |bag| && Issues(bag[k].info, cert) && forall j :: 0 <= j < k ==> !Issues(bag[j].info, cert)
    ensures FirstInBag(bag, cert) == Some(bag[k])
  {
    if k > 0 {
      assert !Issues(bag[0].info, cert);
      forall j | 0 <= j < k - 1 ensures !Issues(bag[1..][j].info, cert) { assert bag[1..][j] == bag[j + 1]; }
      FirstInBagAt(bag[1..], cert, k - 1);
    }
  }

  /** What the analysis holds is used first: the first match, and nothing is fetched. */
  lemma FoundInBag(env: Env, cert: CertInfo, n: nat, h: Held, k: nat)
    requires k < |h.bag| && Issues(h.bag[k].info, cert) && forall j :: 0 <= j < k ==> !Issues(h.bag[j].info, cert)
    ensures Resolve(env, cert, n, h) == (Some(Link(h.bag[k].info, h.bag[k].source)), h)
  {
    FirstInBagAt(h.bag, cert, k);
  }

  ghost predicate NotInBag(bag: seq<BagCert>, cert: CertInfo) {
    forall j :: 0 <= j < |bag| ==> !Issues(bag[j].info, cert)
  }

  lemma BeyondTheBag(env: Env, cert: CertInfo, n: nat, h: Held)
    requires NotInBag(h.bag, cert)
    ensures Resolve(env, cert, n, h) == Beyond(env, cert, n, h)
  {
    FirstInBagMatches(h.bag, cert);
  }

  /** Without one, the first currently valid pool candidate is used, and nothing is fetched either. */
  lemma FoundInPool(env: Env, cert: CertInfo, n: nat, h: Held, k: nat)
    requires NotInBag(h.bag, cert)
    requires IsFirstNow(env, env.candidates(cert.issuerName, cert.aki), true, env.now(n), k)
    ensures
      var c := env.parse(env.candidates(cert.issuerName, cert.aki)[k].der).value;
      Resolve(env, cert, n, h) == (Some(Link(c, FromPool)), h)
  {
    BeyondTheBag(env, cert, n, h);
    FirstSiftedNow(env, env.candidates(cert.issuerName, cert.aki), true, env.now(n), k);
  }

  /** Neither the bag nor a valid pool candidate answers. */
  ghost predicate MustFetch(env: Env, cert: CertInfo, n: nat, h: Held) {
    && NotInBag(h.bag, cert)
    && forall k: nat :: !UsableNow(env, env.candidates(cert.issuerName, cert.aki), true, env.now(n), k)
  }

  /** The certificates an object gives: those of a fetch within the budget that are not too large and parse. */
  ghost predicate Gives(env: Env, n: nat, url: string, budget: int, c: CertInfo) {
    && env.fetch(n, url).Fetched? && budget > 0 && |env.fetch(n, url).ders| <= MAX_AIA_CERTS
    && exists d :: d in env.fetch(n, url).ders && |d| <= CERT_SIZE && env.parse(d) == Some(c)
  }

  lemma {:induction false} UsableCertsAre(env: Env, ders: seq<Bytes>, c: CertInfo)
    ensures c in UsableCerts(env, ders) <==> exists d :: d in ders && |d| <= CERT_SIZE && env.parse(d) == Some(c)
  {
    if ders != [] {
      UsableCertsAre(env, ders[..|ders| - 1], c);
      assert ders == ders[..|ders| - 1] + [ders[|ders| - 1]];
    }
  }

  lemma ObjectGives(env: Env, n: nat, url: string, budget: int, c: CertInfo)
    ensures c in ObjectCerts(env, n, url, budget) <==> Gives(env, n, url, budget, c)
  {
    match env.fetch(n, url)
    case Fetched(ders) => UsableCertsAre(env, ders, c);
    case _ =>
  }

  /** The k-th fetch of the certificate's AIA URLs is the first whose object gives a certificate. */
  ghost predicate FirstToGive(env: Env, cert: CertInfo, h: Held, k: nat) {
    var urls := URLs.FirstUsable(cert.aiaURLs, MAX_AIA_URLS);
    && k < |urls| && (exists c :: GivesAt(env, urls, h, k, c))
    && forall j: nat, c :: j < k ==> !GivesAt(env, urls, h, j, c)
  }

  /** The k-th URL's object gives the certificate. */
  ghost predicate GivesAt(env: Env, urls: seq<string>, h: Held, k: nat, c: CertInfo) {
    k < |urls| && Gives(env, h.fetches + k, urls[k], BudgetAt(env, urls, h.fetches, h.budget, k), c)
  }

  lemma {:induction false} FirstObjectAt(env: Env, urls: seq<string>, n: nat, budget: int, k: nat)
    requires k < |urls| && ObjectAt(env, urls, n, budget, k) != []
    requires forall j :: 0 <= j < k ==> ObjectAt(env, urls, n, budget, j) == []
    ensures FirstObject(env, urls, n, budget) ==
      AIA(ObjectAt(env, urls, n, budget, k), n + k + 1, BudgetAt(env, urls, n, budget, k + 1))
  {
    if k > 0 {
      assert ObjectAt(env, urls, n, budget, 0) == [];
      ObjectShift(env, urls, n, budget, k);
      BudgetShift(env, urls, n, budget, k + 1);
      var rest, m, left := urls[1..], n + 1, Spent(env, n, urls[0], budget);
      forall j | 0 <= j < k - 1 ensures ObjectAt(env, rest, m, left, j) == [] {
        ObjectShift(env, urls, n, budget, j + 1);
      }
      FirstObjectAt(env, rest, m, left, k - 1);
    }
  }

  lemma {:induction false} NoObject(env: Env, urls: seq<string>, n: nat, budget: int)
    requires forall j :: 0 <= j < |urls| ==> ObjectAt(env, urls, n, budget, j) == []
    ensures FirstObject(env, urls, n, budget) == AIA([], n + |urls|, BudgetAt(env, urls, n, budget, |urls|))
  {
    if urls != [] {
      assert ObjectAt(env, urls, n, budget, 0) == [];
      BudgetShift(env, urls, n, budget, |urls|);
      var rest, m, left := urls[1..], n + 1, Spent(env, n, urls[0], budget);
      forall j | 0 <= j < |rest| ensures ObjectAt(env, rest, m, left, j) == [] {
        ObjectShift(env, urls, n, budget, j + 1);
      }
      NoObject(env, rest, m, left);
    }
  }
  lemma ObjectAtGives(env: Env, urls: seq<string>, h: Held, k: nat)
    requires k < |urls|
    ensures ObjectAt(env, urls, h.fetches, h.budget, k) != [] <==> exists c :: GivesAt(env, urls, h, k, c)
  {
    var infos := ObjectAt(env, urls, h.fetches, h.budget, k);
    forall c ensures c in infos <==> GivesAt(env, urls, h, k, c) {
      ObjectGives(env, h.fetches + k, urls[k], BudgetAt(env, urls, h.fetches, h.budget, k), c);
    }
    if infos != [] { assert GivesAt(env, urls, h, k, infos[0]); }
  }

  /**
   Else the certificate's AIA URLs are fetched in order: what the first object
   that gives certificates gives joins the bag, and the issuer is one of them.
   */
  lemma FoundByAIA(env: Env, cert: CertInfo, n: nat, h: Held, k: nat)
    requires MustFetch(env, cert, n, h) && FirstToGive(env, cert, h, k)
    ensures
      var urls := URLs.FirstUsable(cert.aiaURLs, MAX_AIA_URLS);
      var infos := ObjectAt(env, urls, h.fetches, h.budget, k);
      var (r, held) := Resolve(env, cert, n, h);
      && r.Some? && r.value.source == FromAIA && PicksFrom(cert, infos, r.value.info)
      && held.bag == h.bag + Labelled(infos, FromAIA) && held.fetches == h.fetches + k + 1
      && held.budget == BudgetAt(env, urls, h.fetches, h.budget, k + 1)
    ensures
      var urls := URLs.FirstUsable(cert.aiaURLs, MAX_AIA_URLS);
      forall c :: c in ObjectAt(env, urls, h.fetches, h.budget, k) <==> GivesAt(env, urls, h, k, c)
  {
    var urls := URLs.FirstUsable(cert.aiaURLs, MAX_AIA_URLS);
    forall c ensures c in ObjectAt(env, urls, h.fetches, h.budget, k) <==> GivesAt(env, urls, h, k, c) {
      ObjectGives(env, h.fetches + k, urls[k], BudgetAt(env, urls, h.fetches, h.budget, k), c);
    }
    ObjectAtGives(env, urls, h, k);
    forall j | 0 <= j < k ensures ObjectAt(env, urls, h.fetches, h.budget, j) == [] { ObjectAtGives(env, urls, h, j); }
    FirstObjectAt(env, urls, h.fetches, h.budget, k);
    BeyondTheBag(env, cert, n, h);
    NoneSiftedNow(env, env.candidates(cert.issuerName, cert.aki), true, env.now(n));
    PickIs(cert, ObjectAt(env, urls, h.fetches, h.budget, k));
  }

  /** The certificate's key identifier names this one's key. */
  predicate KeyMatch(cert: CertInfo, c: CertInfo) {
    cert.aki != "" && c.ski == cert.aki
  }

  /** Of an object: the first self-signed key match, else the first key match, else the first certificate. */
  ghost predicate PicksFrom(cert: CertInfo, infos: seq<CertInfo>, c: CertInfo) {
    if exists i :: 0 <= i < |infos| && KeyMatch(cert, infos[i]) && infos[i].selfSigned then
      exists k :: 0 <= k < |infos| && infos[k] == c && KeyMatch(cert, c) && c.selfSigned &&
        forall j :: 0 <= j < k ==> !(KeyMatch(cert, infos[j]) && infos[j].selfSigned)
    else if exists i :: 0 <= i < |infos| && KeyMatch(cert, infos[i]) then
      exists k :: 0 <= k < |infos| && infos[k] == c && KeyMatch(cert, c) &&
        forall j :: 0 <= j < k ==> !KeyMatch(cert, infos[j])
    else infos != [] && c == infos[0]
  }

  lemma {:induction false} FirstKeyMatchAt(cert: CertInfo, infos: seq<CertInfo>, selfSigned: bool) returns (k: nat)
    ensures FirstKeyMatch(cert, infos, selfSigned).Some? ==>
      && k < |infos| && FirstKeyMatch(cert, infos, selfSigned) == Some(infos[k])
      && KeyMatch(cert, infos[k]) && (selfSigned ==> infos[k].selfSigned)
      && forall j :: 0 <= j < k ==> !(KeyMatch(cert, infos[j]) && (selfSigned ==> infos[j].selfSigned))
  {
    k := 0;
    if infos != [] && !(KeyMatch(cert, infos[0]) && (selfSigned ==> infos[0].selfSigned)) {
      var later := FirstKeyMatchAt(cert, infos[1..], selfSigned);
      k := later + 1;
    }
  }

  lemma PickIs(cert: CertInfo, infos: seq<CertInfo>)
    requires infos != []
    ensures PickAIA(cert, infos).Some? && PicksFrom(cert, infos, PickAIA(cert, infos).value)
  {
    FirstKeyMatchIs(cert, infos, true);
    FirstKeyMatchIs(cert, infos, false);
    var best := FirstKeyMatchAt(cert, infos, true);
    var any := FirstKeyMatchAt(cert, infos, false);
  }

  /** No object gives a certificate either. */
  ghost predicate NothingFetched(env: Env, cert: CertInfo, h: Held) {
    forall k: nat, c :: !GivesAt(env, URLs.FirstUsable(cert.aiaURLs, MAX_AIA_URLS), h, k, c)
  }

  /** Then the budget left after all the fetches, the bag and what it is extended by. */
  ghost predicate AfterFetches(env: Env, cert: CertInfo, h: Held, held: Held, added: seq<BagCert>) {
    var urls := URLs.FirstUsable(cert.aiaURLs, MAX_AIA_URLS);
    held == Held(h.bag + added, h.fetches + |urls|, BudgetAt(env, urls, h.fetches, h.budget, |urls|))
  }

  lemma BeyondAIA(env: Env, cert: CertInfo, n: nat, h: Held)
    requires MustFetch(env, cert, n, h) && NothingFetched(env, cert, h)
    ensures
      var cands := env.candidates(cert.issuerName, cert.aki);
      var (r, held) := Resolve(env, cert, n, h);
      r == Fallback(env, cands, env.archiveNow(n)) && AfterFetches(env, cert, h, held, Fallen(env, cands))
  {
    var urls := URLs.FirstUsable(cert.aiaURLs, MAX_AIA_URLS);
    forall j | 0 <= j < |urls| ensures ObjectAt(env, urls, h.fetches, h.budget, j) == [] {
      ObjectAtGives(env, urls, h, j);
    }
    NoObject(env, urls, h.fetches, h.budget);
    BeyondTheBag(env, cert, n, h);
    NoneSiftedNow(env, env.candidates(cert.issuerName, cert.aki), true, env.now(n));
  }

  /** Else the first pool candidate that parses is used, valid or not. */
  lemma FoundExpired(env: Env, cert: CertInfo, n: nat, h: Held, k: nat)
    requires MustFetch(env, cert, n, h) && NothingFetched(env, cert, h)
    requires IsFirst(env, env.candidates(cert.issuerName, cert.aki), true, k)
    ensures
      var c := env.parse(env.candidates(cert.issuerName, cert.aki)[k].der).value;
      var (r, held) := Resolve(env, cert, n, h);
      r == Some(Link(c, FromPool)) && AfterFetches(env, cert, h, held, [])
  {
    BeyondAIA(env, cert, n, h);
    FirstSifted(env, env.candidates(cert.issuerName, cert.aki), true, k);
  }

  /** The archived candidate to use: the first valid one, without any the first. */
  ghost predicate IsArchivePick(env: Env, cands: seq<CertStore.Candidate>, t: int, k: nat) {
    if exists j: nat :: UsableNow(env, cands, false, t, j) then IsFirstNow(env, cands, false, t, k)
    else IsFirst(env, cands, false, k)
  }

  /** Without any in the pool, an archived one is used, and all of them join the bag. */
  lemma FoundArchived(env: Env, cert: CertInfo, n: nat, h: Held, k: nat)
    requires MustFetch(env, cert, n, h) && NothingFetched(env, cert, h)
    requires forall j: nat :: !Usable(env, env.candidates(cert.issuerName, cert.aki), true, j)
    requires IsArchivePick(env, env.candidates(cert.issuerName, cert.aki), env.archiveNow(n), k)
    ensures
      var cands := env.candidates(cert.issuerName, cert.aki);
      var (r, held) := Resolve(env, cert, n, h);
      && r == Some(Link(env.parse(cands[k].der).value, FromArchive))
      && AfterFetches(env, cert, h, held, Labelled(Archived(env, cands), FromArchive))
    ensures
      var cands := env.candidates(cert.issuerName, cert.aki);
      forall c :: c in Archived(env, cands) <==>
        exists j: nat :: Usable(env, cands, false, j) && env.parse(cands[j].der).value == c
  {
    var cands, t := env.candidates(cert.issuerName, cert.aki), env.archiveNow(n);
    BeyondAIA(env, cert, n, h);
    NoneSifted(env, cands, true);
    forall c ensures c in Archived(env, cands) <==>
      exists j: nat :: Usable(env, cands, false, j) && env.parse(cands[j].der).value == c
    {
      SiftedAre(env, cands, false, c);
    }
    ArchivePickIs(env, cands, t, k);
  }

  lemma ArchivePickIs(env: Env, cands: seq<CertStore.Candidate>, t: int, k: nat)
    requires IsArchivePick(env, cands, t, k)
    ensures k < |cands| && PickArchived(t, Archived(env, cands)) == env.parse(cands[k].der)
    ensures env.parse(cands[k].der).Some?
  {
    SiftedAre(env, cands, false, env.parse(cands[k].der).value);
    if j: nat :| UsableNow(env, cands, false, t, j) {
      FirstSiftedNow(env, cands, false, t, k);
    } else {
      NoneSiftedNow(env, cands, false, t);
      FirstSifted(env, cands, false, k);
    }
  }

  /** Nothing is found exactly when nothing anywhere parses: no bag match, no candidate, no object. */
  lemma NotFound(env: Env, cert: CertInfo, n: nat, h: Held)
    requires NotInBag(h.bag, cert) && NothingFetched(env, cert, h)
    requires forall pool, j: nat :: !Usable(env, env.candidates(cert.issuerName, cert.aki), pool, j)
    ensures
      var (r, held) := Resolve(env, cert, n, h);
      r == None && AfterFetches(env, cert, h, held, [])
  {
    var cands := env.candidates(cert.issuerName, cert.aki);
    forall k: nat ensures !UsableNow(env, cands, true, env.now(n), k) { assert !Usable(env, cands, true, k); }
    BeyondAIA(env, cert, n, h);
    NoneSifted(env, cands, true);
    NoneSifted(env, cands, false);
  }

  // ---------------------------------------------------------------- the analysis

  datatype Link = Link(info: CertInfo, source: Source)

  /** The state analyzeData keeps while it builds the chain. */
  class Analysis {
    const env: Env
    var bag: seq<BagCert>
    var budget: int
    var fetches: nat

    constructor (env: Env, bag: seq<BagCert>, budget: int)
      ensures this.env == env && View() == Held(bag, 0, budget)
    {
      this.env, this.bag, this.budget, this.fetches := env, bag, budget, 0;
    }

    ghost function View(): Held
      reads this
    {
      Held(bag, fetches, budget)
    }

    /** Fetches that succeeded leave at least this much of the bag's allowance. */
    ghost function Room(): int
      reads this
    {
      MAX_AIA_CERTS * if budget > 0 then budget else 0
    }

    /** Everything in the bag came out of the parser. */
    ghost predicate BagParsed()
      reads this
    {
      forall b :: b in bag ==> env.parse(b.info.der) == Some(b.info)
    }

    /** fetchWithInfo: a refused fetch costs nothing, any other one unit of the budget. */
    method Fetch(url: string) returns (ders: Option<seq<Bytes>>)
      modifies this`budget, this`fetches
      ensures fetches == old(fetches) + 1
      ensures budget == old(budget) - if env.fetch(old(fetches), url).RecentFailure? then 0 else 1
      ensures ders ==
        match env.fetch(old(fetches), url) case Fetched(d) => if old(budget) > 0 then Some(d) else None case _ => None
    {
      var n := fetches;
      fetches := fetches + 1;
      var r := env.fetch(n, url);
      if r.RecentFailure? { return None; }
      budget := budget - 1;
      if budget < 0 { return None; }
      return if r.Fetched? then Some(r.ders) else None;
    }

    /** Adds the usable certificates of an AIA object to the bag. */
    method AddFetched(ders: seq<Bytes>) returns (infos: seq<CertInfo>)
      requires |ders| <= MAX_AIA_CERTS && GoodEnv(env) && BagParsed()
      modifies this`bag
      ensures BagParsed() && |infos| <= |ders| && infos == UsableCerts(env, ders)
      ensures bag == old(bag) + Labelled(infos, FromAIA)
      ensures forall c :: c in infos ==> env.parse(c.der) == Some(c)
    {
      infos := [];
      for k := 0 to |ders|
        invariant |infos| <= k && BagParsed() && infos == UsableCerts(env, ders[..k])
        invariant bag == old(bag) + Labelled(infos, FromAIA)
        invariant forall c :: c in infos ==> env.parse(c.der) == Some(c)
      {
        assert ders[..k + 1][..k] == ders[..k];
        if |ders[k]| > CERT_SIZE { continue; }
        var info := env.parse(ders[k]);
        if info.None? { continue; }
        ghost var before := Labelled(infos, FromAIA);
        infos := infos + [info.value];
        bag := bag + [BagCert(info.value, FromAIA)];
        assert Labelled(infos, FromAIA) == before + [BagCert(info.value, FromAIA)];
      }
      assert ders[..|ders|] == ders;
    }

    /** One AIA URL: its certificates, none when it was not fetched or has too many. */
    method FetchObject(url: string) returns (infos: seq<CertInfo>)
      requires GoodEnv(env) && BagParsed()
      modifies this
      ensures infos == ObjectCerts(env, old(fetches), url, old(budget))
      ensures fetches == old(fetches) + 1 && budget == Spent(env, old(fetches), url, old(budget))
      ensures BagParsed() && bag == old(bag) + Labelled(infos, FromAIA)
      ensures |bag| + Room() <= |old(bag)| + old(Room())
      ensures forall c :: c in infos ==> env.parse(c.der) == Some(c)
    {
      infos := [];
      var ders := Fetch(url);
      if ders.None? || |ders.value| > MAX_AIA_CERTS { return; }
      infos := AddFetched(ders.value);
    }

    method SelectAIA(cert: CertInfo, infos: seq<CertInfo>) returns (r: Option<CertInfo>)
      ensures r == PickAIA(cert, infos)
      ensures r.Some? ==> r.value in infos
    {
      FirstKeyMatchIs(cert, infos, true);
      FirstKeyMatchIs(cert, infos, false);
      for k := 0 to |infos|
        invariant FirstKeyMatch(cert, infos, true) == FirstKeyMatch(cert, infos[k..], true)
      {
        if cert.aki != "" && infos[k].ski == cert.aki && infos[k].selfSigned { return Some(infos[k]); }
        assert infos[k..][1..] == infos[k + 1..];
      }
      for k := 0 to |infos|
        invariant FirstKeyMatch(cert, infos, false) == FirstKeyMatch(cert, infos[k..], false)
      {
        if cert.aki != "" && infos[k].ski == cert.aki { return Some(infos[k]); }
        assert infos[k..][1..] == infos[k + 1..];
      }
      return if |infos| > 0 then Some(infos[0]) else None;
    }

    /** The AIA step: the first object that gives a certificate decides, and only its certificates join the bag. */
    method FetchIssuer(cert: CertInfo) returns (r: Option<CertInfo>)
      requires GoodEnv(env) && BagParsed()
      modifies this
      ensures BagParsed() && budget <= old(budget)
      ensures |bag| + Room() <= |old(bag)| + old(Room())
      ensures
        var aia := AIAOf(env, cert, old(fetches), old(budget));
        && fetches == aia.fetches && budget == aia.budget
        && bag == old(bag) + Labelled(aia.infos, FromAIA) && r == PickAIA(cert, aia.infos)
      ensures r.Some? ==> env.parse(r.value.der) == r
    {
      var urls := URLs.UsableURLs(cert.aiaURLs, MAX_AIA_URLS);
      var infos := FetchFirst(urls);
      r := SelectAIA(cert, infos);
    }

    /** The certificates of the first object that has some. */
    method FetchFirst(urls: seq<string>) returns (infos: seq<CertInfo>)
      requires GoodEnv(env) && BagParsed()
      modifies this
      ensures BagParsed() && budget <= old(budget)
      ensures |bag| + Room() <= |old(bag)| + old(Room())
      ensures AIA(infos, fetches, budget) == FirstObject(env, urls, old(fetches), old(budget))
      ensures bag == old(bag) + Labelled(infos, FromAIA) && forall c :: c in infos ==> env.parse(c.der) == Some(c)
    {
      infos := [];
      ghost var aia := FirstObject(env, urls, fetches, budget);
      assert urls[0..] == urls;
      for k := 0 to |urls|
        invariant bag == old(bag) && BagParsed() && budget <= old(budget) && infos == []
        invariant aia == FirstObject(env, urls[k..], fetches, budget)
      {
        ghost var n, left := fetches, budget;
        infos := FetchObject(urls[k]);
        FirstObjectStep(env, urls, k, n, left, infos, budget);
        if infos != [] { return; }
      }
    }

    /** The archived candidates join the bag; the first valid one, else the oldest, is taken. */
    method ArchiveIssuer(archived: seq<CertInfo>, t: int) returns (r: Option<CertInfo>)
      requires BagParsed() && forall c :: c in archived ==> env.parse(c.der) == Some(c)
      modifies this`bag
      ensures BagParsed() && bag == old(bag) + Labelled(archived, FromArchive)
      ensures r == PickArchived(t, archived)
    {
      r := None;
      for k := 0 to |archived|
        invariant BagParsed() && bag == old(bag) + Labelled(archived[..k], FromArchive)
        invariant r == PickArchived(t, archived[..k])
      {
        var info := archived[k];
        bag := bag + [BagCert(info, FromArchive)];
        FirstValidAppend(t, archived[..k], info);
        FirstValidIsValid(t, archived[..k]);
        assert archived[..k + 1] == archived[..k] + [info];
        assert Labelled(archived[..k + 1], FromArchive) ==
          Labelled(archived[..k], FromArchive) + [BagCert(info, FromArchive)];
        if r.None? || (ValidAt(t, info) && !ValidAt(t, r.value)) { r := Some(info); }
      }
      assert archived[..|archived|] == archived;
    }

    /** The first match of the certificates the analysis holds. */
    method FindInBag(cert: CertInfo) returns (r: Option<Link>)
      ensures r == match FirstInBag(bag, cert) case None => None case Some(b) => Some(Link(b.info, b.source))
    {
      for k := 0 to |bag|
        invariant FirstInBag(bag, cert) == FirstInBag(bag[k..], cert)
      {
        var c := bag[k];
        if (cert.aki != "" && c.info.ski == cert.aki) || (cert.aki == "" && c.info.subjectName == cert.issuerName) {
          return Some(Link(c.info, c.source));
        }
        assert bag[k..][1..] == bag[k + 1..];
      }
      return None;
    }

    /** An expired pool match, else the archive. */
    method LastResort(cert: CertInfo, expired: Option<CertInfo>, archived: seq<CertInfo>, t: int)
      returns (r: Option<Link>)
      requires
        var cands := env.candidates(cert.issuerName, cert.aki);
        && expired == (if PoolCerts(env, cands) == [] then None else Some(PoolCerts(env, cands)[0]))
        && archived == Archived(env, cands)
      requires BagParsed() && forall c :: c in archived ==> env.parse(c.der) == Some(c)
      modifies this`bag
      ensures
        var cands := env.candidates(cert.issuerName, cert.aki);
        BagParsed() && bag == old(bag) + Fallen(env, cands) && r == Fallback(env, cands, t)
    {
      if expired.Some? { return Some(Link(expired.value, FromPool)); }
      var pick := ArchiveIssuer(archived, t);
      return if pick.None? then None else Some(Link(pick.value, FromArchive));
    }

    /** After the bag: a valid pool match, else AIA, else the last resort. */
    method BeyondBag(cert: CertInfo, n: nat) returns (r: Option<Link>)
      requires GoodEnv(env) && BagParsed()
      modifies this
      ensures BagParsed() && budget <= old(budget)
      ensures |bag| + Room() <= |old(bag)| + old(Room()) + 2 * ARCHIVE_SAMPLE
      ensures (r, View()) == Beyond(env, cert, n, old(View()))
      ensures r.Some? && r.value.source.FromAIA? ==> env.parse(r.value.info.der) == Some(r.value.info)
    {
      var cands := env.candidates(cert.issuerName, cert.aki);
      assert GoodCandidates(env, cert);
      CandidatesAreParsed(env, cands);
      var valid, expired, archived := SortCandidates(cands, env.now(n));
      if valid.Some? { return Some(Link(valid.value, FromPool)); }
      if |cert.aiaURLs| > 0 {
        var fetched := FetchIssuer(cert);
        if fetched.Some? { return Some(Link(fetched.value, FromAIA)); }
      }
      assert bag == old(bag);
      r := LastResort(cert, expired, archived, env.archiveNow(n));
    }

    /**
     resolveIssuer of a chain's n-th certificate: the first match of the bag;
     else the first valid pool match; else AIA; else the first expired pool
     match; else the archive.
     */
    method ResolveIssuer(cert: CertInfo, n: nat) returns (r: Option<Link>)
      requires GoodEnv(env) && BagParsed()
      modifies this
      ensures BagParsed() && budget <= old(budget)
      ensures |bag| + Room() <= |old(bag)| + old(Room()) + 2 * ARCHIVE_SAMPLE
      ensures (r, View()) == Resolve(env, cert, n, old(View()))
      ensures r.Some? ==> env.parse(r.value.info.der) == Some(r.value.info)
      ensures r.Some? && !r.value.source.FromAIA? ==> Issues(r.value.info, cert)
    {
      FirstInBagMatches(bag, cert);
      r := FindInBag(cert);
      if r.Some? { return; }
      BeyondIssues(env, cert, n, View());
      r := BeyondBag(cert, n);
    }

    /** The loop over the store's candidates; it stops at a valid pool match. */
    method SortCandidates(cands: seq<CertStore.Candidate>, t: int)
      returns (valid: Option<CertInfo>, expired: Option<CertInfo>, archived: seq<CertInfo>)
      ensures valid == FirstValid(t, PoolCerts(env, cands))
      ensures valid.None? ==> archived == Archived(env, cands)
      ensures valid.None? ==> expired == if PoolCerts(env, cands) == [] then None else Some(PoolCerts(env, cands)[0])
    {
      valid, expired, archived := None, None, [];
      for k := 0 to |cands|
        invariant archived == Archived(env, cands[..k])
        invariant FirstValid(t, PoolCerts(env, cands[..k])) == None
        invariant expired == if PoolCerts(env, cands[..k]) == [] then None else Some(PoolCerts(env, cands[..k])[0])
      {
        assert cands[..k + 1][..k] == cands[..k];
        ghost var pools := PoolCerts(env, cands[..k]);
        assert PoolCerts(env, cands[..k + 1]) == pools + One(env, cands[k], true);
        assert pools + [] == pools;
        var info := env.parse(cands[k].der);
        if info.None? { continue; }
        FirstValidAppend(t, PoolCerts(env, cands[..k]), info.value);
        if !cands[k].pool {
          archived := archived + [info.value];
        } else if ValidAt(t, info.value) {
          ValidIsFirst(env, cands, t, k);
          return Some(info.value), expired, archived;
        } else if expired.None? {
          expired := Some(info.value);
        }
      }
      assert cands[..|cands|] == cands;
    }
  }

  /** The first valid pool candidate is the answer whatever candidates follow it. */
  lemma {:induction false} ValidIsFirst(env: Env, cands: seq<CertStore.Candidate>, t: int, k: nat)
    requires k < |cands| && FirstValid(t, PoolCerts(env, cands[..k + 1])).Some?
    ensures FirstValid(t, PoolCerts(env, cands)) == FirstValid(t, PoolCerts(env, cands[..k + 1]))
  {
    var last := |cands| - 1;
    if k < last {
      assert cands[..last][..k + 1] == cands[..k + 1];
      ValidIsFirst(env, cands[..last], t, k);
      var c, pools := cands[last], PoolCerts(env, cands[..last]);
      assert PoolCerts(env, cands) == pools + One(env, c, true);
      if c.pool && env.parse(c.der).Some? {
        FirstValidAppend(t, pools, env.parse(c.der).value);
      } else {
        assert pools + [] == pools;
      }
    } else {
      assert cands[..k + 1] == cands;
    }
  }

  /** Every certificate but the first was named as issuer by the one before, unless AIA gave it. */
  predicate Linked(chain: seq<Link>) {
    forall k, k' :: 0 <= k && k' == k + 1 < |chain| ==>
      chain[k'].source.FromAIA? || Issues(chain[k'].info, chain[k].info)
  }

  predicate OnlyLastSelfSigned(chain: seq<Link>) {
    forall k :: 0 <= k < |chain| - 1 ==> !chain[k].info.selfSigned
  }

  ghost predicate DistinctDERs(chain: seq<Link>) {
    forall j, k :: 0 <= j < k < |chain| ==> chain[j].info.der != chain[k].info.der
  }

  /** The chain loop from a chain on: the chain built, None when the context is done, and what is then held. */
  ghost function Built(env: Env, chain: seq<Link>, h: Held): (Option<seq<Link>>, Held)
    requires chain != []
    decreases MAX_CHAIN_DEPTH - |chain|
  {
    var last := chain[|chain| - 1].info;
    if last.selfSigned || |chain| >= MAX_CHAIN_DEPTH then (Some(chain), h)
    else if env.done(|chain|) then (None, h)
    else
      var (next, held) := Resolve(env, last, |chain|, h);
      if next.None? || InChainAlready(chain, next.value) then (Some(chain), held)
      else Built(env, chain + [next.value], held)
  }

  /**
   Why a chain ends: its last certificate is self-signed, it has reached the
   depth limit, or resolving the last one's issuer found none or one already in
   the chain.
   */
  ghost predicate Stops(env: Env, chain: seq<Link>, after: Held)
    requires chain != []
  {
    || chain[|chain| - 1].info.selfSigned
    || |chain| >= MAX_CHAIN_DEPTH
    || exists before :: ResolvesToNoNew(env, chain, before, after)
  }

  ghost predicate ResolvesToNoNew(env: Env, chain: seq<Link>, before: Held, after: Held)
    requires chain != []
  {
    var (next, held) := Resolve(env, chain[|chain| - 1].info, |chain|, before);
    held == after && (next.None? || InChainAlready(chain, next.value))
  }

  lemma {:induction false} BuiltStops(env: Env, chain: seq<Link>, h: Held)
    requires chain != []
    ensures
      var (r, held) := Built(env, chain, h);
      r.Some? ==> r.value != [] && Stops(env, r.value, held)
    decreases MAX_CHAIN_DEPTH - |chain|
  {
    var last := chain[|chain| - 1].info;
    if !last.selfSigned && |chain| < MAX_CHAIN_DEPTH && !env.done(|chain|) {
      var (next, held) := Resolve(env, last, |chain|, h);
      if next.None? || InChainAlready(chain, next.value) {
        assert ResolvesToNoNew(env, chain, h, held);
      } else {
        BuiltStops(env, chain + [next.value], held);
      }
    }
  }

  /** Every certificate is what its predecessor's issuer resolved to, with what was then held. */
  ghost predicate Threads(env: Env, chain: seq<Link>, helds: seq<Held>) {
    && chain != [] && |helds| == |chain|
    && forall k, k' :: 0 <= k && k' == k + 1 < |chain| ==>
        Resolve(env, chain[k].info, k', helds[k]) == (Some(chain[k']), helds[k'])
  }

  /** A chain built is resolved link by link from its first certificate; none is built only when the context is done. */
  lemma {:induction false} BuiltThreads(env: Env, chain: seq<Link>, helds: seq<Held>) returns (all: seq<Held>)
    requires Threads(env, chain, helds)
    ensures
      var r := Built(env, chain, helds[|helds| - 1]).0;
      if r.Some? then
        chain <= r.value && helds <= all && Threads(env, r.value, all)
        && forall k :: |chain| <= k < |r.value| ==> !env.done(k)
      else exists k: nat :: |chain| <= k < MAX_CHAIN_DEPTH && env.done(k)
    decreases MAX_CHAIN_DEPTH - |chain|
  {
    all := helds;
    var last, h := chain[|chain| - 1].info, helds[|helds| - 1];
    if !last.selfSigned && |chain| < MAX_CHAIN_DEPTH && !env.done(|chain|) {
      var (next, held) := Resolve(env, last, |chain|, h);
      if next.Some? && !InChainAlready(chain, next.value) {
        all := BuiltThreads(env, chain + [next.value], helds + [held]);
      }
    }
  }

  /** The chain loop. */
  method ChainLoop(a: Analysis, leaf: CertInfo, source: Source) returns (r: Option<seq<Link>>)
    requires GoodEnv(a.env) && a.BagParsed() && a.env.parse(leaf.der) == Some(leaf)
    modifies a
    ensures a.BagParsed() && old(a.bag) <= a.bag
    ensures |a.bag| + a.Room() <= |old(a.bag)| + old(a.Room()) + 2 * ARCHIVE_SAMPLE * (MAX_CHAIN_DEPTH - 1)
    ensures (r, a.View()) == Built(a.env, [Link(leaf, source)], old(a.View()))
    ensures r.Some? ==>
      |r.value| <= MAX_CHAIN_DEPTH && r.value != [] && r.value[0] == Link(leaf, source) && GoodChain(a.env, r.value)
  {
    var chain := [Link(leaf, source)];
    var seen := {a.env.sha(leaf.der)};
    var current := leaf;
    ghost var whole := Built(a.env, chain, a.View());
    SeenFirst(a.env, chain[0]);
    while !current.selfSigned && |chain| < MAX_CHAIN_DEPTH
      invariant 1 <= |chain| <= MAX_CHAIN_DEPTH && chain[0] == Link(leaf, source) && current == chain[|chain| - 1].info
      invariant GoodChain(a.env, chain) && SeenAll(a.env, chain, seen)
      invariant whole == Built(a.env, chain, a.View())
      invariant a.BagParsed() && old(a.bag) <= a.bag
      invariant |a.bag| + a.Room() <= |old(a.bag)| + old(a.Room()) + 2 * ARCHIVE_SAMPLE * (|chain| - 1)
      decreases MAX_CHAIN_DEPTH - |chain|
    {
      if a.env.done(|chain|) { return None; }
      var next := NextLink(a, chain, seen);
      if next.None? { break; }
      SeenGrows(a.env, chain, seen, next.value);
      seen := seen + {a.env.sha(next.value.info.der)};
      ChainGrows(a.env, chain, next.value);
      chain := chain + [next.value];
      current := next.value.info;
    }
    return Some(chain);
  }

  /**
   The chain and what is then held; None when the context is done. With a
   budget of MAX_FETCHES, the bag stays within its initial size + 32*20 + 32*9.
   */
  method BuildChain(a: Analysis, leaf: CertInfo, source: Source) returns (r: Option<seq<Link>>)
    requires GoodEnv(a.env) && a.BagParsed() && a.env.parse(leaf.der) == Some(leaf) && a.budget <= MAX_FETCHES
    modifies a
    ensures a.BagParsed() && old(a.bag) <= a.bag
    ensures |a.bag| <= |old(a.bag)| + MAX_AIA_CERTS * MAX_FETCHES + 2 * ARCHIVE_SAMPLE * (MAX_CHAIN_DEPTH - 1)
    ensures (r, a.View()) == Built(a.env, [Link(leaf, source)], old(a.View()))
    ensures r.Some? ==>
      |r.value| <= MAX_CHAIN_DEPTH && r.value != [] && r.value[0] == Link(leaf, source) && GoodChain(a.env, r.value)
    ensures r.Some? ==> Stops(a.env, r.value, a.View())
  {
    BuiltStops(a.env, [Link(leaf, source)], a.View());
    r := ChainLoop(a, leaf, source);
  }

  lemma SeenFirst(env: Env, first: Link)
    ensures SeenAll(env, [first], {env.sha(first.info.der)})
  {
    assert [first][0] == first;
  }

  lemma SeenGrows(env: Env, chain: seq<Link>, seen: set<string>, next: Link)
    requires SeenAll(env, chain, seen)
    ensures SeenAll(env, chain + [next], seen + {env.sha(next.info.der)})
  {
    var all := chain + [next];
    assert all[|chain|] == next;
    forall s | s in seen ensures exists k :: 0 <= k < |all| && env.sha(all[k].info.der) == s {
      var k :| 0 <= k < |chain| && env.sha(chain[k].info.der) == s;
      assert all[k] == chain[k];
    }
  }

  ghost predicate GoodChain(env: Env, chain: seq<Link>) {
    && DistinctDERs(chain) && OnlyLastSelfSigned(chain) && Linked(chain)
    && forall k :: 0 <= k < |chain| ==> env.parse(chain[k].info.der) == Some(chain[k].info)
  }

  ghost predicate SeenAll(env: Env, chain: seq<Link>, seen: set<string>) {
    && (forall k :: 0 <= k < |chain| ==> env.sha(chain[k].info.der) in seen)
    && (forall s :: s in seen ==> exists k :: 0 <= k < |chain| && env.sha(chain[k].info.der) == s)
  }

  /** The issuer of the last certificate; none when it is not found or closes a loop. */
  method NextLink(a: Analysis, chain: seq<Link>, seen: set<string>) returns (next: Option<Link>)
    requires GoodEnv(a.env) && a.BagParsed() && chain != [] && SeenAll(a.env, chain, seen)
    modifies a
    ensures a.BagParsed() && old(a.bag) <= a.bag && a.budget <= old(a.budget)
    ensures |a.bag| + a.Room() <= |old(a.bag)| + old(a.Room()) + 2 * ARCHIVE_SAMPLE
    ensures next.Some? ==> Extends(a.env, chain, next.value)
    ensures
      var (found, held) := Resolve(a.env, chain[|chain| - 1].info, |chain|, old(a.View()));
      a.View() == held && next == if found.Some? && InChainAlready(chain, found.value) then None else found
  {
    next := a.ResolveIssuer(chain[|chain| - 1].info, |chain|);
    if next.Some? {
      SeenIff(a.env, chain, seen, next.value);
      if a.env.sha(next.value.info.der) in seen { return None; }
    }
  }

  ghost predicate InChainAlready(chain: seq<Link>, next: Link) {
    exists k :: 0 <= k < |chain| && chain[k].info.der == next.info.der
  }

  lemma SeenIff(env: Env, chain: seq<Link>, seen: set<string>, next: Link)
    requires Injective(env.sha) && SeenAll(env, chain, seen)
    ensures env.sha(next.info.der) in seen <==> InChainAlready(chain, next)
  {
    if env.sha(next.info.der) in seen {
      var k :| 0 <= k < |chain| && env.sha(chain[k].info.der) == env.sha(next.info.der);
      assert chain[k].info.der == next.info.der;
    }
  }

  ghost predicate Extends(env: Env, chain: seq<Link>, next: Link)
    requires chain != []
  {
    && env.parse(next.info.der) == Some(next.info)
    && (next.source.FromAIA? || Issues(next.info, chain[|chain| - 1].info))
    && forall k :: 0 <= k < |chain| ==> chain[k].info.der != next.info.der
  }

  /** A new issuer of the last certificate keeps the chain good. */
  lemma ChainGrows(env: Env, chain: seq<Link>, next: Link)
    requires chain != [] && GoodChain(env, chain) && !chain[|chain| - 1].info.selfSigned && Extends(env, chain, next)
    ensures GoodChain(env, chain + [next])
  {
  }

  // ---------------------------------------------------------------- candidates for the verifier

  /** What addCert fills: each DER once, self-signed ones apart. */
  class Candidates {
    const env: Env
    var roots: seq<Bytes>
    var intermediates: seq<Bytes>
    var seen: set<Bytes>

    ghost predicate Valid()
      reads this
    {
      && Distinct(roots + intermediates)
      && (forall d :: d in roots + intermediates <==> d in seen)
      && (forall d :: d in roots ==> env.parse(d).Some? && env.parse(d).value.selfSigned)
      && forall d :: d in intermediates ==> env.parse(d).Some? && !env.parse(d).value.selfSigned
    }

    constructor (env: Env)
      ensures Valid() && seen == {} && this.env == env
    {
      this.env := env;
      roots, intermediates, seen := [], [], {};
    }

    method Add(der: Bytes, selfSigned: bool)
      requires Valid() && env.parse(der).Some? && env.parse(der).value.selfSigned == selfSigned
      modifies this
      ensures Valid() && seen == old(seen) + {der}
      ensures old(roots) <= roots && old(intermediates) <= intermediates
    {
      if der in seen { return; }
      seen := seen + {der};
      AppendFresh(roots + intermediates, der);
      if selfSigned {
        InsertFresh(roots, intermediates, der);
        roots := roots + [der];
      } else {
        assert roots + (intermediates + [der]) == roots + intermediates + [der];
        intermediates := intermediates + [der];
      }
    }

    method AddChain(chain: seq<Link>)
      requires Valid() && chain != []
      requires forall l :: l in chain ==> env.parse(l.info.der) == Some(l.info)
      modifies this
      ensures Valid() && seen == old(seen) + InChain(chain)
    {
      if chain[0].info.selfSigned { Add(chain[0].info.der, true); }
      ghost var before := old(seen);
      for k := 1 to |chain|
        invariant Valid() && seen == before + InChain(chain[..k])
      {
        assert chain[k] in chain;
        Add(chain[k].info.der, chain[k].info.selfSigned);
        InChainNext(chain, k);
      }
      assert chain[..|chain|] == chain;
    }

    method AddBag(bag: seq<BagCert>)
      requires Valid() && forall b :: b in bag ==> env.parse(b.info.der) == Some(b.info)
      modifies this
      ensures Valid() && seen == old(seen) + set b | b in bag :: b.info.der
    {
      for k := 0 to |bag|
        invariant Valid() && seen == old(seen) + set b | b in bag[..k] :: b.info.der
      {
        Add(bag[k].info.der, bag[k].info.selfSigned);
        assert bag[..k + 1] == bag[..k] + [bag[k]];
      }
      assert bag[..|bag|] == bag;
    }

    method AddNamed(name: Bytes)
      requires Valid()
      modifies this
      ensures Valid() && seen == old(seen) + Parsed(env, env.poolIssuers(name))
    {
      var ders := env.poolIssuers(name);
      for k := 0 to |ders|
        invariant Valid() && seen == old(seen) + Parsed(env, ders[..k])
      {
        assert ders[..k + 1] == ders[..k] + [ders[k]];
        var info := env.parse(ders[k]);
        if info.None? { continue; }
        Add(ders[k], info.value.selfSigned);
      }
      assert ders[..|ders|] == ders;
    }

    /** The candidates of an analysis: exactly what it offers, each once, by whether it is self-signed. */
    method Collect(chain: seq<Link>, bag: seq<BagCert>)
      requires Valid() && seen == {} && chain != []
      requires forall l :: l in chain ==> env.parse(l.info.der) == Some(l.info)
      requires forall b :: b in bag ==> env.parse(b.info.der) == Some(b.info)
      modifies this
      ensures Distinct(roots + intermediates)
      ensures forall d :: d in roots <==>
        Offered(env, chain, bag, d) && env.parse(d).Some? && env.parse(d).value.selfSigned
      ensures forall d :: d in intermediates <==>
        Offered(env, chain, bag, d) && env.parse(d).Some? && !env.parse(d).value.selfSigned
    {
      AddChain(chain);
      AddBag(bag);
      ghost var held := seen;
      for k := 0 to |chain|
        invariant Valid() && seen == held + NamedBy(env, chain[..k])
      {
        assert chain[..k + 1] == chain[..k] + [chain[k]];
        if chain[k].info.issuerName == [] { continue; }
        AddNamed(chain[k].info.issuerName);
      }
      assert chain[..|chain|] == chain;
      forall d ensures d in seen <==> Offered(env, chain, bag, d) && env.parse(d).Some? {
        CollectedIsOffered(env, chain, bag, d);
      }
    }
  }

  /** The leaf only when it is its own anchor; every later link. */
  function InChain(chain: seq<Link>): set<Bytes>
    requires chain != []
  {
    (if chain[0].info.selfSigned then {chain[0].info.der} else {}) + set l | l in chain[1..] :: l.info.der
  }

  lemma InChainNext(chain: seq<Link>, k: nat)
    requires 0 < k < |chain|
    ensures InChain(chain[..k + 1]) == InChain(chain[..k]) + {chain[k].info.der}
  {
    assert chain[..k + 1][1..] == chain[..k][1..] + [chain[k]];
  }

  function Parsed(env: Env, ders: seq<Bytes>): set<Bytes> {
    set d | d in ders && env.parse(d).Some?
  }

  function NamedBy(env: Env, chain: seq<Link>): set<Bytes> {
    set l, d | l in chain && l.info.issuerName != [] && d in Parsed(env, env.poolIssuers(l.info.issuerName)) :: d
  }

  ghost predicate Offered(env: Env, chain: seq<Link>, bag: seq<BagCert>, d: Bytes)
    requires chain != []
  {
    || (chain[0].info.selfSigned && chain[0].info.der == d)
    || (exists l :: l in chain[1..] && l.info.der == d)
    || (exists b :: b in bag && b.info.der == d)
    || (exists l :: l in chain && l.info.issuerName != [] && d in env.poolIssuers(l.info.issuerName))
  }

  lemma CollectedIsOffered(env: Env, chain: seq<Link>, bag: seq<BagCert>, d: Bytes)
    requires chain != []
    requires forall l :: l in chain ==> env.parse(l.info.der) == Some(l.info)
    requires forall b :: b in bag ==> env.parse(b.info.der) == Some(b.info)
    ensures
      d in InChain(chain) + (set b | b in bag :: b.info.der) + NamedBy(env, chain) <==>
        Offered(env, chain, bag, d) && env.parse(d).Some?
  {
    assert d in InChain(chain) <==>
      (chain[0].info.selfSigned && chain[0].info.der == d) || exists l :: l in chain[1..] && l.info.der == d;
    assert d in InChain(chain) ==> env.parse(d).Some? by {
      assert chain[0] in chain;
    }
    forall l | l in chain && l.info.issuerName != [] && d in env.poolIssuers(l.info.issuerName) && env.parse(d).Some?
      ensures d in NamedBy(env, chain)
    {
      assert d in Parsed(env, env.poolIssuers(l.info.issuerName));
    }
  }

  lemma AppendFresh<T>(s: seq<T>, x: T)
    requires Distinct(s) && x !in s
    ensures Distinct(s + [x])
  {
  }

  lemma InsertFresh<T>(a: seq<T>, b: seq<T>, x: T)
    requires Distinct(a + b) && x !in a + b
    ensures Distinct(a + [x] + b)
  {
    var t := a + [x] + b;
    forall i, j | 0 <= i < j < |t| ensures t[i] != t[j] {
      var i' := if i <= |a| then i else i - 1;
      var j' := if j <= |a| then j else j - 1;
      assert i != |a| ==> t[i] == (a + b)[i'];
      assert j != |a| ==> t[j] == (a + b)[j'];
    }
  }
}
