/**
 The CRL and OCSP tables of internal/store/store.go. CRLs are stored once per
 content, URLs are mapped to them, and every save drops what has expired and
 what a newer CRL replaces. Calls are serialised; the clock never goes back.
 */
module CRLStore {
  import opened Common

  /** What a CRL's DER determines; sha is its content address. */
  datatype Env = Env(
    sha: Bytes -> string,
    issuer: Bytes -> string,
    thisUpdate: Bytes -> int,
    nextUpdate: Bytes -> int)

  datatype Row = Row(issuer: string, der: Bytes, thisUpdate: int, nextUpdate: int)

  /** crls is keyed by the unique column sha256, urls by url. */
  datatype Tables = Tables(crls: map<string, Row>, urls: map<string, string>)

  /** One call of SaveCRL; url is empty for an uploaded CRL. */
  datatype Save = Save(url: string, der: Bytes)

  function RowOf(env: Env, der: Bytes): Row {
    Row(env.issuer(der), der, env.thisUpdate(der), env.nextUpdate(der))
  }

  // ---------------------------------------------------------------- the statements of SaveCRL

  function Unexpired(crls: map<string, Row>, t: int): map<string, Row> {
    map s | s in crls && !(crls[s].nextUpdate < t) :: crls[s]
  }

  function Live(urls: map<string, string>, crls: map<string, Row>, t: int): map<string, string> {
    map u | u in urls && urls[u] in crls && crls[urls[u]].nextUpdate >= t :: urls[u]
  }

  function DropOlder(crls: map<string, Row>, urls: map<string, string>, issuer: string, thisUpdate: int): map<string,
      Row>
  {
    map s | s in crls && !(crls[s].issuer == issuer && crls[s].thisUpdate < thisUpdate && s !in urls.Values) :: crls[s]
  }

  /** SaveCRL; t0 and t1 are the clock readings of its two deletions. */
  function Saved(env: Env, tb: Tables, save: Save, t0: int, t1: int): Tables {
    var crls0 := Unexpired(tb.crls, t0);
    var urls0 := Live(tb.urls, crls0, t1);
    var sha := env.sha(save.der);
    var crls1 := if sha in crls0 then crls0 else crls0[sha := RowOf(env, save.der)];
    var urls1 := if save.url != "" then urls0[save.url := sha] else urls0;
    Tables(DropOlder(crls1, urls1, env.issuer(save.der), env.thisUpdate(save.der)), urls1)
  }

  // ---------------------------------------------------------------- the save log

  /** The DER last saved under a URL. */
  function LastSaved(log: seq<Save>, url: string): Option<Bytes> {
    if log == [] then None
    else if log[|log| - 1].url == url then Some(log[|log| - 1].der)
    else LastSaved(log[..|log| - 1], url)
  }

  /** What FindFreshCRL should answer: the last save under the URL, if still fresh. */
  function FreshFromLog(env: Env, log: seq<Save>, url: string, t: int): Option<Bytes> {
    var d := LastSaved(log, url);
    if url != "" && d.Some? && env.nextUpdate(d.value) > t then d else None
  }

  /** No save of the issuer is newer than this one. */
  ghost predicate Newest(env: Env, log: seq<Save>, der: Bytes) {
    forall k :: 0 <= k < |log| && env.issuer(log[k].der) == env.issuer(der) ==>
      env.thisUpdate(log[k].der) <= env.thisUpdate(der)
  }

  /** A fresh CRL of the issuer that no save of it is newer than. */
  ghost predicate FreshNewest(env: Env, log: seq<Save>, der: Bytes, issuer: string, t: int) {
    Newest(env, log, der) && env.issuer(der) == issuer && env.nextUpdate(der) > t
  }

  /** Every row is what its content determines. */
  ghost predicate RowsMatch(env: Env, crls: map<string, Row>) {
    forall s :: s in crls ==> crls[s] == RowOf(env, crls[s].der) && env.sha(crls[s].der) == s
  }

  ghost predicate RowsWereSaved(crls: map<string, Row>, log: seq<Save>) {
    forall s :: s in crls ==> exists k :: 0 <= k < |log| && log[k].der == crls[s].der
  }

  /** A URL maps to an existing row of its last save, and does so while that is unexpired. */
  ghost predicate UrlsMatch(env: Env, tb: Tables, log: seq<Save>, now: int) {
    && (forall u :: u in tb.urls ==>
        u != "" && tb.urls[u] in tb.crls && LastSaved(log, u) == Some(tb.crls[tb.urls[u]].der))
    && (forall u :: u != "" && LastSaved(log, u).Some? && env.nextUpdate(LastSaved(log, u).value) >= now ==>
        u in tb.urls)
  }

  ghost predicate NewestKept(env: Env, crls: map<string, Row>, log: seq<Save>, now: int) {
    forall k :: 0 <= k < |log| && Newest(env, log, log[k].der) && env.nextUpdate(log[k].der) >= now ==>
      env.sha(log[k].der) in crls
  }

  /** The tables agree with the log at time now. */
  ghost predicate Refines(env: Env, tb: Tables, log: seq<Save>, now: int) {
    && RowsMatch(env, tb.crls)
    && RowsWereSaved(tb.crls, log)
    && UrlsMatch(env, tb, log, now)
    && NewestKept(env, tb.crls, log, now)
  }

  function FindFresh(tb: Tables, url: string, t: int): Option<Bytes> {
    if url in tb.urls && tb.urls[url] in tb.crls && tb.crls[tb.urls[url]].nextUpdate > t
    then Some(tb.crls[tb.urls[url]].der) else None
  }

  lemma LastSavedAppend(log: seq<Save>, save: Save, url: string)
    ensures LastSaved(log + [save], url) == if save.url == url then Some(save.der) else LastSaved(log, url)
  {
    assert (log + [save])[..|log|] == log;
  }

  /** A row of Saved comes from before or is the one saved; a URL maps to a row that stays. */
  lemma SavedTables(env: Env, tb: Tables, save: Save, t0: int, t1: int)
    requires RowsMatch(env, tb.crls) && Injective(env.sha)
    ensures
      var tb' := Saved(env, tb, save, t0, t1);
      var sha := env.sha(save.der);
      && RowsMatch(env, tb'.crls)
      && (forall s :: s in tb'.crls ==> s == sha || (s in tb.crls && tb'.crls[s] == tb.crls[s]))
      && sha in tb'.crls && tb'.crls[sha] == RowOf(env, save.der)
      && (forall u :: u in tb'.urls ==> tb'.urls[u] in tb'.crls)
  {
    var tb' := Saved(env, tb, save, t0, t1);
    forall u | u in tb'.urls ensures tb'.urls[u] in tb'.crls {
      assert tb'.urls[u] in tb'.urls.Values;
    }
  }

  /**
   Which rows a save leaves besides its own: the unexpired ones that are of
   another issuer, no older, or mapped by a URL.
   */
  lemma SavedRowsIff(env: Env, tb: Tables, save: Save, t0: int, t1: int, s: string)
    requires RowsMatch(env, tb.crls) && s != env.sha(save.der)
    ensures
      var tb' := Saved(env, tb, save, t0, t1);
      s in tb'.crls <==>
        s in tb.crls && tb.crls[s].nextUpdate >= t0
        && (tb.crls[s].issuer != env.issuer(save.der) || tb.crls[s].thisUpdate >= env.thisUpdate(save.der)
            || exists u :: u in tb'.urls && tb'.urls[u] == s)
    ensures
      var tb' := Saved(env, tb, save, t0, t1);
      forall u :: u in tb'.urls && u != save.url ==> u in tb.urls && tb'.urls[u] == tb.urls[u]
  {
    var urls := Saved(env, tb, save, t0, t1).urls;
    if s in urls.Values {
      var u :| u in urls && urls[u] == s;
    }
  }

  lemma SaveKeepsWereSaved(env: Env, tb: Tables, log: seq<Save>, save: Save, t0: int, t1: int)
    requires RowsMatch(env, tb.crls) && Injective(env.sha) && RowsWereSaved(tb.crls, log)
    ensures RowsWereSaved(Saved(env, tb, save, t0, t1).crls, log + [save])
  {
    var tb', log' := Saved(env, tb, save, t0, t1), log + [save];
    SavedTables(env, tb, save, t0, t1);
    forall s | s in tb'.crls ensures exists k :: 0 <= k < |log'| && log'[k].der == tb'.crls[s].der {
      if s == env.sha(save.der) {
        assert log'[|log|].der == tb'.crls[s].der;
      } else {
        var k :| 0 <= k < |log| && log[k].der == tb.crls[s].der;
        assert log'[k].der == tb'.crls[s].der;
      }
    }
  }

  lemma SaveKeepsUrls(env: Env, tb: Tables, log: seq<Save>, now: int, save: Save, t0: int, t1: int)
    requires RowsMatch(env, tb.crls) && Injective(env.sha) && UrlsMatch(env, tb, log, now) && now <= t0 <= t1
    ensures UrlsMatch(env, Saved(env, tb, save, t0, t1), log + [save], t1)
  {
    var tb', log' := Saved(env, tb, save, t0, t1), log + [save];
    SavedTables(env, tb, save, t0, t1);
    forall u ensures
      && (u in tb'.urls ==> u != "" && LastSaved(log', u) == Some(tb'.crls[tb'.urls[u]].der))
      && (u != "" && LastSaved(log', u).Some? && env.nextUpdate(LastSaved(log', u).value) >= t1 ==> u in tb'.urls)
    {
      LastSavedAppend(log, save, u);
    }
  }

  lemma SaveKeepsNewest(env: Env, tb: Tables, log: seq<Save>, now: int, save: Save, t0: int, t1: int)
    requires RowsMatch(env, tb.crls) && Injective(env.sha) && NewestKept(env, tb.crls, log, now) && now <= t0 <= t1
    ensures NewestKept(env, Saved(env, tb, save, t0, t1).crls, log + [save], t1)
  {
    var tb', log' := Saved(env, tb, save, t0, t1), log + [save];
    SavedTables(env, tb, save, t0, t1);
    forall k | 0 <= k < |log'| && Newest(env, log', log'[k].der) && env.nextUpdate(log'[k].der) >= t1
      ensures env.sha(log'[k].der) in tb'.crls
    {
      if k < |log| {
        var d := log[k].der;
        forall j | 0 <= j < |log| && env.issuer(log[j].der) == env.issuer(d)
          ensures env.thisUpdate(log[j].der) <= env.thisUpdate(d) { assert log'[j] == log[j]; }
        assert Newest(env, log, d);
        assert tb.crls[env.sha(d)].der == d;
        assert log'[|log|] == save;
      }
    }
  }

  /** SaveCRL keeps the tables in agreement with the log. */
  lemma SaveRefines(env: Env, tb: Tables, log: seq<Save>, now: int, save: Save, t0: int, t1: int)
    requires Injective(env.sha) && Refines(env, tb, log, now) && now <= t0 <= t1
    ensures Refines(env, Saved(env, tb, save, t0, t1), log + [save], t1)
  {
    SavedTables(env, tb, save, t0, t1);
    SaveKeepsWereSaved(env, tb, log, save, t0, t1);
    SaveKeepsUrls(env, tb, log, now, save, t0, t1);
    SaveKeepsNewest(env, tb, log, now, save, t0, t1);
  }

  /** FindFreshCRL answers from the log, despite deduplication, remapping and deletion. */
  lemma FindFreshIsLog(env: Env, tb: Tables, log: seq<Save>, now: int, url: string, t: int)
    requires Refines(env, tb, log, now) && now <= t
    ensures FindFresh(tb, url, t) == FreshFromLog(env, log, url, t)
  {
  }

  // ---------------------------------------------------------------- answers by issuer

  predicate FreshRow(crls: map<string, Row>, s: string, issuer: string, t: int) {
    s in crls && crls[s].issuer == issuer && crls[s].nextUpdate > t
  }

  /** best is the thisUpdate FindFreshCRLByIssuer answers with. */
  ghost predicate IsAnswer(crls: map<string, Row>, issuer: string, t: int, best: Option<int>) {
    match best
    case None => forall s :: !FreshRow(crls, s, issuer, t)
    case Some(m) =>
      && (exists s :: FreshRow(crls, s, issuer, t) && crls[s].thisUpdate == m)
      && forall s :: FreshRow(crls, s, issuer, t) ==> crls[s].thisUpdate <= m
  }

  function Later(best: Option<int>, m: int): int {
    if best.Some? && best.value > m then best.value else m
  }

  /**
   Saving a fresh CRL makes the issuer's answer the later of the old one and it.
   */
  lemma SaveRaisesAnswer(env: Env, tb: Tables, save: Save, t0: int, t1: int, t: int, best: Option<int>)
    requires Injective(env.sha)
    requires RowsMatch(env, tb.crls)
    requires t0 <= t1 <= t && env.nextUpdate(save.der) > t
    requires IsAnswer(tb.crls, env.issuer(save.der), t, best)
    ensures
      var later := Later(best, env.thisUpdate(save.der));
      IsAnswer(Saved(env, tb, save, t0, t1).crls, env.issuer(save.der), t, Some(later))
  {
    var tb', issuer, m := Saved(env, tb, save, t0, t1), env.issuer(save.der), env.thisUpdate(save.der);
    SavedTables(env, tb, save, t0, t1);
    if best.Some? && best.value > m {
      var s :| FreshRow(tb.crls, s, issuer, t) && tb.crls[s].thisUpdate == best.value;
      NewerStays(env, tb, save, t0, t1, t, s);
    } else {
      assert FreshRow(tb'.crls, env.sha(save.der), issuer, t);
    }
    forall s | FreshRow(tb'.crls, s, issuer, t) ensures tb'.crls[s].thisUpdate <= Later(best, m) {
      if s != env.sha(save.der) { assert FreshRow(tb.crls, s, issuer, t); }
    }
  }

  /** A fresh row no older than the CRL saved stays. */
  lemma NewerStays(env: Env, tb: Tables, save: Save, t0: int, t1: int, t: int, s: string)
    requires Injective(env.sha) && RowsMatch(env, tb.crls) && t0 <= t1 <= t
    requires s in tb.crls && tb.crls[s].nextUpdate > t && tb.crls[s].thisUpdate >= env.thisUpdate(save.der)
    ensures s in Saved(env, tb, save, t0, t1).crls && Saved(env, tb, save, t0, t1).crls[s] == tb.crls[s]
  {
  }

  /** Saving a CRL changes nothing any other issuer is answered with. */
  lemma SaveKeepsOtherIssuers(env: Env, tb: Tables, save: Save, t0: int, t1: int, t: int, issuer: string, s: string)
    requires Injective(env.sha)
    requires RowsMatch(env, tb.crls)
    requires t0 <= t1 <= t && issuer != env.issuer(save.der)
    ensures FreshRow(Saved(env, tb, save, t0, t1).crls, s, issuer, t) <==> FreshRow(tb.crls, s, issuer, t)
    ensures FreshRow(tb.crls, s, issuer, t) ==> Saved(env, tb, save, t0, t1).crls[s] == tb.crls[s]
  {
    SavedTables(env, tb, save, t0, t1);
  }

  /** Some URL other than the one saved under is mapped to the row. */
  ghost predicate OtherwiseMapped(urls: map<string, string>, s: string, url: string) {
    exists u :: u in urls && urls[u] == s && (url == "" || u != url)
  }

  /** A fresh row of the same issuer that is no older than the CRL saved, or mapped by another URL. */
  ghost predicate Outlasts(env: Env, tb: Tables, save: Save, s: string, t: int) {
    && FreshRow(tb.crls, s, env.issuer(save.der), t)
    && (tb.crls[s].thisUpdate >= env.thisUpdate(save.der) || OtherwiseMapped(tb.urls, s, save.url))
  }

  /**
   A CRL that is not fresh itself, such as one without nextUpdate, still drops
   older ones: its issuer keeps an answer exactly when, before the save, some
   fresh row is no older than the CRL saved or is mapped by another URL.
   */
  lemma StaleSaveKeepsAnswerIff(env: Env, tb: Tables, save: Save, t0: int, t1: int, t: int)
    requires Injective(env.sha)
    requires RowsMatch(env, tb.crls)
    requires t0 <= t1 <= t && env.nextUpdate(save.der) <= t
    ensures
      var issuer := env.issuer(save.der);
      !IsAnswer(Saved(env, tb, save, t0, t1).crls, issuer, t, None) <==>
      exists s :: Outlasts(env, tb, save, s, t)
  {
    var tb', issuer := Saved(env, tb, save, t0, t1), env.issuer(save.der);
    SavedTables(env, tb, save, t0, t1);
    forall s | FreshRow(tb.crls, s, issuer, t) ensures s in tb'.urls.Values <==> OtherwiseMapped(tb.urls, s, save.url) {
      FreshRowMapped(env, tb, save, t0, t1, t, s);
    }
    if s :| FreshRow(tb'.crls, s, issuer, t) {
      assert FreshRow(tb.crls, s, issuer, t) && Outlasts(env, tb, save, s, t);
    }
    if s :| Outlasts(env, tb, save, s, t) {
      assert FreshRow(tb'.crls, s, issuer, t);
    }
  }

  /** A fresh row stays mapped by exactly the URLs other than the one saved under. */
  lemma FreshRowMapped(env: Env, tb: Tables, save: Save, t0: int, t1: int, t: int, s: string)
    requires Injective(env.sha) && RowsMatch(env, tb.crls) && t0 <= t1 <= t && env.nextUpdate(save.der) <= t
    requires s in tb.crls && tb.crls[s].nextUpdate > t
    ensures s in Saved(env, tb, save, t0, t1).urls.Values <==> OtherwiseMapped(tb.urls, s, save.url)
  {
    var tb' := Saved(env, tb, save, t0, t1);
    if s in tb'.urls.Values {
      var u :| u in tb'.urls && tb'.urls[u] == s;
      assert s != env.sha(save.der);
    }
    if u :| u in tb.urls && tb.urls[u] == s && (save.url == "" || u != save.url) {
      assert u in tb'.urls && tb'.urls[u] == s;
    }
  }

  /** The loss happens: an uploaded CRL, fresh until 100, is forgotten when a later one without nextUpdate is saved. */
  lemma StaleSaveForgets(sha: Bytes -> string)
    requires Injective(sha)
    ensures
      var zeroTime := -62135596800;
      var env := Env(sha, _ => "CA", d => |d|, d => if |d| == 1 then 100 else zeroTime);
      var before := Saved(env, Tables(map[], map[]), Save("", [48]), 10, 10);
      var after := Saved(env, before, Save("http://ca.test/crl", [48, 48]), 20, 20);
      IsAnswer(before.crls, "CA", 20, Some(1)) && IsAnswer(after.crls, "CA", 20, None)
  {
    var env := Env(sha, _ => "CA", d => |d|, d => if |d| == 1 then 100 else -62135596800);
    var old1, new1: Bytes := [48], [48, 48];
    var before := Saved(env, Tables(map[], map[]), Save("", old1), 10, 10);
    assert sha(old1) != sha(new1) by { assert old1 != new1; }
    assert before.crls == map[sha(old1) := RowOf(env, old1)];
    assert FreshRow(before.crls, sha(old1), "CA", 20);
    var after := Saved(env, before, Save("http://ca.test/crl", new1), 20, 20);
    assert after.urls == map["http://ca.test/crl" := sha(new1)];
  }

  /**
   Over any run of saves a still fresh CRL no save of its issuer is newer than
   is found: the answer by issuer is never older than it.
   */
  lemma NewestIsNeverLost(env: Env, tb: Tables, log: seq<Save>, now: int, k: nat, t: int, best: Option<int>)
    requires Injective(env.sha) && Refines(env, tb, log, now) && now <= t
    requires k < |log| && Newest(env, log, log[k].der) && env.nextUpdate(log[k].der) > t
    requires IsAnswer(tb.crls, env.issuer(log[k].der), t, best)
    ensures best == Some(env.thisUpdate(log[k].der))
  {
    assert FreshRow(tb.crls, env.sha(log[k].der), env.issuer(log[k].der), t) by {
      var row := tb.crls[env.sha(log[k].der)];
      assert env.sha(row.der) == env.sha(log[k].der);
      SameContent(env, tb, log, now, k);
    }
    assert tb.crls[env.sha(log[k].der)].thisUpdate == env.thisUpdate(log[k].der) by {
      SameContent(env, tb, log, now, k);
    }
    var s :| FreshRow(tb.crls, s, env.issuer(log[k].der), t) && tb.crls[s].thisUpdate == best.value;
    var j :| 0 <= j < |log| && log[j].der == tb.crls[s].der;
  }

  lemma SameContent(env: Env, tb: Tables, log: seq<Save>, now: int, k: nat)
    requires Injective(env.sha) && Refines(env, tb, log, now) && k < |log| && env.sha(log[k].der) in tb.crls
    ensures tb.crls[env.sha(log[k].der)] == RowOf(env, log[k].der)
  {
  }

  // ---------------------------------------------------------------- whole runs

  /** The tables after a run of saves from an empty database, with the clock readings of each. */
  function Replay(env: Env, log: seq<Save>, clock: seq<(int, int)>): Tables
    requires |clock| == |log|
  {
    if log == [] then Tables(map[], map[])
    else
      var k := |log| - 1;
      Saved(env, Replay(env, log[..k], clock[..k]), log[k], clock[k].0, clock[k].1)
  }

  ghost predicate Ascending(clock: seq<(int, int)>, t: int) {
    && (forall k :: 0 <= k < |clock| ==> clock[k].0 <= clock[k].1 <= t)
    && (forall k, l :: 0 <= k < l < |clock| ==> clock[k].1 <= clock[l].0)
  }

  lemma {:induction false} ReplayRefines(env: Env, log: seq<Save>, clock: seq<(int, int)>, t: int)
    requires Injective(env.sha) && |clock| == |log| && Ascending(clock, t)
    ensures Refines(env, Replay(env, log, clock), log, t)
  {
    if log != [] {
      var k := |log| - 1;
      ReplayRefines(env, log[..k], clock[..k], clock[k].0);
      ReplayNext(env, log, clock);
      StillRefines(env, Replay(env, log, clock), log, clock[k].1, t);
    } else {
      EmptyRefines(env, t);
    }
  }

  lemma {:induction false} ReplayNext(env: Env, log: seq<Save>, clock: seq<(int, int)>)
    requires Injective(env.sha) && log != [] && |clock| == |log|
    requires
      var k := |log| - 1;
      clock[k].0 <= clock[k].1 && Refines(env, Replay(env, log[..k], clock[..k]), log[..k], clock[k].0)
    ensures Refines(env, Replay(env, log, clock), log, clock[|log| - 1].1)
  {
    var k := |log| - 1;
    SaveRefines(env, Replay(env, log[..k], clock[..k]), log[..k], clock[k].0, log[k], clock[k].0, clock[k].1);
    assert log[..k] + [log[k]] == log;
  }

  lemma EmptyRefines(env: Env, t: int)
    ensures Refines(env, Tables(map[], map[]), [], t)
  {
  }

  /** The tables agree with the log at every later time. */
  lemma StillRefines(env: Env, tb: Tables, log: seq<Save>, now: int, t: int)
    requires Refines(env, tb, log, now) && now <= t
    ensures Refines(env, tb, log, t)
  {
  }

  /** After any run of saves, FindFreshCRL answers as the plain save log does. */
  lemma ReplayFindsLog(env: Env, log: seq<Save>, clock: seq<(int, int)>, url: string, t: int)
    requires Injective(env.sha) && |clock| == |log| && Ascending(clock, t)
    ensures FindFresh(Replay(env, log, clock), url, t) == FreshFromLog(env, log, url, t)
    ensures forall u :: u in Replay(env, log, clock).urls ==>
      Replay(env, log, clock).urls[u] in Replay(env, log, clock).crls
  {
    ReplayRefines(env, log, clock, t);
    FindFreshIsLog(env, Replay(env, log, clock), log, t, url, t);
  }

  /** The CRL saved last is found under its URL until it expires. */
  lemma LastIsFound(env: Env, tb: Tables, log: seq<Save>, now: int)
    requires Injective(env.sha) && Refines(env, tb, log, now) && log != []
    ensures
      var save := log[|log| - 1];
      forall t :: save.url != "" && now <= t < env.nextUpdate(save.der) ==> FindFresh(tb, save.url, t) == Some(save.der)
  {
    var save := log[|log| - 1];
    forall t | save.url != "" && now <= t < env.nextUpdate(save.der)
      ensures FindFresh(tb, save.url, t) == Some(save.der)
    {
      FindFreshIsLog(env, tb, log, now, save.url, t);
    }
  }

  // ---------------------------------------------------------------- the object

  class Store {
    const env: Env
    var crls: map<string, Row>
    var crlUrls: map<string, string>
    ghost var log: seq<Save>
    ghost var now: int

    ghost predicate Valid()
      reads this
    {
      Injective(env.sha) && Refines(env, Tables(crls, crlUrls), log, now)
    }

    constructor (env: Env)
      requires Injective(env.sha)
      ensures Valid() && log == [] && now == 0 && this.env == env && crls == map[] && crlUrls == map[]
    {
      this.env := env;
      crls, crlUrls := map[], map[];
      log, now := [], 0;
    }

    method SaveCRL(url: string, der: Bytes, t0: int, t1: int)
      requires Valid() && now <= t0 <= t1
      modifies this
      ensures Valid() && log == old(log) + [Save(url, der)] && now == t1
      ensures Tables(crls, crlUrls) == Saved(env, old(Tables(crls, crlUrls)), Save(url, der), t0, t1)
    {
      SaveRefines(env, Tables(crls, crlUrls), log, now, Save(url, der), t0, t1);
      Write(url, der, t0, t1);
      log, now := log + [Save(url, der)], t1;
    }

    /** The statements of SaveCRL. */
    method Write(url: string, der: Bytes, t0: int, t1: int)
      modifies this`crls, this`crlUrls
      ensures Tables(crls, crlUrls) == Saved(env, old(Tables(crls, crlUrls)), Save(url, der), t0, t1)
    {
      crls := map s | s in crls && !(crls[s].nextUpdate < t0) :: crls[s];
      crlUrls := map u | u in crlUrls && crlUrls[u] in crls && crls[crlUrls[u]].nextUpdate >= t1 :: crlUrls[u];
      var sha := env.sha(der);
      if sha !in crls {
        crls := crls[sha := Row(env.issuer(der), der, env.thisUpdate(der), env.nextUpdate(der))];
      }
      if url != "" {
        crlUrls := crlUrls[url := sha];
      }
      crls := map s | s in crls &&
        !(crls[s].issuer == env.issuer(der) && crls[s].thisUpdate < env.thisUpdate(der) && s !in crlUrls.Values)
        :: crls[s];
    }

    /** The join on sha256, fresh rows only. */
    method FindFreshCRL(url: string, t: int) returns (der: Option<Bytes>)
      requires Valid() && now <= t
      ensures der == FreshFromLog(env, log, url, t)
    {
      FindFreshIsLog(env, Tables(crls, crlUrls), log, now, url, t);
      if url in crlUrls && crlUrls[url] in crls && crls[crlUrls[url]].nextUpdate > t {
        return Some(crls[crlUrls[url]].der);
      }
      return None;
    }

    /** ORDER BY this_update DESC LIMIT 1: ties are left to the database. */
    method FindFreshCRLByIssuer(issuer: string, t: int) returns (der: Option<Bytes>)
      requires Valid() && now <= t
      ensures issuer == "" ==> der == None
      ensures issuer != "" ==> IsAnswer(crls, issuer, t, if der.Some? then Some(env.thisUpdate(der.value)) else None)
      ensures der.Some? ==> env.issuer(der.value) == issuer && env.nextUpdate(der.value) > t
      ensures forall k :: 0 <= k < |log| && FreshNewest(env, log, log[k].der, issuer, t) && issuer != "" ==>
        der.Some? && env.thisUpdate(der.value) == env.thisUpdate(log[k].der)
    {
      if issuer == "" { return None; }
      var best: Option<string> := None;
      var todo := crls.Keys;
      while todo != {}
        invariant todo <= crls.Keys
        invariant best.Some? ==> FreshRow(crls, best.value, issuer, t)
        invariant forall s :: s !in todo && FreshRow(crls, s, issuer, t) ==>
          best.Some? && crls[s].thisUpdate <= crls[best.value].thisUpdate
        decreases todo
      {
        var s :| s in todo;
        if FreshRow(crls, s, issuer, t) && (best.None? || crls[s].thisUpdate > crls[best.value].thisUpdate) {
          best := Some(s);
        }
        todo := todo - {s};
      }
      der := if best.Some? then Some(crls[best.value].der) else None;
      ghost var answer := if der.Some? then Some(env.thisUpdate(der.value)) else None;
      assert IsAnswer(crls, issuer, t, answer);
      forall k | 0 <= k < |log| && FreshNewest(env, log, log[k].der, issuer, t)
        ensures answer == Some(env.thisUpdate(log[k].der))
      {
        NewestIsNeverLost(env, Tables(crls, crlUrls), log, now, k, t, answer);
      }
    }
  }
}

/** The OCSP table: one response per certificate, expired ones dropped at each save. */
module OCSPStore {
  import opened Common

  /** thumb is the certificate's upper-case SHA-1; without nextUpdate a response does not expire here. */
  datatype Row = Row(thumb: string, der: Bytes, thisUpdate: int, nextUpdate: Option<int>)

  predicate Fresh(r: Row, t: int) {
    r.nextUpdate.None? || r.nextUpdate.value > t
  }

  predicate Unexpired(r: Row, t: int) {
    r.nextUpdate.None? || r.nextUpdate.value >= t
  }

  /** The rows SaveOCSP's deletion leaves. */
  predicate Kept(r: Row, thumb: string, t: int) {
    r.thumb != thumb && !(r.nextUpdate.Some? && r.nextUpdate.value < t)
  }

  function LastFor(log: seq<Row>, thumb: string): Option<Row> {
    if log == [] then None
    else if log[|log| - 1].thumb == thumb then Some(log[|log| - 1])
    else LastFor(log[..|log| - 1], thumb)
  }

  lemma LastForAppend(log: seq<Row>, r: Row, thumb: string)
    ensures LastFor(log + [r], thumb) == if r.thumb == thumb then Some(r) else LastFor(log, thumb)
  {
    assert (log + [r])[..|log|] == log;
  }

  lemma {:induction false} LastForThumb(log: seq<Row>, thumb: string)
    requires LastFor(log, thumb).Some?
    ensures LastFor(log, thumb).value.thumb == thumb
  {
    if log[|log| - 1].thumb != thumb { LastForThumb(log[..|log| - 1], thumb); }
  }

  /** Each row is the last save for its certificate; an unexpired last save has its row. */
  ghost predicate Refines(rows: seq<Row>, log: seq<Row>, now: int) {
    && (forall i :: 0 <= i < |rows| ==> LastFor(log, rows[i].thumb) == Some(rows[i]))
    && (forall i, j :: 0 <= i < j < |rows| ==> rows[i].thumb != rows[j].thumb)
    && (forall thumb :: LastFor(log, thumb).Some? ==>
        var r := LastFor(log, thumb).value;
        r.nextUpdate.None? || r.nextUpdate.value >= now ==> r in rows)
  }

  class Store {
    var rows: seq<Row>
    ghost var log: seq<Row>
    ghost var now: int

    ghost predicate Valid()
      reads this
    {
      Refines(rows, log, now)
    }

    constructor ()
      ensures Valid() && log == [] && now == 0
    {
      rows, log, now := [], [], 0;
    }

    method SaveOCSP(r: Row, t: int)
      requires Valid() && now <= t
      modifies this
      ensures Valid() && log == old(log) + [r] && now == t
      ensures forall x :: x in rows <==> x == r || (x in old(rows) && x.thumb != r.thumb && Unexpired(x, t))
    {
      var kept: seq<Row> := [];
      for i := 0 to |rows|
        invariant forall x :: x in kept <==> x in rows[..i] && Kept(x, r.thumb, t)
        invariant forall x :: x in kept ==> exists k :: 0 <= k < i && rows[k] == x
        invariant forall k, l :: 0 <= k < l < |kept| ==> kept[k].thumb != kept[l].thumb
      {
        forall k | 0 <= k < |kept| ensures kept[k].thumb != rows[i].thumb {
          assert kept[k] in kept;
          var j :| 0 <= j < i && rows[j] == kept[k];
        }
        if Kept(rows[i], r.thumb, t) { kept := kept + [rows[i]]; }
      }
      assert rows[..|rows|] == rows;
      ghost var before := rows;
      rows := kept + [r];
      log, now := log + [r], t;
      forall thumb ensures LastFor(log, thumb) == if r.thumb == thumb then Some(r) else LastFor(old(log), thumb) {
        LastForAppend(old(log), r, thumb);
      }
      forall thumb | LastFor(log, thumb).Some? && Unexpired(LastFor(log, thumb).value, t)
        ensures LastFor(log, thumb).value in rows
      {
        if thumb == r.thumb {
          assert rows[|kept|] == r;
        } else {
          ghost var last := LastFor(old(log), thumb).value;
          assert last in before;
          LastForThumb(old(log), thumb);
          assert last in kept;
        }
      }
      forall i | 0 <= i < |rows| ensures LastFor(log, rows[i].thumb) == Some(rows[i]) {
        if i < |kept| { assert kept[i] in before && Kept(kept[i], r.thumb, t); }
      }
      forall i, j | 0 <= i < j < |rows| ensures rows[i].thumb != rows[j].thumb {
        assert kept[i] in before && Kept(kept[i], r.thumb, t);
      }
    }

    /** The answer is the certificate's last saved response, if that has not expired. */
    method FindFreshOCSP(thumb: string, t: int) returns (der: Option<Bytes>)
      requires Valid() && now <= t
      ensures der == if thumb != "" && LastFor(log, thumb).Some? && Fresh(LastFor(log, thumb).value, t)
        then Some(LastFor(log, thumb).value.der) else None
    {
      if thumb == "" { return None; }
      var best: Option<Row> := None;
      for i := 0 to |rows|
        invariant best.Some? ==> best.value in rows && best.value.thumb == thumb && Fresh(best.value, t)
        invariant forall k :: 0 <= k < i && rows[k].thumb == thumb && Fresh(rows[k], t) ==> best.Some?
      {
        if rows[i].thumb == thumb && Fresh(rows[i], t) && (best.None? || rows[i].thisUpdate > best.value.thisUpdate) {
          best := Some(rows[i]);
        }
      }
      if LastFor(log, thumb).Some? && Fresh(LastFor(log, thumb).value, t) {
        LastForThumb(log, thumb);
        ghost var k :| 0 <= k < |rows| && rows[k] == LastFor(log, thumb).value;
        assert best.Some?;
      }
      return if best.Some? then Some(best.value.der) else None;
    }
  }
}
