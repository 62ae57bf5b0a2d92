/**
 The response cache (cmd/certview/respcache.go): one entry and one gate per key,
 expiry, purge, a cap, and a cleanup that may detach an entry a caller already
 holds. Callers interleave; what runs under the mutex is one step. An entry is
 an index into `objs`, its identity. Steps are numbered by `tick`.
 */
module RespCache {
  import opened Common

  const MAX_ENTRIES: nat := 64

  /** A computed response: for which key, when its computation began, when it was stored. */
  datatype Response = Response(value: Bytes, key: string, began: nat, stored: int)

  datatype Entry = Entry(key: string, born: nat, gate: nat, resp: Option<Response>, expires: int)

  datatype Result = Hit(resp: Response, at: int) | Fresh(resp: Response) | Failed | Cancelled

  datatype PC =
    | Calling
    | Waiting(entry: nat)
    | Holding(entry: nat)                    // owns the gate, about to look at the entry
    | Computing(entry: nat, began: nat)
    | Uncached(began: nat)                   // computing for a full cache
    | Leaving(entry: nat, result: Result)    // the deferred release of the gate
    | Returned(result: Result)

  /** purgedBefore is the last purge before the caller's lookup. */
  datatype Caller = Caller(key: string, pc: PC, purgedBefore: nat)

  datatype Cache = Cache(
    entries: map<string, nat>,
    objs: seq<Entry>,
    callers: seq<Caller>,
    purged: nat,
    computed: seq<Response>,
    tick: nat,
    now: int)

  // ---------------------------------------------------------------- steps

  function WithPC(c: Cache, p: nat, pc: PC): Cache
    requires p < |c.callers|
  {
    c.(callers := c.callers[p := c.callers[p].(pc := pc)])
  }

  /** get up to its wait for the gate, under the mutex. */
  function LookedUp(c: Cache, p: nat): Cache
    requires p < |c.callers|
  {
    var key := c.callers[p].key;
    var c1 := c.(callers := c.callers[p := c.callers[p].(purgedBefore := c.purged)]);
    if key in c.entries then WithPC(c1, p, Waiting(c.entries[key]))
    else if |c.entries| >= MAX_ENTRIES then WithPC(c1, p, Uncached(c.tick))
    else
      var c2 := c1.(entries := c.entries[key := |c.objs|], objs := c.objs + [Entry(key, c.tick, 0, None, 0)]);
      WithPC(c2, p, Waiting(|c.objs|))
  }

  /** With the gate held: answer from the entry or begin to compute. */
  function Checked(c: Cache, p: nat): Cache
    requires p < |c.callers| && c.callers[p].pc.Holding? && c.callers[p].pc.entry < |c.objs|
  {
    var i := c.callers[p].pc.entry;
    var e := c.objs[i];
    if e.resp.Some? && c.now < e.expires then WithPC(c, p, Leaving(i, Hit(e.resp.value, c.now)))
    else WithPC(c, p, Computing(i, c.tick))
  }

  /** The computation ended; value is None for an error. */
  function Stored(c: Cache, ttl: int, p: nat, value: Option<Bytes>): Cache
    requires p < |c.callers| && c.callers[p].pc.Computing? && c.callers[p].pc.entry < |c.objs|
  {
    var i := c.callers[p].pc.entry;
    if value.None? then WithPC(c, p, Leaving(i, Failed)) else
    var resp := Response(value.value, c.callers[p].key, c.callers[p].pc.began, c.now);
    var e := c.objs[i].(resp := Some(resp), expires := c.now + ttl);
    WithPC(c.(objs := c.objs[i := e], computed := c.computed + [resp]), p, Leaving(i, Fresh(resp)))
  }

  function UncachedDone(c: Cache, p: nat, value: Option<Bytes>): Cache
    requires p < |c.callers| && c.callers[p].pc.Uncached?
  {
    if value.None? then WithPC(c, p, Returned(Failed)) else
    var resp := Response(value.value, c.callers[p].key, c.callers[p].pc.began, c.now);
    WithPC(c.(computed := c.computed + [resp]), p, Returned(Fresh(resp)))
  }

  function Purged(c: Cache): Cache {
    c.(entries := map[], purged := c.tick)
  }

  /** What cleanup may drop: an entry with a free gate that had expired at time t. */
  predicate Droppable(c: Cache, key: string, t: int) {
    && key in c.entries && c.entries[key] < |c.objs|
    && c.objs[c.entries[key]].gate == 0 && !(t < c.objs[c.entries[key]].expires)
  }

  function SetGate(c: Cache, i: nat, gate: nat): Cache
    requires i < |c.objs|
  {
    c.(objs := c.objs[i := c.objs[i].(gate := gate)])
  }

  /** One step of caller p. */
  ghost predicate CallerStep(ttl: int, c: Cache, c': Cache, p: nat) {
    p < |c.callers| &&
    var pc := c.callers[p].pc;
    match pc
    case Calling => c' == LookedUp(c, p)
    case Waiting(i) =>
      || (i < |c.objs| && c.objs[i].gate < 1 && c' == WithPC(SetGate(c, i, c.objs[i].gate + 1), p, Holding(i)))
      || c' == WithPC(c, p, Returned(Cancelled))
    case Holding(i) => i < |c.objs| && c' == Checked(c, p)
    case Computing(i, _) => i < |c.objs| && exists value :: c' == Stored(c, ttl, p, value)
    case Uncached(_) => exists value :: c' == UncachedDone(c, p, value)
    case Leaving(i, r) =>
      i < |c.objs| && c.objs[i].gate > 0 && c' == WithPC(SetGate(c, i, c.objs[i].gate - 1), p, Returned(r))
    case Returned(_) => false
  }

  /** Cleanup reaches one key; its clock was read before. */
  ghost predicate Cleanup(c: Cache, c': Cache, key: string, t: int) {
    t <= c.now && Droppable(c, key, t) && c' == c.(entries := c.entries - {key})
  }

  /** The step itself; the tick and the clock move with it. */
  ghost predicate Effect(ttl: int, c: Cache, c': Cache) {
    || (exists p: nat :: CallerStep(ttl, c, c', p))
    || (exists key, t :: Cleanup(c, c', key, t))
    || c' == Purged(c)
    || (exists caller: Caller :: caller.pc.Calling? && c' == c.(callers := c.callers + [caller]))
  }

  ghost predicate Step(ttl: int, c: Cache, c': Cache) {
    && c'.tick == c.tick + 1 && c'.now >= c.now
    && exists mid :: Effect(ttl, c, mid) && c' == mid.(tick := c'.tick, now := c'.now)
  }

  ghost predicate Init(c: Cache) {
    c.entries == map[] && c.objs == [] && c.callers == [] && c.computed == [] && c.purged == 0 == c.tick
  }

  ghost predicate Run(ttl: int, run: seq<Cache>) {
    && |run| > 0
    && Init(run[0])
    && forall k, k' :: 0 <= k && k' == k + 1 < |run| ==> Step(ttl, run[k], run[k'])
  }

  function Last(run: seq<Cache>): Cache
    requires |run| > 0
  {
    run[|run| - 1]
  }

  // ---------------------------------------------------------------- invariant

  predicate Holds(w: Caller, i: nat) {
    (w.pc.Holding? || w.pc.Computing? || w.pc.Leaving?) && w.pc.entry == i
  }

  function Holders(callers: seq<Caller>, i: nat): nat {
    if callers == [] then 0
    else Holders(callers[..|callers| - 1], i) + if Holds(callers[|callers| - 1], i) then 1 else 0
  }

  /** A response some computation for that key produced. */
  predicate Genuine(c: Cache, resp: Response, key: string) {
    resp in c.computed && resp.key == key
  }

  predicate EntryInv(c: Cache, ttl: int, i: nat)
    requires i < |c.objs|
  {
    var e := c.objs[i];
    && e.gate == Holders(c.callers, i) <= 1
    && e.born <= c.tick
    && (e.resp.Some? ==>
        Genuine(c, e.resp.value, e.key) && e.resp.value.began >= e.born && e.expires == e.resp.value.stored + ttl)
  }

  predicate ResultInv(c: Cache, ttl: int, w: Caller, r: Result) {
    match r
    case Hit(resp, at) => Genuine(c, resp, w.key) && resp.began >= w.purgedBefore && at < resp.stored + ttl
    case Fresh(resp) => Genuine(c, resp, w.key) && resp.began >= w.purgedBefore
    case _ => true
  }

  predicate CallerInv(c: Cache, ttl: int, w: Caller) {
    && (w.pc.Waiting? || w.pc.Holding? || w.pc.Computing? || w.pc.Leaving? ==>
        w.pc.entry < |c.objs| && c.objs[w.pc.entry].key == w.key && c.objs[w.pc.entry].born >= w.purgedBefore)
    && (w.pc.Computing? ==> w.pc.began >= c.objs[w.pc.entry].born)
    && (w.pc.Uncached? ==> w.pc.began >= w.purgedBefore)
    && (w.pc.Leaving? ==> ResultInv(c, ttl, w, w.pc.result))
    && (w.pc.Returned? ==> ResultInv(c, ttl, w, w.pc.result))
  }

  ghost predicate Inv(c: Cache, ttl: int) {
    && |c.entries| <= MAX_ENTRIES && c.purged <= c.tick
    && (forall key :: key in c.entries ==>
        c.entries[key] < |c.objs| && c.objs[c.entries[key]].key == key && c.objs[c.entries[key]].born >= c.purged)
    && (forall i :: 0 <= i < |c.objs| ==> EntryInv(c, ttl, i))
    && (forall p :: 0 <= p < |c.callers| ==> CallerInv(c, ttl, c.callers[p]))
  }

  lemma {:induction false} HoldersUpdate(callers: seq<Caller>, p: nat, w: Caller, i: nat)
    requires p < |callers|
    ensures Holders(callers[p := w], i) + (if Holds(callers[p], i) then 1 else 0) ==
      Holders(callers, i) + (if Holds(w, i) then 1 else 0)
  {
    var last := |callers| - 1;
    if p == last {
      assert callers[p := w][..last] == callers[..last];
    } else {
      assert callers[p := w][..last] == callers[..last][p := w];
      HoldersUpdate(callers[..last], p, w, i);
    }
  }

  lemma {:induction false} HolderCounted(callers: seq<Caller>, p: nat, i: nat)
    requires p < |callers| && Holds(callers[p], i)
    ensures Holders(callers, i) >= 1
  {
    if p < |callers| - 1 { HolderCounted(callers[..|callers| - 1], p, i); }
  }

  lemma {:induction false} TwoHolders(callers: seq<Caller>, p: nat, q: nat, i: nat)
    requires p < q < |callers| && Holds(callers[p], i) && Holds(callers[q], i)
    ensures Holders(callers, i) >= 2
  {
    if q == |callers| - 1 { HolderCounted(callers[..q], p, i); } else { TwoHolders(callers[..|callers| - 1], p, q, i); }
  }

  lemma {:induction false} NoHolder(callers: seq<Caller>, i: nat)
    requires forall p :: 0 <= p < |callers| ==> !Holds(callers[p], i)
    ensures Holders(callers, i) == 0
  {
    if callers != [] { NoHolder(callers[..|callers| - 1], i); }
  }

  /**
   A step of caller p that replaces it by w, and possibly entry i by e: what
   must be shown of it for the invariant to hold after.
   */
  lemma CallerMoves(c: Cache, c': Cache, ttl: int, p: nat, i: nat)
    requires Inv(c, ttl) && p < |c.callers| && i < |c.objs|
    requires c'.entries == c.entries && c'.purged == c.purged && c'.tick == c.tick
    requires |c'.callers| == |c.callers| && c'.callers == c.callers[p := c'.callers[p]]
    requires c'.callers[p].key == c.callers[p].key
    requires |c'.objs| == |c.objs| && c'.objs == c.objs[i := c'.objs[i]] && c'.objs[i].key == c.objs[i].key
    requires c'.objs[i].born == c.objs[i].born
    requires c.computed <= c'.computed
    requires forall j :: j != i ==> Holds(c.callers[p], j) == Holds(c'.callers[p], j)
    requires EntryInv(c', ttl, i) && CallerInv(c', ttl, c'.callers[p])
    ensures Inv(c', ttl)
  {
    assert forall r :: r in c.computed ==> r in c'.computed;
    forall j | 0 <= j < |c'.objs| ensures EntryInv(c', ttl, j) {
      assert EntryInv(c, ttl, j);
      if j != i { HoldersUpdate(c.callers, p, c'.callers[p], j); }
    }
    forall q | 0 <= q < |c'.callers| ensures CallerInv(c', ttl, c'.callers[q]) {
      if q != p { assert c'.callers[q] == c.callers[q]; }
    }
  }

  lemma LookupKeepsEntry(c: Cache, ttl: int, p: nat, j: nat)
    requires Inv(c, ttl) && p < |c.callers| && c.callers[p].pc.Calling? && j < |LookedUp(c, p).objs|
    ensures EntryInv(LookedUp(c, p), ttl, j)
  {
    var c' := LookedUp(c, p);
    assert c'.callers == c.callers[p := c'.callers[p]];
    HoldersUpdate(c.callers, p, c'.callers[p], j);
    if j < |c.objs| {
      assert EntryInv(c, ttl, j);
    } else {
      forall q | 0 <= q < |c.callers| ensures !Holds(c.callers[q], j) { assert CallerInv(c, ttl, c.callers[q]); }
      NoHolder(c.callers, j);
    }
  }

  /** The caller that looked up, wherever it landed. */
  lemma LookupKeepsSelf(c: Cache, ttl: int, p: nat)
    requires Inv(c, ttl) && p < |c.callers| && c.callers[p].pc.Calling?
    ensures CallerInv(LookedUp(c, p), ttl, LookedUp(c, p).callers[p])
  {
    var key, c' := c.callers[p].key, LookedUp(c, p);
    if key in c.entries {
      assert c'.callers[p] == Caller(key, Waiting(c.entries[key]), c.purged) && c'.objs == c.objs;
    } else if |c.entries| >= MAX_ENTRIES {
      assert c'.callers[p] == Caller(key, Uncached(c.tick), c.purged);
    } else {
      assert c'.callers[p] == Caller(key, Waiting(|c.objs|), c.purged);
      assert c'.objs[|c.objs|] == Entry(key, c.tick, 0, None, 0);
    }
  }

  /** A caller keeps its invariant while entries only grow in number. */
  lemma CallerFrame(c: Cache, c': Cache, ttl: int, w: Caller)
    requires CallerInv(c, ttl, w) && c.objs <= c'.objs && c'.computed == c.computed
    ensures CallerInv(c', ttl, w)
  {
  }

  lemma LookupKeepsCaller(c: Cache, ttl: int, p: nat, q: nat)
    requires Inv(c, ttl) && p < |c.callers| && c.callers[p].pc.Calling? && q < |c.callers|
    ensures CallerInv(LookedUp(c, p), ttl, LookedUp(c, p).callers[q])
  {
    if q == p {
      LookupKeepsSelf(c, ttl, p);
    } else {
      assert LookedUp(c, p).callers[q] == c.callers[q];
      CallerFrame(c, LookedUp(c, p), ttl, c.callers[q]);
    }
  }

  lemma LookupKeepsInv(c: Cache, ttl: int, p: nat)
    requires Inv(c, ttl) && p < |c.callers| && c.callers[p].pc.Calling?
    ensures Inv(LookedUp(c, p), ttl)
  {
    var c' := LookedUp(c, p);
    forall j | 0 <= j < |c'.objs| ensures EntryInv(c', ttl, j) { LookupKeepsEntry(c, ttl, p, j); }
    forall q | 0 <= q < |c'.callers| ensures CallerInv(c', ttl, c'.callers[q]) { LookupKeepsCaller(c, ttl, p, q); }
  }

  lemma GateKeepsInv(ttl: int, c: Cache, c': Cache, p: nat)
    requires Inv(c, ttl) && CallerStep(ttl, c, c', p) && (c.callers[p].pc.Waiting? || c.callers[p].pc.Leaving?)
    ensures Inv(c', ttl)
  {
    var i := c.callers[p].pc.entry;
    assert CallerInv(c, ttl, c.callers[p]);
    assert EntryInv(c, ttl, i);
    HoldersUpdate(c.callers, p, c'.callers[p], i);
    CallerMoves(c, c', ttl, p, i);
  }

  lemma CheckKeepsInv(ttl: int, c: Cache, p: nat)
    requires Inv(c, ttl) && p < |c.callers| && c.callers[p].pc.Holding? && c.callers[p].pc.entry < |c.objs|
    ensures Inv(Checked(c, p), ttl)
  {
    var c', i := Checked(c, p), c.callers[p].pc.entry;
    assert CallerInv(c, ttl, c.callers[p]);
    assert EntryInv(c, ttl, i);
    HoldersUpdate(c.callers, p, c'.callers[p], i);
    CallerMoves(c, c', ttl, p, i);
  }

  lemma StoreKeepsInv(ttl: int, c: Cache, p: nat, value: Option<Bytes>)
    requires Inv(c, ttl) && p < |c.callers| && c.callers[p].pc.Computing? && c.callers[p].pc.entry < |c.objs|
    ensures Inv(Stored(c, ttl, p, value), ttl)
  {
    var c', i := Stored(c, ttl, p, value), c.callers[p].pc.entry;
    assert CallerInv(c, ttl, c.callers[p]);
    assert EntryInv(c, ttl, i);
    HoldersUpdate(c.callers, p, c'.callers[p], i);
    CallerMoves(c, c', ttl, p, i);
  }

  lemma UncachedKeepsInv(ttl: int, c: Cache, p: nat, value: Option<Bytes>)
    requires Inv(c, ttl) && p < |c.callers| && c.callers[p].pc.Uncached?
    ensures Inv(UncachedDone(c, p, value), ttl)
  {
    var c' := UncachedDone(c, p, value);
    assert CallerInv(c, ttl, c.callers[p]);
    assert forall r :: r in c.computed ==> r in c'.computed;
    forall j | 0 <= j < |c'.objs| ensures EntryInv(c', ttl, j) {
      assert EntryInv(c, ttl, j);
      HoldersUpdate(c.callers, p, c'.callers[p], j);
    }
    forall q | 0 <= q < |c'.callers| ensures CallerInv(c', ttl, c'.callers[q]) {
      assert CallerInv(c, ttl, c.callers[q]);
      if q != p { assert c'.callers[q] == c.callers[q]; }
    }
  }

  lemma CallerStepKeepsInv(ttl: int, c: Cache, c': Cache, p: nat)
    requires Inv(c, ttl) && CallerStep(ttl, c, c', p)
    ensures Inv(c', ttl)
  {
    match c.callers[p].pc
    case Calling => LookupKeepsInv(c, ttl, p);
    case Waiting(_) => GateKeepsInv(ttl, c, c', p);
    case Leaving(_, _) => GateKeepsInv(ttl, c, c', p);
    case Holding(_) => CheckKeepsInv(ttl, c, p);
    case Computing(_, _) =>
      var value :| c' == Stored(c, ttl, p, value);
      StoreKeepsInv(ttl, c, p, value);
    case Uncached(_) =>
      var value :| c' == UncachedDone(c, p, value);
      UncachedKeepsInv(ttl, c, p, value);
  }

  lemma EffectKeepsInv(ttl: int, c: Cache, c': Cache)
    requires Inv(c, ttl) && Effect(ttl, c, c')
    ensures Inv(c', ttl)
  {
    if p: nat :| CallerStep(ttl, c, c', p) {
      CallerStepKeepsInv(ttl, c, c', p);
    } else if key, t :| Cleanup(c, c', key, t) {
      assert c'.entries.Keys == c.entries.Keys - {key};
      DropKeepsInv(ttl, c, c');
    } else if c' == Purged(c) {
      DropKeepsInv(ttl, c, c');
    } else {
      var caller: Caller :| caller.pc.Calling? && c' == c.(callers := c.callers + [caller]);
      ArriveKeepsInv(ttl, c, caller);
    }
  }

  /** Dropping entries from the map touches neither the entries nor the callers. */
  lemma DropKeepsInv(ttl: int, c: Cache, c': Cache)
    requires Inv(c, ttl) && c' == c.(entries := c'.entries, purged := c'.purged) && c'.purged <= c.tick
    requires |c'.entries| <= |c.entries|
    requires forall key :: key in c'.entries ==> key in c.entries && c'.entries[key] == c.entries[key]
    requires c'.purged == c.purged || c'.entries == map[]
    ensures Inv(c', ttl)
  {
    forall j | 0 <= j < |c'.objs| ensures EntryInv(c', ttl, j) { assert EntryInv(c, ttl, j); }
    forall q | 0 <= q < |c'.callers|
      ensures CallerInv(c', ttl, c'.callers[q])
    {
      assert CallerInv(c, ttl, c.callers[q]);
    }
  }

  lemma ArriveKeepsInv(ttl: int, c: Cache, caller: Caller)
    requires Inv(c, ttl) && caller.pc.Calling?
    ensures Inv(c.(callers := c.callers + [caller]), ttl)
  {
    var c' := c.(callers := c.callers + [caller]);
    assert c'.callers[..|c'.callers| - 1] == c.callers;
    forall j | 0 <= j < |c'.objs| ensures EntryInv(c', ttl, j) { assert EntryInv(c, ttl, j); }
    forall q | 0 <= q < |c'.callers| ensures CallerInv(c', ttl, c'.callers[q]) {
      if q < |c.callers| { assert CallerInv(c, ttl, c.callers[q]); }
    }
  }

  lemma TimeKeepsInv(c: Cache, ttl: int, tick: nat, now: int)
    requires Inv(c, ttl) && tick >= c.tick
    ensures Inv(c.(tick := tick, now := now), ttl)
  {
    var c' := c.(tick := tick, now := now);
    forall j | 0 <= j < |c'.objs| ensures EntryInv(c', ttl, j) { assert EntryInv(c, ttl, j); }
    forall q | 0 <= q < |c'.callers|
      ensures CallerInv(c', ttl, c'.callers[q])
    {
      assert CallerInv(c, ttl, c.callers[q]);
    }
  }

  lemma StepKeepsInv(ttl: int, c: Cache, c': Cache)
    requires Inv(c, ttl) && Step(ttl, c, c')
    ensures Inv(c', ttl)
  {
    var mid :| Effect(ttl, c, mid) && c' == mid.(tick := c'.tick, now := c'.now);
    EffectKeepsInv(ttl, c, mid);
    assert mid.tick == c.tick by { EffectKeepsTick(ttl, c, mid); }
    TimeKeepsInv(mid, ttl, c'.tick, c'.now);
  }

  lemma EffectKeepsTick(ttl: int, c: Cache, c': Cache)
    requires Effect(ttl, c, c')
    ensures c'.tick == c.tick
  {
  }

  lemma {:induction false} RunKeepsInv(ttl: int, run: seq<Cache>)
    requires Run(ttl, run)
    ensures Inv(Last(run), ttl)
  {
    var last := |run| - 1;
    if last > 0 {
      RunKeepsInv(ttl, run[..last]);
      assert Last(run[..last]) == run[last - 1] && Step(ttl, run[last - 1], run[last]);
      StepKeepsInv(ttl, run[last - 1], run[last]);
    }
  }

  // ---------------------------------------------------------------- results

  /**
   A get whose lookup follows a purge never returns a response whose
   computation began before it; what it returns was computed, without error,
   for its own key.
   */
  lemma NothingStaleAfterPurge(ttl: int, run: seq<Cache>, p: nat)
    requires Run(ttl, run) && p < |Last(run).callers|
    requires var pc := Last(run).callers[p].pc; pc.Returned? && (pc.result.Hit? || pc.result.Fresh?)
    ensures var w := Last(run).callers[p];
      var resp := w.pc.result.resp;
      resp.began >= w.purgedBefore && resp.key == w.key && resp in Last(run).computed
  {
    RunKeepsInv(ttl, run);
    assert CallerInv(Last(run), ttl, Last(run).callers[p]);
  }

  // A purge and the lookups that follow it.

  /** The step is a purge. */
  ghost predicate PurgeStep(c: Cache, c': Cache) {
    c' == Purged(c).(tick := c.tick + 1, now := c'.now)
  }

  lemma {:induction false} TicksCount(ttl: int, run: seq<Cache>, k: nat)
    requires Run(ttl, run) && k < |run|
    ensures run[k].tick == k
  {
    if k > 0 {
      TicksCount(ttl, run, k - 1);
      assert Step(ttl, run[k - 1], run[k]);
    }
  }

  lemma StepKeepsPurged(ttl: int, c: Cache, c': Cache)
    requires Step(ttl, c, c') && c.purged <= c.tick
    ensures c'.purged >= c.purged
  {
    var mid :| Effect(ttl, c, mid) && c' == mid.(tick := c'.tick, now := c'.now);
    if p: nat :| CallerStep(ttl, c, mid, p) { CallerKeepsPurged(ttl, c, mid, p); }
  }

  lemma CallerKeepsPurged(ttl: int, c: Cache, c': Cache, p: nat)
    requires CallerStep(ttl, c, c', p)
    ensures c'.purged == c.purged
  {
  }

  lemma {:induction false} PrefixRun(ttl: int, run: seq<Cache>, k: nat)
    requires Run(ttl, run) && k < |run|
    ensures Inv(run[k], ttl)
  {
    RunKeepsInv(ttl, run[..k + 1]);
    assert Last(run[..k + 1]) == run[k];
  }

  /** No state knows of fewer purges than the one before. */
  ghost predicate PurgesGrow(run: seq<Cache>) {
    forall k, k' :: 0 <= k && k' == k + 1 < |run| ==> run[k'].purged >= run[k].purged
  }

  lemma RunPurgesGrow(ttl: int, run: seq<Cache>)
    requires Run(ttl, run)
    ensures PurgesGrow(run)
  {
    forall k, k' | 0 <= k && k' == k + 1 < |run| ensures run[k'].purged >= run[k].purged {
      PrefixRun(ttl, run, k);
      StepKeepsPurged(ttl, run[k], run[k']);
    }
  }

  /** Once a purge is known it stays known. */
  lemma {:induction false} PurgeSticks(run: seq<Cache>, n: nat, k: nat)
    requires PurgesGrow(run) && n <= k < |run|
    ensures run[k].purged >= run[n].purged
  {
    if k > n {
      PurgeSticks(run, n, k - 1);
      assert run[k].purged >= run[k - 1].purged;
    }
  }

  /** The caller has not looked up yet. */
  predicate NotYet(c: Cache, p: nat) {
    p >= |c.callers| || c.callers[p].pc.Calling?
  }

  lemma LookupKnows(ttl: int, c: Cache, c': Cache, p: nat)
    requires Step(ttl, c, c') && p < |c'.callers|
    ensures NotYet(c, p) ==> c'.callers[p].pc.Calling? || c'.callers[p].purgedBefore == c.purged
    ensures !NotYet(c, p) ==> c'.callers[p].purgedBefore == c.callers[p].purgedBefore && !c'.callers[p].pc.Calling?
  {
    var mid :| Effect(ttl, c, mid) && c' == mid.(tick := c'.tick, now := c'.now);
    if q: nat :| CallerStep(ttl, c, mid, q) { CallerKnows(ttl, c, mid, q, p); }
  }

  lemma CallerKnows(ttl: int, c: Cache, c': Cache, q: nat, p: nat)
    requires CallerStep(ttl, c, c', q) && p < |c'.callers|
    ensures NotYet(c, p) ==> c'.callers[p].pc.Calling? || c'.callers[p].purgedBefore == c.purged
    ensures !NotYet(c, p) ==> c'.callers[p].purgedBefore == c.callers[p].purgedBefore && !c'.callers[p].pc.Calling?
  {
    if p != q { assert c'.callers[p] == c.callers[p]; }
  }

  /** The caller has not looked up yet, or knew of a purge this late. */
  predicate Knows(c: Cache, p: nat, since: nat) {
    NotYet(c, p) || c.callers[p].purgedBefore >= since
  }

  lemma StaysKnown(ttl: int, c: Cache, c': Cache, p: nat, since: nat)
    requires Step(ttl, c, c') && Knows(c, p, since) && c.purged >= since
    ensures Knows(c', p, since)
  {
    if p < |c'.callers| { LookupKnows(ttl, c, c', p); }
  }

  /** From state to state the caller's knowledge stays, while later purges are known. */
  ghost predicate KnowledgeStays(run: seq<Cache>, p: nat, since: nat) {
    forall k, k' :: 0 <= k && k' == k + 1 < |run| && run[k].purged >= since && Knows(run[k], p, since) ==>
      Knows(run[k'], p, since)
  }

  lemma RunKnowledgeStays(ttl: int, run: seq<Cache>, p: nat, since: nat)
    requires Run(ttl, run)
    ensures KnowledgeStays(run, p, since)
  {
    forall k, k' | 0 <= k && k' == k + 1 < |run| && run[k].purged >= since && Knows(run[k], p, since)
      ensures Knows(run[k'], p, since)
    {
      StaysKnown(ttl, run[k], run[k'], p, since);
    }
  }

  /** A lookup from state n on knows of every purge before it. */
  lemma {:induction false} LaterLookup(run: seq<Cache>, n: nat, k: nat, p: nat)
    requires n <= k < |run| && PurgesGrow(run) && KnowledgeStays(run, p, run[n].purged) && NotYet(run[n], p)
    ensures Knows(run[k], p, run[n].purged)
  {
    if k > n {
      LaterLookup(run, n, k - 1, p);
      PurgeSticks(run, n, k - 1);
    }
  }

  /** A get that looks up after the purge at step m is answered with a computation of its key that began after it. */
  lemma AnswersFollowPurge(ttl: int, run: seq<Cache>, m: nat, n: nat, p: nat)
    requires Run(ttl, run) && m < n < |run| && PurgeStep(run[m], run[m + 1])
    requires NotYet(run[n], p) && p < |Last(run).callers|
    requires var pc := Last(run).callers[p].pc; pc.Returned? && (pc.result.Hit? || pc.result.Fresh?)
    ensures
      var w := Last(run).callers[p];
      m <= w.pc.result.resp.began && w.pc.result.resp.key == w.key && w.pc.result.resp in Last(run).computed
  {
    TicksCount(ttl, run, m);
    assert run[m + 1].purged == m;
    RunPurgesGrow(ttl, run);
    PurgeSticks(run, m + 1, n);
    RunKnowledgeStays(ttl, run, p, run[n].purged);
    LaterLookup(run, n, |run| - 1, p);
    NothingStaleAfterPurge(ttl, run, p);
  }

  /** A hit was computed for its key and had not expired when it was answered. */
  lemma HitIsUnexpired(ttl: int, run: seq<Cache>, p: nat)
    requires Run(ttl, run) && p < |Last(run).callers|
    requires Last(run).callers[p].pc.Returned? && Last(run).callers[p].pc.result.Hit?
    ensures
      var w := Last(run).callers[p];
      var r := w.pc.result;
      r.at < r.resp.stored + ttl && r.resp in Last(run).computed && r.resp.key == w.key
  {
    RunKeepsInv(ttl, run);
    assert CallerInv(Last(run), ttl, Last(run).callers[p]);
  }

  /** Computations on one entry never overlap, even one cleanup or a purge has detached. */
  lemma OneComputationPerEntry(ttl: int, run: seq<Cache>, p: nat, q: nat)
    requires Run(ttl, run) && p < |Last(run).callers| && q < |Last(run).callers|
    requires var cs := Last(run).callers;
      cs[p].pc.Computing? && cs[q].pc.Computing? && cs[p].pc.entry == cs[q].pc.entry
    ensures p == q
  {
    RunKeepsInv(ttl, run);
    var c := Last(run);
    var i := c.callers[p].pc.entry;
    assert CallerInv(c, ttl, c.callers[p]);
    assert EntryInv(c, ttl, i);
    if p != q { TwoHolders(c.callers, if p < q then p else q, if p < q then q else p, i); }
  }

  lemma SizeIsBounded(ttl: int, run: seq<Cache>)
    requires Run(ttl, run)
    ensures |Last(run).entries| <= MAX_ENTRIES
  {
    RunKeepsInv(ttl, run);
  }

  /** Whoever releases a gate owns it: the receive finds the token. */
  lemma ReleaseFindsToken(ttl: int, run: seq<Cache>, p: nat)
    requires Run(ttl, run) && p < |Last(run).callers| && Last(run).callers[p].pc.Leaving?
    ensures var i := Last(run).callers[p].pc.entry; i < |Last(run).objs| && Last(run).objs[i].gate == 1
  {
    RunKeepsInv(ttl, run);
    var c := Last(run);
    assert CallerInv(c, ttl, c.callers[p]);
    assert EntryInv(c, ttl, c.callers[p].pc.entry);
    HolderCounted(c.callers, p, c.callers[p].pc.entry);
  }

  // ---------------------------------------------------------------- one computation per key

  /** The caller is on its way to a computation through an entry. */
  predicate Pending(w: Caller) {
    w.pc.Waiting? || w.pc.Holding? || w.pc.Computing?
  }

  predicate Computes(w: Caller) {
    w.pc.Computing? || w.pc.Uncached?
  }

  /** The map still holds the entry the caller points at. */
  predicate Linked(c: Cache, w: Caller) {
    Pending(w) && w.key in c.entries && c.entries[w.key] == w.pc.entry
  }

  /** Some other caller computes for p's key. */
  ghost predicate Overlaps(c: Cache, p: nat) {
    && p < |c.callers|
    && exists q: nat :: q < |c.callers| && q != p && c.callers[q].key == c.callers[p].key && Computes(c.callers[q])
  }

  /** Two computations of one key: one caller is uncached or points at an entry the map no longer holds. */
  lemma OverlapNeedsDetached(ttl: int, run: seq<Cache>, p: nat, q: nat)
    requires Run(ttl, run) && p < |Last(run).callers| && q < |Last(run).callers| && p != q
    requires
      var cs := Last(run).callers;
      Computes(cs[p]) && Computes(cs[q]) && cs[p].key == cs[q].key
    ensures !Linked(Last(run), Last(run).callers[p]) || !Linked(Last(run), Last(run).callers[q])
  {
    var c := Last(run);
    if Linked(c, c.callers[p]) && Linked(c, c.callers[q]) { OneComputationPerEntry(ttl, run, p, q); }
  }

  /** The step takes the entry of a key out of the map while a caller is on its way through it. */
  ghost predicate Detaches(c: Cache, c': Cache, key: string) {
    && key in c.entries && !(key in c'.entries && c'.entries[key] == c.entries[key])
    && exists q: nat :: q < |c.callers| && Linked(c, c.callers[q]) && c.callers[q].key == key
  }

  ghost predicate AllLinked(c: Cache, key: string) {
    forall q :: 0 <= q < |c.callers| && c.callers[q].key == key && Pending(c.callers[q]) ==> Linked(c, c.callers[q])
  }

  lemma CallerKeepsLinked(ttl: int, c: Cache, c': Cache, key: string, p: nat)
    requires AllLinked(c, key) && CallerStep(ttl, c, c', p)
    ensures AllLinked(c', key)
  {
    forall q | 0 <= q < |c'.callers| && c'.callers[q].key == key && Pending(c'.callers[q])
      ensures Linked(c', c'.callers[q])
    {
      if q != p { assert c'.callers[q] == c.callers[q] && Linked(c, c.callers[q]); }
    }
  }

  lemma StepKeepsLinked(ttl: int, c: Cache, c': Cache, key: string)
    requires AllLinked(c, key) && Step(ttl, c, c') && !Detaches(c, c', key)
    ensures AllLinked(c', key)
  {
    var mid :| Effect(ttl, c, mid) && c' == mid.(tick := c'.tick, now := c'.now);
    if p: nat :| CallerStep(ttl, c, mid, p) {
      CallerKeepsLinked(ttl, c, mid, key, p);
      assert forall q :: 0 <= q < |c'.callers| ==> (Linked(c', c'.callers[q]) <==> Linked(mid, mid.callers[q]));
    } else {
      assert c.callers <= c'.callers;
      forall q | 0 <= q < |c'.callers| && c'.callers[q].key == key && Pending(c'.callers[q])
        ensures Linked(c', c'.callers[q])
      {
        assert q < |c.callers| && Linked(c, c.callers[q]);
      }
    }
  }

  /**
   While no cleanup or purge detaches an entry of the key from a caller on its
   way through it, and no caller of the key finds the cache full, computations
   of the key never overlap.
   */
  lemma NoDetachNoOverlap(ttl: int, run: seq<Cache>, key: string, p: nat, q: nat)
    requires Run(ttl, run) && p < |Last(run).callers| && q < |Last(run).callers|
    requires forall k, k' :: 0 <= k && k' == k + 1 < |run| ==> !Detaches(run[k], run[k'], key)
    requires Last(run).callers[p].key == key == Last(run).callers[q].key
    requires !Last(run).callers[p].pc.Uncached? && !Last(run).callers[q].pc.Uncached?
    requires Computes(Last(run).callers[p]) && Computes(Last(run).callers[q])
    ensures p == q
  {
    RunKeepsLinked(ttl, run, key);
    OneComputationPerEntry(ttl, run, p, q);
  }

  lemma RunKeepsLinked(ttl: int, run: seq<Cache>, key: string)
    requires Run(ttl, run)
    requires forall k, k' :: 0 <= k && k' == k + 1 < |run| ==> !Detaches(run[k], run[k'], key)
    ensures AllLinked(Last(run), key)
  {
    forall k, k' | 0 <= k && k' == k + 1 < |run| && AllLinked(run[k], key) ensures AllLinked(run[k'], key) {
      StepKeepsLinked(ttl, run[k], run[k'], key);
    }
    LinkedThroughout(run, key, |run| - 1);
  }

  lemma {:induction false} LinkedThroughout(run: seq<Cache>, key: string, n: nat)
    requires n < |run| && AllLinked(run[0], key)
    requires forall k, k' :: 0 <= k && k' == k + 1 < |run| && AllLinked(run[k], key) ==> AllLinked(run[k'], key)
    ensures AllLinked(run[n], key)
  {
    if n > 0 { LinkedThroughout(run, key, n - 1); }
  }

  // ---------------------------------------------------------------- when a second computation can start

  /** A step that is no purge. */
  ghost predicate QuietEffect(ttl: int, c: Cache, c': Cache) {
    || (exists p: nat :: CallerStep(ttl, c, c', p))
    || (exists key, t :: Cleanup(c, c', key, t))
    || (exists caller: Caller :: caller.pc.Calling? && c' == c.(callers := c.callers + [caller]))
  }

  ghost predicate QuietStep(ttl: int, c: Cache, c': Cache) {
    && c'.tick == c.tick + 1 && c'.now >= c.now
    && exists mid :: QuietEffect(ttl, c, mid) && c' == mid.(tick := c'.tick, now := c'.now)
  }

  /** Caller p still does what it did. */
  predicate Same(c: Cache, c': Cache, p: nat) {
    p < |c.callers| && p < |c'.callers| && c'.callers[p] == c.callers[p]
  }

  /** States that follow without a purge while p goes on computing. */
  ghost predicate Continues(ttl: int, c: Cache, more: seq<Cache>, p: nat) {
    && |more| > 0 && more[0] == c
    && forall k, k' :: 0 <= k && k' == k + 1 < |more| ==>
        QuietStep(ttl, more[k], more[k']) && Same(more[k], more[k'], p)
  }

  /** Without a purge, a second computation of p's key can start before p's ends. */
  ghost predicate CanOverlap(ttl: int, c: Cache, p: nat) {
    exists more :: Continues(ttl, c, more, p) && Overlaps(Last(more), p)
  }

  /**
   p's entry is the one the map holds, and whoever else is on its way to a
   computation of the key waits at that entry.
   */
  ghost predicate Exclusive(c: Cache, p: nat)
    requires p < |c.callers|
  {
    && Linked(c, c.callers[p])
    && forall q :: 0 <= q < |c.callers| && q != p && Competes(c.callers[q], c.callers[p].key) ==>
        c.callers[q].pc.Waiting? && Linked(c, c.callers[q])
  }

  /** The caller computes for the key or is on its way to. */
  predicate Competes(w: Caller, key: string) {
    w.key == key && (Pending(w) || Computes(w))
  }

  lemma HeldEntry(c: Cache, ttl: int, p: nat)
    requires Inv(c, ttl) && p < |c.callers| && c.callers[p].pc.Computing?
    ensures c.callers[p].pc.entry < |c.objs| && c.objs[c.callers[p].pc.entry].gate == 1
  {
    assert CallerInv(c, ttl, c.callers[p]);
    assert EntryInv(c, ttl, c.callers[p].pc.entry);
    HolderCounted(c.callers, p, c.callers[p].pc.entry);
  }

  lemma ExclusiveCallerStep(ttl: int, c: Cache, c': Cache, p: nat, q: nat)
    requires Inv(c, ttl) && p < |c.callers| && c.callers[p].pc.Computing? && Exclusive(c, p)
    requires CallerStep(ttl, c, c', q) && Same(c, c', p)
    ensures Exclusive(c', p)
  {
    assert p != q;
    StepKeepsLink(ttl, c, c', p, q);
    StepperWaits(ttl, c, c', p, q);
    forall r | 0 <= r < |c'.callers| && r != p && Competes(c'.callers[r], c'.callers[p].key)
      ensures c'.callers[r].pc.Waiting? && Linked(c', c'.callers[r])
    {
      if r != q { assert c'.callers[r] == c.callers[r] && Linked(c, c.callers[r]); }
    }
  }

  /** No caller's step takes an entry out of the map. */
  lemma StepKeepsLink(ttl: int, c: Cache, c': Cache, p: nat, q: nat)
    requires CallerStep(ttl, c, c', q) && p < |c.callers| && c.callers[p].key in c.entries
    ensures c.callers[p].key in c'.entries && c'.entries[c.callers[p].key] == c.entries[c.callers[p].key]
  {
  }

  /** A competitor that moves waits at p's entry, or leaves the competition. */
  lemma StepperWaits(ttl: int, c: Cache, c': Cache, p: nat, q: nat)
    requires Inv(c, ttl) && p < |c.callers| && c.callers[p].pc.Computing? && Exclusive(c, p)
    requires CallerStep(ttl, c, c', q) && Same(c, c', p) && p != q
    ensures Competes(c'.callers[q], c.callers[p].key) ==> c'.callers[q].pc.Waiting? && Linked(c', c'.callers[q])
  {
    HeldEntry(c, ttl, p);
    if c.callers[q].key == c.callers[p].key && c.callers[q].pc.Waiting? {
      assert Linked(c, c.callers[q]) && c.callers[q].pc.entry == c.callers[p].pc.entry;
    }
  }

  lemma ExclusiveStays(ttl: int, c: Cache, c': Cache, p: nat)
    requires Inv(c, ttl) && p < |c.callers| && c.callers[p].pc.Computing? && Exclusive(c, p)
    requires QuietStep(ttl, c, c') && Same(c, c', p)
    ensures Exclusive(c', p)
  {
    HeldEntry(c, ttl, p);
    var mid :| QuietEffect(ttl, c, mid) && c' == mid.(tick := c'.tick, now := c'.now);
    if q: nat :| CallerStep(ttl, c, mid, q) {
      ExclusiveCallerStep(ttl, c, mid, p, q);
    } else if key, t :| Cleanup(c, mid, key, t) {
      assert key != c.callers[p].key;
    } else {
      var caller: Caller :| caller.pc.Calling? && mid == c.(callers := c.callers + [caller]);
    }
    assert forall r :: 0 <= r < |c'.callers| ==> (Linked(c', c'.callers[r]) <==> Linked(mid, mid.callers[r]));
  }

  lemma QuietIsStep(ttl: int, c: Cache, c': Cache)
    requires QuietStep(ttl, c, c')
    ensures Step(ttl, c, c')
  {
    var mid :| QuietEffect(ttl, c, mid) && c' == mid.(tick := c'.tick, now := c'.now);
    assert Effect(ttl, c, mid);
  }

  /** p computes and has its key to itself. */
  ghost predicate Alone(c: Cache, ttl: int, p: nat) {
    Inv(c, ttl) && p < |c.callers| && c.callers[p].pc.Computing? && Exclusive(c, p)
  }

  lemma AloneStays(ttl: int, c: Cache, c': Cache, p: nat)
    requires Alone(c, ttl, p) && QuietStep(ttl, c, c') && Same(c, c', p)
    ensures Alone(c', ttl, p)
  {
    ExclusiveStays(ttl, c, c', p);
    QuietIsStep(ttl, c, c');
    StepKeepsInv(ttl, c, c');
  }

  lemma AloneNeverOverlaps(ttl: int, c: Cache, more: seq<Cache>, p: nat)
    requires Alone(c, ttl, p) && Continues(ttl, c, more, p)
    ensures !Overlaps(Last(more), p)
  {
    forall k, k' | 0 <= k && k' == k + 1 < |more| && Alone(more[k], ttl, p) ensures Alone(more[k'], ttl, p) {
      AloneStays(ttl, more[k], more[k'], p);
    }
    AloneThroughout(ttl, more, p, |more| - 1);
    ExclusiveIsNoOverlap(Last(more), p);
  }

  lemma {:induction false} AloneThroughout(ttl: int, more: seq<Cache>, p: nat, k: nat)
    requires k < |more| && Alone(more[0], ttl, p)
    requires forall i, j :: 0 <= i && j == i + 1 < |more| && Alone(more[i], ttl, p) ==> Alone(more[j], ttl, p)
    ensures Alone(more[k], ttl, p)
  {
    if k > 0 { AloneThroughout(ttl, more, p, k - 1); }
  }

  lemma ExclusiveIsNoOverlap(c: Cache, p: nat)
    requires p < |c.callers| && Exclusive(c, p)
    ensures !Overlaps(c, p)
  {
  }

  lemma OverlapNow(ttl: int, c: Cache, p: nat)
    requires Overlaps(c, p)
    ensures CanOverlap(ttl, c, p)
  {
    assert Continues(ttl, c, [c], p) && Last([c]) == c;
  }

  lemma OverlapLater(ttl: int, c: Cache, c': Cache, p: nat)
    requires QuietStep(ttl, c, c') && Same(c, c', p) && CanOverlap(ttl, c', p)
    ensures CanOverlap(ttl, c, p)
  {
    var more :| Continues(ttl, c', more, p) && Overlaps(Last(more), p);
    var all := [c] + more;
    forall k, k' | 0 <= k && k' == k + 1 < |all| ensures QuietStep(ttl, all[k], all[k']) && Same(all[k], all[k'], p) {
      if k > 0 { assert all[k] == more[k - 1] && all[k'] == more[k]; }
    }
    assert Continues(ttl, c, all, p) && Last(all) == Last(more);
  }

  function Ticked(c: Cache, now: int): Cache {
    c.(tick := c.tick + 1, now := now)
  }

  lemma CallerQuiet(ttl: int, c: Cache, mid: Cache, p: nat)
    requires CallerStep(ttl, c, mid, p) && mid.tick == c.tick && mid.now == c.now
    ensures QuietStep(ttl, c, Ticked(mid, c.now))
  {
    assert QuietEffect(ttl, c, mid);
    var c' := Ticked(mid, c.now);
    assert c' == mid.(tick := c'.tick, now := c'.now);
  }

  /** A caller arrives; meanwhile time passes. */
  lemma ArriveQuiet(ttl: int, c: Cache, caller: Caller, now: int)
    requires caller.pc.Calling? && now >= c.now
    ensures QuietStep(ttl, c, Ticked(c.(callers := c.callers + [caller]), now))
  {
    var mid := c.(callers := c.callers + [caller]);
    assert QuietEffect(ttl, c, mid);
    var c' := Ticked(mid, now);
    assert c' == mid.(tick := c'.tick, now := c'.now);
  }

  /** Whoever holds the gate of an entry of the key computes once its response has expired. */
  lemma HolderOverlaps(ttl: int, c: Cache, p: nat, q: nat)
    requires p < |c.callers| && q < |c.callers| && p != q && c.callers[q].key == c.callers[p].key
    requires c.callers[q].pc.Holding? && c.callers[q].pc.entry < |c.objs|
    ensures CanOverlap(ttl, c, p)
  {
    var i := c.callers[q].pc.entry;
    var later := if c.objs[i].expires > c.now then c.objs[i].expires else c.now;
    var c1 := Ticked(c.(callers := c.callers + [Caller("", Calling, 0)]), later);
    ArriveQuiet(ttl, c, Caller("", Calling, 0), later);
    var c2 := Ticked(Checked(c1, q), later);
    CallerQuiet(ttl, c1, Checked(c1, q), q);
    assert c2.callers[q].pc.Computing? && c2.callers[q].key == c2.callers[p].key;
    OverlapNow(ttl, c2, p);
    OverlapLater(ttl, c1, c2, p);
    OverlapLater(ttl, c, c1, p);
  }

  lemma FreeGateOverlaps(ttl: int, c: Cache, p: nat, q: nat)
    requires p < |c.callers| && q < |c.callers| && p != q && c.callers[q].key == c.callers[p].key
    requires c.callers[q].pc.Waiting? && c.callers[q].pc.entry < |c.objs| && c.objs[c.callers[q].pc.entry].gate == 0
    ensures CanOverlap(ttl, c, p)
  {
    var i := c.callers[q].pc.entry;
    var mid := WithPC(SetGate(c, i, c.objs[i].gate + 1), q, Holding(i));
    assert CallerStep(ttl, c, mid, q);
    CallerQuiet(ttl, c, mid, q);
    HolderOverlaps(ttl, Ticked(mid, c.now), p, q);
    OverlapLater(ttl, c, Ticked(mid, c.now), p);
  }

  lemma {:induction false} FindHolder(callers: seq<Caller>, i: nat) returns (r: nat)
    requires Holders(callers, i) > 0
    ensures r < |callers| && Holds(callers[r], i)
  {
    r := |callers| - 1;
    if !Holds(callers[r], i) { r := FindHolder(callers[..r], i); }
  }

  /** A caller that waits at an entry p does not hold gets to compute. */
  lemma WaiterOverlaps(ttl: int, c: Cache, p: nat, q: nat)
    requires Inv(c, ttl) && p < |c.callers| && q < |c.callers| && p != q && c.callers[q].key == c.callers[p].key
    requires c.callers[q].pc.Waiting? && !Holds(c.callers[p], c.callers[q].pc.entry)
    ensures CanOverlap(ttl, c, p)
  {
    var i := c.callers[q].pc.entry;
    assert CallerInv(c, ttl, c.callers[q]);
    assert EntryInv(c, ttl, i);
    if c.objs[i].gate == 0 {
      FreeGateOverlaps(ttl, c, p, q);
    } else {
      var r := FindHolder(c.callers, i);
      assert CallerInv(c, ttl, c.callers[r]);
      if c.callers[r].pc.Computing? {
        OverlapNow(ttl, c, p);
      } else if c.callers[r].pc.Holding? {
        HolderOverlaps(ttl, c, p, r);
      } else {
        var mid := WithPC(SetGate(c, i, c.objs[i].gate - 1), r, Returned(c.callers[r].pc.result));
        assert CallerStep(ttl, c, mid, r);
        CallerQuiet(ttl, c, mid, r);
        FreeGateOverlaps(ttl, Ticked(mid, c.now), p, q);
        OverlapLater(ttl, c, Ticked(mid, c.now), p);
      }
    }
  }

  /** The step in which caller q looks up. */
  lemma LookupStep(ttl: int, c: Cache, q: nat) returns (c': Cache)
    requires Inv(c, ttl) && q < |c.callers| && c.callers[q].pc.Calling?
    ensures c' == Ticked(LookedUp(c, q), c.now) && QuietStep(ttl, c, c') && Inv(c', ttl)
  {
    c' := Ticked(LookedUp(c, q), c.now);
    LookupQuiet(ttl, c, q);
    LookupKeepsInv(c, ttl, q);
    LaterInv(LookedUp(c, q), ttl, c.now);
  }

  lemma LookupQuiet(ttl: int, c: Cache, q: nat)
    requires q < |c.callers| && c.callers[q].pc.Calling?
    ensures QuietStep(ttl, c, Ticked(LookedUp(c, q), c.now))
  {
    assert CallerStep(ttl, c, LookedUp(c, q), q);
    CallerQuiet(ttl, c, LookedUp(c, q), q);
  }

  lemma LaterInv(c: Cache, ttl: int, now: int)
    requires Inv(c, ttl)
    ensures Inv(Ticked(c, now), ttl)
  {
    TimeKeepsInv(c, ttl, c.tick + 1, now);
  }

  lemma ArrivalStep(ttl: int, c: Cache, next: Caller) returns (c': Cache)
    requires Inv(c, ttl) && next.pc.Calling?
    ensures c' == Ticked(c.(callers := c.callers + [next]), c.now) && QuietStep(ttl, c, c') && Inv(c', ttl)
  {
    var mid := c.(callers := c.callers + [next]);
    c' := Ticked(mid, c.now);
    ArriveQuiet(ttl, c, next, c.now);
    ArriveKeepsInv(ttl, c, next);
    LaterInv(mid, ttl, c.now);
  }

  /** A caller that landed outside p's entry overlaps. */
  lemma LandedOverlaps(ttl: int, c: Cache, p: nat, q: nat)
    requires Inv(c, ttl) && p < |c.callers| && q < |c.callers| && p != q && c.callers[q].key == c.callers[p].key
    requires c.callers[q].pc.Uncached? || (c.callers[q].pc.Waiting? && !Holds(c.callers[p], c.callers[q].pc.entry))
    ensures CanOverlap(ttl, c, p)
  {
    if c.callers[q].pc.Uncached? { OverlapNow(ttl, c, p); } else { WaiterOverlaps(ttl, c, p, q); }
  }

  /** A new caller of the key looks up: it finds the cache full or waits at an entry p does not hold. */
  lemma NewCallerOverlaps(ttl: int, c: Cache, p: nat, q: nat)
    requires Inv(c, ttl) && p < |c.callers| && Computes(c.callers[p]) && !Linked(c, c.callers[p])
    requires p != q < |c.callers| && c.callers[q].pc.Calling? && c.callers[q].key == c.callers[p].key
    ensures CanOverlap(ttl, c, p)
  {
    var c' := LookupStep(ttl, c, q);
    LookupLands(c, ttl, p, q);
    LandedOverlaps(ttl, c', p, q);
    OverlapLater(ttl, c, c', p);
  }

  lemma LookupLands(c: Cache, ttl: int, p: nat, q: nat)
    requires Inv(c, ttl) && p < |c.callers| && Computes(c.callers[p]) && !Linked(c, c.callers[p])
    requires p != q < |c.callers| && c.callers[q].pc.Calling? && c.callers[q].key == c.callers[p].key
    ensures
      var c' := LookedUp(c, q);
      && c'.callers[p] == c.callers[p] && c'.callers[q].key == c.callers[q].key
      && (|| c'.callers[q].pc.Uncached?
          || (c'.callers[q].pc.Waiting? && !Holds(c.callers[p], c'.callers[q].pc.entry)))
  {
    assert CallerInv(c, ttl, c.callers[p]);
  }

  /** While p computes on nothing the map holds, the next caller of the key computes too. */
  lemma DetachedOverlaps(ttl: int, c: Cache, p: nat)
    requires Inv(c, ttl) && p < |c.callers| && Computes(c.callers[p]) && !Linked(c, c.callers[p])
    ensures CanOverlap(ttl, c, p)
  {
    var c' := ArrivalStep(ttl, c, Caller(c.callers[p].key, Calling, 0));
    assert c'.callers[p] == c.callers[p];
    NewCallerOverlaps(ttl, c', p, |c.callers|);
    OverlapLater(ttl, c, c', p);
  }

  /**
   "One computation of a key at a time" fails without a purge exactly when p
   computes outside the map, or someone is on its way to a computation of the
   key other than by waiting at p's entry.
   */
  lemma OverlapIff(ttl: int, run: seq<Cache>, p: nat)
    requires Run(ttl, run) && p < |Last(run).callers| && Computes(Last(run).callers[p])
    ensures CanOverlap(ttl, Last(run), p) <==> !Exclusive(Last(run), p)
  {
    RunKeepsInv(ttl, run);
    var c := Last(run);
    if Exclusive(c, p) {
      forall more | Continues(ttl, c, more, p)
        ensures !Overlaps(Last(more), p)
      {
        AloneNeverOverlaps(ttl, c, more, p);
      }
    } else if !Linked(c, c.callers[p]) {
      DetachedOverlaps(ttl, c, p);
    } else {
      var q :| 0 <= q < |c.callers| && q != p && Competes(c.callers[q], c.callers[p].key)
        && !(c.callers[q].pc.Waiting? && Linked(c, c.callers[q]));
      assert CallerInv(c, ttl, c.callers[q]);
      if Computes(c.callers[q]) {
        OverlapNow(ttl, c, p);
      } else if c.callers[q].pc.Holding? {
        HolderOverlaps(ttl, c, p, q);
      } else {
        WaiterOverlaps(ttl, c, p, q);
      }
    }
  }

  // ---------------------------------------------------------------- a run with two computations of one key

  const K: string := "key"
  const E0: Entry := Entry(K, 1, 0, None, 0)
  const E1: Entry := Entry(K, 4, 0, None, 0)
  const NEW: Caller := Caller(K, Calling, 0)

  /** A looks up; cleanup drops its entry before A takes the gate; B looks up a new one; both compute. */
  const S0: Cache := Cache(map[], [], [], 0, [], 0, 0)
  const S1: Cache := Cache(map[], [], [NEW], 0, [], 1, 0)
  const S2: Cache := Cache(map[K := 0], [E0], [NEW.(pc := Waiting(0))], 0, [], 2, 0)
  const S3: Cache := Cache(map[], [E0], [NEW.(pc := Waiting(0))], 0, [], 3, 0)
  const S4: Cache := Cache(map[], [E0], [NEW.(pc := Waiting(0)), NEW], 0, [], 4, 0)
  const S5: Cache := Cache(map[K := 1], [E0, E1], [NEW.(pc := Waiting(0)), NEW.(pc := Waiting(1))], 0, [], 5, 0)
  const S6: Cache :=
    S5.(objs := [E0.(gate := 1), E1], callers := [NEW.(pc := Holding(0)), NEW.(pc := Waiting(1))], tick := 6)
  const S7: Cache :=
    S6.(objs := [E0.(gate := 1), E1.(gate := 1)], callers := [NEW.(pc := Holding(0)), NEW.(pc := Holding(1))],
      tick := 7)
  const S8: Cache := S7.(callers := [NEW.(pc := Computing(0, 7)), NEW.(pc := Holding(1))], tick := 8)
  const S9: Cache := S8.(callers := [NEW.(pc := Computing(0, 7)), NEW.(pc := Computing(1, 8))], tick := 9)

  lemma StepByCaller(ttl: int, c: Cache, mid: Cache, c': Cache, p: nat)
    requires CallerStep(ttl, c, mid, p) && c' == Ticked(mid, c.now) && mid.tick == c.tick
    ensures Step(ttl, c, c')
  {
    assert Effect(ttl, c, mid) && c' == mid.(tick := c'.tick, now := c'.now);
  }

  lemma StepByArrival(ttl: int, c: Cache, c': Cache, caller: Caller)
    requires caller.pc.Calling? && c' == Ticked(c.(callers := c.callers + [caller]), c.now)
    ensures Step(ttl, c, c')
  {
    var mid := c.(callers := c.callers + [caller]);
    assert Effect(ttl, c, mid) && c' == mid.(tick := c'.tick, now := c'.now);
  }

  lemma StepByCleanup(ttl: int, c: Cache, c': Cache, key: string)
    requires Cleanup(c, c.(entries := c.entries - {key}), key, c.now)
    requires c' == Ticked(c.(entries := c.entries - {key}), c.now)
    ensures Step(ttl, c, c')
  {
    var mid := c.(entries := c.entries - {key});
    assert Effect(ttl, c, mid) && c' == mid.(tick := c'.tick, now := c'.now);
  }

  lemma Arrivals(ttl: int)
    ensures Step(ttl, S0, S1) && Step(ttl, S3, S4)
  {
    StepByArrival(ttl, S0, S1, NEW);
    StepByArrival(ttl, S3, S4, NEW);
  }

  lemma FirstLookup(ttl: int)
    ensures Step(ttl, S1, S2)
  {
    assert LookedUp(S1, 0) == S2.(tick := 1);
    StepByCaller(ttl, S1, LookedUp(S1, 0), S2, 0);
  }

  lemma EarlyCleanup(ttl: int)
    ensures Step(ttl, S2, S3)
  {
    assert S2.entries - {K} == map[];
    StepByCleanup(ttl, S2, S3, K);
  }

  lemma SecondLookup(ttl: int)
    ensures Step(ttl, S4, S5)
  {
    assert LookedUp(S4, 1) == S5.(tick := 4);
    StepByCaller(ttl, S4, LookedUp(S4, 1), S5, 1);
  }

  lemma FirstGate(ttl: int)
    ensures Step(ttl, S5, S6)
  {
    StepByCaller(ttl, S5, WithPC(SetGate(S5, 0, 1), 0, Holding(0)), S6, 0);
  }

  lemma SecondGate(ttl: int)
    ensures Step(ttl, S6, S7)
  {
    StepByCaller(ttl, S6, WithPC(SetGate(S6, 1, 1), 1, Holding(1)), S7, 1);
  }

  lemma Checks(ttl: int)
    ensures Step(ttl, S7, S8) && Step(ttl, S8, S9)
  {
    StepByCaller(ttl, S7, Checked(S7, 0), S8, 0);
    StepByCaller(ttl, S8, Checked(S8, 1), S9, 1);
  }

  lemma Extended(ttl: int, run: seq<Cache>, c: Cache) returns (all: seq<Cache>)
    requires Run(ttl, run) && Step(ttl, Last(run), c)
    ensures Run(ttl, all) && Last(all) == c
  {
    all := run + [c];
    forall k, k' | 0 <= k && k' == k + 1 < |all| ensures Step(ttl, all[k], all[k']) {
      ExtendedStep(ttl, run, c, k);
    }
  }

  lemma ExtendedStep(ttl: int, run: seq<Cache>, c: Cache, k: nat)
    requires Run(ttl, run) && k < |run| && Step(ttl, Last(run), c)
    ensures Step(ttl, (run + [c])[k], (run + [c])[k + 1])
  {
    if k + 1 < |run| { StepOf(ttl, run, k); }
  }

  /** Two callers of one key compute at a time: a cleanup came between a lookup and its gate. */
  lemma OverlapHappens(ttl: int) returns (run: seq<Cache>)
    ensures Run(ttl, run) && Last(run) == S9
    ensures S9.callers[0].key == S9.callers[1].key && S9.callers[0].pc.Computing? && S9.callers[1].pc.Computing?
  {
    Arrivals(ttl);
    FirstLookup(ttl);
    EarlyCleanup(ttl);
    SecondLookup(ttl);
    FirstGate(ttl);
    SecondGate(ttl);
    Checks(ttl);
    run := Extended(ttl, [S0], S1);
    run := Extended(ttl, run, S2);
    run := Extended(ttl, run, S3);
    run := Extended(ttl, run, S4);
    run := Extended(ttl, run, S5);
    run := Extended(ttl, run, S6);
    run := Extended(ttl, run, S7);
    run := Extended(ttl, run, S8);
    run := Extended(ttl, run, S9);
  }

  // ---------------------------------------------------------------- what the cache answers

  /** The step is one of caller p. */
  predicate Moves(c: Cache, c': Cache, p: nat) {
    p < |c.callers| && p < |c'.callers| && c'.callers[p].pc != c.callers[p].pc
  }

  /** A caller moves by its own steps only. */
  lemma MovesBySelf(ttl: int, c: Cache, c': Cache, p: nat) returns (mid: Cache)
    requires Step(ttl, c, c') && p < |c.callers|
    ensures p < |c'.callers| && c'.callers[p].key == c.callers[p].key
    ensures Moves(c, c', p) ==> CallerStep(ttl, c, mid, p) && c' == mid.(tick := c'.tick, now := c'.now)
  {
    mid :| Effect(ttl, c, mid) && c' == mid.(tick := c'.tick, now := c'.now);
    if q: nat :| CallerStep(ttl, c, mid, q) { OthersStay(ttl, c, mid, q); }
  }

  lemma OthersStay(ttl: int, c: Cache, c': Cache, q: nat)
    requires CallerStep(ttl, c, c', q)
    ensures |c'.callers| == |c.callers| && forall p :: 0 <= p < |c.callers| ==>
      c'.callers[p].key == c.callers[p].key && (p != q ==> c'.callers[p] == c.callers[p])
  {
  }

  /** A lookup waits at the entry linked under its key, links one unless the cache is full, and else goes without. */
  lemma LookupLinks(ttl: int, c: Cache, c': Cache, p: nat)
    requires Step(ttl, c, c') && Moves(c, c', p) && c.callers[p].pc.Calling?
    ensures
      var key, pc := c.callers[p].key, c'.callers[p].pc;
      if key in c.entries then pc == Waiting(c.entries[key])
      else if |c.entries| >= MAX_ENTRIES then pc.Uncached?
      else
        pc == Waiting(|c.objs|) && c'.entries == c.entries[key := |c.objs|] && |c'.objs| == |c.objs| + 1
        && c'.objs[|c.objs|].resp == None
  {
    var mid := MovesBySelf(ttl, c, c', p);
  }

  /** With the gate: a response younger than the TTL is answered, and only without one is computed. */
  lemma HolderAnswers(ttl: int, c: Cache, c': Cache, p: nat)
    requires Inv(c, ttl) && Step(ttl, c, c') && Moves(c, c', p) && c.callers[p].pc.Holding?
    ensures c.callers[p].pc.entry < |c.objs|
    ensures
      var i := c.callers[p].pc.entry;
      var r := c.objs[i].resp;
      if r.Some? && c.now < r.value.stored + ttl then c'.callers[p].pc == Leaving(i, Hit(r.value, c.now))
      else c'.callers[p].pc == Computing(i, c.tick)
  {
    var mid := MovesBySelf(ttl, c, c', p);
    assert CallerInv(c, ttl, c.callers[p]);
    assert EntryInv(c, ttl, c.callers[p].pc.entry);
  }

  /** A computation that ends without error is stored in its entry and answered. */
  lemma SuccessIsStored(c: Cache, ttl: int, p: nat, value: Bytes)
    requires p < |c.callers| && c.callers[p].pc.Computing? && c.callers[p].pc.entry < |c.objs|
    ensures
      var i, r := c.callers[p].pc.entry, Response(value, c.callers[p].key, c.callers[p].pc.began, c.now);
      var c' := Stored(c, ttl, p, Some(value));
      c'.callers[p].pc == Leaving(i, Fresh(r)) && |c'.objs| == |c.objs| && c'.objs[i].resp == Some(r)
  {
  }

  /** Caller q's computation on entry i ends without error in resp. */
  predicate EndsIn(c: Cache, c': Cache, q: nat, i: nat, resp: Response) {
    && Moves(c, c', q) && c.callers[q].pc.Computing? && c.callers[q].pc.entry == i < |c.objs|
    && c'.callers[q].pc == Leaving(i, Fresh(resp))
  }

  lemma EndIsStored(ttl: int, c: Cache, c': Cache, q: nat, i: nat, resp: Response)
    requires Step(ttl, c, c') && EndsIn(c, c', q, i, resp)
    ensures i < |c'.objs| && c'.objs[i].resp == Some(resp) && resp.stored == c.now
  {
    var mid := MovesBySelf(ttl, c, c', q);
    var value :| mid == Stored(c, ttl, q, value);
  }

  /** Nothing was stored in the future. */
  ghost predicate StoredInv(c: Cache) {
    forall i :: 0 <= i < |c.objs| && c.objs[i].resp.Some? ==> c.objs[i].resp.value.stored <= c.now
  }

  /** Entry i holds a response stored at time t or later. */
  predicate HoldsSince(c: Cache, i: nat, t: int) {
    i < |c.objs| && c.objs[i].resp.Some? && c.objs[i].resp.value.stored >= t
  }

  /** A response in an entry is only ever replaced by a later one. */
  lemma EffectKeepsStored(ttl: int, c: Cache, c': Cache)
    requires StoredInv(c) && Effect(ttl, c, c')
    ensures StoredInv(c') && c'.now == c.now && forall i: nat, t :: HoldsSince(c, i, t) ==> HoldsSince(c', i, t)
  {
    if p: nat :| CallerStep(ttl, c, c', p) { CallerKeepsStored(ttl, c, c', p); }
  }

  lemma CallerKeepsStored(ttl: int, c: Cache, c': Cache, p: nat)
    requires StoredInv(c) && CallerStep(ttl, c, c', p)
    ensures StoredInv(c') && c'.now == c.now && forall i: nat, t :: HoldsSince(c, i, t) ==> HoldsSince(c', i, t)
  {
  }

  lemma StepKeepsStored(ttl: int, c: Cache, c': Cache)
    requires StoredInv(c) && Step(ttl, c, c')
    ensures StoredInv(c') && forall i: nat, t :: HoldsSince(c, i, t) ==> HoldsSince(c', i, t)
  {
    var mid :| Effect(ttl, c, mid) && c' == mid.(tick := c'.tick, now := c'.now);
    EffectKeepsStored(ttl, c, mid);
  }

  lemma StoredAlways(ttl: int, run: seq<Cache>, k: nat)
    requires Run(ttl, run) && k < |run|
    ensures StoredInv(run[k])
  {
    forall k, k' | 0 <= k && k' == k + 1 < |run| && StoredInv(run[k]) ensures StoredInv(run[k']) {
      StepOf(ttl, run, k);
      StepKeepsStored(ttl, run[k], run[k']);
    }
    StoredThroughout(run, k);
  }

  lemma {:induction false} StoredThroughout(run: seq<Cache>, n: nat)
    requires n < |run| && StoredInv(run[0])
    requires forall k, k' :: 0 <= k && k' == k + 1 < |run| && StoredInv(run[k]) ==> StoredInv(run[k'])
    ensures StoredInv(run[n])
  {
    if n > 0 { StoredThroughout(run, n - 1); }
  }

  lemma HoldsOn(ttl: int, run: seq<Cache>, s: nat, m: nat, i: nat, t: int)
    requires Run(ttl, run) && s <= m < |run| && HoldsSince(run[s], i, t)
    ensures HoldsSince(run[m], i, t)
  {
    forall k, k' | 0 <= k && k' == k + 1 < |run| && HoldsSince(run[k], i, t) ensures HoldsSince(run[k'], i, t) {
      StoredAlways(ttl, run, k);
      StepOf(ttl, run, k);
      StepKeepsStored(ttl, run[k], run[k']);
    }
    HoldsThroughout(run, s, m, i, t);
  }

  lemma {:induction false} HoldsThroughout(run: seq<Cache>, s: nat, m: nat, i: nat, t: int)
    requires s <= m < |run| && HoldsSince(run[s], i, t)
    requires forall k, k' :: 0 <= k && k' == k + 1 < |run| && HoldsSince(run[k], i, t) ==> HoldsSince(run[k'], i, t)
    ensures HoldsSince(run[m], i, t)
  {
    if m > s { HoldsThroughout(run, s, m - 1, i, t); }
  }

  /** The caller is at entry i, or has returned. */
  predicate On(c: Cache, p: nat, i: nat) {
    && p < |c.callers|
    && match c.callers[p].pc
       case Waiting(j) => j == i
       case Holding(j) => j == i
       case Computing(j, _) => j == i
       case Leaving(j, _) => j == i
       case Returned(_) => true
       case _ => false
  }

  lemma StaysOn(ttl: int, c: Cache, c': Cache, p: nat, i: nat)
    requires Step(ttl, c, c') && On(c, p, i)
    ensures On(c', p, i)
  {
    var mid := MovesBySelf(ttl, c, c', p);
    if Moves(c, c', p) { OwnStepStaysOn(ttl, c, mid, p, i); }
  }

  lemma OwnStepStaysOn(ttl: int, c: Cache, c': Cache, p: nat, i: nat)
    requires CallerStep(ttl, c, c', p) && On(c, p, i)
    ensures On(c', p, i)
  {
  }

  lemma OnFrom(ttl: int, run: seq<Cache>, l: nat, m: nat, p: nat, i: nat)
    requires Run(ttl, run) && l <= m < |run| && On(run[l], p, i)
    ensures On(run[m], p, i)
  {
    forall k, k' | 0 <= k && k' == k + 1 < |run| && On(run[k], p, i) ensures On(run[k'], p, i) {
      StepOf(ttl, run, k);
      StaysOn(ttl, run[k], run[k'], p, i);
    }
    OnThroughout(run, l, m, p, i);
  }

  lemma {:induction false} OnThroughout(run: seq<Cache>, l: nat, m: nat, p: nat, i: nat)
    requires l <= m < |run| && On(run[l], p, i)
    requires forall k, k' :: 0 <= k && k' == k + 1 < |run| && On(run[k], p, i) ==> On(run[k'], p, i)
    ensures On(run[m], p, i)
  {
    if m > l { OnThroughout(run, l, m - 1, p, i); }
  }

  /** Entry i is linked under the key. */
  predicate LinkedAt(c: Cache, key: string, i: nat) {
    key in c.entries && c.entries[key] == i
  }

  /** Only a purge unlinks an entry whose response is younger than the TTL. */
  lemma LinkStays(ttl: int, c: Cache, c': Cache, key: string, i: nat, t: int)
    requires Inv(c, ttl) && Step(ttl, c, c') && LinkedAt(c, key, i) && HoldsSince(c, i, t) && c.now < t + ttl
    requires !PurgeStep(c, c')
    ensures LinkedAt(c', key, i)
  {
    var mid :| Effect(ttl, c, mid) && c' == mid.(tick := c'.tick, now := c'.now);
    assert EntryInv(c, ttl, i);
    if p: nat :| CallerStep(ttl, c, mid, p) {
      CallerKeepsLinks(ttl, c, mid, p, key, i);
    } else if k, u :| Cleanup(c, mid, k, u) {
      assert k != key;
    }
  }

  lemma CallerKeepsLinks(ttl: int, c: Cache, c': Cache, p: nat, key: string, i: nat)
    requires CallerStep(ttl, c, c', p) && LinkedAt(c, key, i)
    ensures LinkedAt(c', key, i)
  {
  }

  /** The clock never goes back. */
  lemma {:induction false} NowGrows(run: seq<Cache>, k: nat, m: nat)
    requires k <= m < |run| && forall j, j' :: 0 <= j && j' == j + 1 < |run| ==> run[j].now <= run[j'].now
    ensures run[k].now <= run[m].now
  {
    if m > k { NowGrows(run, k, m - 1); }
  }

  lemma RunNowGrows(ttl: int, run: seq<Cache>, k: nat, m: nat)
    requires Run(ttl, run) && k <= m < |run|
    ensures run[k].now <= run[m].now
  {
    forall j, j' | 0 <= j && j' == j + 1 < |run| ensures run[j].now <= run[j'].now { StepOf(ttl, run, j); }
    NowGrows(run, k, m);
  }

  /** No purge happens from state s on, up to state l. */
  ghost predicate NoPurge(run: seq<Cache>, s: nat, l: nat)
    requires l < |run|
  {
    forall k :: s <= k < l ==> !PurgeStep(run[k], run[k + 1])
  }

  /** Without a purge an entry stays linked while its response is younger than the TTL, whatever is cleaned up. */
  lemma {:induction false} StaysLinked(ttl: int, run: seq<Cache>, s: nat, l: nat, key: string, i: nat, t: int)
    requires Run(ttl, run) && s <= l < |run| && NoPurge(run, s, l)
    requires LinkedAt(run[s], key, i) && HoldsSince(run[s], i, t) && run[l].now < t + ttl
    ensures LinkedAt(run[l], key, i)
  {
    if l > s {
      RunNowGrows(ttl, run, l - 1, l);
      StaysLinked(ttl, run, s, l - 1, key, i, t);
      HoldsOn(ttl, run, s, l - 1, i, t);
      PrefixRun(ttl, run, l - 1);
      StepOf(ttl, run, l - 1);
      LinkStays(ttl, run[l - 1], run[l], key, i, t);
    }
  }

  /**
   Over any run: once a computation has ended without error at step s, its entry
   linked under its key, whoever looks the key up later with no purge in between
   and gets the gate before the TTL is over is answered from that entry.
   */
  lemma AnsweredUnlessPurged(ttl: int, run: seq<Cache>, s: nat, q: nat, i: nat, resp: Response, l: nat, m: nat, p: nat)
    requires Run(ttl, run) && s < l < m && m + 1 < |run| && EndsIn(run[s], run[s + 1], q, i, resp)
    requires Moves(run[l], run[l + 1], p) && run[l].callers[p].pc.Calling?
    requires LinkedAt(run[s + 1], run[l].callers[p].key, i) && NoPurge(run, s + 1, l)
    requires Moves(run[m], run[m + 1], p) && run[m].callers[p].pc.Holding? && run[m].now < resp.stored + ttl
    ensures HoldsSince(run[m], i, resp.stored)
    ensures run[m + 1].callers[p].pc == Leaving(i, Hit(run[m].objs[i].resp.value, run[m].now))
  {
    RunNowGrows(ttl, run, l, m);
    StoredSince(ttl, run, s, q, i, resp, s + 1);
    StaysLinked(ttl, run, s + 1, l, run[l].callers[p].key, i, resp.stored);
    AnsweredFromCache(ttl, run, s, q, i, resp, l, m, p);
  }

  /**
   Over any run: once a computation on an entry has ended without error, at step
   s, whoever looks up later, at step l, while the entry is linked, and gets the
   gate before the TTL is over, at step m, is answered from the entry: the last
   response stored in it, without computing.
   */
  lemma AnsweredFromCache(ttl: int, run: seq<Cache>, s: nat, q: nat, i: nat, resp: Response, l: nat, m: nat, p: nat)
    requires Run(ttl, run) && s < l < m && m + 1 < |run| && EndsIn(run[s], run[s + 1], q, i, resp)
    requires Moves(run[l], run[l + 1], p) && run[l].callers[p].pc.Calling?
    requires var key := run[l].callers[p].key; key in run[l].entries && run[l].entries[key] == i
    requires Moves(run[m], run[m + 1], p) && run[m].callers[p].pc.Holding? && run[m].now < resp.stored + ttl
    ensures HoldsSince(run[m], i, resp.stored)
    ensures run[m + 1].callers[p].pc == Leaving(i, Hit(run[m].objs[i].resp.value, run[m].now))
  {
    StoredSince(ttl, run, s, q, i, resp, m);
    WaitsSince(ttl, run, l, m, p, i);
    PrefixRun(ttl, run, m);
    StepOf(ttl, run, m);
    HolderAnswers(ttl, run[m], run[m + 1], p);
  }

  lemma StepOf(ttl: int, run: seq<Cache>, k: nat)
    requires Run(ttl, run) && k + 1 < |run|
    ensures Step(ttl, run[k], run[k + 1])
  {
  }

  lemma StoredSince(ttl: int, run: seq<Cache>, s: nat, q: nat, i: nat, resp: Response, m: nat)
    requires Run(ttl, run) && s < m < |run| && EndsIn(run[s], run[s + 1], q, i, resp)
    ensures HoldsSince(run[m], i, resp.stored)
  {
    StepOf(ttl, run, s);
    EndIsStored(ttl, run[s], run[s + 1], q, i, resp);
    HoldsOn(ttl, run, s + 1, m, i, resp.stored);
  }

  lemma WaitsSince(ttl: int, run: seq<Cache>, l: nat, m: nat, p: nat, i: nat)
    requires Run(ttl, run) && l < m < |run| && Moves(run[l], run[l + 1], p) && run[l].callers[p].pc.Calling?
    requires var key := run[l].callers[p].key; key in run[l].entries && run[l].entries[key] == i
    ensures On(run[m], p, i)
  {
    StepOf(ttl, run, l);
    LookupLinks(ttl, run[l], run[l + 1], p);
    OnFrom(ttl, run, l + 1, m, p, i);
  }

  /** On one entry no computation starts within the TTL of one that ended without error. */
  lemma ComputationsApart(ttl: int, run: seq<Cache>, s: nat, q: nat, i: nat, resp: Response, m: nat, p: nat)
    requires Run(ttl, run) && s < m && m + 1 < |run| && EndsIn(run[s], run[s + 1], q, i, resp)
    requires Moves(run[m], run[m + 1], p) && run[m].callers[p].pc == Holding(i)
    requires run[m + 1].callers[p].pc.Computing?
    ensures run[m].now >= resp.stored + ttl
  {
    StoredSince(ttl, run, s, q, i, resp, m);
    PrefixRun(ttl, run, m);
    StepOf(ttl, run, m);
    HolderAnswers(ttl, run[m], run[m + 1], p);
  }

  // ---------------------------------------------------------------- the object

  /**
   respCache with the entries it made and the callers inside get; purged,
   computed and tick record what happened and steer nothing.
   */
  class Store {
    var entries: map<string, nat>
    var objs: seq<Entry>
    var callers: seq<Caller>
    const ttl: int
    var purged: nat
    var computed: seq<Response>
    var tick: nat
    var now: int

    ghost function View(): Cache
      reads this
    {
      Cache(entries, objs, callers, purged, computed, tick, now)
    }

    constructor (ttl: int)
      ensures Init(View()) && this.ttl == ttl
    {
      this.ttl := ttl;
      entries, objs, callers := map[], [], [];
      purged, computed, tick, now := 0, [], 0, 0;
    }

    method Lookup(p: nat)
      requires p < |callers|
      modifies this
      ensures View() == LookedUp(old(View()), p)
    {
      var key := callers[p].key;
      if key !in entries {
        if |entries| >= MAX_ENTRIES {
          callers := callers[p := Caller(key, Uncached(tick), purged)];
          return;
        }
        objs := objs + [Entry(key, tick, 0, None, 0)];
        entries := entries[key := |objs| - 1];
      }
      callers := callers[p := Caller(key, Waiting(entries[key]), purged)];
    }

    /** The gate is held: a fresh response is answered, otherwise the caller computes. */
    method Check(p: nat)
      requires p < |callers| && callers[p].pc.Holding? && callers[p].pc.entry < |objs|
      modifies this
      ensures View() == Checked(old(View()), p)
    {
      var i := callers[p].pc.entry;
      var pc := Computing(i, tick);
      if objs[i].resp.Some? && now < objs[i].expires {
        pc := Leaving(i, Hit(objs[i].resp.value, now));
      }
      callers := callers[p := callers[p].(pc := pc)];
    }

    method Finish(p: nat, value: Option<Bytes>)
      requires p < |callers| && callers[p].pc.Computing? && callers[p].pc.entry < |objs|
      modifies this
      ensures View() == Stored(old(View()), ttl, p, value)
    {
      var i := callers[p].pc.entry;
      if value.None? {
        callers := callers[p := callers[p].(pc := Leaving(i, Failed))];
        return;
      }
      var resp := Response(value.value, callers[p].key, callers[p].pc.began, now);
      objs := objs[i := objs[i].(resp := Some(resp), expires := now + ttl)];
      computed := computed + [resp];
      callers := callers[p := callers[p].(pc := Leaving(i, Fresh(resp)))];
    }

    method Purge()
      modifies this
      ensures View() == Purged(old(View()))
    {
      entries, purged := map[], tick;
    }

    /** One tick of cleanupLoop, its clock read at t: held gates are left alone. */
    method CleanUp(t: int)
      modifies this
      ensures View() == old(View()).(entries := entries)
      ensures forall key :: key in entries <==> key in old(entries) && !Droppable(old(View()), key, t)
      ensures forall key :: key in entries ==> entries[key] == old(entries)[key]
      ensures forall key :: key in old(entries) && old(entries)[key] < |objs| ==>
        (key !in entries <==> objs[old(entries)[key]].gate == 0 && objs[old(entries)[key]].expires <= t)
    {
      var todo := entries.Keys;
      while todo != {}
        invariant todo <= entries.Keys && View() == old(View()).(entries := entries)
        invariant forall key :: key in entries <==>
          key in old(entries) && (key in todo || !Droppable(old(View()), key, t))
        invariant forall key :: key in entries ==> entries[key] == old(entries)[key]
        decreases todo
      {
        var key :| key in todo;
        var i := entries[key];
        if i < |objs| && objs[i].gate == 0 && t >= objs[i].expires { entries := entries - {key}; }
        todo := todo - {key};
      }
    }
  }
}
