/**
 Shared downloads and the memory of failed ones (fetchFlight in
 cmd/certview/guard.go). Waiters and download goroutines interleave; what runs
 under the mutex is one step. A fetchCall is an index into `objs`, its identity.
 */
module SharedDownloads {
  import opened Common
  import URLs

  const MAX_FETCHES: int := 20
  const MAX_REMEMBERED: nat := 4096
  const SWEEP_AFTER: int := 10

  /** A failed fetch; unreachable is the dialed address that did not connect. */
  datatype FetchError = FetchError(text: string, unreachable: Option<string>)

  datatype Outcome = Outcome(data: Bytes, contentType: string, err: Option<FetchError>)

  /** The download's own context. */
  datatype Ctx = Live | Canceled | TimedOut

  /** The download goroutine, from the fetch to close(done). */
  datatype Phase =
    | Fetching
    | Returned(out: Outcome)                     // fetch returned
    | Checked(out: Outcome, abandoned: bool)     // fctx.Err() read
    | Unlinked(out: Outcome, abandoned: bool, at: int)    // critical section over, since at
    | Published(out: Outcome, abandoned: bool, at: int)   // done closed

  datatype Call = Call(key: string, endpoint: string, canTimeOut: bool, waiters: int, ctx: Ctx, phase: Phase)

  /** One caller of `do` that joined a call. */
  datatype WaitPhase = Waiting | Left | Got(out: Outcome)

  datatype Waiter = Waiter(call: nat, phase: WaitPhase)

  datatype Failure = Failure(err: FetchError, until: int)

  /** A failure recorded under a name, in the history nothing is ever dropped from. */
  datatype Event = Event(name: string, err: FetchError, at: int)

  datatype Flight = Flight(
    calls: map<string, nat>,
    objs: seq<Call>,
    waiters: seq<Waiter>,
    failed: map<string, Failure>,
    swept: int,
    budgets: seq<int>,
    joins: seq<nat>,
    history: seq<Event>,
    now: int)

  datatype Entered = Refused(err: FetchError) | OverBudget | Joined(call: nat)

  function HostKey(endpoint: string): string {
    "endpoint " + endpoint
  }

  // ---------------------------------------------------------------- critical sections

  /** One round of the loop over the remembered failures. */
  function Recall(failed: map<string, Failure>, name: string, t: int): (Option<FetchError>, map<string, Failure>) {
    if name !in failed then (None, failed)
    else if t < failed[name].until then (Some(failed[name].err), failed)
    else (None, failed - {name})
  }

  function Join(f: Flight, key: string, endpoint: string, canTimeOut: bool): (Flight, nat) {
    var c := if key in f.calls then f.calls[key] else |f.objs|;
    var objs :=
      if key in f.calls then
        if c < |f.objs| then f.objs[c := f.objs[c].(waiters := f.objs[c].waiters + 1)] else f.objs
      else f.objs + [Call(key, endpoint, canTimeOut, 1, Live, Fetching)];
    (f.(calls := f.calls[key := c], objs := objs, waiters := f.waiters + [Waiter(c, Waiting)]), c)
  }

  /** `do` up to the wait: t0 and t1 are its two clock readings, who its analysis. */
  function Entering(f: Flight, key: string, endpoint: string, canTimeOut: bool, t0: int, t1: int, who: nat): (Flight,
      Entered)
    requires who < |f.budgets| == |f.joins|
  {
    var (hit0, failed0) := Recall(f.failed, key, t0);
    if hit0.Some? then (f.(now := t1), Refused(hit0.value)) else
    var (hit1, failed1) := Recall(failed0, HostKey(endpoint), t1);
    if hit1.Some? then (f.(failed := failed1, now := t1), Refused(hit1.value)) else
    var left := f.budgets[who] - 1;
    var f1 := f.(failed := failed1, now := t1, budgets := f.budgets[who := left]);
    if left < 0 then (f1, OverBudget) else
    var (f2, c) := Join(f1, key, endpoint, canTimeOut);
    (f2.(joins := f.joins[who := f.joins[who] + 1]), Joined(c))
  }

  /** A connection failure of the endpoint itself, not of a redirect target. */
  predicate HitsEndpoint(err: FetchError, endpoint: string) {
    && err.unreachable.Some? && URLs.AfterScheme(endpoint).Some?
    && URLs.Lower(URLs.AfterScheme(endpoint).value) == URLs.Lower(err.unreachable.value)
  }

  function Sweep(failed: map<string, Failure>, t: int): map<string, Failure> {
    map name | name in failed && !(failed[name].until < t) :: failed[name]
  }

  predicate SweepDue(failed: map<string, Failure>, swept: int, t: int) {
    |failed| >= MAX_REMEMBERED && t - swept > SWEEP_AFTER
  }

  function Remember(failed: map<string, Failure>, c: Call, err: FetchError, until: int): map<string, Failure> {
    var failed1 := failed[c.key := Failure(err, until)];
    if HitsEndpoint(err, c.endpoint) then failed1[HostKey(c.endpoint) := Failure(err, until)] else failed1
  }

  function Events(c: Call, err: FetchError, t: int): seq<Event> {
    [Event(c.key, err, t)] + if HitsEndpoint(err, c.endpoint) then [Event(HostKey(c.endpoint), err, t)] else []
  }

  /** The goroutine's critical section, at time t. */
  function Finishing(f: Flight, ttl: int, i: nat, t: int): Flight
    requires i < |f.objs| && f.objs[i].phase.Checked?
  {
    var c := f.objs[i];
    var f1 := f.(
      now := t,
      objs := f.objs[i := c.(phase := Unlinked(c.phase.out, c.phase.abandoned, t))],
      calls := if c.key in f.calls && f.calls[c.key] == i then f.calls - {c.key} else f.calls);
    if c.phase.out.err.None? || c.phase.abandoned then f1 else
    var err := c.phase.out.err.value;
    var f2 := f1.(history := f.history + Events(c, err, t));
    if ttl <= 0 then f2 else
    var due := SweepDue(f.failed, f.swept, t);
    var kept := if due then Sweep(f.failed, t) else f.failed;
    f2.(swept := if due then t else f.swept, failed := Remember(kept, c, err, t + ttl))
  }

  /** A waiter whose context is done takes the lock and leaves. */
  function Leaving(f: Flight, w: nat): Flight
    requires w < |f.waiters| && f.waiters[w].call < |f.objs|
  {
    var i := f.waiters[w].call;
    var c := f.objs[i].(waiters := f.objs[i].waiters - 1);
    var f1 := f.(waiters := f.waiters[w := Waiter(i, Left)]);
    if c.waiters == 0 then
      f1.(objs := f.objs[i := c.(ctx := if c.ctx == Live then Canceled else c.ctx)],
          calls := if c.key in f.calls && f.calls[c.key] == i then f.calls - {c.key} else f.calls)
    else f1.(objs := f.objs[i := c])
  }

  // ---------------------------------------------------------------- steps

  function WithPhase(f: Flight, i: nat, ctx: Ctx, phase: Phase): Flight
    requires i < |f.objs|
  {
    f.(objs := f.objs[i := f.objs[i].(ctx := ctx, phase := phase)])
  }

  /** One step of the goroutine of call i. */
  ghost predicate Download(ttl: int, f: Flight, f': Flight, i: nat) {
    i < |f.objs| &&
    var c := f.objs[i];
    match c.phase
    case Fetching => exists out :: f' == WithPhase(f, i, c.ctx, Returned(out))
    case Returned(out) =>
      // abandoned is read, then the context is released
      f' == WithPhase(f, i, if c.ctx == Live then Canceled else c.ctx, Checked(out, c.ctx == Canceled))
    case Checked(_, _) => f'.now >= f.now && f' == Finishing(f, ttl, i, f'.now)
    case Unlinked(out, a, at) => f' == WithPhase(f, i, c.ctx, Published(out, a, at))
    case Published(_, _, _) => false
  }

  /** The download's own timeout, for kinds that have one. */
  ghost predicate TimeOut(f: Flight, f': Flight, i: nat) {
    && i < |f.objs| && f.objs[i].canTimeOut && f.objs[i].ctx == Live && !f.objs[i].phase.Published?
    && f' == WithPhase(f, i, TimedOut, f.objs[i].phase)
  }

  ghost predicate Arrive(f: Flight, f': Flight, key: string, endpoint: string, canTimeOut: bool, t0: int, who: nat) {
    && who < |f.budgets| == |f.joins|
    && URLs.AfterScheme(endpoint).Some?
    && f.now <= t0 <= f'.now
    && f' == Entering(f, key, endpoint, canTimeOut, t0, f'.now, who).0
  }

  /** done is closed and the waiter takes the result. */
  ghost predicate Receive(f: Flight, f': Flight, w: nat) {
    && w < |f.waiters| && f.waiters[w].phase.Waiting? && f.waiters[w].call < |f.objs|
    && var c := f.objs[f.waiters[w].call];
       c.phase.Published? && f' == f.(waiters := f.waiters[w := f.waiters[w].(phase := Got(c.phase.out))])
  }

  ghost predicate Depart(f: Flight, f': Flight, w: nat) {
    w < |f.waiters| && f.waiters[w].phase.Waiting? && f.waiters[w].call < |f.objs| && f' == Leaving(f, w)
  }

  ghost predicate Step(ttl: int, f: Flight, f': Flight) {
    || (exists i: nat :: Download(ttl, f, f', i))
    || (exists i: nat :: TimeOut(f, f', i))
    || (exists w: nat :: Receive(f, f', w))
    || (exists w: nat :: Depart(f, f', w))
    || (exists key, endpoint, canTimeOut, t0, who: nat :: Arrive(f, f', key, endpoint, canTimeOut, t0, who))
  }

  ghost predicate Init(f: Flight) {
    && f.calls == map[] && f.objs == [] && f.waiters == [] && f.failed == map[] && f.history == []
    && |f.budgets| == |f.joins|
    && forall a :: 0 <= a < |f.budgets| ==> f.budgets[a] == MAX_FETCHES && f.joins[a] == 0
  }

  ghost predicate Run(ttl: int, run: seq<Flight>) {
    && |run| > 0
    && Init(run[0])
    && forall k, k' :: 0 <= k && k' == k + 1 < |run| ==> Step(ttl, run[k], run[k'])
  }

  function Last(run: seq<Flight>): Flight
    requires |run| > 0
  {
    run[|run| - 1]
  }

  // ---------------------------------------------------------------- invariants

  /** Callers that joined call i and have not left it. */
  function Staying(waiters: seq<Waiter>, i: nat): nat {
    if waiters == [] then 0
    else Staying(waiters[..|waiters| - 1], i) + Stays(waiters[|waiters| - 1], i)
  }

  function Stays(w: Waiter, i: nat): nat {
    if w.call == i && w.phase != Left then 1 else 0
  }

  /** The download can still reach its critical section. */
  predicate Pending(p: Phase) {
    p.Fetching? || p.Returned? || p.Checked?
  }

  /** A leaver cancelled the download before it saw its own end. */
  predicate Abandoned(c: Call) {
    match c.phase
    case Fetching => c.ctx == Canceled
    case Returned(_) => c.ctx == Canceled
    case Checked(_, a) => a
    case Unlinked(_, a, _) => a
    case Published(_, a, _) => a
  }

  predicate CallInv(f: Flight, i: nat)
    requires i < |f.objs|
  {
    var c := f.objs[i];
    && c.waiters == Staying(f.waiters, i)
    && URLs.AfterScheme(c.endpoint).Some?
    && (Abandoned(c) ==> c.waiters == 0)
    // linked exactly while pending and waited for; an unlinked pending download has a dead context
    && ((c.key in f.calls && f.calls[c.key] == i) <==> (Pending(c.phase) && c.waiters > 0))
    && (c.waiters == 0 && (c.phase.Fetching? || c.phase.Returned?) ==> c.ctx != Live)
  }

  predicate WaiterInv(f: Flight, w: nat)
    requires w < |f.waiters|
  {
    && f.waiters[w].call < |f.objs|
    && (f.waiters[w].phase.Got? ==>
        var p := f.objs[f.waiters[w].call].phase; p.Published? && p.out == f.waiters[w].phase.out)
  }

  ghost predicate SharingInv(f: Flight) {
    && (forall i :: 0 <= i < |f.objs| ==> CallInv(f, i))
    && (forall key :: key in f.calls ==> f.calls[key] < |f.objs| && f.objs[f.calls[key]].key == key)
    && (forall w :: 0 <= w < |f.waiters| ==> WaiterInv(f, w))
  }

  /** The last failure recorded under a name. */
  function Latest(history: seq<Event>, name: string): Option<Event> {
    if history == [] then None
    else if history[|history| - 1].name == name then Some(history[|history| - 1])
    else Latest(history[..|history| - 1], name)
  }

  /** Some failure of that name, ever recorded, is less than ttl old. */
  ghost predicate FailedRecently(history: seq<Event>, ttl: int, name: string, t: int) {
    exists k :: 0 <= k < |history| && history[k].name == name && t < history[k].at + ttl
  }

  /** Memory and history agree on a name, up to failures that have expired. */
  predicate Remembers(failed: map<string, Failure>, history: seq<Event>, ttl: int, now: int, name: string) {
    match Latest(history, name)
    case None => name !in failed
    case Some(e) =>
      if name in failed then failed[name] == Failure(e.err, e.at + ttl) else e.at + ttl <= now
  }

  ghost predicate MemoryInv(f: Flight, ttl: int) {
    && (ttl <= 0 ==> f.failed == map[])
    && (forall k :: 0 <= k < |f.history| ==> f.history[k].at <= f.now)
    && (forall k, l :: 0 <= k < l < |f.history| ==> f.history[k].at <= f.history[l].at)
    && (forall name :: Remembers(f.failed, f.history, ttl, f.now, name))
  }

  ghost predicate BudgetInv(f: Flight) {
    && |f.budgets| == |f.joins|
    && forall a :: 0 <= a < |f.budgets| ==>
        f.joins[a] + (if f.budgets[a] > 0 then f.budgets[a] else 0) == MAX_FETCHES
  }

  // ---------------------------------------------------------------- sharing: proofs

  lemma {:induction false} StayingUpdate(ws: seq<Waiter>, w: nat, x: Waiter, i: nat)
    requires w < |ws|
    ensures Staying(ws[w := x], i) + Stays(ws[w], i) == Staying(ws, i) + Stays(x, i)
  {
    var last := |ws| - 1;
    if w == last {
      assert ws[w := x][..last] == ws[..last];
    } else {
      assert ws[w := x][..last] == ws[..last][w := x];
      StayingUpdate(ws[..last], w, x, i);
    }
  }

  lemma StayingAppend(ws: seq<Waiter>, x: Waiter, i: nat)
    ensures Staying(ws + [x], i) == Staying(ws, i) + Stays(x, i)
  {
    assert (ws + [x])[..|ws|] == ws;
  }

  lemma {:induction false} StayingPositive(ws: seq<Waiter>, w: nat)
    requires w < |ws| && ws[w].phase != Left
    ensures Staying(ws, ws[w].call) >= 1
  {
    if w < |ws| - 1 { StayingPositive(ws[..|ws| - 1], w); }
  }

  lemma {:induction false} NobodyStays(ws: seq<Waiter>, i: nat)
    requires forall w :: 0 <= w < |ws| ==> ws[w].call != i
    ensures Staying(ws, i) == 0
  {
    if ws != [] { NobodyStays(ws[..|ws| - 1], i); }
  }

  lemma PhaseKeepsSharing(f: Flight, i: nat, ctx: Ctx, phase: Phase)
    requires SharingInv(f) && i < |f.objs|
    requires Pending(phase) == Pending(f.objs[i].phase) && !f.objs[i].phase.Published?
    requires var c := f.objs[i].(ctx := ctx, phase := phase);
      && (Abandoned(c) ==> Abandoned(f.objs[i]))
      && (phase.Fetching? ==> f.objs[i].phase.Fetching?)
      && (phase.Returned? ==> f.objs[i].phase.Fetching? || f.objs[i].phase.Returned?)
      && (ctx == f.objs[i].ctx || ctx != Live)
    ensures SharingInv(WithPhase(f, i, ctx, phase))
  {
    var f' := WithPhase(f, i, ctx, phase);
    forall j | 0 <= j < |f'.objs| ensures CallInv(f', j) {
      assert CallInv(f, j);
    }
    forall w | 0 <= w < |f'.waiters| ensures WaiterInv(f', w) {
      assert WaiterInv(f, w);
    }
  }

  lemma UnlinkKeepsSharing(ttl: int, f: Flight, i: nat, t: int)
    requires SharingInv(f) && i < |f.objs| && f.objs[i].phase.Checked?
    ensures SharingInv(Finishing(f, ttl, i, t))
  {
    var f' := Finishing(f, ttl, i, t);
    var c := f.objs[i];
    assert CallInv(f, i);
    assert f'.objs == f.objs[i := c.(phase := Unlinked(c.phase.out, c.phase.abandoned, t))];
    assert f'.calls == if c.key in f.calls && f.calls[c.key] == i then f.calls - {c.key} else f.calls;
    assert f'.waiters == f.waiters;
    forall j | 0 <= j < |f'.objs| ensures CallInv(f', j) {
      assert CallInv(f, j);
    }
    forall w | 0 <= w < |f'.waiters| ensures WaiterInv(f', w) {
      assert WaiterInv(f, w);
    }
  }

  lemma DownloadKeepsSharing(ttl: int, f: Flight, f': Flight, i: nat)
    requires SharingInv(f) && Download(ttl, f, f', i)
    ensures SharingInv(f')
  {
    var c := f.objs[i];
    match c.phase
    case Fetching =>
      var out :| f' == WithPhase(f, i, c.ctx, Returned(out));
      PhaseKeepsSharing(f, i, c.ctx, Returned(out));
    case Returned(out) =>
      PhaseKeepsSharing(f, i, if c.ctx == Live then Canceled else c.ctx, Checked(out, c.ctx == Canceled));
    case Checked(_, _) => UnlinkKeepsSharing(ttl, f, i, f'.now);
    case Unlinked(out, a, at) => PhaseKeepsSharing(f, i, c.ctx, Published(out, a, at));
  }

  lemma ReceiveKeepsSharing(f: Flight, f': Flight, w: nat)
    requires SharingInv(f) && Receive(f, f', w)
    ensures SharingInv(f')
  {
    forall j | 0 <= j < |f'.objs| ensures CallInv(f', j) {
      assert CallInv(f, j);
      StayingUpdate(f.waiters, w, f'.waiters[w], j);
    }
    forall v | 0 <= v < |f'.waiters| ensures WaiterInv(f', v) {
      assert WaiterInv(f, v);
    }
  }

  lemma DepartKeepsSharing(f: Flight, f': Flight, w: nat)
    requires SharingInv(f) && Depart(f, f', w)
    ensures SharingInv(f')
  {
    StayingPositive(f.waiters, w);
    var i := f.waiters[w].call;
    assert CallInv(f, i);
    forall j | 0 <= j < |f'.objs| ensures CallInv(f', j) {
      assert CallInv(f, j);
      StayingUpdate(f.waiters, w, Waiter(i, Left), j);
      if j != i { DepartKeepsOthers(f, f', w, j); }
    }
    forall v | 0 <= v < |f'.waiters| ensures WaiterInv(f', v) {
      assert WaiterInv(f, v);
    }
  }

  lemma DepartKeepsOthers(f: Flight, f': Flight, w: nat, j: nat)
    requires SharingInv(f) && Depart(f, f', w) && j < |f.objs| && j != f.waiters[w].call && CallInv(f, j)
    requires Staying(f'.waiters, j) == Staying(f.waiters, j)
    ensures CallInv(f', j)
  {
    assert f'.objs[j] == f.objs[j];
  }

  lemma JoinKeepsSharing(f: Flight, key: string, endpoint: string, canTimeOut: bool)
    requires SharingInv(f) && URLs.AfterScheme(endpoint).Some?
    ensures SharingInv(Join(f, key, endpoint, canTimeOut).0)
  {
    var (f', c) := Join(f, key, endpoint, canTimeOut);
    if key in f.calls { assert CallInv(f, f.calls[key]); }
    forall v | 0 <= v < |f'.waiters| ensures WaiterInv(f', v) {
      if v < |f.waiters| { assert WaiterInv(f, v); }
    }
    forall j | 0 <= j < |f'.objs| ensures CallInv(f', j) {
      StayingAppend(f.waiters, Waiter(c, Waiting), j);
      if j < |f.objs| {
        assert CallInv(f, j);
      } else {
        forall w | 0 <= w < |f.waiters| ensures f.waiters[w].call != j { assert WaiterInv(f, w); }
        NobodyStays(f.waiters, j);
      }
    }
  }

  /** SharingInv looks only at calls, objs and waiters. */
  lemma SharingFrame(f: Flight, f': Flight)
    requires SharingInv(f) && f'.calls == f.calls && f'.objs == f.objs && f'.waiters == f.waiters
    ensures SharingInv(f')
  {
    forall j | 0 <= j < |f'.objs| ensures CallInv(f', j) {
      assert CallInv(f, j);
    }
    forall v | 0 <= v < |f'.waiters| ensures WaiterInv(f', v) {
      assert WaiterInv(f, v);
    }
  }

  lemma EnterKeepsSharing(f: Flight, key: string, endpoint: string, canTimeOut: bool, t0: int, t1: int, who: nat)
    requires SharingInv(f) && URLs.AfterScheme(endpoint).Some? && who < |f.budgets| == |f.joins|
    ensures SharingInv(Entering(f, key, endpoint, canTimeOut, t0, t1, who).0)
  {
    var (f', r) := Entering(f, key, endpoint, canTimeOut, t0, t1, who);
    if r.Joined? {
      var (_, failed0) := Recall(f.failed, key, t0);
      var (_, failed1) := Recall(failed0, HostKey(endpoint), t1);
      var f1 := f.(failed := failed1, now := t1, budgets := f.budgets[who := f.budgets[who] - 1]);
      SharingFrame(f, f1);
      JoinKeepsSharing(f1, key, endpoint, canTimeOut);
      SharingFrame(Join(f1, key, endpoint, canTimeOut).0, f');
    } else {
      SharingFrame(f, f');
    }
  }

  lemma StepKeepsSharing(ttl: int, f: Flight, f': Flight)
    requires SharingInv(f) && Step(ttl, f, f')
    ensures SharingInv(f')
  {
    if i: nat :| Download(ttl, f, f', i) {
      DownloadKeepsSharing(ttl, f, f', i);
    } else if i: nat :| TimeOut(f, f', i) {
      PhaseKeepsSharing(f, i, TimedOut, f.objs[i].phase);
    } else if w: nat :| Receive(f, f', w) {
      ReceiveKeepsSharing(f, f', w);
    } else if w: nat :| Depart(f, f', w) {
      DepartKeepsSharing(f, f', w);
    } else {
      var key, endpoint, canTimeOut, t0, who: nat :| Arrive(f, f', key, endpoint, canTimeOut, t0, who);
      EnterKeepsSharing(f, key, endpoint, canTimeOut, t0, f'.now, who);
    }
  }

  // ---------------------------------------------------------------- memory: proofs

  lemma {:induction false} LatestIsLast(history: seq<Event>, name: string) returns (k: nat)
    requires Latest(history, name).Some?
    ensures k < |history| && history[k].name == name && Latest(history, name).value == history[k]
    ensures forall l :: k < l < |history| ==> history[l].name != name
  {
    k := |history| - 1;
    if history[k].name != name { k := LatestIsLast(history[..k], name); }
  }

  lemma {:induction false} LatestExists(history: seq<Event>, k: nat)
    requires k < |history|
    ensures Latest(history, history[k].name).Some?
  {
    if history[|history| - 1].name != history[k].name { LatestExists(history[..|history| - 1], k); }
  }

  /** In a history in time order only the last failure of a name matters. */
  lemma RecentIsLatest(history: seq<Event>, ttl: int, name: string, t: int)
    requires forall k, l :: 0 <= k < l < |history| ==> history[k].at <= history[l].at
    ensures FailedRecently(history, ttl, name, t) <==>
      Latest(history, name).Some? && t < Latest(history, name).value.at + ttl
  {
    if FailedRecently(history, ttl, name, t) {
      var k: nat :| k < |history| && history[k].name == name && t < history[k].at + ttl;
      LatestExists(history, k);
      var last := LatestIsLast(history, name);
      assert k <= last;
    } else if Latest(history, name).Some? {
      var last := LatestIsLast(history, name);
    }
  }

  /** Looking a name up answers from the history, and forgets only what has expired. */
  lemma RecallKeeps(f: Flight, failed: map<string, Failure>, ttl: int, now: int, name: string, t: int)
    requires forall k, l :: 0 <= k < l < |f.history| ==> f.history[k].at <= f.history[l].at
    requires forall n :: Remembers(failed, f.history, ttl, now, n)
    requires now <= t
    ensures Recall(failed, name, t).0.Some? <==> FailedRecently(f.history, ttl, name, t)
    ensures forall n :: Remembers(Recall(failed, name, t).1, f.history, ttl, t, n)
  {
    RecentIsLatest(f.history, ttl, name, t);
    assert Remembers(failed, f.history, ttl, now, name);
    forall n ensures Remembers(Recall(failed, name, t).1, f.history, ttl, t, n) {
      assert Remembers(failed, f.history, ttl, now, n);
    }
  }

  /**
   `do` refuses a fetch as a recent failure exactly when a failure of that key,
   or a connection failure to its endpoint, was recorded less than ttl ago in
   the whole history: lazy deletion and the sweep never change an answer.
   */
  lemma RefusedIff(f: Flight, ttl: int, key: string, endpoint: string, canTimeOut: bool, t0: int, t1: int, who: nat)
    requires MemoryInv(f, ttl) && f.now <= t0 <= t1 && who < |f.budgets| == |f.joins|
    ensures Entering(f, key, endpoint, canTimeOut, t0, t1, who).1.Refused? <==>
      FailedRecently(f.history, ttl, key, t0) || FailedRecently(f.history, ttl, HostKey(endpoint), t1)
    ensures MemoryInv(Entering(f, key, endpoint, canTimeOut, t0, t1, who).0, ttl)
  {
    RecallKeeps(f, f.failed, ttl, f.now, key, t0);
    var (hit0, failed0) := Recall(f.failed, key, t0);
    RecallKeeps(f, failed0, ttl, t0, HostKey(endpoint), t1);
    var f' := Entering(f, key, endpoint, canTimeOut, t0, t1, who).0;
    assert f'.history == f.history && f'.now == t1;
    forall n ensures Remembers(f'.failed, f'.history, ttl, f'.now, n) {
      assert Remembers(f.failed, f.history, ttl, f.now, n);
      if hit0.None? { assert Remembers(Recall(failed0, HostKey(endpoint), t1).1, f.history, ttl, t1, n); }
    }
  }

  lemma {:induction false} LatestAppend(history: seq<Event>, e: Event, name: string)
    ensures Latest(history + [e], name) == if e.name == name then Some(e) else Latest(history, name)
  {
    assert (history + [e])[..|history|] == history;
  }

  lemma FinishKeepsMemory(f: Flight, ttl: int, i: nat, t: int)
    requires MemoryInv(f, ttl) && f.now <= t && i < |f.objs| && f.objs[i].phase.Checked?
    ensures MemoryInv(Finishing(f, ttl, i, t), ttl)
  {
    var f' := Finishing(f, ttl, i, t);
    var c := f.objs[i];
    if c.phase.out.err.Some? && !c.phase.abandoned {
      forall n ensures Remembers(f'.failed, f'.history, ttl, t, n) {
        assert Remembers(f.failed, f.history, ttl, f.now, n);
        RememberKeeps(f, ttl, c, c.phase.out.err.value, t, n);
      }
    } else {
      forall n ensures Remembers(f'.failed, f'.history, ttl, t, n) {
        assert Remembers(f.failed, f.history, ttl, f.now, n);
      }
    }
  }

  lemma RememberKeeps(f: Flight, ttl: int, c: Call, err: FetchError, t: int, n: string)
    requires Remembers(f.failed, f.history, ttl, f.now, n) && f.now <= t && (ttl <= 0 ==> f.failed == map[])
    ensures
      var kept := if SweepDue(f.failed, f.swept, t) then Sweep(f.failed, t) else f.failed;
      var failed := if ttl <= 0 then f.failed else Remember(kept, c, err, t + ttl);
      Remembers(failed, f.history + Events(c, err, t), ttl, t, n)
  {
    LatestOfEvents(f.history, c, err, t, n);
  }

  lemma LatestOfEvents(history: seq<Event>, c: Call, err: FetchError, t: int, n: string)
    ensures Latest(history + Events(c, err, t), n) ==
      if HitsEndpoint(err, c.endpoint) && n == HostKey(c.endpoint) then Some(Event(n, err, t))
      else if n == c.key then Some(Event(n, err, t))
      else Latest(history, n)
  {
    var first, second := Event(c.key, err, t), Event(HostKey(c.endpoint), err, t);
    LatestAppend(history, first, n);
    LatestAppend(history + [first], second, n);
    assert history + [first] + [second] == history + ([first] + [second]);
    assert [first] + [] == [first];
  }

  // ---------------------------------------------------------------- whole runs

  ghost predicate Inv(f: Flight, ttl: int) {
    SharingInv(f) && MemoryInv(f, ttl) && BudgetInv(f)
  }

  /** Inv's memory and budget parts look at nothing a waiter or a context changes. */
  lemma OtherStepsKeepMemory(f: Flight, f': Flight, ttl: int)
    requires MemoryInv(f, ttl) && BudgetInv(f)
    requires f'.failed == f.failed && f'.history == f.history && f'.now == f.now && f'.budgets == f.budgets
    requires f'.joins == f.joins
    ensures MemoryInv(f', ttl) && BudgetInv(f')
  {
    forall n ensures Remembers(f'.failed, f'.history, ttl, f'.now, n) {
      assert Remembers(f.failed, f.history, ttl, f.now, n);
    }
  }

  lemma DownloadKeepsMemory(ttl: int, f: Flight, f': Flight, i: nat)
    requires MemoryInv(f, ttl) && BudgetInv(f) && Download(ttl, f, f', i)
    ensures MemoryInv(f', ttl) && BudgetInv(f')
  {
    if f.objs[i].phase.Checked? {
      FinishKeepsMemory(f, ttl, i, f'.now);
    } else {
      OtherStepsKeepMemory(f, f', ttl);
    }
  }

  lemma ArriveKeepsBudget(f: Flight, key: string, endpoint: string, canTimeOut: bool, t0: int, t1: int, who: nat)
    requires BudgetInv(f) && who < |f.budgets|
    ensures BudgetInv(Entering(f, key, endpoint, canTimeOut, t0, t1, who).0)
  {
  }

  lemma StepKeepsMemory(ttl: int, f: Flight, f': Flight)
    requires MemoryInv(f, ttl) && BudgetInv(f) && Step(ttl, f, f')
    ensures MemoryInv(f', ttl) && BudgetInv(f')
  {
    if i: nat :| Download(ttl, f, f', i) {
      DownloadKeepsMemory(ttl, f, f', i);
    } else if i: nat :| TimeOut(f, f', i) {
      OtherStepsKeepMemory(f, f', ttl);
    } else if w: nat :| Receive(f, f', w) {
      OtherStepsKeepMemory(f, f', ttl);
    } else if w: nat :| Depart(f, f', w) {
      OtherStepsKeepMemory(f, f', ttl);
    } else {
      var key, endpoint, canTimeOut, t0, who: nat :| Arrive(f, f', key, endpoint, canTimeOut, t0, who);
      RefusedIff(f, ttl, key, endpoint, canTimeOut, t0, f'.now, who);
      ArriveKeepsBudget(f, key, endpoint, canTimeOut, t0, f'.now, who);
    }
  }

  lemma {:induction false} RunKeepsInv(ttl: int, run: seq<Flight>)
    requires Run(ttl, run)
    ensures Inv(Last(run), ttl)
  {
    var last := |run| - 1;
    if last > 0 {
      RunKeepsInv(ttl, run[..last]);
      assert Last(run[..last]) == run[last - 1] && Step(ttl, run[last - 1], run[last]);
      StepKeepsSharing(ttl, run[last - 1], run[last]);
      StepKeepsMemory(ttl, run[last - 1], run[last]);
    }
  }

  /** A download whose context nobody has ended. */
  predicate Downloading(c: Call) {
    c.phase.Fetching? && c.ctx == Live
  }

  /** At most one download of a key runs uncancelled, in every reachable state. */
  lemma OneDownloadPerKey(ttl: int, run: seq<Flight>, i: nat, j: nat)
    requires Run(ttl, run)
    requires var f := Last(run);
      i < |f.objs| && j < |f.objs| && f.objs[i].key == f.objs[j].key && Downloading(f.objs[i]) && Downloading(f.objs[j])
    ensures i == j
  {
    RunKeepsInv(ttl, run);
    assert CallInv(Last(run), i) && CallInv(Last(run), j);
  }

  /** Whoever joins an existing call joins one that no leaver cancelled and that is not published. */
  lemma JoinsLiveCall(ttl: int, run: seq<Flight>, key: string)
    requires Run(ttl, run) && key in Last(run).calls
    ensures var f := Last(run); var i := f.calls[key];
      && i < |f.objs| && f.objs[i].key == key && f.objs[i].waiters >= 1
      && !Abandoned(f.objs[i]) && Pending(f.objs[i].phase)
  {
    RunKeepsInv(ttl, run);
    assert CallInv(Last(run), Last(run).calls[key]);
  }

  /** A download that was abandoned and finishes late leaves its successor linked. */
  lemma LateFinishKeepsSuccessor(ttl: int, run: seq<Flight>, i: nat, t: int)
    requires Run(ttl, run)
    requires i < |Last(run).objs| && Last(run).objs[i].phase.Checked? && Last(run).objs[i].waiters == 0
    ensures Finishing(Last(run), ttl, i, t).calls == Last(run).calls
  {
    RunKeepsInv(ttl, run);
    assert CallInv(Last(run), i);
  }

  /**
   A waiter that returns a result returns the one of the call it joined, and no
   leaver had cancelled that download; waiters is always joined minus left.
   */
  lemma WaiterGetsItsCall(ttl: int, run: seq<Flight>, w: nat)
    requires Run(ttl, run) && w < |Last(run).waiters| && Last(run).waiters[w].phase.Got?
    ensures var f := Last(run); var i := f.waiters[w].call;
      && i < |f.objs| && f.objs[i].phase.Published?
      && f.objs[i].phase.out == f.waiters[w].phase.out && !f.objs[i].phase.abandoned
      && f.objs[i].waiters == Staying(f.waiters, i)
  {
    RunKeepsInv(ttl, run);
    var f := Last(run);
    assert WaiterInv(f, w);
    assert CallInv(f, f.waiters[w].call);
    StayingPositive(f.waiters, w);
  }

  /** How many callers joined call i, and how many of them left. */
  function JoinedCount(waiters: seq<Waiter>, i: nat): nat {
    if waiters == [] then 0
    else JoinedCount(waiters[..|waiters| - 1], i) + if waiters[|waiters| - 1].call == i then 1 else 0
  }

  function LeftCount(waiters: seq<Waiter>, i: nat): nat {
    if waiters == [] then 0
    else LeftCount(waiters[..|waiters| - 1], i) + if waiters[|waiters| - 1] == Waiter(i, Left) then 1 else 0
  }

  lemma {:induction false} StayingIsJoinedMinusLeft(waiters: seq<Waiter>, i: nat)
    ensures Staying(waiters, i) == JoinedCount(waiters, i) - LeftCount(waiters, i)
  {
    if waiters != [] { StayingIsJoinedMinusLeft(waiters[..|waiters| - 1], i); }
  }

  /** The count of a call's waiters is always those that joined minus those that left. */
  lemma WaitersAreJoinedMinusLeft(ttl: int, run: seq<Flight>, i: nat)
    requires Run(ttl, run) && i < |Last(run).objs|
    ensures Last(run).objs[i].waiters == JoinedCount(Last(run).waiters, i) - LeftCount(Last(run).waiters, i)
    ensures Abandoned(Last(run).objs[i]) ==> JoinedCount(Last(run).waiters, i) == LeftCount(Last(run).waiters, i)
  {
    RunKeepsInv(ttl, run);
    assert CallInv(Last(run), i);
    StayingIsJoinedMinusLeft(Last(run).waiters, i);
  }

  /** While anyone waits for a download, no departure has cancelled it. */
  lemma DeparturesCancelOnlyTheDeserted(ttl: int, run: seq<Flight>, w: nat)
    requires Run(ttl, run) && w < |Last(run).waiters| && Last(run).waiters[w].phase != Left
    ensures Last(run).waiters[w].call < |Last(run).objs| && !Abandoned(Last(run).objs[Last(run).waiters[w].call])
    ensures
      var f := Last(run);
      var i := f.waiters[w].call;
      f.objs[i].waiters == JoinedCount(f.waiters, i) - LeftCount(f.waiters, i) > 0
  {
    StayingIsJoinedMinusLeft(Last(run).waiters, Last(run).waiters[w].call);
    RunKeepsInv(ttl, run);
    var f := Last(run);
    assert WaiterInv(f, w);
    assert CallInv(f, f.waiters[w].call);
    StayingPositive(f.waiters, w);
  }

  /** No analysis ever joins more than MAX_FETCHES downloads. */
  lemma FetchBudget(ttl: int, run: seq<Flight>, who: nat)
    requires Run(ttl, run) && who < |Last(run).joins|
    ensures Last(run).joins[who] <= MAX_FETCHES
  {
    RunKeepsInv(ttl, run);
  }

  // ---------------------------------------------------------------- refusals, from the downloads themselves

  /** The download ended in an error at its time `at`, and nobody had abandoned it. */
  predicate FailedAt(c: Call, at: int) {
    (c.phase.Unlinked? || c.phase.Published?) && !c.phase.abandoned && c.phase.out.err.Some? && c.phase.at == at
  }

  /** It could not connect to its own endpoint: the address dialed is the endpoint's host:port, in any case. */
  ghost predicate EndpointDown(c: Call) {
    && (c.phase.Unlinked? || c.phase.Published?) && c.phase.out.err.Some? && c.phase.out.err.value.unreachable.Some?
    && exists hostport :: URLs.FollowsScheme(c.endpoint, hostport)
         && URLs.Lower(hostport) == URLs.Lower(c.phase.out.err.value.unreachable.value)
  }

  /** The failure counts against the name: the download's key, or its endpoint if that is down. */
  ghost predicate CountsAgainst(c: Call, name: string) {
    name == c.key || (name == HostKey(c.endpoint) && EndpointDown(c))
  }

  /** Some download that counts against the name failed less than ttl ago. */
  ghost predicate DownRecently(f: Flight, ttl: int, name: string, t: int) {
    exists i: nat, at ::
      i < |f.objs| && FailedAt(f.objs[i], at) && CountsAgainst(f.objs[i], name) && t < at + ttl
  }

  /** The history holds exactly the failures of the finished downloads. */
  ghost predicate HistoryInv(f: Flight) {
    && (forall k :: 0 <= k < |f.history| ==> FromDownload(f, f.history[k].name, f.history[k].at))
    && (forall i: nat, at, name :: i < |f.objs| && FailedAt(f.objs[i], at) && CountsAgainst(f.objs[i], name) ==>
          InHistory(f.history, name, at))
  }

  ghost predicate FromDownload(f: Flight, name: string, at: int) {
    exists i: nat :: i < |f.objs| && FailedAt(f.objs[i], at) && CountsAgainst(f.objs[i], name)
  }

  ghost predicate InHistory(history: seq<Event>, name: string, at: int) {
    exists k: nat :: k < |history| && history[k].name == name && history[k].at == at
  }

  lemma HitsIs(c: Call)
    requires (c.phase.Unlinked? || c.phase.Published?) && c.phase.out.err.Some?
    ensures HitsEndpoint(c.phase.out.err.value, c.endpoint) <==> EndpointDown(c)
  {
    var err := c.phase.out.err.value;
    if err.unreachable.Some? {
      forall rest ensures URLs.AfterScheme(c.endpoint) == Some(rest) <==> URLs.FollowsScheme(c.endpoint, rest) {
        URLs.AfterSchemeIs(c.endpoint, rest);
      }
    }
  }

  /** A step that finishes no download and forgets none keeps it. */
  lemma HistoryFrame(f: Flight, f': Flight)
    requires HistoryInv(f) && f'.history == f.history && |f.objs| <= |f'.objs|
    requires forall i: nat, at :: i < |f'.objs| ==>
      (FailedAt(f'.objs[i], at) <==> i < |f.objs| && FailedAt(f.objs[i], at))
    requires forall i: nat, at, name :: i < |f.objs| && FailedAt(f.objs[i], at) ==>
      (CountsAgainst(f'.objs[i], name) <==> CountsAgainst(f.objs[i], name))
    ensures HistoryInv(f')
  {
    forall k | 0 <= k < |f'.history| ensures FromDownload(f', f'.history[k].name, f'.history[k].at) {
      var name, at := f.history[k].name, f.history[k].at;
      assert FromDownload(f, name, at);
      var i: nat :| i < |f.objs| && FailedAt(f.objs[i], at) && CountsAgainst(f.objs[i], name);
      assert FailedAt(f'.objs[i], at) && CountsAgainst(f'.objs[i], name);
    }
    forall i: nat, at, name | i < |f'.objs| && FailedAt(f'.objs[i], at) && CountsAgainst(f'.objs[i], name)
      ensures InHistory(f'.history, name, at)
    {
      assert FailedAt(f.objs[i], at) && CountsAgainst(f.objs[i], name);
    }
  }

  /** What is recorded when a download finishes is its failure. */
  lemma FinishKeepsHistory(f: Flight, ttl: int, i: nat, t: int)
    requires HistoryInv(f) && i < |f.objs| && f.objs[i].phase.Checked?
    ensures HistoryInv(Finishing(f, ttl, i, t))
  {
    var f' := Finishing(f, ttl, i, t);
    var c := f'.objs[i];
    assert c.phase == Unlinked(f.objs[i].phase.out, f.objs[i].phase.abandoned, t);
    var added := if FailedAt(c, t) then Events(c, c.phase.out.err.value, t) else [];
    assert f'.history == f.history + added;
    if FailedAt(c, t) { HitsIs(c); }
    forall k | 0 <= k < |f'.history| ensures FromDownload(f', f'.history[k].name, f'.history[k].at) {
      if k < |f.history| {
        FromDownloadStays(f, f', i, f.history[k].name, f.history[k].at);
      } else {
        assert FailedAt(c, t) && CountsAgainst(c, f'.history[k].name) && f'.history[k].at == t;
      }
    }
    forall j: nat, at, name | j < |f'.objs| && FailedAt(f'.objs[j], at) && CountsAgainst(f'.objs[j], name)
      ensures InHistory(f'.history, name, at)
    {
      if j == i {
        AddedNames(f.history, c, t, name);
      } else {
        assert InHistory(f.history, name, at);
        InHistoryStays(f.history, added, name, at);
      }
    }
  }

  lemma FromDownloadStays(f: Flight, f': Flight, i: nat, name: string, at: int)
    requires FromDownload(f, name, at) && i < |f.objs| == |f'.objs| && f.objs[i].phase.Checked?
    requires forall j :: 0 <= j < |f.objs| && j != i ==> f'.objs[j] == f.objs[j]
    ensures FromDownload(f', name, at)
  {
    var j: nat :| j < |f.objs| && FailedAt(f.objs[j], at) && CountsAgainst(f.objs[j], name);
    assert FailedAt(f'.objs[j], at) && CountsAgainst(f'.objs[j], name);
  }

  lemma AddedNames(history: seq<Event>, c: Call, t: int, name: string)
    requires FailedAt(c, t) && CountsAgainst(c, name)
    ensures InHistory(history + Events(c, c.phase.out.err.value, t), name, t)
  {
    HitsIs(c);
    var all := history + Events(c, c.phase.out.err.value, t);
    assert all[|history|] == Event(c.key, c.phase.out.err.value, t);
    if name != c.key { assert all[|history| + 1] == Event(name, c.phase.out.err.value, t); }
  }

  lemma InHistoryStays(history: seq<Event>, added: seq<Event>, name: string, at: int)
    requires InHistory(history, name, at)
    ensures InHistory(history + added, name, at)
  {
    var k: nat :| k < |history| && history[k].name == name && history[k].at == at;
    assert (history + added)[k] == history[k];
  }

  lemma PhaseKeepsHistory(f: Flight, i: nat, ctx: Ctx, phase: Phase)
    requires HistoryInv(f) && i < |f.objs|
    requires
      var p := f.objs[i].phase;
      if p.Unlinked? then phase == p || phase == Published(p.out, p.abandoned, p.at)
      else !p.Published? && !phase.Unlinked? && !phase.Published?
    ensures HistoryInv(WithPhase(f, i, ctx, phase))
  {
    HistoryFrame(f, WithPhase(f, i, ctx, phase));
  }

  lemma StepKeepsHistory(ttl: int, f: Flight, f': Flight)
    requires HistoryInv(f) && Step(ttl, f, f')
    ensures HistoryInv(f')
  {
    if i: nat :| Download(ttl, f, f', i) {
      DownloadKeepsHistory(ttl, f, f', i);
    } else if i: nat :| TimeOut(f, f', i) {
      PhaseKeepsHistory(f, i, TimedOut, f.objs[i].phase);
    } else if w: nat :| Receive(f, f', w) {
      HistoryFrame(f, f');
    } else if w: nat :| Depart(f, f', w) {
      DepartKeepsHistory(f, f', w);
    } else {
      var key, endpoint, canTimeOut, t0, who: nat :| Arrive(f, f', key, endpoint, canTimeOut, t0, who);
      ArriveKeepsHistory(f, key, endpoint, canTimeOut, t0, f'.now, who);
    }
  }

  lemma DownloadKeepsHistory(ttl: int, f: Flight, f': Flight, i: nat)
    requires HistoryInv(f) && Download(ttl, f, f', i)
    ensures HistoryInv(f')
  {
    var c := f.objs[i];
    match c.phase
    case Fetching =>
      var out :| f' == WithPhase(f, i, c.ctx, Returned(out));
      PhaseKeepsHistory(f, i, c.ctx, Returned(out));
    case Returned(out) =>
      PhaseKeepsHistory(f, i, if c.ctx == Live then Canceled else c.ctx, Checked(out, c.ctx == Canceled));
    case Checked(_, _) => FinishKeepsHistory(f, ttl, i, f'.now);
    case Unlinked(out, a, at) => PhaseKeepsHistory(f, i, c.ctx, Published(out, a, at));
  }

  lemma DepartKeepsHistory(f: Flight, f': Flight, w: nat)
    requires HistoryInv(f) && Depart(f, f', w)
    ensures HistoryInv(f')
  {
    var i := f.waiters[w].call;
    assert forall j :: 0 <= j < |f.objs| && j != i ==> f'.objs[j] == f.objs[j];
    assert f'.objs[i].phase == f.objs[i].phase && f'.objs[i].key == f.objs[i].key;
    assert f'.objs[i].endpoint == f.objs[i].endpoint;
    HistoryFrame(f, f');
  }

  lemma ArriveKeepsHistory(f: Flight, key: string, endpoint: string, canTimeOut: bool, t0: int, t1: int, who: nat)
    requires HistoryInv(f) && who < |f.budgets| == |f.joins|
    ensures HistoryInv(Entering(f, key, endpoint, canTimeOut, t0, t1, who).0)
  {
    HistoryFrame(f, Entering(f, key, endpoint, canTimeOut, t0, t1, who).0);
  }

  lemma {:induction false} RunKeepsHistory(ttl: int, run: seq<Flight>)
    requires Run(ttl, run)
    ensures HistoryInv(Last(run))
  {
    var last := |run| - 1;
    if last > 0 {
      RunKeepsHistory(ttl, run[..last]);
      assert Last(run[..last]) == run[last - 1] && Step(ttl, run[last - 1], run[last]);
      StepKeepsHistory(ttl, run[last - 1], run[last]);
    }
  }

  lemma RecentlyIs(f: Flight, ttl: int, name: string, t: int)
    requires HistoryInv(f)
    ensures FailedRecently(f.history, ttl, name, t) <==> DownRecently(f, ttl, name, t)
  {
    if FailedRecently(f.history, ttl, name, t) {
      var k: nat :| k < |f.history| && f.history[k].name == name && t < f.history[k].at + ttl;
      assert FromDownload(f, name, f.history[k].at);
    }
    if DownRecently(f, ttl, name, t) {
      var i: nat, at :| i < |f.objs| && FailedAt(f.objs[i], at) && CountsAgainst(f.objs[i], name) && t < at + ttl;
      assert InHistory(f.history, name, at);
    }
  }

  /**
   In every run a fetch is refused exactly when a download that nobody had
   abandoned failed less than ttl ago, of the same key, or unable to connect to
   the same endpoint.
   */
  lemma RefusedByDownload(ttl: int, run: seq<Flight>, key: string, endpoint: string, canTimeOut: bool, t0: int,
      t1: int, who: nat)
    requires Run(ttl, run) && Last(run).now <= t0 <= t1 && who < |Last(run).budgets|
    ensures |Last(run).budgets| == |Last(run).joins|
    ensures Entering(Last(run), key, endpoint, canTimeOut, t0, t1, who).1.Refused? <==>
      DownRecently(Last(run), ttl, key, t0) || DownRecently(Last(run), ttl, HostKey(endpoint), t1)
  {
    RunKeepsInv(ttl, run);
    RunKeepsHistory(ttl, run);
    RefusedIff(Last(run), ttl, key, endpoint, canTimeOut, t0, t1, who);
    RecentlyIs(Last(run), ttl, key, t0);
    RecentlyIs(Last(run), ttl, HostKey(endpoint), t1);
  }

  /** The failure of an abandoned download, and a success, leave the memory as it was. */
  lemma NotRemembered(f: Flight, ttl: int, i: nat, t: int)
    requires i < |f.objs| && f.objs[i].phase.Checked?
    requires f.objs[i].phase.abandoned || f.objs[i].phase.out.err.None?
    ensures Finishing(f, ttl, i, t).failed == f.failed && Finishing(f, ttl, i, t).swept == f.swept
  {
  }

  /** A failure recorded over a full memory drops what has expired, at most once per SWEEP_AFTER, and else nothing. */
  lemma SweepDropsExpired(f: Flight, ttl: int, i: nat, t: int)
    requires i < |f.objs| && f.objs[i].phase.Checked? && ttl > 0
    requires !f.objs[i].phase.abandoned && f.objs[i].phase.out.err.Some?
    ensures
      var f' := Finishing(f, ttl, i, t);
      if |f.failed| >= 4096 && t - f.swept > 10
      then f'.swept == t && forall name :: name in f'.failed ==> f'.failed[name].until >= t
      else f'.swept == f.swept && forall name :: name in f.failed ==> name in f'.failed
    ensures
      var f' := Finishing(f, ttl, i, t);
      forall name :: name in f.failed && f.failed[name].until >= t ==> name in f'.failed
  {
  }

  /**
   A download counts as abandoned exactly when all its callers have left and
   its own timeout did not end it first.
   */
  lemma AbandonedIff(ttl: int, run: seq<Flight>, i: nat, f': Flight)
    requires Run(ttl, run) && i < |Last(run).objs| && Last(run).objs[i].phase.Returned?
    requires Download(ttl, Last(run), f', i)
    ensures
      var c := Last(run).objs[i];
      && f'.objs[i].phase.Checked?
      && (f'.objs[i].phase.abandoned <==>
            JoinedCount(Last(run).waiters, i) == LeftCount(Last(run).waiters, i) && c.ctx != TimedOut)
  {
    RunKeepsInv(ttl, run);
    assert CallInv(Last(run), i);
    StayingIsJoinedMinusLeft(Last(run).waiters, i);
  }

  /** Once all its callers have left, a download is cancelled and no longer joined. */
  lemma DesertedIsCancelled(ttl: int, run: seq<Flight>, i: nat)
    requires Run(ttl, run) && i < |Last(run).objs|
    requires JoinedCount(Last(run).waiters, i) == LeftCount(Last(run).waiters, i)
    ensures Last(run).objs[i].phase.Fetching? ==> Last(run).objs[i].ctx != Live
    ensures forall key :: key in Last(run).calls ==> Last(run).calls[key] != i
  {
    RunKeepsInv(ttl, run);
    assert CallInv(Last(run), i);
    StayingIsJoinedMinusLeft(Last(run).waiters, i);
  }

  /** Whoever is neither refused nor over its budget joins the download of its key under way, or starts one. */
  lemma JoinsOrStarts(ttl: int, run: seq<Flight>, key: string, endpoint: string, canTimeOut: bool, t0: int, t1: int,
      who: nat)
    requires Run(ttl, run) && |Last(run).budgets| == |Last(run).joins| && who < |Last(run).joins|
    ensures
      var f := Last(run);
      var (f', r) := Entering(f, key, endpoint, canTimeOut, t0, t1, who);
      && (r.OverBudget? <==> !r.Refused? && f.joins[who] == MAX_FETCHES)
      && (r.Joined? ==>
            f'.joins == f.joins[who := f.joins[who] + 1] && f'.waiters == f.waiters + [Waiter(r.call, Waiting)])
      && (r.Joined? ==> forall i :: 0 <= i < |f.objs| && UnderWay(f, i, key) ==> r.call == i && |f'.objs| == |f.objs|)
      && (r.Joined? && (forall i :: 0 <= i < |f.objs| ==> !UnderWay(f, i, key)) ==>
            r.call == |f.objs| && f'.objs == f.objs + [Call(key, endpoint, canTimeOut, 1, Live, Fetching)])
  {
    RunKeepsInv(ttl, run);
    var f := Last(run);
    forall i | 0 <= i < |f.objs| && UnderWay(f, i, key) ensures key in f.calls && f.calls[key] == i {
      assert CallInv(f, i);
      StayingIsJoinedMinusLeft(f.waiters, i);
    }
    if key in f.calls {
      assert CallInv(f, f.calls[key]);
      StayingIsJoinedMinusLeft(f.waiters, f.calls[key]);
      assert UnderWay(f, f.calls[key], key);
    }
  }

  /** A download of the key that has not ended, and that someone waits for. */
  predicate UnderWay(f: Flight, i: nat, key: string)
    requires i < |f.objs|
  {
    f.objs[i].key == key && Pending(f.objs[i].phase) && JoinedCount(f.waiters, i) > LeftCount(f.waiters, i)
  }

  // ---------------------------------------------------------------- the object

  /** fetchFlight with the calls it points to; each method is one critical section. */
  class FetchFlight {
    var calls: map<string, nat>
    var objs: seq<Call>
    var waiters: seq<Waiter>
    var failed: map<string, Failure>
    var swept: int
    var budgets: seq<int>
    var joins: seq<nat>
    const failTTL: int
    ghost var history: seq<Event>
    ghost var now: int

    ghost function View(): Flight
      reads this
    {
      Flight(calls, objs, waiters, failed, swept, budgets, joins, history, now)
    }

    constructor (ttl: int, analyses: nat)
      ensures Init(View()) && failTTL == ttl && |budgets| == analyses
    {
      calls, objs, waiters, failed, swept := map[], [], [], map[], 0;
      budgets := seq(analyses, _ => MAX_FETCHES);
      joins := seq(analyses, _ => 0);
      failTTL := ttl;
      history, now := [], 0;
    }

    /** `do` up to its wait; clock reads the time once per remembered name. */
    method Enter(key: string, endpoint: string, canTimeOut: bool, clock: seq<int>, who: nat) returns (r: Entered)
      requires who < |budgets| == |joins| && |clock| == 2
      requires key in calls ==> calls[key] < |objs|
      modifies this
      ensures (View(), r) == Entering(old(View()), key, endpoint, canTimeOut, clock[0], clock[1], who)
    {
      var names := [key, HostKey(endpoint)];
      now := clock[1];
      for k := 0 to 2
        invariant View() == old(View()).(failed := failed, now := clock[1])
        invariant k >= 1 ==> Recall(old(failed), key, clock[0]).0.None?
        invariant k == 0 ==> failed == old(failed)
        invariant k == 1 ==> failed == Recall(old(failed), key, clock[0]).1
        invariant k == 2 ==> Recall(Recall(old(failed), key, clock[0]).1, HostKey(endpoint), clock[1]) == (None, failed)
      {
        if names[k] in failed {
          if clock[k] < failed[names[k]].until { return Refused(failed[names[k]].err); }
          failed := failed - {names[k]};
        }
      }
      budgets := budgets[who := budgets[who] - 1];
      if budgets[who] < 0 { return OverBudget; }
      var c := |objs|;
      if key in calls {
        c := calls[key];
        objs := objs[c := objs[c].(waiters := objs[c].waiters + 1)];
      } else {
        objs := objs + [Call(key, endpoint, canTimeOut, 1, Live, Fetching)];
      }
      calls := calls[key := c];
      waiters := waiters + [Waiter(c, Waiting)];
      joins := joins[who := joins[who] + 1];
      r := Joined(c);
    }

    /** Drops the failures that expired before t. */
    method SweepFailed(t: int)
      modifies this`failed
      ensures failed == Sweep(old(failed), t)
    {
      var todo := failed.Keys;
      while todo != {}
        invariant todo <= failed.Keys <= old(failed).Keys
        invariant forall name :: name in failed ==> failed[name] == old(failed)[name]
        invariant forall name :: name in todo ==> name in old(failed)
        invariant forall name :: name in old(failed) && name !in todo ==>
          (name in failed <==> !(old(failed)[name].until < t))
        decreases todo
      {
        var name :| name in todo;
        if t > failed[name].until { failed := failed - {name}; }
        todo := todo - {name};
      }
    }

    /** The goroutine of call i after its download. */
    method Finish(i: nat, t: int)
      requires i < |objs| && objs[i].phase.Checked?
      modifies this
      ensures View() == Finishing(old(View()), failTTL, i, t)
    {
      var c := objs[i];
      now := t;
      if c.key in calls && calls[c.key] == i { calls := calls - {c.key}; }
      objs := objs[i := c.(phase := Unlinked(c.phase.out, c.phase.abandoned, t))];
      if c.phase.out.err.Some? && !c.phase.abandoned {
        var err := c.phase.out.err.value;
        history := history + Events(c, err, t);
        if failTTL > 0 { RememberFailure(c, err, t); }
      }
    }

    /** The failure under the call's key and, if it is the endpoint's, under that. */
    method RememberFailure(c: Call, err: FetchError, t: int)
      modifies this`failed, this`swept
      ensures
        var due := SweepDue(old(failed), old(swept), t);
        && swept == (if due then t else old(swept))
        && failed == Remember(if due then Sweep(old(failed), t) else old(failed), c, err, t + failTTL)
    {
      if |failed| >= MAX_REMEMBERED && t - swept > SWEEP_AFTER {
        swept := t;
        SweepFailed(t);
      }
      failed := failed[c.key := Failure(err, t + failTTL)];
      if HitsEndpoint(err, c.endpoint) {
        failed := failed[HostKey(c.endpoint) := Failure(err, t + failTTL)];
      }
    }

    /** Waiter w gives up; the last one to leave cancels the download. */
    method Leave(w: nat)
      requires w < |waiters| && waiters[w].call < |objs|
      modifies this
      ensures View() == Leaving(old(View()), w)
    {
      var i := waiters[w].call;
      objs := objs[i := objs[i].(waiters := objs[i].waiters - 1)];
      waiters := waiters[w := Waiter(i, Left)];
      if objs[i].waiters == 0 {
        if objs[i].ctx == Live { objs := objs[i := objs[i].(ctx := Canceled)]; }
        if objs[i].key in calls && calls[objs[i].key] == i { calls := calls - {objs[i].key}; }
      }
    }
  }
}
