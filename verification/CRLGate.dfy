/**
 The admission of analyses and the CRL memory gate (cmd/certview/guard.go), with
 the places where analyzeData (cmd/certview/handler.go) asks for the gate.

 Goroutines that block on channels are a step system: each analysis has a
 program counter, and a step is one channel operation, one store to `held`, one
 check of the context, or one move of analyzeData between two calls. The
 in-between states around `held.Store` are states of their own.
 */
module CRLGate {

  const BIG_CRL_QUEUE: nat := 2

  /** The calls of acquireCRLMemory in analyzeData. */
  datatype Site = Upload | Cached | Fetched | Fallback

  /** Where analyzeData is between those calls. */
  datatype Loc =
    | Begin         // about to try the input as a CRL
    | AfterUpload   // the input was not opened as a CRL: the context is checked
    | ChainLoop     // resolving issuers
    | EntryTop      // head of the revocation loop
    | CachedLoop    // head of the loop over cached CRLs
    | CachedBody    // inside it, after its context check
    | FetchLoop     // head of the loop over CRLs to fetch
    | FetchBody     // inside it, after its context check, downloading
    | AfterCdp      // the context check after both loops
    | ByIssuer      // the store lookup by issuer
    | Ocsp          // the OCSP fallback and the end of the iteration
    | VerifyTop     // the context check before the chain is verified
    | Returned      // analyzeData returned a response

  /** Inside acquireCRLMemory, after a large size. */
  datatype Stage =
    | TryGate        // the first select
    | TryQueue       // the second select
    | Queued         // queue token taken, held still true
    | Unheld         // held is false, the slot token not yet received
    | WaitGateFree   // waiting for the gate without a slot
    | GotGate        // gate taken, trying for a slot without waiting
    | SlotBack       // slot token sent, held still false
    | MustRelease    // no free slot: about to give the gate back
    | WaitSlotBack   // waiting for a slot without the gate
    | SlotBackLate   // slot token sent after the wait, held still false
    | WaitGateAgain  // waiting for the gate like any slot holder
    | WaitGateHeld   // the queue was full: waiting for the gate with the slot
    | RetOk          // returning with the gate: the deferred queue token
    | RetErr         // returning an error: the deferred queue token

  datatype PC =
    | Arrived
    | WaitSlot
    | Admitted                       // slot token sent, held not yet stored
    | At(loc: Loc)
    | Asking(site: Site)             // acquireCRLMemory called
    | Acq(site: Site, stage: Stage)
    | Open(site: Site, big: bool)    // a CRL is in memory; big ones own the gate
    | Leaving                        // in the release returned by guardAnalysis
    | GivingBack                     // held was true: the slot token is due
    | Done

  /** todo bounds the loop iterations analyzeData still has ahead. */
  datatype Proc = Proc(pc: PC, held: bool, cancelled: bool, todo: nat)

  datatype Chans = Chans(slots: nat, gate: nat, queue: nat)

  datatype State = State(c: Chans, procs: seq<Proc>)

  /** The place analyzeData continues from when a site opened no CRL. */
  function After(site: Site): Loc {
    match site
    case Upload => AfterUpload
    case Cached => CachedLoop
    case Fetched => FetchLoop
    case Fallback => Ocsp
  }

  // ---------------------------------------------------------------- steps

  /** The moves of analyzeData between two calls; none touches a channel. */
  ghost predicate Walk(p: Proc, p': Proc)
    requires p.pc.At?
  {
    && p'.held == p.held && p'.cancelled == p.cancelled
    && match p.pc.loc
       case Begin => p' == p.(pc := Asking(Upload))
       case AfterUpload =>
         if p.cancelled then p' == p.(pc := Leaving) else p' == p.(pc := At(ChainLoop)) || p' == p.(pc := At(Returned))
       case ChainLoop => p' == p.(pc := At(EntryTop)) || (p.cancelled && p' == p.(pc := Leaving))
       case EntryTop =>
         || p' == p.(pc := At(VerifyTop))
         || (if p.cancelled then p' == p.(pc := Leaving)
             else p' == p.(pc := At(CachedLoop)) || (p.todo > 0 && p' == p.(todo := p.todo - 1)))
       case CachedLoop =>
         || p' == p.(pc := At(FetchLoop))
         || (!p.cancelled && p.todo > 0 && p' == p.(pc := At(CachedBody), todo := p.todo - 1))
       case CachedBody => p' == p.(pc := Asking(Cached)) || p' == p.(pc := At(CachedLoop))
       case FetchLoop =>
         || p' == p.(pc := At(AfterCdp))
         || (!p.cancelled && p.todo > 0 && p' == p.(pc := At(FetchBody), todo := p.todo - 1))
       case FetchBody => p' == p.(pc := Asking(Fetched)) || p' == p.(pc := At(FetchLoop))
       case AfterCdp => if p.cancelled then p' == p.(pc := Leaving) else p' == p.(pc := At(ByIssuer))
       case ByIssuer => p' == p.(pc := Asking(Fallback)) || p' == p.(pc := At(Ocsp))
       case Ocsp => (p.todo > 0 && p' == p.(pc := At(EntryTop), todo := p.todo - 1)) || p' == p.(pc := At(VerifyTop))
       case VerifyTop => if p.cancelled then p' == p.(pc := Leaving) else p' == p.(pc := At(Returned))
       case Returned => p' == p.(pc := Leaving) || (p.todo > 0 && p' == p.(pc := At(Begin), todo := p.todo - 1))
  }

  /** The moves inside acquireCRLMemory that no timeout or cancellation causes. */
  ghost predicate Acquire(n: nat, c: Chans, p: Proc, c': Chans, p': Proc)
    requires p.pc.Acq?
  {
    var site := p.pc.site;
    match p.pc.stage
    case TryGate =>
      if c.gate < 1 then c' == c.(gate := c.gate + 1) && p' == p.(pc := Open(site, true))
      else c' == c && p' == p.(pc := Acq(site, TryQueue))
    case TryQueue =>
      if c.queue < BIG_CRL_QUEUE then c' == c.(queue := c.queue + 1) && p' == p.(pc := Acq(site, Queued))
      else c' == c && p' == p.(pc := Acq(site, WaitGateHeld))
    case Queued => c' == c && p' == p.(pc := Acq(site, Unheld), held := false)
    case Unheld => c.slots > 0 && c' == c.(slots := c.slots - 1) && p' == p.(pc := Acq(site, WaitGateFree))
    case WaitGateFree => c.gate < 1 && c' == c.(gate := c.gate + 1) && p' == p.(pc := Acq(site, GotGate))
    case GotGate =>
      if c.slots < n then c' == c.(slots := c.slots + 1) && p' == p.(pc := Acq(site, SlotBack))
      else c' == c && p' == p.(pc := Acq(site, MustRelease))
    case SlotBack => c' == c && p' == p.(pc := Acq(site, RetOk), held := true)
    case MustRelease => c.gate > 0 && c' == c.(gate := c.gate - 1) && p' == p.(pc := Acq(site, WaitSlotBack))
    case WaitSlotBack => c.slots < n && c' == c.(slots := c.slots + 1) && p' == p.(pc := Acq(site, SlotBackLate))
    case SlotBackLate => c' == c && p' == p.(pc := Acq(site, WaitGateAgain), held := true)
    case WaitGateAgain => c.gate < 1 && c' == c.(gate := c.gate + 1) && p' == p.(pc := Acq(site, RetOk))
    case WaitGateHeld => c.gate < 1 && c' == c.(gate := c.gate + 1) && p' == p.(pc := Open(site, true))
    case RetOk => c.queue > 0 && c' == c.(queue := c.queue - 1) && p' == p.(pc := Open(site, true))
    case RetErr => c.queue > 0 && c' == c.(queue := c.queue - 1) && p' == p.(pc := At(After(site)))
  }

  /** Any move that is not a cancellation, a timeout, or a wait given up for one. */
  ghost predicate Normal(n: nat, c: Chans, p: Proc, c': Chans, p': Proc) {
    match p.pc
    case Arrived => c' == c && p' == p.(pc := WaitSlot)
    case WaitSlot => c.slots < n && c' == c.(slots := c.slots + 1) && p' == p.(pc := Admitted)
    case Admitted => c' == c && p' == p.(pc := At(Begin), held := true)
    case At(_) => c' == c && Walk(p, p')
    case Asking(site) => c' == c && (p' == p.(pc := Open(site, false)) || p' == p.(pc := Acq(site, TryGate)))
    case Acq(_, _) => Acquire(n, c, p, c', p')
    case Open(site, big) =>
      && (if big then c.gate > 0 && c' == c.(gate := c.gate - 1) else c' == c)
      && (p' == p.(pc := At(After(site))) || (site == Upload && p' == p.(pc := At(Returned))))
    case Leaving => c' == c && p' == p.(pc := if p.held then GivingBack else Done)
    case GivingBack => c.slots > 0 && c' == c.(slots := c.slots - 1) && p' == p.(pc := Done)
    case Done => false
  }

  /** A wait given up: the slot wait timed out or the context is done. */
  ghost predicate GiveUp(c: Chans, p: Proc, c': Chans, p': Proc) {
    && c' == c
    && match p.pc
       case WaitSlot => p' == p.(pc := Done)
       case Acq(site, WaitGateFree) => p.cancelled && p' == p.(pc := Acq(site, RetErr))
       case Acq(site, WaitSlotBack) => p.cancelled && p' == p.(pc := Acq(site, RetErr))
       case Acq(site, WaitGateAgain) => p.cancelled && p' == p.(pc := Acq(site, RetErr))
       case Acq(site, WaitGateHeld) => p.cancelled && p' == p.(pc := At(After(site)))
       case _ => false
  }

  /** The client leaves or the analysis times out. */
  ghost predicate Cancel(c: Chans, p: Proc, c': Chans, p': Proc) {
    c' == c && !p.cancelled && p' == p.(cancelled := true)
  }

  ghost predicate Progress(n: nat, s: State, s': State, i: nat) {
    && i < |s.procs| == |s'.procs|
    && s'.procs == s.procs[i := s'.procs[i]]
    && Normal(n, s.c, s.procs[i], s'.c, s'.procs[i])
  }

  ghost predicate Step(n: nat, s: State, s': State, i: nat) {
    || Progress(n, s, s', i)
    || (&& i < |s.procs| == |s'.procs|
        && s'.procs == s.procs[i := s'.procs[i]]
        && (GiveUp(s.c, s.procs[i], s'.c, s'.procs[i]) || Cancel(s.c, s.procs[i], s'.c, s'.procs[i])))
  }

  ghost predicate Init(s: State) {
    && s.c == Chans(0, 0, 0)
    && forall i :: 0 <= i < |s.procs| ==> s.procs[i].pc == Arrived && !s.procs[i].held
  }

  /** A run: every state follows from the one before by a step of some analysis. */
  ghost predicate Run(n: nat, run: seq<State>) {
    && |run| > 0
    && Init(run[0])
    && forall k, k' :: 0 <= k && k' == k + 1 < |run| ==> Moves(n, run[k], run[k'])
  }

  /** Some analysis takes a step. */
  ghost predicate Moves(n: nat, s: State, s': State) {
    exists i: nat :: Step(n, s, s', i)
  }

  /** Some analysis can take a step that is no cancellation and no timeout. */
  ghost predicate CanProgress(n: nat, s: State) {
    exists s', i: nat :: Progress(n, s, s', i)
  }

  function Last(run: seq<State>): State
    requires |run| > 0
  {
    run[|run| - 1]
  }

  ghost predicate AllDone(s: State) {
    forall i :: 0 <= i < |s.procs| ==> s.procs[i].pc == Done
  }

  // ---------------------------------------------------------------- tokens

  datatype Token = Slot | Gate | Queue

  /** Whether the analysis owns a token, in transit or not. */
  predicate Owns(t: Token, p: Proc) {
    match t
    case Slot =>
      (match p.pc
       case Arrived => false
       case WaitSlot => false
       case Done => false
       case Admitted => true
       case Acq(_, stage) =>
         if stage == RetErr then p.held
         else !(stage.WaitGateFree? || stage.GotGate? || stage.MustRelease? || stage.WaitSlotBack?)
       case GivingBack => true
       case _ => p.held)
    case Gate =>
      || (p.pc.Open? && p.pc.big)
      || (p.pc.Acq? && (p.pc.stage.GotGate? || p.pc.stage.SlotBack? || p.pc.stage.MustRelease? || p.pc.stage.RetOk?))
    case Queue =>
      p.pc.Acq? && !(p.pc.stage.TryGate? || p.pc.stage.TryQueue? || p.pc.stage.WaitGateHeld?)
  }

  function Bit(t: Token, p: Proc): nat {
    if Owns(t, p) then 1 else 0
  }

  function Count(t: Token, procs: seq<Proc>): nat {
    if procs == [] then 0 else Count(t, procs[..|procs| - 1]) + Bit(t, procs[|procs| - 1])
  }

  function In(t: Token, c: Chans): nat {
    match t case Slot => c.slots case Gate => c.gate case Queue => c.queue
  }

  function Cap(t: Token, n: nat): nat {
    match t case Slot => n case Gate => 1 case Queue => BIG_CRL_QUEUE
  }

  /** Locations an analysis can be at without its slot: each leads out. */
  predicate Lost(l: Loc) {
    l.AfterUpload? || l.CachedLoop? || l.FetchLoop? || l.AfterCdp? || l.Ocsp? || l.EntryTop? || l.VerifyTop?
  }

  /** Whether `held` is true at the stage, unless the call returns an error. */
  predicate HeldAt(stage: Stage) {
    || stage.TryGate? || stage.TryQueue? || stage.Queued? || stage.WaitGateHeld?
    || stage.RetOk? || stage.WaitGateAgain?
  }

  predicate Local(p: Proc) {
    match p.pc
    case Arrived => !p.held
    case WaitSlot => !p.held
    case Admitted => !p.held
    case At(l) => p.held || (p.cancelled && Lost(l))
    case Asking(_) => p.held
    case Acq(_, stage) =>
      if stage == RetErr then p.cancelled
      else p.held == HeldAt(stage)
    case Open(_, _) => p.held
    case GivingBack => p.held
    case Leaving => p.held || p.cancelled
    case Done => true
  }

  /** The channel counts are exactly the tokens owned, within their capacities. */
  ghost predicate Inv(n: nat, s: State) {
    && (forall t: Token :: In(t, s.c) == Count(t, s.procs) <= Cap(t, n))
    && (forall i :: 0 <= i < |s.procs| ==> Local(s.procs[i]))
  }

  lemma {:induction false} CountUpdate(t: Token, procs: seq<Proc>, i: nat, p: Proc)
    requires i < |procs|
    ensures Count(t, procs[i := p]) + Bit(t, procs[i]) == Count(t, procs) + Bit(t, p)
  {
    var last := |procs| - 1;
    if i == last {
      assert procs[i := p][..last] == procs[..last];
    } else {
      assert procs[i := p][..last] == procs[..last][i := p];
      CountUpdate(t, procs[..last], i, p);
    }
  }

  lemma {:induction false} OwnerCounted(t: Token, procs: seq<Proc>, i: nat)
    requires i < |procs| && Owns(t, procs[i])
    ensures Count(t, procs) >= 1
  {
    if i < |procs| - 1 { OwnerCounted(t, procs[..|procs| - 1], i); }
  }

  lemma {:induction false} FindOwner(t: Token, procs: seq<Proc>) returns (i: nat)
    requires Count(t, procs) > 0
    ensures i < |procs| && Owns(t, procs[i])
  {
    i := |procs| - 1;
    if !Owns(t, procs[i]) { i := FindOwner(t, procs[..i]); }
  }

  lemma {:induction false} InitCounts(t: Token, procs: seq<Proc>)
    requires forall i :: 0 <= i < |procs| ==> !Owns(t, procs[i])
    ensures Count(t, procs) == 0
  {
    if procs != [] { InitCounts(t, procs[..|procs| - 1]); }
  }

  /** One step moves exactly the tokens its analysis gains or loses. */
  lemma StepKeepsLocal(n: nat, c: Chans, p: Proc, c': Chans, p': Proc)
    requires Local(p)
    requires Normal(n, c, p, c', p') || GiveUp(c, p, c', p') || Cancel(c, p, c', p')
    requires forall t: Token :: In(t, c) <= Cap(t, n)
    ensures Local(p')
    ensures forall t: Token :: In(t, c') + Bit(t, p) == In(t, c) + Bit(t, p') && In(t, c') <= Cap(t, n)
  {
    if Normal(n, c, p, c', p') && p.pc.Acq? {
      AcquireKeepsLocal(n, c, p, c', p');
    } else if Normal(n, c, p, c', p') {
      MoveKeepsLocal(n, c, p, c', p');
    } else {
      CancelKeepsLocal(n, c, p, c', p');
    }
  }

  lemma AcquireKeepsLocal(n: nat, c: Chans, p: Proc, c': Chans, p': Proc)
    requires Local(p) && p.pc.Acq? && Acquire(n, c, p, c', p')
    requires forall t: Token :: In(t, c) <= Cap(t, n)
    ensures Local(p')
    ensures forall t: Token :: In(t, c') + Bit(t, p) == In(t, c) + Bit(t, p') && In(t, c') <= Cap(t, n)
  {
    assert In(Slot, c) == c.slots <= Cap(Slot, n) && In(Gate, c) == c.gate <= Cap(Gate, n);
    assert In(Queue, c) == c.queue <= Cap(Queue, n);
    if Early(p.pc.stage) { EarlyStages(n, c, p, c', p'); } else { LateStages(n, c, p, c', p'); }
  }

  /** The stages up to the wait for the gate without a slot. */
  predicate Early(stage: Stage) {
    stage.TryGate? || stage.TryQueue? || stage.Queued? || stage.Unheld? || stage.WaitGateFree?
  }

  lemma EarlyStages(n: nat, c: Chans, p: Proc, c': Chans, p': Proc)
    requires Local(p) && p.pc.Acq? && Acquire(n, c, p, c', p') && Early(p.pc.stage)
    requires c.slots <= n && c.gate <= 1 && c.queue <= BIG_CRL_QUEUE
    ensures Local(p')
    ensures c'.slots + Bit(Slot, p) == c.slots + Bit(Slot, p') && c'.slots <= n
    ensures c'.gate + Bit(Gate, p) == c.gate + Bit(Gate, p') && c'.gate <= 1
    ensures c'.queue + Bit(Queue, p) == c.queue + Bit(Queue, p') && c'.queue <= BIG_CRL_QUEUE
  {
  }

  lemma LateStages(n: nat, c: Chans, p: Proc, c': Chans, p': Proc)
    requires Local(p) && p.pc.Acq? && Acquire(n, c, p, c', p') && !Early(p.pc.stage)
    requires c.slots <= n && c.gate <= 1 && c.queue <= BIG_CRL_QUEUE
    ensures Local(p')
    ensures c'.slots + Bit(Slot, p) == c.slots + Bit(Slot, p') && c'.slots <= n
    ensures c'.gate + Bit(Gate, p) == c.gate + Bit(Gate, p') && c'.gate <= 1
    ensures c'.queue + Bit(Queue, p) == c.queue + Bit(Queue, p') && c'.queue <= BIG_CRL_QUEUE
  {
  }

  lemma MoveKeepsLocal(n: nat, c: Chans, p: Proc, c': Chans, p': Proc)
    requires Local(p) && !p.pc.Acq? && Normal(n, c, p, c', p')
    requires forall t: Token :: In(t, c) <= Cap(t, n)
    ensures Local(p')
    ensures forall t: Token :: In(t, c') + Bit(t, p) == In(t, c) + Bit(t, p') && In(t, c') <= Cap(t, n)
  {
    assert In(Slot, c) == c.slots <= Cap(Slot, n) && In(Gate, c) == c.gate <= Cap(Gate, n);
    assert In(Queue, c) == c.queue <= Cap(Queue, n);
  }

  lemma CancelKeepsLocal(n: nat, c: Chans, p: Proc, c': Chans, p': Proc)
    requires Local(p) && (GiveUp(c, p, c', p') || Cancel(c, p, c', p'))
    requires forall t: Token :: In(t, c) <= Cap(t, n)
    ensures Local(p')
    ensures forall t: Token :: In(t, c') + Bit(t, p) == In(t, c) + Bit(t, p') && In(t, c') <= Cap(t, n)
  {
  }

  lemma StepKeepsInv(n: nat, s: State, s': State, i: nat)
    requires Inv(n, s) && Step(n, s, s', i)
    ensures Inv(n, s')
  {
    StepKeepsLocal(n, s.c, s.procs[i], s'.c, s'.procs[i]);
    forall t: Token ensures In(t, s'.c) == Count(t, s'.procs) <= Cap(t, n) {
      CountUpdate(t, s.procs, i, s'.procs[i]);
    }
  }

  /** Token conservation over every run, whatever is cancelled and when. */
  lemma {:induction false} RunKeepsInv(n: nat, run: seq<State>)
    requires Run(n, run)
    ensures Inv(n, Last(run))
  {
    var last := |run| - 1;
    if last == 0 {
      forall t: Token ensures In(t, run[0].c) == Count(t, run[0].procs) <= Cap(t, n) {
        InitCounts(t, run[0].procs);
      }
    } else {
      RunKeepsInv(n, run[..last]);
      var s, s' := run[last - 1], run[last];
      assert Last(run[..last]) == s && Moves(n, s, s');
      var i: nat :| Step(n, s, s', i);
      StepKeepsInv(n, s, s', i);
    }
  }

  // ---------------------------------------------------------------- results

  /**
   Whenever analyzeData calls acquireCRLMemory, its analysis owns its slot and
   not the gate: a failed call leaves the context done, and every path from it
   reaches a context check before another call.
   */
  lemma CallsOwnSlot(n: nat, run: seq<State>, i: nat)
    requires Run(n, run) && i < |Last(run).procs|
    ensures
      var p := Last(run).procs[i];
      && (p.pc.Asking? ==> p.held && Owns(Slot, p) && !Owns(Gate, p) && !Owns(Queue, p))
      && (p.pc.Acq? && p.pc.stage.RetErr? ==> p.cancelled)
      && (p.pc.At? && !p.held ==> p.cancelled)
  {
    RunKeepsInv(n, run);
    assert Local(Last(run).procs[i]);
  }

  /** Every receive from a channel finds a token, so no release ever blocks. */
  lemma ReleaseFindsToken(n: nat, s: State, i: nat)
    requires Inv(n, s) && i < |s.procs|
    ensures
      var p := s.procs[i];
      && (p.pc == GivingBack || (p.pc.Acq? && p.pc.stage.Unheld?) ==> s.c.slots > 0)
      && ((p.pc.Open? && p.pc.big) || (p.pc.Acq? && p.pc.stage.MustRelease?) ==> s.c.gate > 0)
      && (p.pc.Acq? && (p.pc.stage.RetOk? || p.pc.stage.RetErr?) ==> s.c.queue > 0)
  {
    forall t: Token | Owns(t, s.procs[i]) ensures In(t, s.c) > 0 {
      OwnerCounted(t, s.procs, i);
    }
    assert In(Slot, s.c) == s.c.slots && In(Gate, s.c) == s.c.gate && In(Queue, s.c) == s.c.queue;
    assert Local(s.procs[i]);
  }

  lemma {:induction false} TwoOwners(t: Token, procs: seq<Proc>, i: nat, j: nat)
    requires i < j < |procs| && Owns(t, procs[i]) && Owns(t, procs[j])
    ensures Count(t, procs) >= 2
  {
    if j == |procs| - 1 { OwnerCounted(t, procs[..j], i); } else { TwoOwners(t, procs[..|procs| - 1], i, j); }
  }

  /** At most one big CRL is in memory at a time, in every reachable state. */
  lemma OneBigCRL(n: nat, run: seq<State>, i: nat, j: nat)
    requires Run(n, run)
    requires
      var procs := Last(run).procs;
      i < |procs| && j < |procs| && procs[i].pc.Open? && procs[i].pc.big && procs[j].pc.Open? && procs[j].pc.big
    ensures i == j
  {
    RunKeepsInv(n, run);
    var s := Last(run);
    assert In(Gate, s.c) == Count(Gate, s.procs) <= Cap(Gate, n);
    if i != j {
      TwoOwners(Gate, s.procs, if i < j then i else j, if i < j then j else i);
    }
  }

  predicate Active(p: Proc) {
    !p.cancelled && !p.pc.Arrived? && !p.pc.WaitSlot? && !p.pc.Done?
  }

  function CountActive(procs: seq<Proc>): nat {
    if procs == [] then 0 else CountActive(procs[..|procs| - 1]) + if Active(procs[|procs| - 1]) then 1 else 0
  }

  lemma {:induction false} ActiveOwn(procs: seq<Proc>)
    requires forall i :: 0 <= i < |procs| ==> Local(procs[i])
    ensures CountActive(procs) <= Count(Slot, procs) + Count(Queue, procs)
  {
    if procs != [] {
      ActiveOwn(procs[..|procs| - 1]);
      assert Local(procs[|procs| - 1]);
    }
  }

  /** Admitted analyses that nobody cancelled stay within the slots plus the queue. */
  lemma AdmissionBound(n: nat, run: seq<State>)
    requires Run(n, run)
    ensures CountActive(Last(run).procs) <= n + BIG_CRL_QUEUE
  {
    RunKeepsInv(n, run);
    var s := Last(run);
    ActiveOwn(s.procs);
    assert In(Slot, s.c) == Count(Slot, s.procs) <= Cap(Slot, n);
    assert In(Queue, s.c) == Count(Queue, s.procs) <= Cap(Queue, n);
  }

  /** With every analysis returned, no channel holds a token. */
  lemma AllReturned(n: nat, run: seq<State>)
    requires Run(n, run) && AllDone(Last(run))
    ensures Last(run).c == Chans(0, 0, 0)
  {
    RunKeepsInv(n, run);
    var s := Last(run);
    forall t: Token ensures In(t, s.c) == 0 { InitCounts(t, s.procs); }
    assert In(Slot, s.c) == s.c.slots && In(Gate, s.c) == s.c.gate && In(Queue, s.c) == s.c.queue;
  }

  // ---------------------------------------------------------------- the queue

  predicate Takes(t: Token, p: Proc, p': Proc) {
    !Owns(t, p) && Owns(t, p')
  }

  /** Between its queue token and the gate. */
  predicate InQueue(p: Proc) {
    p.pc.Acq? && (p.pc.stage.Queued? || p.pc.stage.Unheld? || p.pc.stage.WaitGateFree? || p.pc.stage.RetErr?)
  }

  lemma QueueStep(n: nat, s: State, s': State, i: nat)
    requires Moves(n, s, s') && i < |s.procs| == |s'.procs|
    ensures Takes(Queue, s.procs[i], s'.procs[i]) ==> s'.procs[i].pc.Acq? && s'.procs[i].pc.stage.Queued?
    ensures InQueue(s.procs[i]) && !Takes(Gate, s.procs[i], s'.procs[i]) && Owns(Queue, s'.procs[i]) ==>
      InQueue(s'.procs[i])
    ensures InQueue(s.procs[i]) && Takes(Gate, s.procs[i], s'.procs[i]) ==> !Owns(Slot, s.procs[i])
  {
    var j: nat :| Step(n, s, s', j);
  }

  /**
   Whoever queues for the gate gives its slot back first: when it takes the gate
   for the first time since, it owns no slot.
   */
  lemma QueuesWithoutSlot(n: nat, run: seq<State>, i: nat, k: nat, m: nat)
    requires Run(n, run) && k < m && m + 1 < |run|
    requires forall j :: 0 <= j < |run| ==> i < |run[j].procs| == |run[0].procs|
    requires Takes(Queue, run[k].procs[i], run[k + 1].procs[i]) && Takes(Gate, run[m].procs[i], run[m + 1].procs[i])
    requires forall j :: k < j < m ==> Queues(run, i, j)
    ensures !Owns(Slot, run[m].procs[i])
  {
    forall j, j' | 0 <= j && j' == j + 1 < |run| ensures QueueLaws(run[j].procs[i], run[j'].procs[i]) {
      QueueStep(n, run[j], run[j'], i);
    }
    assert QueueLaws(run[k].procs[i], run[k + 1].procs[i]) && QueueLaws(run[m].procs[i], run[m + 1].procs[i]);
    StaysInQueue(run, i, k, m);
  }

  /** After state j it still has its queue token and has not taken the gate. */
  predicate Queues(run: seq<State>, i: nat, j: nat)
    requires j + 1 < |run| && i < |run[j].procs| && i < |run[j + 1].procs|
  {
    Owns(Queue, run[j + 1].procs[i]) && !Takes(Gate, run[j].procs[i], run[j + 1].procs[i])
  }

  /** What QueueStep says of one analysis. */
  predicate QueueLaws(p: Proc, p': Proc) {
    && (Takes(Queue, p, p') ==> InQueue(p'))
    && (InQueue(p) && !Takes(Gate, p, p') && Owns(Queue, p') ==> InQueue(p'))
    && (InQueue(p) && Takes(Gate, p, p') ==> !Owns(Slot, p))
  }

  lemma {:induction false} StaysInQueue(run: seq<State>, i: nat, k: nat, m: nat)
    requires k < m < |run| && forall j :: 0 <= j < |run| ==> i < |run[j].procs|
    requires InQueue(run[k + 1].procs[i])
    requires forall j, j' :: 0 <= j && j' == j + 1 < |run| ==> QueueLaws(run[j].procs[i], run[j'].procs[i])
    requires forall j :: k < j < m ==> Queues(run, i, j)
    ensures InQueue(run[m].procs[i])
  {
    if m > k + 1 {
      StaysInQueue(run, i, k, m - 1);
      assert QueueLaws(run[m - 1].procs[i], run[m].procs[i]) && Queues(run, i, m - 1);
    }
  }

  /**
   Who asks for the gate gets it at once when it is free; with the gate taken and
   the queue full it waits with its slot, and with room in the queue it queues.
   */
  lemma AsksForGate(n: nat, s: State, s': State, i: nat)
    requires Step(n, s, s', i) && i < |s.procs| && s'.procs[i].pc != s.procs[i].pc && s.procs[i].pc.Acq?
    ensures s.procs[i].pc.stage.TryGate? && s.c.gate == 0 ==> s'.procs[i].pc == Open(s.procs[i].pc.site, true)
    ensures s.procs[i].pc.stage.TryQueue? && s.c.queue < BIG_CRL_QUEUE ==> Takes(Queue, s.procs[i], s'.procs[i])
    ensures s.procs[i].pc.stage.TryQueue? && s.c.queue >= BIG_CRL_QUEUE ==>
      Owns(Slot, s'.procs[i]) && !Owns(Queue, s'.procs[i]) && Waiting(s'.procs[i])
  {
  }

  // ---------------------------------------------------------------- deadlock freedom

  predicate Waiting(p: Proc) {
    || p.pc.WaitSlot?
    || (p.pc.Acq? && WaitsAt(p.pc.stage))
  }

  predicate WaitsAt(stage: Stage) {
    stage.WaitGateFree? || stage.WaitSlotBack? || stage.WaitGateAgain? || stage.WaitGateHeld?
  }

  /** The channel operation the analysis waits for can go ahead. */
  predicate Ready(n: nat, c: Chans, p: Proc)
    requires Waiting(p)
  {
    if p.pc.WaitSlot? || p.pc.stage.WaitSlotBack? then c.slots < n else c.gate < 1
  }

  /** An analysis that is not waiting always has a move. */
  lemma NonWaiterMoves(n: nat, s: State, i: nat) returns (c': Chans, p': Proc)
    requires Inv(n, s) && i < |s.procs|
    requires s.procs[i].pc != Done
    requires Waiting(s.procs[i]) ==> Ready(n, s.c, s.procs[i])
    ensures Normal(n, s.c, s.procs[i], c', p')
  {
    ReleaseFindsToken(n, s, i);
    var c, p := s.c, s.procs[i];
    c' := c;
    match p.pc
    case Arrived => p' := p.(pc := WaitSlot);
    case WaitSlot => c', p' := c.(slots := c.slots + 1), p.(pc := Admitted);
    case Admitted => p' := p.(pc := At(Begin), held := true);
    case At(l) =>
      p' := match l
        case Begin => p.(pc := Asking(Upload))
        case AfterUpload => if p.cancelled then p.(pc := Leaving) else p.(pc := At(ChainLoop))
        case ChainLoop => p.(pc := At(EntryTop))
        case EntryTop => p.(pc := At(VerifyTop))
        case CachedLoop => p.(pc := At(FetchLoop))
        case CachedBody => p.(pc := Asking(Cached))
        case FetchLoop => p.(pc := At(AfterCdp))
        case FetchBody => p.(pc := Asking(Fetched))
        case AfterCdp => if p.cancelled then p.(pc := Leaving) else p.(pc := At(ByIssuer))
        case ByIssuer => p.(pc := At(Ocsp))
        case Ocsp => p.(pc := At(VerifyTop))
        case VerifyTop => if p.cancelled then p.(pc := Leaving) else p.(pc := At(Returned))
        case Returned => p.(pc := Leaving);
    case Asking(site) => p' := p.(pc := Acq(site, TryGate));
    case Acq(site, stage) => c', p' := AcquireMoves(n, c, p);
    case Open(site, big) =>
      if big { c' := c.(gate := c.gate - 1); }
      p' := p.(pc := At(After(site)));
    case Leaving => p' := p.(pc := if p.held then GivingBack else Done);
    case GivingBack => c', p' := c.(slots := c.slots - 1), p.(pc := Done);
  }

  lemma AcquireMoves(n: nat, c: Chans, p: Proc) returns (c': Chans, p': Proc)
    requires p.pc.Acq? && (Waiting(p) ==> Ready(n, c, p))
    requires p.pc.stage.Unheld? ==> c.slots > 0
    requires p.pc.stage.MustRelease? ==> c.gate > 0
    requires p.pc.stage.RetOk? || p.pc.stage.RetErr? ==> c.queue > 0
    ensures Acquire(n, c, p, c', p')
  {
    var site := p.pc.site;
    c' := c;
    match p.pc.stage
    case TryGate =>
      if c.gate < 1 { c', p' := c.(gate := c.gate + 1), p.(pc := Open(site, true)); }
      else { p' := p.(pc := Acq(site, TryQueue)); }
    case TryQueue =>
      if c.queue < BIG_CRL_QUEUE { c', p' := c.(queue := c.queue + 1), p.(pc := Acq(site, Queued)); }
      else { p' := p.(pc := Acq(site, WaitGateHeld)); }
    case Queued => p' := p.(pc := Acq(site, Unheld), held := false);
    case Unheld => c', p' := c.(slots := c.slots - 1), p.(pc := Acq(site, WaitGateFree));
    case WaitGateFree => c', p' := c.(gate := c.gate + 1), p.(pc := Acq(site, GotGate));
    case GotGate =>
      if c.slots < n { c', p' := c.(slots := c.slots + 1), p.(pc := Acq(site, SlotBack)); }
      else { p' := p.(pc := Acq(site, MustRelease)); }
    case SlotBack => p' := p.(pc := Acq(site, RetOk), held := true);
    case MustRelease => c', p' := c.(gate := c.gate - 1), p.(pc := Acq(site, WaitSlotBack));
    case WaitSlotBack => c', p' := c.(slots := c.slots + 1), p.(pc := Acq(site, SlotBackLate));
    case SlotBackLate => p' := p.(pc := Acq(site, WaitGateAgain), held := true);
    case WaitGateAgain => c', p' := c.(gate := c.gate + 1), p.(pc := Acq(site, RetOk));
    case WaitGateHeld => c', p' := c.(gate := c.gate + 1), p.(pc := Open(site, true));
    case RetOk => c', p' := c.(queue := c.queue - 1), p.(pc := Open(site, true));
    case RetErr => c', p' := c.(queue := c.queue - 1), p.(pc := At(After(site)));
  }

  /** Whoever owns a gate token is not waiting for anything. */
  lemma GateOwnerNeverWaits(p: Proc)
    requires Owns(Gate, p)
    ensures !Waiting(p) && p.pc != Done
  {
  }

  /** Someone can move: the waiter, the gate owner, or a slot owner. */
  lemma FindMover(n: nat, s: State, i: nat) returns (j: nat)
    requires n >= 1 && Inv(n, s) && i < |s.procs| && s.procs[i].pc != Done
    ensures j < |s.procs| && s.procs[j].pc != Done && (Waiting(s.procs[j]) ==> Ready(n, s.c, s.procs[j]))
  {
    j := i;
    assert In(Slot, s.c) == s.c.slots && In(Gate, s.c) == s.c.gate;
    if Waiting(s.procs[j]) && !Ready(n, s.c, s.procs[j]) && s.c.gate < 1 {
      j := FindOwner(Slot, s.procs);
    } else if Waiting(s.procs[j]) && !Ready(n, s.c, s.procs[j]) {
      j := FindOwner(Gate, s.procs);
      GateOwnerNeverWaits(s.procs[j]);
    }
  }

  /**
   Deadlock freedom, for any number of slots but zero and any number of
   analyses: while one has not returned, some step that is neither a
   cancellation nor a timeout is enabled.
   */
  lemma NoDeadlock(n: nat, run: seq<State>)
    requires n >= 1 && Run(n, run) && !AllDone(Last(run))
    ensures CanProgress(n, Last(run))
  {
    RunKeepsInv(n, run);
    var s := Last(run);
    var i :| 0 <= i < |s.procs| && s.procs[i].pc != Done;
    var j := FindMover(n, s, i);
    var c', p' := NonWaiterMoves(n, s, j);
    var s' := State(c', s.procs[j := p']);
    assert Progress(n, s, s', j);
  }

  // ---------------------------------------------------------------- no livelock

  function StageRank(stage: Stage): nat {
    match stage
    case TryGate => 12
    case TryQueue => 11
    case Queued => 10
    case Unheld => 9
    case WaitGateFree => 8
    case GotGate => 7
    case MustRelease => 6
    case WaitSlotBack => 5
    case SlotBackLate => 4
    case WaitGateAgain => 3
    case SlotBack => 3
    case WaitGateHeld => 2
    case RetOk => 2
    case RetErr => 1
  }

  function LocRank(l: Loc): nat {
    match l
    case Begin => 67
    case AfterUpload => 53
    case ChainLoop => 52
    case EntryTop => 51
    case CachedBody => 50
    case CachedLoop => 36
    case FetchBody => 35
    case FetchLoop => 21
    case AfterCdp => 20
    case ByIssuer => 19
    case Ocsp => 5
    case VerifyTop => 4
    case Returned => 3
  }

  function Rank(p: Proc): nat {
    2 * (100 * p.todo +
    match p.pc
    case Arrived => 70
    case WaitSlot => 69
    case Admitted => 68
    case At(l) => LocRank(l)
    case Asking(site) => LocRank(After(site)) + 13
    case Acq(site, stage) => LocRank(After(site)) + StageRank(stage)
    case Open(site, _) => LocRank(After(site)) + 1
    case Leaving => 2
    case GivingBack => 1
    case Done => 0)
    + if p.cancelled then 0 else 1
  }

  function Measure(procs: seq<Proc>): nat {
    if procs == [] then 0 else Measure(procs[..|procs| - 1]) + Rank(procs[|procs| - 1])
  }

  lemma {:induction false} MeasureUpdate(procs: seq<Proc>, i: nat, p: Proc)
    requires i < |procs|
    ensures Measure(procs[i := p]) + Rank(procs[i]) == Measure(procs) + Rank(p)
  {
    var last := |procs| - 1;
    if i == last {
      assert procs[i := p][..last] == procs[..last];
    } else {
      assert procs[i := p][..last] == procs[..last][i := p];
      MeasureUpdate(procs[..last], i, p);
    }
  }

  lemma RankDrops(n: nat, c: Chans, p: Proc, c': Chans, p': Proc)
    requires Normal(n, c, p, c', p') || GiveUp(c, p, c', p') || Cancel(c, p, c', p')
    ensures Rank(p') < Rank(p)
  {
    if Normal(n, c, p, c', p') && p.pc.At? {
      WalkRank(p, p');
    } else if Normal(n, c, p, c', p') && p.pc.Acq? {
      AcquireRank(n, c, p, c', p');
    }
  }

  lemma WalkRank(p: Proc, p': Proc)
    requires p.pc.At? && Walk(p, p')
    ensures Rank(p') < Rank(p)
  {
  }

  lemma AcquireRank(n: nat, c: Chans, p: Proc, c': Chans, p': Proc)
    requires p.pc.Acq? && Acquire(n, c, p, c', p')
    ensures Rank(p') < Rank(p)
  {
  }

  /**
   No schedule goes round in circles: with a finite number of loop iterations
   ahead of each analysis, no run is longer than the measure of its first state.
   */
  lemma {:induction false} RunIsBounded(n: nat, run: seq<State>)
    requires Run(n, run)
    ensures |run| - 1 + Measure(Last(run).procs) <= Measure(run[0].procs)
  {
    var last := |run| - 1;
    if last > 0 {
      RunIsBounded(n, run[..last]);
      var s, s' := run[last - 1], run[last];
      assert Last(run[..last]) == s && Moves(n, s, s');
      var i: nat :| Step(n, s, s', i);
      RankDrops(n, s.c, s.procs[i], s'.c, s'.procs[i]);
      MeasureUpdate(s.procs, i, s'.procs[i]);
    }
  }

  /**
   Every run that cannot be extended by a progress step has ended well: all
   analyses returned and every channel is empty. With RunIsBounded, every
   schedule gets there without any timeout or cancellation.
   */
  lemma StuckMeansFinished(n: nat, run: seq<State>)
    requires n >= 1 && Run(n, run)
    requires !CanProgress(n, Last(run))
    ensures AllDone(Last(run)) && Last(run).c == Chans(0, 0, 0)
  {
    if !AllDone(Last(run)) { NoDeadlock(n, run); }
    AllReturned(n, run);
  }
}
