/** The flush barrier of the deleter: what a `flush` that returns Ok has waited for. */
module DeleteBarrier {
  import opened Sums
  import opened DeletePump
  import opened DeleteLaws

  /** The newest epoch a pump has seen. */
  function Seen(x: Slot): nat {
    if x.pc.Loaded? then Max(x.ack, x.pc.seen) else x.ack
  }

  /** After the pump found the pending queue empty and before it reads the epoch. */
  predicate PastDrain(pc: Pc) {
    pc.Check? || pc.FlushTop? || pc.Closing? || pc.Acking? || pc.Load?
  }

  predicate Empties(pc: Pc) {
    pc.Closing? || pc.Acking? || pc.Load? || pc.Loaded? || pc.Sleep?
  }

  /** A pump has seen no epoch beyond the current one, and its ledger is empty from the moment it
      takes a batch until it drains again. */
  predicate PumpOk(x: Slot, epoch: nat) {
    Seen(x) <= epoch && (Empties(x.pc) ==> x.ledger == [])
  }

  ghost predicate PumpsOk(s: State) {
    forall i :: 0 <= i < |s.slots| ==> PumpOk(s.slots[i], s.epoch)
  }

  lemma PumpStep(x: Slot, pending: seq<Job>, epoch: nat, maxRetries: nat, a: Action)
    requires OnSlot(a) && SlotEnabled(x, pending == [], a) && PumpOk(x, epoch)
    ensures var y := SlotNext(x, pending, epoch, maxRetries, a);
            && PumpOk(y, epoch) && y.ack >= x.ack
            && (Seen(y) == Seen(x) || (a.LoadEpoch? && Seen(y) == epoch && InPc(y.pc) == [] && y.ledger == []))
            && (PastDrain(y.pc) ==> PastDrain(x.pc) || a.DrainDone?)
            && (a.LoadEpoch? ==> PastDrain(x.pc))
  {
  }

  // ----- Acknowledgements -----

  /** Pumps that other steps may touch keep their place, and only lose jobs. */
  ghost predicate Lighter(y: Slot, x: Slot, id: nat) {
    && y.pc == x.pc && y.ack == x.ack && (x.ledger == [] ==> y.ledger == [])
    && SlotIds(id)(y) <= SlotIds(id)(x)
  }

  ghost predicate AllLighter(t: State, s: State, id: nat) {
    && |t.slots| == |s.slots|
    && forall i :: 0 <= i < |s.slots| ==> Lighter(t.slots[i], s.slots[i], id)
  }

  lemma ScanLightens(s: State, c: nat, id: nat)
    requires c < |s.cancels|
    ensures var t := ScanStep(s, c);
            AllLighter(t, s, id) && Sum(t.pending, HasId(id)) <= Sum(s.pending, HasId(id)) && t.epoch == s.epoch
  {
    hide Sum, InPc, Matching, Replies, HasId;
    var k := s.cancels[c];
    if k.at <= |s.slots| {
      KeepOrMatch(if k.at == 0 then s.pending else s.slots[k.at - 1].ledger, k.path, HasId(id));
    }
  }

  lemma FailLightens(s: State, d: nat, closed: set<Path>, id: nat)
    requires d < |s.downs| && s.downs[d].at < |s.slots|
    ensures var t := FailStep(s, d, closed);
            AllLighter(t, s, id) && Sum(t.pending, HasId(id)) <= Sum(s.pending, HasId(id)) && t.epoch == s.epoch
  {
    SumNone<Job>(HasId(id));
    hide Sum, InPc, HasId;
  }

  lemma OthersLighten(s: State, a: Action, id: nat)
    requires Enabled(s, a) && !OnSlot(a)
    ensures AllLighter(Apply(s, a), s, id) && s.epoch <= Apply(s, a).epoch
    ensures id < s.next ==> Sum(Apply(s, a).pending, HasId(id)) <= Sum(s.pending, HasId(id))
  {
    if a.Scan? {
      ScanLightens(s, a.c, id);
      hide ScanStep, AllLighter;
    } else if a.DownStep? {
      FailLightens(s, a.d, a.closed, id);
      hide FailStep, AllLighter;
    } else if a.Push? {
      SumAppend(s.pending, Job(s.next, s.entering[a.k].path), HasId(id));
      hide Sum, InPc;
    } else {
      hide Sum, InPc;
    }
  }

  lemma PumpsStep(s: State, a: Action)
    requires Enabled(s, a) && PumpsOk(s)
    ensures PumpsOk(Apply(s, a)) && |Apply(s, a).slots| == |s.slots|
    ensures forall i :: 0 <= i < |s.slots| ==> Apply(s, a).slots[i].ack >= s.slots[i].ack
  {
    if OnSlot(a) {
      PumpStep(s.slots[a.i], s.pending, s.epoch, s.maxRetries, a);
      hide SlotNext, PumpOk, SlotEnabled, Tallied, SentBy;
    } else {
      OthersLighten(s, a, 0);
      hide Apply, Enabled, SlotIds;
    }
  }

  lemma {:induction false} PumpsRun(s: State, run: seq<Action>, t: State)
    requires Reaches(s, run, t) && PumpsOk(s)
    ensures PumpsOk(t) && |t.slots| == |s.slots|
    ensures forall i :: 0 <= i < |s.slots| ==> t.slots[i].ack >= s.slots[i].ack
    decreases |run|
  {
    hide Apply, Enabled, PumpOk;
    if run != [] {
      PumpsStep(s, run[0]);
      PumpsRun(Apply(s, run[0]), run[1..], t);
    }
  }

  /** Between any two states of any run, no slot's acknowledgement falls, and none is ever above the
      epoch. */
  lemma AcksMonotone(workers: nat, maxRetries: nat, atomicUnlink: bool, run: seq<Action>, s: State,
                     more: seq<Action>, t: State, i: nat)
    requires Reaches(Init(workers, maxRetries, atomicUnlink), run, s) && Reaches(s, more, t) && i < |s.slots|
    ensures |t.slots| == |s.slots| == Max(workers, 1) && s.slots[i].ack <= t.slots[i].ack <= t.epoch
  {
    hide Reaches, Enabled, Apply;
    var s0 := Init(workers, maxRetries, atomicUnlink);
    assert PumpsOk(s0);
    PumpsRun(s0, run, s);
    PumpsRun(s, more, t);
    assert PumpOk(t.slots[i], t.epoch);
  }

  // ----- The barrier -----

  /** Job `id` is out of the hands of every pump that has seen epoch `e`; and while it is pending, no
      pump has seen `e` or is past its drain. */
  ghost predicate Fenced(s: State, e: nat, id: nat) {
    && id < s.next && e <= s.epoch
    && (forall i :: 0 <= i < |s.slots| && Seen(s.slots[i]) >= e ==> SlotIds(id)(s.slots[i]) == 0)
    && (|| Sum(s.pending, HasId(id)) == 0
        || forall i :: 0 <= i < |s.slots| ==> Seen(s.slots[i]) < e && !PastDrain(s.slots[i].pc))
  }

  /** A pump's own step: the job can come to it only from the pending queue, and it reads a new epoch
      only with empty hands. */
  lemma PumpFenced(s: State, a: Action, e: nat, id: nat)
    requires Enabled(s, a) && OnSlot(a) && PumpsOk(s) && Fenced(s, e, id)
    ensures var x := s.slots[a.i]; var y := SlotNext(x, s.pending, s.epoch, s.maxRetries, a);
            && (Seen(y) >= e ==> SlotIds(id)(y) == 0)
            && (Sum(s.pending, HasId(id)) > 0 ==>
                  Seen(y) < e && !PastDrain(y.pc) && Seen(x) < e && !PastDrain(x.pc))
  {
    var x := s.slots[a.i];
    var y := SlotNext(x, s.pending, s.epoch, s.maxRetries, a);
    PumpStep(x, s.pending, s.epoch, s.maxRetries, a);
    SlotShape(x, s.pending, s.epoch, s.maxRetries, a);
    SlotMoves(x, y, s.pending, a, id);
    SumNone<Job>(HasId(id));
    if a.Take? {
      SumRest(s.pending, HasId(id));
    }
    hide Sum, SlotNext, Seen, InPc, JobsMove, PastDrain;
  }

  lemma SlotFences(s: State, a: Action, e: nat, id: nat)
    requires Enabled(s, a) && OnSlot(a) && PumpsOk(s) && Fenced(s, e, id)
    ensures Fenced(SlotStep(s, a), e, id)
  {
    PumpFenced(s, a, e, id);
    if a.Take? {
      SumRest(s.pending, HasId(id));
    }
    hide Sum, SlotNext, Tallied, SentBy, SlotEnabled, Seen, SlotIds, PastDrain, HasId;
  }

  lemma OtherFences(s: State, a: Action, e: nat, id: nat)
    requires Enabled(s, a) && !OnSlot(a) && Fenced(s, e, id)
    ensures Fenced(Apply(s, a), e, id)
  {
    hide Apply, Enabled, SlotIds, Sum, HasId;
    OthersLighten(s, a, id);
    OthersNext(s, a);
  }

  lemma OthersNext(s: State, a: Action)
    requires Enabled(s, a)
    ensures s.next <= Apply(s, a).next
  {
    hide SlotNext, Tallied, SentBy, Keeping, Matching, Replies;
  }

  lemma FencedStep(s: State, a: Action, e: nat, id: nat)
    requires Enabled(s, a) && PumpsOk(s) && Fenced(s, e, id)
    ensures Fenced(Apply(s, a), e, id)
  {
    hide Fenced;
    if OnSlot(a) {
      SlotFences(s, a, e, id);
      hide SlotStep;
    } else {
      OtherFences(s, a, e, id);
      hide Apply;
    }
  }

  lemma {:induction false} FencedRun(s: State, run: seq<Action>, t: State, e: nat, id: nat)
    requires Reaches(s, run, t) && PumpsOk(s) && Fenced(s, e, id)
    ensures Fenced(t, e, id)
    decreases |run|
  {
    hide Apply, Enabled, PumpsOk, Fenced;
    if run != [] {
      PumpsStep(s, run[0]);
      FencedStep(s, run[0], e, id);
      FencedRun(Apply(s, run[0]), run[1..], t, e, id);
    }
  }

  /** A flusher has passed only slots whose acknowledgement has reached its epoch. */
  ghost predicate Passed(s: State, f: nat, e: nat) {
    && f < |s.flushers| && s.flushers[f].target == e
    && (s.flushers[f].Waiting? ==>
          s.flushers[f].at <= |s.slots| && forall i :: 0 <= i < s.flushers[f].at ==> s.slots[i].ack >= e)
    && (s.flushers[f].Returned? && s.flushers[f].ok ==> forall i :: 0 <= i < |s.slots| ==> s.slots[i].ack >= e)
  }

  lemma FlushersStep(s: State, a: Action, f: nat)
    requires Enabled(s, a) && f < |s.flushers|
    ensures f < |Apply(s, a).flushers|
    ensures Apply(s, a).flushers[f] == s.flushers[f] || a == CheckAck(f) || a == TimeOut(f)
  {
    hide SlotNext, Tallied, SentBy, Keeping, Matching, Replies;
  }

  lemma PassedStep(s: State, a: Action, f: nat, e: nat)
    requires Enabled(s, a) && PumpsOk(s) && Passed(s, f, e)
    ensures Passed(Apply(s, a), f, e)
  {
    PumpsStep(s, a);
    FlushersStep(s, a, f);
    if a != CheckAck(f) && a != TimeOut(f) {
      hide Apply, Enabled, PumpsOk;
    } else {
      hide PumpsOk;
    }
  }

  lemma {:induction false} PassedRun(s: State, run: seq<Action>, t: State, f: nat, e: nat)
    requires Reaches(s, run, t) && PumpsOk(s) && Passed(s, f, e)
    ensures Passed(t, f, e)
    decreases |run|
  {
    hide Apply, Enabled, PumpsOk, Passed;
    if run != [] {
      PumpsStep(s, run[0]);
      PassedStep(s, run[0], f, e);
      PassedRun(Apply(s, run[0]), run[1..], t, f, e);
    }
  }

  /** Some pump is past its drain and has yet to read the epoch. */
  ghost predicate Straddled(s: State) {
    exists i :: 0 <= i < |s.slots| && PastDrain(s.slots[i].pc)
  }

  lemma StartFences(s: State, id: nat)
    requires PumpsOk(s) && id < s.next && (Sum(s.pending, HasId(id)) == 0 || !Straddled(s))
    ensures var t := Apply(s, StartFlush);
            && PumpsOk(t) && Fenced(t, s.epoch + 1, id) && Passed(t, |s.flushers|, s.epoch + 1)
  {
    hide Sum, SlotIds;
    PumpsStep(s, StartFlush);
    assert forall i :: 0 <= i < |s.slots| ==> PumpOk(s.slots[i], s.epoch);
  }

  /** When every slot has acknowledged the epoch, job `id` is answered or with a shutdown. */
  lemma FencedOut(s: State, e: nat, id: nat)
    requires Fenced(s, e, id) && Conserved(s, id) && |s.slots| > 0
    requires forall i :: 0 <= i < |s.slots| ==> s.slots[i].ack >= e
    ensures Answered(s, id) == 1 || Sum(s.downs, DownIds(id)) == 1
  {
    assert Seen(s.slots[0]) >= e;
    SumZero(s.slots, SlotIds(id));
    hide Sum, SlotIds;
  }

  ghost predicate Reachable(s: State) {
    exists workers, maxRetries, atomicUnlink, run :: Reaches(Init(workers, maxRetries, atomicUnlink), run, s)
  }

  lemma ReachableOk(s: State, id: nat)
    requires Reachable(s)
    ensures PumpsOk(s) && |s.slots| > 0 && Conserved(s, id) && DownsOk(s)
  {
    hide Reaches, Enabled, Apply, Conserved;
    var workers, maxRetries, atomicUnlink, run :| Reaches(Init(workers, maxRetries, atomicUnlink), run, s);
    var s0 := Init(workers, maxRetries, atomicUnlink);
    assert PumpsOk(s0);
    PumpsRun(s0, run, s);
    InitConserved(workers, maxRetries, atomicUnlink, id);
    ConservedRun(s0, run, s, id);
  }

  ghost predicate ReturnedOk(t: State, f: nat) {
    f < |t.flushers| && t.flushers[f].Returned? && t.flushers[f].ok
  }

  /** The flush barrier. In any run, take a `flush` call that bumps the epoch in `s` and later returns
      Ok: a job some pump had at the bump has its answer by then (or a running shutdown has taken it).
      The same holds for a job that was only pending, if no pump was past its drain at the bump. */
  lemma FlushBarrier(s: State, run: seq<Action>, t: State, id: nat)
    requires Reachable(s) && Reaches(Apply(s, StartFlush), run, t) && ReturnedOk(t, |s.flushers|)
    requires id < s.next && (Sum(s.pending, HasId(id)) == 0 || !Straddled(s))
    ensures Answered(t, id) == 1 || Sum(t.downs, DownIds(id)) == 1
    ensures t.downs == [] ==> Answered(t, id) == 1
  {
    var s1, f, e := Apply(s, StartFlush), |s.flushers|, s.epoch + 1;
    hide Reaches, Enabled, Apply, Straddled;
    ReachableOk(s, id);
    StartFences(s, id);
    DownsStep(s, StartFlush);
    ConservedStep(s, StartFlush, id);
    hide PumpsOk, DownsOk, Fenced, Conserved;
    FencedRun(s1, run, t, e, id);
    PassedRun(s1, run, t, f, e);
    ConservedRun(s1, run, t, id);
    PumpsRun(s1, run, t);
    SlotsKept(s);
    FencedOut(t, e, id);
    SumNone<Down>(DownIds(id));
  }

  lemma SlotsKept(s: State)
    ensures Apply(s, StartFlush).slots == s.slots
  {
  }

  // ----- The answer of a flush -----

  lemma AnswerStaysNow(s: State, a: Action, f: nat)
    requires Enabled(s, a) && f < |s.flushers| && s.flushers[f].Returned?
    ensures f < |Apply(s, a).flushers| && Apply(s, a).flushers[f] == s.flushers[f]
  {
    hide SlotNext, Tallied, SentBy, Keeping, Matching, Replies;
  }

  lemma {:induction false} AnswerStays(s: State, run: seq<Action>, t: State, f: nat)
    requires Reaches(s, run, t) && f < |s.flushers| && s.flushers[f].Returned?
    ensures f < |t.flushers| && t.flushers[f] == s.flushers[f]
    decreases |run|
  {
    hide Apply, Enabled;
    if run != [] {
      AnswerStaysNow(s, run[0], f);
      AnswerStays(Apply(s, run[0]), run[1..], t, f);
    }
  }

  /** A flush that times out has returned an error, and no later acknowledgement changes that. */
  lemma TimedOutStays(s: State, f: nat, run: seq<Action>, t: State)
    requires Enabled(s, TimeOut(f)) && Reaches(Apply(s, TimeOut(f)), run, t)
    ensures f < |t.flushers| && t.flushers[f] == Returned(s.flushers[f].target, false)
  {
    AnswerStays(Apply(s, TimeOut(f)), run, t, f);
  }
}
