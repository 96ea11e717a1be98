/** How far the flush barrier reaches: a schedule that lets `flush` return Ok before a pending delete
    is answered, whenever there can be one. */
module DeleteExact {
  import opened Sums
  import opened DeletePump
  import opened DeleteLaws
  import opened DeleteBarrier

  // ----- Building runs -----

  lemma Then(s: State, a: Action, rest: seq<Action>, t: State)
    requires Enabled(s, a) && Reaches(Apply(s, a), rest, t)
    ensures Reaches(s, [a] + rest, t)
  {
    hide Enabled, Apply;
    assert ([a] + rest)[1..] == rest;
  }

  lemma {:induction false} Join(s: State, a: seq<Action>, t: State, b: seq<Action>, u: State)
    requires Reaches(s, a, t) && Reaches(t, b, u)
    ensures Reaches(s, a + b, u)
    decreases |a|
  {
    hide Enabled, Apply;
    if a == [] {
      assert a + b == b;
    } else {
      assert (a + b)[1..] == a[1..] + b;
      Join(Apply(s, a[0]), a[1..], t, b, u);
    }
  }

  /** Only slot `i` differs, as far as flushers, epochs and other pumps can tell. */
  ghost predicate Beside(s: State, t: State, i: nat) {
    && |t.slots| == |s.slots| && (forall j :: 0 <= j < |s.slots| && j != i ==> t.slots[j] == s.slots[j])
    && t.epoch == s.epoch && t.flushers == s.flushers && t.downs == s.downs && t.next == s.next
    && t.cancels == s.cancels && t.accepting == s.accepting && t.entering == s.entering
    && t.unmarked == s.unmarked && t.atomicUnlink == s.atomicUnlink
  }

  predicate OnlyPumps(run: seq<Action>) {
    forall a :: a in run ==> OnSlot(a)
  }

  lemma StepBeside(s: State, a: Action)
    requires OnSlot(a) && Enabled(s, a)
    ensures var t := Apply(s, a);
            && Beside(s, t, a.i) && t.slots[a.i] == SlotNext(s.slots[a.i], s.pending, s.epoch, s.maxRetries, a)
            && t.pending == if a.Take? then s.pending[1..] else s.pending
  {
    hide SlotNext, Tallied, SentBy;
  }

  // ----- One pump, alone -----

  /** The next step of a pump whose requests succeed. */
  function Onward(x: Slot, i: nat): Action {
    match x.pc
    case Drain => DrainDone(i)
    case Hand(_, sent) => if sent then Record(i) else Delete(i, false, {})
    case Check => CheckLedger(i)
    case FlushTop(_) => TakeBatch(i)
    case Closing(_, _) => CloseOk(i)
    case Acking(batch, _, cleared) => if batch == [] then AckDone(i) else if cleared then Answer(i) else ClearTomb(i)
    case Load => LoadEpoch(i)
    case Loaded(_) => StoreAck(i)
    case Sleep => Wake(i)
  }

  /** Steps to `Sleep` from past the drain. */
  function ToSleep(x: Slot): int {
    match x.pc
    case Check => 8 + 2 * |x.ledger|
    case FlushTop(_) => 7 + 2 * |x.ledger|
    case Closing(batch, _) => 6 + 2 * |batch|
    case Acking(batch, _, cleared) => 5 + 2 * |batch| - One(cleared)
    case Load => 3
    case Loaded(_) => 2
    case _ => 0
  }

  lemma OnwardToSleep(x: Slot, pending: seq<Job>, epoch: nat, maxRetries: nat, i: nat)
    requires PastDrain(x.pc) || x.pc.Loaded?
    ensures var a := Onward(x, i); OnSlot(a) && a.i == i && !a.Take? && SlotEnabled(x, pending == [], a)
    ensures var y := SlotNext(x, pending, epoch, maxRetries, Onward(x, i));
            && 0 <= ToSleep(y) < ToSleep(x) && y.ack >= x.ack
            && (if x.pc.Loaded? then y.pc.Sleep? && y.ack >= x.pc.seen
                else if x.pc.Load? then y.pc == Loaded(epoch) else PastDrain(y.pc))
  {
  }

  /** A pump past its drain can reach `Sleep` on its own, and has then acknowledged the epoch. */
  lemma {:induction false} Finish(s: State, i: nat) returns (run: seq<Action>, t: State)
    requires i < |s.slots| && (PastDrain(s.slots[i].pc) || (s.slots[i].pc.Loaded? && s.slots[i].pc.seen >= s.epoch))
    ensures Reaches(s, run, t) && Beside(s, t, i) && t.pending == s.pending
    ensures t.slots[i].pc.Sleep? && t.slots[i].ack >= s.epoch && OnlyPumps(run)
    decreases ToSleep(s.slots[i])
  {
    var a := Onward(s.slots[i], i);
    OnwardToSleep(s.slots[i], s.pending, s.epoch, s.maxRetries, i);
    StepBeside(s, a);
    hide Onward, SlotNext, SlotEnabled, ToSleep, Apply;
    var s' := Apply(s, a);
    if s.slots[i].pc.Loaded? {
      run, t := [], s';
    } else {
      run, t := Finish(s', i);
    }
    Then(s, a, run, t);
    run := [a] + run;
  }

  function ToCheck(x: Slot): nat {
    match x.pc
    case Hand(_, sent) => if sent then 3 else 4
    case Loaded(_) => 4
    case Sleep => 3
    case Drain => 2
    case _ => 0
  }

  lemma OnwardToCheck(x: Slot, epoch: nat, maxRetries: nat, i: nat)
    requires !PastDrain(x.pc)
    ensures var a := Onward(x, i); OnSlot(a) && a.i == i && !a.Take? && SlotEnabled(x, true, a)
    ensures var y := SlotNext(x, [], epoch, maxRetries, Onward(x, i)); PastDrain(y.pc) || ToCheck(y) < ToCheck(x)
  {
  }

  /** With nothing pending, any pump can get past its drain, and so acknowledge the epoch. */
  lemma {:induction false} Drive(s: State, i: nat) returns (run: seq<Action>, t: State)
    requires i < |s.slots| && s.pending == []
    ensures Reaches(s, run, t) && Beside(s, t, i) && t.pending == [] && t.slots[i].ack >= s.epoch
    ensures t.slots[i].pc.Sleep? && OnlyPumps(run)
    decreases if PastDrain(s.slots[i].pc) then 0 else 1 + ToCheck(s.slots[i])
  {
    if PastDrain(s.slots[i].pc) {
      run, t := Finish(s, i);
    } else {
      var a := Onward(s.slots[i], i);
      OnwardToCheck(s.slots[i], s.epoch, s.maxRetries, i);
      StepBeside(s, a);
      hide Onward, SlotNext, SlotEnabled, ToCheck, Apply, PastDrain;
      run, t := Drive(Apply(s, a), i);
      Then(s, a, run, t);
      run := [a] + run;
    }
  }

  /** A draining pump can take the whole pending queue into its ledger. */
  lemma {:induction false} Absorb(s: State, i: nat) returns (run: seq<Action>, t: State)
    requires i < |s.slots| && s.slots[i].pc.Drain?
    ensures Reaches(s, run, t) && Beside(s, t, i) && t.pending == []
    ensures t.slots[i].pc.Drain? && t.slots[i].ack == s.slots[i].ack && t.slots[i].ledger == s.slots[i].ledger + s.pending
    ensures s.slots[i].buffer <= t.slots[i].buffer && forall j :: j in s.pending ==> j.path in t.slots[i].buffer
    ensures OnlyPumps(run)
    decreases |s.pending|
  {
    if s.pending == [] {
      run, t := [], s;
      assert s.slots[i].ledger + [] == s.slots[i].ledger;
    } else {
      var s1 := Apply(s, Take(i));
      StepBeside(s, Take(i));
      var s2 := Apply(s1, Delete(i, false, {}));
      StepBeside(s1, Delete(i, false, {}));
      var s3 := Apply(s2, Record(i));
      StepBeside(s2, Record(i));
      hide Apply, Reaches;
      assert s3.slots[i].ledger + s3.pending == s.slots[i].ledger + s.pending;
      run, t := Absorb(s3, i);
      Then(s2, Record(i), run, t);
      Then(s1, Delete(i, false, {}), [Record(i)] + run, t);
      Then(s, Take(i), [Delete(i, false, {})] + ([Record(i)] + run), t);
      run := [Take(i)] + ([Delete(i, false, {})] + ([Record(i)] + run));
    }
  }

  // ----- All pumps, and the flusher -----

  /** With nothing pending, the first `n` pumps other than `keep` can acknowledge the epoch while
      `keep` stands still. */
  lemma {:induction false} DriveAll(s: State, keep: nat, n: nat) returns (run: seq<Action>, t: State)
    requires keep < |s.slots| && n <= |s.slots| && s.pending == []
    ensures Reaches(s, run, t) && t.pending == [] && |t.slots| == |s.slots| && t.slots[keep] == s.slots[keep]
    ensures t.epoch == s.epoch && t.flushers == s.flushers
    ensures forall i :: 0 <= i < n && i != keep ==> t.slots[i].ack >= s.epoch
  {
    if n == 0 {
      run, t := [], s;
    } else {
      hide Reaches;
      var before, m := DriveAll(s, keep, n - 1);
      if n - 1 == keep {
        run, t := before, m;
      } else {
        var more;
        more, t := Drive(m, n - 1);
        Join(s, before, m, more, t);
        run := before + more;
      }
    }
  }

  /** A flusher that finds every slot acknowledged returns Ok. */
  lemma {:induction false} Pass(s: State, f: nat) returns (run: seq<Action>, t: State)
    requires f < |s.flushers| && s.flushers[f].Waiting?
    requires forall i :: 0 <= i < |s.slots| ==> s.slots[i].ack >= s.flushers[f].target
    ensures Reaches(s, run, t) && t.slots == s.slots && ReturnedOk(t, f)
    decreases if s.flushers[f].at < |s.slots| then |s.slots| - s.flushers[f].at else 0
  {
    var a := CheckAck(f);
    var s' := Apply(s, a);
    if s.flushers[f].at >= |s.slots| {
      run, t := [], s';
    } else {
      run, t := Pass(s', f);
    }
    hide Apply, Enabled;
    Then(s, a, run, t);
    run := [a] + run;
  }

  /** From a state with work pending and pump `i` past its drain: that pump acknowledges the new epoch
      first, then takes all that was pending, and the others follow with nothing to do. */
  lemma EarlyReturn(s: State, i: nat) returns (run: seq<Action>, t: State)
    requires i < |s.slots| && PastDrain(s.slots[i].pc) && PumpsOk(s)
    ensures Reaches(Apply(s, StartFlush), run, t) && ReturnedOk(t, |s.flushers|)
    ensures |t.slots| == |s.slots| && s.pending <= t.slots[i].ledger
  {
    var f, s1 := |s.flushers|, Apply(s, StartFlush);
    assert s1.slots == s.slots && s1.pending == s.pending && s1.flushers[f] == Waiting(s1.epoch, 0);
    PumpsStep(s, StartFlush);
    hide Apply, Enabled, Reaches;
    var r1, s2 := Finish(s1, i);
    PumpsRun(s1, r1, s2);
    assert PumpOk(s2.slots[i], s2.epoch);
    StepBeside(s2, Wake(i));
    WakeUp(s2, i);
    var s3 := Apply(s2, Wake(i));
    var r3, s4 := Absorb(s3, i);
    var r4, s5 := DriveAll(s4, i, |s4.slots|);
    var r5;
    r5, t := Pass(s5, f);
    Join(s4, r4, s5, r5, t);
    Join(s3, r3, s4, r4 + r5, t);
    Then(s2, Wake(i), r3 + (r4 + r5), t);
    Join(s1, r1, s2, [Wake(i)] + (r3 + (r4 + r5)), t);
    run := r1 + ([Wake(i)] + (r3 + (r4 + r5)));
    assert s4.slots[i].ledger == s.pending;
  }

  lemma WakeUp(s: State, i: nat)
    requires i < |s.slots| && s.slots[i].pc.Sleep? && PumpOk(s.slots[i], s.epoch)
    ensures Enabled(s, Wake(i)) && SlotNext(s.slots[i], s.pending, s.epoch, s.maxRetries, Wake(i)).pc == Drain
    ensures SlotNext(s.slots[i], s.pending, s.epoch, s.maxRetries, Wake(i)).ledger == []
    ensures SlotNext(s.slots[i], s.pending, s.epoch, s.maxRetries, Wake(i)).ack == s.slots[i].ack
  {
  }

  // ----- The exact condition -----

  /** Whatever happens after a `flush` bumps the epoch in `s`, by the time it returns Ok every job
      accepted before the bump is answered or with a running shutdown. */
  ghost predicate BarrierHolds(s: State) {
    forall run, t, id ::
      Reaches(Apply(s, StartFlush), run, t) && ReturnedOk(t, |s.flushers|) && 0 <= id < s.next ==>
      Answered(t, id) == 1 || Sum(t.downs, DownIds(id)) == 1
  }

  lemma PendingUnanswered(s: State, run: seq<Action>, t: State, i: nat)
    requires Reachable(s) && Reaches(Apply(s, StartFlush), run, t) && s.pending != []
    requires i < |t.slots| && s.pending <= t.slots[i].ledger
    ensures s.pending[0].id < s.next && Answered(t, s.pending[0].id) == 0 && Sum(t.downs, DownIds(s.pending[0].id)) == 0
  {
    var j := s.pending[0];
    assert j in t.slots[i].ledger;
    hide Reaches, Enabled, Apply;
    ReachableOk(s, j.id);
    MemberCounts(s.pending, j);
    DownsStep(s, StartFlush);
    ConservedStep(s, StartFlush, j.id);
    ConservedRun(Apply(s, StartFlush), run, t, j.id);
    LedgerCounts(t.slots[i], j);
    SumAtLeast(t.slots, SlotIds(j.id), i);
    hide Sum, SlotIds, DownsOk, PumpsOk, Reachable;
  }

  lemma LedgerCounts(x: Slot, j: Job)
    requires j in x.ledger
    ensures SlotIds(j.id)(x) > 0
  {
    MemberCounts(x.ledger, j);
  }

  /** In every reachable state, the barrier of a `flush` that starts there covers all accepted jobs if
      and only if nothing is pending or no pump is past its drain and yet to read the epoch. */
  lemma BarrierExact(s: State)
    requires Reachable(s)
    ensures BarrierHolds(s) <==> s.pending == [] || !Straddled(s)
  {
    assert Enabled(s, StartFlush);
    hide Reaches, Enabled, Apply;
    if s.pending == [] || !Straddled(s) {
      forall run, t, id | Reaches(Apply(s, StartFlush), run, t) && ReturnedOk(t, |s.flushers|) && 0 <= id < s.next
        ensures Answered(t, id) == 1 || Sum(t.downs, DownIds(id)) == 1
      {
        SumNone<Job>(HasId(id));
        FlushBarrier(s, run, t, id);
      }
    } else {
      var i :| 0 <= i < |s.slots| && PastDrain(s.slots[i].pc);
      ReachableOk(s, 0);
      var run, t := EarlyReturn(s, i);
      PendingUnanswered(s, run, t, i);
    }
  }

  /** A strict delete, `enqueue` and then `flush`, can return Ok with its own job unanswered, however
      many pumps there are: it is enough that one found the queue empty just before the push. */
  lemma StrictDeleteUnanswered(workers: nat, maxRetries: nat, atomicUnlink: bool, p: Path)
    returns (s: State, run: seq<Action>, t: State)
    ensures Reachable(s) && s.pending == [Job(0, p)] && s.next == 1
    ensures Reaches(Apply(s, StartFlush), run, t) && ReturnedOk(t, |s.flushers|) && Answered(t, 0) == 0
  {
    var s0 := Init(workers, maxRetries, atomicUnlink);
    var s1 := Apply(s0, DrainDone(0));
    var s2 := Apply(s1, Admit(p, false));
    s := Apply(s2, Push(0));
    assert s.pending == [Job(0, p)] && s.slots[0].pc == Check;
    hide Apply;
    assert Reaches(s, [], s);
    hide Reaches;
    Then(s2, Push(0), [], s);
    Then(s1, Admit(p, false), [Push(0)] + [], s);
    Then(s0, DrainDone(0), [Admit(p, false)] + ([Push(0)] + []), s);
    assert Reachable(s);
    ReachableOk(s, 0);
    run, t := EarlyReturn(s, 0);
    PendingUnanswered(s, run, t, 0);
  }
}
