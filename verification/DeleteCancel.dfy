/** What `cancel_pending` protects: an object created again after its delete was cancelled. */
module DeleteCancel {
  import opened Sums
  import opened DeletePump
  import opened DeleteLaws
  import opened DeleteBarrier
  import opened DeleteExact

  predicate NoneFor(jobs: seq<Job>, p: Path) {
    forall j :: j in jobs ==> j.path != p
  }

  /** A pump about to hand the key to opendal. */
  predicate Unsent(x: Slot, p: Path) {
    x.pc.Hand? && !x.pc.sent && x.pc.job.path == p
  }

  predicate SlotSafe(x: Slot, p: Path) {
    p !in x.buffer && !Unsent(x, p)
  }

  /** No delete of the path is pending or about to be pushed or handed to opendal, and no opendal buffer
      holds the key. Jobs of the path in ledgers and batches do not matter. */
  ghost predicate Safe(s: State, p: Path) {
    && NoneFor(s.pending, p) && (forall r :: r in s.entering ==> r.path != p)
    && (forall i :: 0 <= i < |s.slots| ==> SlotSafe(s.slots[i], p))
  }

  // ----- A safe object stays -----

  lemma SlotStaysSafe(x: Slot, pending: seq<Job>, epoch: nat, maxRetries: nat, a: Action, p: Path)
    requires OnSlot(a) && SlotEnabled(x, pending == [], a) && SlotSafe(x, p) && NoneFor(pending, p)
    ensures SlotSafe(SlotNext(x, pending, epoch, maxRetries, a), p) && p !in SentBy(x, a)
  {
  }

  lemma {:induction false} KeptAreOld(jobs: seq<Job>, p: Path)
    ensures forall j :: j in Keeping(jobs, p) ==> j in jobs
    ensures NoneFor(Keeping(jobs, p), p)
  {
    if jobs != [] {
      KeptAreOld(jobs[1..], p);
    }
  }

  lemma PumpKeepsSafe(s: State, a: Action, p: Path)
    requires Enabled(s, a) && OnSlot(a) && Safe(s, p)
    ensures Safe(Apply(s, a), p) && (p in s.backend ==> p in Apply(s, a).backend)
  {
    SlotStaysSafe(s.slots[a.i], s.pending, s.epoch, s.maxRetries, a, p);
    RestIsClear(s.pending, p);
    StepBeside(s, a);
    StepBackend(s, a);
    hide SlotNext, SentBy, SlotEnabled, SlotSafe, NoneFor, Apply;
  }

  lemma StepBackend(s: State, a: Action)
    requires Enabled(s, a) && OnSlot(a)
    ensures Apply(s, a).backend == s.backend - SentBy(s.slots[a.i], a)
  {
    hide SlotNext, SentBy, SlotEnabled, Tallied;
  }

  lemma RestIsClear(jobs: seq<Job>, p: Path)
    ensures NoneFor(jobs, p) && jobs != [] ==> NoneFor(jobs[1..], p)
  {
  }

  lemma OtherKeepsSafe(s: State, a: Action, p: Path)
    requires Enabled(s, a) && !OnSlot(a) && Safe(s, p) && (a.Admit? ==> a.p != p)
    ensures Safe(Apply(s, a), p) && (p in s.backend ==> p in Apply(s, a).backend)
  {
    hide Matching, Replies, Keeping;
    if a.Scan? {
      ScanKeepsSafe(s, a.c, p);
      hide ScanStep, Safe;
    } else if a.DownStep? {
      FailKeepsSafe(s, a.d, a.closed, p);
      hide FailStep, Safe;
    } else {
      hide SlotSafe;
    }
  }

  lemma ScanKeepsSafe(s: State, c: nat, p: Path)
    requires c < |s.cancels| && Safe(s, p)
    ensures Safe(ScanStep(s, c), p) && ScanStep(s, c).backend == s.backend
  {
    hide Matching, Replies, Keeping;
    KeptAreOld(s.pending, s.cancels[c].path);
  }

  lemma FailKeepsSafe(s: State, d: nat, closed: set<Path>, p: Path)
    requires d < |s.downs| && s.downs[d].at < |s.slots| && FailEnabled(s, d, closed) && Safe(s, p)
    ensures Safe(FailStep(s, d, closed), p) && (p in s.backend ==> p in FailStep(s, d, closed).backend)
  {
  }

  predicate NeverAdmits(run: seq<Action>, p: Path) {
    forall a :: a in run && a.Admit? ==> a.p != p
  }

  lemma {:induction false} SafeRun(s: State, run: seq<Action>, t: State, p: Path)
    requires Reaches(s, run, t) && Safe(s, p) && NeverAdmits(run, p) && p in s.backend
    ensures p in t.backend
    decreases |run|
  {
    if run != [] {
      assert run[0] in run;
      hide Apply, Enabled, Safe;
      if OnSlot(run[0]) {
        PumpKeepsSafe(s, run[0], p);
      } else {
        OtherKeepsSafe(s, run[0], p);
      }
      SafeRun(Apply(s, run[0]), run[1..], t, p);
    }
  }

  // ----- A buffered key: the object can go -----

  /** The object is gone, or slot `i` still has its key to send. */
  ghost predicate Doomed(s: State, i: nat, p: Path) {
    i < |s.slots| && (p in s.slots[i].buffer || p !in s.backend)
  }

  lemma SlotDoomed(x: Slot, pending: seq<Job>, epoch: nat, maxRetries: nat, a: Action, p: Path)
    requires OnSlot(a) && SlotEnabled(x, pending == [], a) && p in x.buffer
    ensures p in SlotNext(x, pending, epoch, maxRetries, a).buffer || p in SentBy(x, a)
  {
  }

  lemma DoomedStep(s: State, a: Action, i: nat, p: Path)
    requires Enabled(s, a) && a != Create(p) && Doomed(s, i, p)
    ensures Doomed(Apply(s, a), i, p)
  {
    if OnSlot(a) {
      if p in s.slots[i].buffer && a.i == i {
        SlotDoomed(s.slots[i], s.pending, s.epoch, s.maxRetries, a, p);
      }
      StepBeside(s, a);
      StepBackend(s, a);
      hide SlotNext, SentBy, SlotEnabled, Apply;
    } else {
      hide Keeping, Matching, Replies;
    }
  }

  lemma {:induction false} DoomedRun(s: State, run: seq<Action>, t: State, i: nat, p: Path)
    requires Reaches(s, run, t) && OnlyPumps(run) && Doomed(s, i, p)
    ensures Doomed(t, i, p)
    decreases |run|
  {
    if run != [] {
      assert run[0] in run;
      hide Apply, Enabled, Doomed;
      DoomedStep(s, run[0], i, p);
      DoomedRun(Apply(s, run[0]), run[1..], t, i, p);
    }
  }

  function ToDrain(x: Slot): nat {
    match x.pc
    case Hand(_, sent) => if sent then 1 else 2
    case Drain => 0
    case Sleep => 1
    case Loaded(_) => 2
    case _ => 3
  }

  /** Any pump can come back to its drain on its own. */
  lemma {:induction false} BackToDrain(s: State, i: nat) returns (run: seq<Action>, t: State)
    requires i < |s.slots|
    ensures Reaches(s, run, t) && Beside(s, t, i) && t.pending == s.pending && t.slots[i].pc.Drain? && OnlyPumps(run)
    decreases ToDrain(s.slots[i])
  {
    var x := s.slots[i];
    if x.pc.Drain? {
      run, t := [], s;
    } else if PastDrain(x.pc) {
      var early, m := Finish(s, i);
      run, t := BackToDrain(m, i);
      Join(s, early, m, run, t);
      run := early + run;
    } else {
      var a := Onward(x, i);
      StepBeside(s, a);
      hide Apply, Reaches;
      run, t := BackToDrain(Apply(s, a), i);
      Then(s, a, run, t);
      run := [a] + run;
    }
  }

  /** With a job in its ledger and nothing pending, a draining pump closes: what it has buffered is
      deleted. */
  lemma CloseNow(s: State, i: nat, p: Path) returns (run: seq<Action>, t: State)
    requires i < |s.slots| && s.slots[i].pc.Drain? && s.slots[i].ledger != [] && s.pending == [] && Doomed(s, i, p)
    ensures Reaches(s, run, t) && OnlyPumps(run) && p !in t.backend
  {
    var s1 := Apply(s, DrainDone(i));
    StepBeside(s, DrainDone(i));
    var s2 := Apply(s1, CheckLedger(i));
    StepBeside(s1, CheckLedger(i));
    var s3 := Apply(s2, TakeBatch(i));
    StepBeside(s2, TakeBatch(i));
    assert Enabled(s3, CloseOk(i));
    t := Apply(s3, CloseOk(i));
    Closed(s3, i);
    hide Apply;
    DoomedStep(s, DrainDone(i), i, p);
    DoomedStep(s1, CheckLedger(i), i, p);
    DoomedStep(s2, TakeBatch(i), i, p);
    assert Reaches(t, [], t);
    hide Reaches;
    Then(s3, CloseOk(i), [], t);
    Then(s2, TakeBatch(i), [CloseOk(i)] + [], t);
    Then(s1, CheckLedger(i), [TakeBatch(i)] + ([CloseOk(i)] + []), t);
    Then(s, DrainDone(i), [CheckLedger(i)] + ([TakeBatch(i)] + ([CloseOk(i)] + [])), t);
    run := [DrainDone(i)] + ([CheckLedger(i)] + ([TakeBatch(i)] + ([CloseOk(i)] + [])));
  }

  lemma Closed(s: State, i: nat)
    requires Enabled(s, CloseOk(i))
    ensures Apply(s, CloseOk(i)).backend == s.backend - s.slots[i].buffer
  {
  }

  /** A delete of some other path, admitted and pushed. */
  lemma PushOther(s: State, q: Path) returns (run: seq<Action>, t: State)
    requires s.accepting
    ensures Reaches(s, run, t) && run == [Admit(q, false)] + ([Push(|s.entering|)] + [])
    ensures t.slots == s.slots && t.backend == s.backend && t.pending != []
  {
    var s1 := Apply(s, Admit(q, false));
    t := Apply(s1, Push(|s.entering|));
    assert Enabled(s1, Push(|s.entering|));
    assert t.slots == s.slots && t.backend == s.backend && t.pending != [];
    hide Apply;
    assert Reaches(t, [], t);
    hide Reaches, Enabled;
    Then(s1, Push(|s.entering|), [], t);
    Then(s, Admit(q, false), [Push(|s.entering|)] + [], t);
    run := [Admit(q, false)] + ([Push(|s.entering|)] + []);
  }

  /** A delete of another path that reaches the slot and is flushed takes the buffered key with it: there is such
      a run from every state with a doomed key. */
  lemma BufferedKeyGoes(s: State, i: nat, p: Path) returns (run: seq<Action>, t: State)
    requires s.accepting && Doomed(s, i, p)
    ensures Reaches(s, run, t) && NeverAdmits(run, p) && p !in t.backend
  {
    hide Reaches, Apply, Enabled;
    var r1, s1 := BackToDrain(s, i);
    DoomedRun(s, r1, s1, i, p);
    var q := p + ['x'];
    var r2, s2 := PushOther(s1, q);
    var r3, s3 := Absorb(s2, i);
    DoomedRun(s2, r3, s3, i, p);
    var r4;
    r4, t := CloseNow(s3, i, p);
    Join(s2, r3, s3, r4, t);
    Join(s1, r2, s2, r3 + r4, t);
    Join(s, r1, s1, r2 + (r3 + r4), t);
    run := r1 + (r2 + (r3 + r4));
  }

  /** A pending job of the path is taken, sent and closed. */
  lemma PendingKeyGoes(s: State, p: Path) returns (run: seq<Action>, t: State)
    requires s.slots != [] && !NoneFor(s.pending, p)
    ensures Reaches(s, run, t) && NeverAdmits(run, p) && p !in t.backend
  {
    hide Reaches, Apply, Enabled;
    var j :| j in s.pending && j.path == p;
    var r1, s1 := BackToDrain(s, 0);
    var r2, s2 := Absorb(s1, 0);
    assert p in s2.slots[0].buffer;
    var r3;
    r3, t := CloseNow(s2, 0, p);
    Join(s1, r2, s2, r3, t);
    Join(s, r1, s1, r2 + r3, t);
    run := r1 + (r2 + r3);
  }

  // ----- A shutdown closes every buffer -----

  /** One step of shutdown `d` in a run that dooms the object. */
  lemma DownOn(s: State, d: nat, closed: set<Path>, i: nat, p: Path)
    requires Enabled(s, DownStep(d, closed)) && Doomed(s, i, p)
    ensures var t := Apply(s, DownStep(d, closed));
            && |t.slots| == |s.slots| && |t.downs| == |s.downs| && Doomed(t, i, p)
            && t.downs[d] == FailStep(s, d, closed).downs[d]
  {
    DoomedStep(s, DownStep(d, closed), i, p);
  }

  /** A shutdown can fail all the jobs it holds for one slot and turn to the next. */
  lemma {:induction false} FailAll(s: State, d: nat, i: nat, p: Path) returns (run: seq<Action>, t: State)
    requires d < |s.downs| && s.downs[d].at < |s.slots| && s.downs[d].stage.Failing? && Doomed(s, i, p)
    ensures Reaches(s, run, t) && NeverAdmits(run, p) && Doomed(t, i, p) && |t.slots| == |s.slots|
    ensures |t.downs| == |s.downs| && t.downs[d] == Down(s.downs[d].at + 1, CloseBuffer, [], 0)
    decreases |s.downs[d].jobs|, if s.downs[d].stage.cleared then 0 else 1
  {
    var a := DownStep(d, {});
    DownOn(s, d, {}, i, p);
    if s.downs[d].jobs == [] {
      run, t := [], Apply(s, a);
    } else {
      run, t := FailAll(Apply(s, a), d, i, p);
    }
    hide Apply, Doomed, FailStep;
    Then(s, a, run, t);
    run := [a] + run;
  }

  /** A shutdown can pass slot `at` without closing its buffer. */
  lemma {:induction false} PassSlot(s: State, d: nat, i: nat, p: Path) returns (run: seq<Action>, t: State)
    requires d < |s.downs| && s.downs[d].at < |s.slots| && !s.downs[d].stage.Failing? && Doomed(s, i, p)
    ensures Reaches(s, run, t) && NeverAdmits(run, p) && Doomed(t, i, p) && |t.slots| == |s.slots|
    ensures |t.downs| == |s.downs| && t.downs[d] == Down(s.downs[d].at + 1, CloseBuffer, [], 0)
    decreases if s.downs[d].stage.CloseBuffer? then 2 else if s.downs[d].stage.TakePending? then 1 else 0,
              One(s.slots[s.downs[d].at].pc.Hand?)
  {
    var w := s.downs[d];
    var a := if w.stage.CloseBuffer? && s.slots[w.at].pc.Hand? && s.slots[w.at].pc.sent then Record(w.at) else DownStep(d, {});
    if a.Record? {
      StepBeside(s, a);
      DoomedStep(s, a, i, p);
      hide Apply, Doomed;
      run, t := PassSlot(Apply(s, a), d, i, p);
    } else {
      DownOn(s, d, {}, i, p);
      hide Apply, Doomed;
      if w.stage.TakeLedger? {
        run, t := FailAll(Apply(s, a), d, i, p);
      } else {
        run, t := PassSlot(Apply(s, a), d, i, p);
      }
    }
    hide Reaches;
    Then(s, a, run, t);
    run := [a] + run;
  }

  /** A shutdown can reach slot `i` and close its buffer. */
  lemma {:induction false} ReachSlot(s: State, d: nat, i: nat, p: Path) returns (run: seq<Action>, t: State)
    requires d < |s.downs| && s.downs[d].at <= i < |s.slots| && s.downs[d].stage.CloseBuffer? && Doomed(s, i, p)
    ensures Reaches(s, run, t) && NeverAdmits(run, p) && p !in t.backend
    decreases i - s.downs[d].at, One(s.slots[s.downs[d].at].pc.Hand?)
  {
    var w := s.downs[d];
    if w.at < i {
      var early, m := PassSlot(s, d, i, p);
      hide Reaches, Doomed;
      run, t := ReachSlot(m, d, i, p);
      Join(s, early, m, run, t);
      run := early + run;
    } else if s.slots[i].pc.Hand? && s.slots[i].pc.sent {
      var a := Record(i);
      StepBeside(s, a);
      DoomedStep(s, a, i, p);
      hide Apply, Reaches, Doomed;
      run, t := ReachSlot(Apply(s, a), d, i, p);
      Then(s, a, run, t);
      run := [a] + run;
    } else {
      var a := DownStep(d, s.slots[i].buffer);
      t := Apply(s, a);
      assert Reaches(t, [], t);
      hide Apply, Reaches;
      Then(s, a, [], t);
      run := [a] + [];
    }
  }

  lemma ShutdownSends(s: State, i: nat, p: Path) returns (run: seq<Action>, t: State)
    requires Doomed(s, i, p)
    ensures Reaches(s, run, t) && NeverAdmits(run, p) && p !in t.backend
  {
    var s1 := Apply(s, StartShutdown);
    DoomedStep(s, StartShutdown, i, p);
    run, t := ReachSlot(s1, |s.downs|, i, p);
    hide Apply, Reaches;
    Then(s, StartShutdown, run, t);
    run := [StartShutdown] + run;
  }

  // ----- The exact condition -----

  /** An object created in `s` survives every run in which its path is not deleted again. */
  ghost predicate Protected(s: State, p: Path) {
    forall run, t :: Reaches(Apply(s, Create(p)), run, t) && NeverAdmits(run, p) ==> p in t.backend
  }

  lemma Created(s: State, p: Path)
    ensures Enabled(s, Create(p))
    ensures var t := Apply(s, Create(p));
            && t.backend == s.backend + {p} && t.slots == s.slots && t.pending == s.pending
            && t.entering == s.entering && t.accepting == s.accepting
  {
  }

  /** If the path is not safe, the object can be deleted. */
  lemma UnsafeGoes(s: State, p: Path) returns (run: seq<Action>, t: State)
    requires s.slots != [] && !Safe(s, p)
    ensures Reaches(s, run, t) && NeverAdmits(run, p) && p !in t.backend
  {
    if !NoneFor(s.pending, p) {
      run, t := PendingKeyGoes(s, p);
    } else if r :| r in s.entering && r.path == p {
      var k :| 0 <= k < |s.entering| && s.entering[k] == r;
      var s1 := Apply(s, Push(k));
      assert s1.pending[|s.pending|] == Job(s.next, p) && s1.slots == s.slots;
      hide Apply, Reaches;
      run, t := PendingKeyGoes(s1, p);
      Then(s, Push(k), run, t);
      run := [Push(k)] + run;
    } else {
      var i :| 0 <= i < |s.slots| && !SlotSafe(s.slots[i], p);
      if p in s.slots[i].buffer {
        run, t := ShutdownSends(s, i, p);
      } else {
        var a := Delete(i, false, {});
        StepBeside(s, a);
        hide Apply, Reaches;
        run, t := ShutdownSends(Apply(s, a), i, p);
        Then(s, a, run, t);
        run := [a] + run;
      }
    }
  }

  /** Creating an object is safe if and only if no delete of its path is pending, about to be pushed, or in
      a pump's hand before it reaches opendal, and no slot's opendal buffer holds the key. */
  lemma CancelProtectsExactly(s: State, p: Path)
    requires s.slots != []
    ensures Protected(s, p) <==> Safe(s, p)
  {
    Created(s, p);
    hide Reaches, Apply, Enabled;
    var s1 := Apply(s, Create(p));
    assert Safe(s1, p) <==> Safe(s, p);
    if Safe(s, p) {
      hide Safe;
      forall run, t | Reaches(s1, run, t) && NeverAdmits(run, p) ensures p in t.backend {
        SafeRun(s1, run, t, p);
      }
    } else {
      hide Safe;
      var run, t := UnsafeGoes(s1, p);
    }
  }

  // ----- What a cancel leaves -----

  /** The jobs of the path in a pump's hand or batch. */
  function HeldBy(x: Slot, p: Path): set<Job> {
    set j | j in InPc(x.pc) && j.path == p
  }

  /** Where cancel `c` is in the list after a step. */
  function IndexAfter(s: State, a: Action, c: nat): nat {
    if a.Scan? && a.c < c < |s.cancels| && s.cancels[a.c].at > |s.slots| then c - 1 else c
  }

  /** A step that looks at the ledger of a slot for cancel `c` misses what the pump holds. */
  function MissedNow(s: State, a: Action, c: nat, p: Path): set<Job>
    requires c < |s.cancels|
  {
    if a == Scan(c) && 1 <= s.cancels[c].at <= |s.slots| then HeldBy(s.slots[s.cancels[c].at - 1], p) else {}
  }

  predicate Ends(s: State, a: Action, c: nat) {
    a == Scan(c) && c < |s.cancels| && s.cancels[c].at > |s.slots|
  }

  /** A run in which cancel `c` does not end and no job of its path is pushed. */
  ghost predicate During(s: State, run: seq<Action>, c: nat, p: Path)
    decreases |run|
  {
    && c < |s.cancels| && s.cancels[c].path == p
    && (run == [] || (&& Enabled(s, run[0]) && !Ends(s, run[0], c) && !(run[0].Push? && s.entering[run[0].k].path == p)
                      && During(Apply(s, run[0]), run[1..], IndexAfter(s, run[0], c), p)))
  }

  ghost function Missed(s: State, run: seq<Action>, c: nat, p: Path): set<Job>
    requires During(s, run, c, p)
    decreases |run|
  {
    if run == [] then {}
    else MissedNow(s, run[0], c, p) + Missed(Apply(s, run[0]), run[1..], IndexAfter(s, run[0], c), p)
  }

  ghost function CancelAt(s: State, run: seq<Action>, c: nat, p: Path): nat
    requires During(s, run, c, p)
    decreases |run|
  {
    if run == [] then s.cancels[c].at else CancelAt(Apply(s, run[0]), run[1..], IndexAfter(s, run[0], c), p)
  }

  /** Every job of the path at the slot is among `missed`. */
  ghost predicate OnlyMissed(x: Slot, p: Path, missed: set<Job>) {
    forall j :: (j in InPc(x.pc) || j in x.ledger) && j.path == p ==> j in missed
  }

  /** Past the pending queue none of the path is pending, and at scanned slots only missed jobs are left. */
  ghost predicate Scanned(s: State, at: nat, p: Path, missed: set<Job>) {
    && (at >= 1 ==> NoneFor(s.pending, p))
    && forall i :: 0 <= i < |s.slots| && i + 1 < at ==> OnlyMissed(s.slots[i], p, missed)
  }

  lemma SlotOnlyMissed(x: Slot, y: Slot, pending: seq<Job>, a: Action, p: Path, missed: set<Job>)
    requires JobsMove(x, y, pending, a) && OnlyMissed(x, p, missed) && NoneFor(pending, p)
    ensures OnlyMissed(y, p, missed)
  {
    hide InPc;
  }

  lemma PumpScanned(s: State, a: Action, at: nat, p: Path, missed: set<Job>)
    requires Enabled(s, a) && OnSlot(a) && Scanned(s, at, p, missed)
    ensures Scanned(Apply(s, a), at, p, missed)
  {
    var x := s.slots[a.i];
    SlotShape(x, s.pending, s.epoch, s.maxRetries, a);
    StepBeside(s, a);
    RestIsClear(s.pending, p);
    hide Apply, SlotNext, OnlyMissed, NoneFor, JobsMove, SlotEnabled;
    if a.i + 1 < at {
      SlotOnlyMissed(x, Apply(s, a).slots[a.i], s.pending, a, p, missed);
    }
  }

  lemma OwnScan(s: State, c: nat, p: Path, missed: set<Job>)
    requires c < |s.cancels| && s.cancels[c].path == p && s.cancels[c].at <= |s.slots|
    requires Scanned(s, s.cancels[c].at, p, missed)
    ensures var t := ScanStep(s, c);
            && |t.cancels| == |s.cancels| && t.cancels[c] == Cancel(p, s.cancels[c].at + 1)
            && Scanned(t, s.cancels[c].at + 1, p, missed + MissedNow(s, Scan(c), c, p))
  {
    hide Matching, Replies, Keeping, InPc;
    var at, t := s.cancels[c].at, ScanStep(s, c);
    KeptAreOld(if at == 0 then s.pending else s.slots[at - 1].ledger, p);
    forall i | 0 <= i < |t.slots| && i + 1 < at + 1 ensures OnlyMissed(t.slots[i], p, missed + MissedNow(s, Scan(c), c, p)) {
      if i + 1 < at {
        assert OnlyMissed(s.slots[i], p, missed);
      }
    }
  }

  lemma OtherScan(s: State, e: nat, at: nat, p: Path, missed: set<Job>)
    requires e < |s.cancels| && Scanned(s, at, p, missed)
    ensures Scanned(ScanStep(s, e), at, p, missed)
  {
    hide Matching, Replies, Keeping, InPc;
    var k, t := s.cancels[e], ScanStep(s, e);
    KeptAreOld(if 1 <= k.at <= |s.slots| then s.slots[k.at - 1].ledger else s.pending, k.path);
    forall i | 0 <= i < |t.slots| && i + 1 < at ensures OnlyMissed(t.slots[i], p, missed) {
      assert OnlyMissed(s.slots[i], p, missed);
    }
  }

  lemma DownScanned(s: State, d: nat, closed: set<Path>, at: nat, p: Path, missed: set<Job>)
    requires d < |s.downs| && s.downs[d].at < |s.slots| && Scanned(s, at, p, missed)
    ensures Scanned(FailStep(s, d, closed), at, p, missed) && FailStep(s, d, closed).cancels == s.cancels
  {
    hide InPc;
    var t := FailStep(s, d, closed);
    forall i | 0 <= i < |t.slots| && i + 1 < at ensures OnlyMissed(t.slots[i], p, missed) {
      assert OnlyMissed(s.slots[i], p, missed);
    }
  }

  lemma ScanIndex(s: State, e: nat, c: nat)
    requires e < |s.cancels| && c < |s.cancels| && e != c
    ensures var c', t := IndexAfter(s, Scan(e), c), ScanStep(s, e); c' < |t.cancels| && t.cancels[c'] == s.cancels[c]
  {
    hide Matching, Replies, Keeping;
  }

  lemma CancelsKept(s: State, a: Action, c: nat)
    requires Enabled(s, a) && !a.Scan? && c < |s.cancels|
    ensures c < |Apply(s, a).cancels| && Apply(s, a).cancels[c] == s.cancels[c]
  {
    hide SlotNext, Tallied, SentBy;
  }

  lemma ScannedStep(s: State, a: Action, c: nat, p: Path, missed: set<Job>)
    requires Enabled(s, a) && c < |s.cancels| && s.cancels[c].path == p && !Ends(s, a, c)
    requires !(a.Push? && s.entering[a.k].path == p) && Scanned(s, s.cancels[c].at, p, missed)
    ensures var c', t := IndexAfter(s, a, c), Apply(s, a);
            && c' < |t.cancels| && t.cancels[c'].path == p
            && Scanned(t, t.cancels[c'].at, p, missed + MissedNow(s, a, c, p))
  {
    var at := s.cancels[c].at;
    hide Scanned;
    if a == Scan(c) {
      OwnScan(s, c, p, missed);
      hide ScanStep;
    } else if a.Scan? {
      ScanIndex(s, a.c, c);
      OtherScan(s, a.c, at, p, missed);
      assert missed + {} == missed;
      hide ScanStep;
    } else {
      CancelsKept(s, a, c);
      assert missed + {} == missed;
      if OnSlot(a) {
        PumpScanned(s, a, at, p, missed);
        hide Apply;
      } else if a.DownStep? {
        DownScanned(s, a.d, a.closed, at, p, missed);
        hide FailStep;
      } else {
        StillScanned(s, a, at, p, missed);
        hide Apply;
      }
    }
  }

  lemma StillScanned(s: State, a: Action, at: nat, p: Path, missed: set<Job>)
    requires Enabled(s, a) && !OnSlot(a) && !a.Scan? && !a.DownStep? && Scanned(s, at, p, missed)
    requires !(a.Push? && s.entering[a.k].path == p)
    ensures Scanned(Apply(s, a), at, p, missed)
  {
    hide OnlyMissed;
  }

  lemma {:induction false} CancelRun(s: State, run: seq<Action>, t: State, c: nat, p: Path, missed: set<Job>)
    requires Reaches(s, run, t) && During(s, run, c, p) && Scanned(s, s.cancels[c].at, p, missed)
    ensures Scanned(t, CancelAt(s, run, c, p), p, missed + Missed(s, run, c, p))
    decreases |run|
  {
    if run == [] {
      assert missed + {} == missed;
    } else {
      hide Apply, Enabled, Scanned, MissedNow, IndexAfter, Ends;
      ScannedStep(s, run[0], c, p, missed);
      var c', now := IndexAfter(s, run[0], c), MissedNow(s, run[0], c, p);
      CancelRun(Apply(s, run[0]), run[1..], t, c', p, missed + now);
      var later := Missed(Apply(s, run[0]), run[1..], c', p);
      assert missed + now + later == missed + (now + later);
    }
  }

  /** A cancel that has been through the pending queue and every ledger, with no new job of the path pushed
      meanwhile, leaves none pending, and with the pumps only jobs that a pump had in its hand or batch
      when its ledger was scanned. */
  lemma FinishedCancelLeaves(s: State, run: seq<Action>, t: State, c: nat, p: Path, i: nat, j: Job)
    requires c < |s.cancels| && s.cancels[c] == Cancel(p, 0)
    requires Reaches(s, run, t) && During(s, run, c, p) && CancelAt(s, run, c, p) > |t.slots|
    ensures NoneFor(t.pending, p)
    ensures i < |t.slots| && (j in InPc(t.slots[i].pc) || j in t.slots[i].ledger) && j.path == p ==> j in Missed(s, run, c, p)
  {
    CancelRun(s, run, t, c, p, {});
    assert {} + Missed(s, run, c, p) == Missed(s, run, c, p);
    hide InPc, Reaches, During, Missed, CancelAt;
    assert i < |t.slots| ==> OnlyMissed(t.slots[i], p, Missed(s, run, c, p));
  }

  // ----- A cancel that leaves its key behind -----

  /** No job of the path is left in any queue, ledger, hand or batch. */
  ghost predicate Clear(s: State, p: Path) {
    && NoneFor(s.pending, p) && s.entering == []
    && forall i :: 0 <= i < |s.slots| ==> OnlyMissed(s.slots[i], p, {})
  }

  predicate Goes(s: State, a: Action, t: State) {
    Enabled(s, a) && Apply(s, a) == t
  }

  /** A state with one pump, no flush and no shutdown. */
  function Solo(x: Slot, pending: seq<Job>, entering: seq<Request>, cancels: seq<Cancel>, log: seq<Reply>,
                next: nat, tombs: set<Path>, maxRetries: nat): State {
    State([x], pending, [], log, next, cancels, tombs, 0, [], Tally(0, 0, 0, 0), true, entering, [], {}, maxRetries, true)
  }

  lemma SoloStart(maxRetries: nat)
    ensures Init(1, maxRetries, true) == Solo(Slot(Drain, [], 0, {}), [], [], [], [], 0, {}, maxRetries)
  {
  }

  lemma SoloUnlink(p: Path, r: nat)
    ensures Goes(Solo(Slot(Drain, [], 0, {}), [], [], [], [], 0, {}, r), Admit(p, true),
                 Solo(Slot(Drain, [], 0, {}), [], [Request(p, true)], [], [], 0, {}, r))
    ensures Goes(Solo(Slot(Drain, [], 0, {}), [], [Request(p, true)], [], [], 0, {}, r), Push(0),
                 Solo(Slot(Drain, [], 0, {}), [Job(0, p)], [], [], [], 1, {p}, r))
  {
  }

  lemma SoloTake(p: Path, r: nat)
    ensures Goes(Solo(Slot(Drain, [], 0, {}), [Job(0, p)], [], [], [], 1, {p}, r), Take(0),
                 Solo(Slot(Hand(Job(0, p), false), [], 0, {}), [], [], [], [], 1, {p}, r))
    ensures Goes(Solo(Slot(Hand(Job(0, p), false), [], 0, {}), [], [], [], [], 1, {p}, r), Delete(0, false, {}),
                 Solo(Slot(Hand(Job(0, p), true), [], 0, {p}), [], [], [], [], 1, {p}, r))
    ensures Goes(Solo(Slot(Hand(Job(0, p), true), [], 0, {p}), [], [], [], [], 1, {p}, r), Record(0),
                 Solo(Slot(Drain, [Job(0, p)], 0, {p}), [], [], [], [], 1, {p}, r))
  {
    assert {} + {p} == {p} && [] + [Job(0, p)] == [Job(0, p)];
  }

  lemma SoloCancel(p: Path, r: nat)
    ensures Goes(Solo(Slot(Drain, [Job(0, p)], 0, {p}), [], [], [], [], 1, {p}, r), StartCancel(p),
                 Solo(Slot(Drain, [Job(0, p)], 0, {p}), [], [], [Cancel(p, 0)], [], 1, {p}, r))
    ensures Goes(Solo(Slot(Drain, [Job(0, p)], 0, {p}), [], [], [Cancel(p, 0)], [], 1, {p}, r), Scan(0),
                 Solo(Slot(Drain, [Job(0, p)], 0, {p}), [], [], [Cancel(p, 1)], [], 1, {p}, r))
    ensures Goes(Solo(Slot(Drain, [Job(0, p)], 0, {p}), [], [], [Cancel(p, 1)], [], 1, {p}, r), Scan(0),
                 Solo(Slot(Drain, [], 0, {p}), [], [], [Cancel(p, 2)], [Reply(0, Cancelled)], 1, {p}, r))
    ensures Goes(Solo(Slot(Drain, [], 0, {p}), [], [], [Cancel(p, 2)], [Reply(0, Cancelled)], 1, {p}, r), Scan(0),
                 Solo(Slot(Drain, [], 0, {p}), [], [], [], [Reply(0, Cancelled)], 1, {}, r))
  {
    var jobs := [Job(0, p)];
    assert jobs[1..] == [] && Keeping([], p) == [] && Matching([], p) == [];
    assert Keeping(jobs, p) == [] && Matching(jobs, p) == jobs;
    assert Replies([], Cancelled) == [] && Replies(jobs, Cancelled) == [Reply(0, Cancelled)];
  }

  lemma {:induction false} Through(states: seq<State>, actions: seq<Action>)
    requires |states| == |actions| + 1
    requires forall k :: 0 <= k < |actions| ==> Goes(states[k], actions[k], states[k + 1])
    ensures Reaches(states[0], actions, states[|actions|])
    decreases |actions|
  {
    hide Apply, Enabled;
    if actions != [] {
      Through(states[1..], actions[1..]);
    }
  }

  lemma SoloLedger(r: nat, p: Path) returns (run: seq<Action>)
    ensures Reaches(Init(1, r, true), run, Solo(Slot(Drain, [Job(0, p)], 0, {p}), [], [], [], [], 1, {p}, r))
  {
    hide Goes, Reaches, Solo;
    SoloStart(r);
    SoloUnlink(p, r);
    SoloTake(p, r);
    var j := Job(0, p);
    run := [Admit(p, true), Push(0), Take(0), Delete(0, false, {}), Record(0)];
    Through([Solo(Slot(Drain, [], 0, {}), [], [], [], [], 0, {}, r),
             Solo(Slot(Drain, [], 0, {}), [], [Request(p, true)], [], [], 0, {}, r),
             Solo(Slot(Drain, [], 0, {}), [j], [], [], [], 1, {p}, r),
             Solo(Slot(Hand(j, false), [], 0, {}), [], [], [], [], 1, {p}, r),
             Solo(Slot(Hand(j, true), [], 0, {p}), [], [], [], [], 1, {p}, r),
             Solo(Slot(Drain, [j], 0, {p}), [], [], [], [], 1, {p}, r)], run);
  }

  /** A job is cancelled from a ledger, the cancel returns with nothing of the path left anywhere, and
      yet an object created then can be deleted. */
  lemma CancelLeavesKey(maxRetries: nat, p: Path) returns (run: seq<Action>, s: State)
    ensures Reaches(Init(1, maxRetries, true), run, s)
    ensures s.log == [Reply(0, Cancelled)] && s.cancels == [] && s.tombs == {} && Clear(s, p) && !Protected(s, p)
  {
    var r, j := maxRetries, Job(0, p);
    s := Solo(Slot(Drain, [], 0, {p}), [], [], [], [Reply(0, Cancelled)], 1, {}, r);
    assert p in s.slots[0].buffer && !SlotSafe(s.slots[0], p) && !Safe(s, p);
    assert Clear(s, p);
    CancelProtectsExactly(s, p);
    hide Goes, Reaches, Protected, Solo, Clear, Safe;
    var early := SoloLedger(r, p);
    SoloCancel(p, r);
    var s0 := Solo(Slot(Drain, [j], 0, {p}), [], [], [], [], 1, {p}, r);
    var late := [StartCancel(p), Scan(0), Scan(0), Scan(0)];
    Through([s0, Solo(Slot(Drain, [j], 0, {p}), [], [], [Cancel(p, 0)], [], 1, {p}, r),
             Solo(Slot(Drain, [j], 0, {p}), [], [], [Cancel(p, 1)], [], 1, {p}, r),
             Solo(Slot(Drain, [], 0, {p}), [], [], [Cancel(p, 2)], [Reply(0, Cancelled)], 1, {p}, r), s], late);
    Join(Init(1, r, true), early, s0, late, s);
    run := early + late;
  }

  // ----- The scan itself -----

  /** The body of one lock region of `cancel_pending`: the queue is drained, jobs of the path are
      answered, the others are put back in order. */
  method ScanQueue(queue: seq<Job>, path: Path) returns (kept: seq<Job>, replies: seq<Reply>, cancelled: nat)
    ensures kept == Keeping(queue, path) && replies == Replies(Matching(queue, path), Cancelled)
    ensures cancelled == |Matching(queue, path)|
  {
    hide Keeping, Matching, Replies;
    kept, replies, cancelled := [], [], 0;
    ScanNone(path);
    var i := 0;
    while i < |queue|
      invariant i <= |queue| && kept == Keeping(queue[..i], path)
      invariant replies == Replies(Matching(queue[..i], path), Cancelled)
      invariant cancelled == |Matching(queue[..i], path)|
    {
      var job := queue[i];
      KeepingMore(queue[..i], job, path);
      MatchingMore(queue[..i], job, path);
      RepliesAppend(Matching(queue[..i], path), job);
      assert queue[..i + 1] == queue[..i] + [job];
      if job.path == path {
        replies, cancelled := replies + [Reply(job.id, Cancelled)], cancelled + 1;
      } else {
        kept := kept + [job];
      }
      i := i + 1;
    }
    assert queue[..i] == queue;
  }

  lemma ScanNone(path: Path)
    ensures Keeping([], path) == [] && Matching([], path) == [] && Replies([], Cancelled) == []
  {
  }

  lemma {:induction false} KeepingMore(jobs: seq<Job>, j: Job, path: Path)
    ensures Keeping(jobs + [j], path) == if j.path == path then Keeping(jobs, path) else Keeping(jobs, path) + [j]
  {
    if jobs == [] {
      assert jobs + [j] == [j] && [j][1..] == [];
    } else {
      assert (jobs + [j])[1..] == jobs[1..] + [j];
      KeepingMore(jobs[1..], j, path);
      var rest := Keeping(jobs[1..], path);
      assert ([jobs[0]] + rest) + [j] == [jobs[0]] + (rest + [j]);
    }
  }

  lemma {:induction false} MatchingMore(jobs: seq<Job>, j: Job, path: Path)
    ensures Matching(jobs + [j], path) == if j.path == path then Matching(jobs, path) + [j] else Matching(jobs, path)
  {
    if jobs == [] {
      assert jobs + [j] == [j] && [j][1..] == [];
    } else {
      assert (jobs + [j])[1..] == jobs[1..] + [j];
      MatchingMore(jobs[1..], j, path);
      var rest := Matching(jobs[1..], path);
      assert ([jobs[0]] + rest) + [j] == [jobs[0]] + (rest + [j]);
    }
  }

  lemma {:induction false} RepliesAppend(jobs: seq<Job>, j: Job)
    ensures Replies(jobs + [j], Cancelled) == Replies(jobs, Cancelled) + [Reply(j.id, Cancelled)]
  {
    if jobs == [] {
      assert [j][1..] == [];
    } else {
      assert (jobs + [j])[1..] == jobs[1..] + [j];
      RepliesAppend(jobs[1..], j);
    }
  }
}
