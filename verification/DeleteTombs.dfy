/** Tombstones of the deleter: `unlink` hides a path while its delete is unanswered. */
module DeleteTombs {
  import opened Sums
  import opened DeletePump
  import opened DeleteLaws
  import opened DeleteBarrier
  import opened DeleteExact

  function HasPath(p: Path): Job -> nat {
    (j: Job) => One(j.path == p)
  }

  function Uncleared(jobs: seq<Job>, cleared: bool): seq<Job> {
    if cleared && jobs != [] then jobs[1..] else jobs
  }

  /** The jobs at a pump whose tombstone it has yet to remove. */
  function Guarding(pc: Pc): seq<Job> {
    if pc.Acking? then Uncleared(pc.batch, pc.cleared) else InPc(pc)
  }

  function SlotGuards(p: Path): Slot -> nat {
    (x: Slot) => Sum(Guarding(x.pc), HasPath(p)) + Sum(x.ledger, HasPath(p))
  }

  function DownGuards(p: Path): Down -> nat {
    (w: Down) => Sum(Uncleared(w.jobs, w.stage.Failing? && w.stage.cleared), HasPath(p))
  }

  /** Unanswered jobs of the path that will still remove its tombstone. */
  function Guards(s: State, p: Path): nat {
    Sum(s.pending, HasPath(p)) + Sum(s.slots, SlotGuards(p)) + Sum(s.downs, DownGuards(p))
  }

  ghost predicate Cancelling(s: State, p: Path) {
    exists c :: 0 <= c < |s.cancels| && s.cancels[c].path == p
  }

  ghost predicate Guarded(s: State, p: Path) {
    Guards(s, p) > 0 || Cancelling(s, p)
  }

  ghost predicate TombsGuarded(s: State) {
    forall p :: p in s.tombs ==> Guarded(s, p)
  }

  // ----- Pump steps -----

  ghost predicate GuardsMove(x: Slot, y: Slot, pending: seq<Job>, a: Action) {
    var h, h' := Guarding(x.pc), Guarding(y.pc);
    if a.Take? then pending != [] && h == [] && h' == [pending[0]] && y.ledger == x.ledger
    else if a.ClearTomb? then h != [] && h' == h[1..] && y.ledger == x.ledger
    else || (h' == h && y.ledger == x.ledger)
         || (h' == [] && y.ledger == x.ledger + h)
         || (h == [] && h' == x.ledger && y.ledger == [])
  }

  lemma GuardShape(x: Slot, pending: seq<Job>, epoch: nat, maxRetries: nat, a: Action)
    requires OnSlot(a) && SlotEnabled(x, pending == [], a)
    ensures GuardsMove(x, SlotNext(x, pending, epoch, maxRetries, a), pending, a)
  {
  }

  lemma GuardsMoved(x: Slot, y: Slot, pending: seq<Job>, a: Action, p: Path)
    requires GuardsMove(x, y, pending, a)
    ensures SlotGuards(p)(y) + (if a.ClearTomb? then One(Guarding(x.pc)[0].path == p) else 0) ==
            SlotGuards(p)(x) + (if a.Take? then One(pending[0].path == p) else 0)
  {
    var f, h := HasPath(p), Guarding(x.pc);
    SumNone<Job>(f);
    SumConcat(x.ledger, h, f);
    if a.Take? {
      SumOne(pending[0], f);
    } else if a.ClearTomb? {
      SumRest(h, f);
    }
    hide Sum, Guarding;
  }

  /** The step removes the tombstone of `p`. */
  predicate Clears(s: State, a: Action, p: Path)
    requires Enabled(s, a)
  {
    || (a.ClearTomb? && s.slots[a.i].pc.batch[0].path == p)
    || (a.DownStep? && s.downs[a.d].stage.Failing? && !s.downs[a.d].stage.cleared && s.downs[a.d].jobs != []
        && s.downs[a.d].jobs[0].path == p)
  }

  lemma SlotKeepsGuards(s: State, a: Action, p: Path)
    requires Enabled(s, a) && OnSlot(a)
    ensures Guards(SlotStep(s, a), p) + One(Clears(s, a, p)) == Guards(s, p)
    ensures p in SlotStep(s, a).tombs <==> p in s.tombs && !Clears(s, a, p)
  {
    var x := s.slots[a.i];
    var y := SlotNext(x, s.pending, s.epoch, s.maxRetries, a);
    SumUpdate(s.slots, a.i, y, SlotGuards(p));
    GuardShape(x, s.pending, s.epoch, s.maxRetries, a);
    GuardsMoved(x, y, s.pending, a, p);
    if a.Take? {
      SumRest(s.pending, HasPath(p));
    }
    hide Sum, SlotNext, SlotGuards;
  }

  // ----- Cancels -----

  lemma {:induction false} OtherPathsKept(jobs: seq<Job>, p: Path, q: Path)
    requires p != q
    ensures Sum(Keeping(jobs, p), HasPath(q)) == Sum(jobs, HasPath(q))
  {
    if jobs != [] {
      OtherPathsKept(jobs[1..], p, q);
      var keep := Keeping(jobs[1..], p);
      SumConcat([jobs[0]], keep, HasPath(q));
      SumOne(jobs[0], HasPath(q));
    }
  }

  lemma ScanKeepsGuards(s: State, c: nat, q: Path)
    requires c < |s.cancels| && q != s.cancels[c].path
    ensures Guards(ScanStep(s, c), q) == Guards(s, q)
    ensures Cancelling(s, q) ==> Cancelling(ScanStep(s, c), q)
  {
    hide Sum, Keeping, Matching, Replies, Guarding, HasPath;
    var k, t := s.cancels[c], ScanStep(s, c);
    if k.at == 0 {
      OtherPathsKept(s.pending, k.path, q);
    } else if k.at <= |s.slots| {
      var x := s.slots[k.at - 1];
      OtherPathsKept(x.ledger, k.path, q);
      SumUpdate(s.slots, k.at - 1, x.(ledger := Keeping(x.ledger, k.path)), SlotGuards(q));
    }
    if Cancelling(s, q) {
      OtherCancel(s, c, q);
    }
  }

  lemma OtherCancel(s: State, c: nat, q: Path)
    requires c < |s.cancels| && q != s.cancels[c].path && Cancelling(s, q)
    ensures Cancelling(ScanStep(s, c), q)
  {
    hide Keeping, Matching, Replies;
    var t := ScanStep(s, c);
    var e :| 0 <= e < |s.cancels| && s.cancels[e].path == q;
    assert t.cancels[if |t.cancels| == |s.cancels| || e < c then e else e - 1].path == q;
  }

  lemma ScanKeepsTombs(s: State, c: nat, p: Path)
    requires c < |s.cancels| && p in ScanStep(s, c).tombs && (p in s.tombs ==> Guarded(s, p))
    ensures Guarded(ScanStep(s, c), p)
  {
    var k, t := s.cancels[c], ScanStep(s, c);
    if p == k.path {
      assert t.cancels[c].path == p;
    } else {
      ScanKeepsGuards(s, c, p);
    }
    hide Guards, Keeping, Matching, Replies;
  }

  // ----- Shutdowns -----

  lemma FailKeepsGuards(s: State, a: Action, p: Path)
    requires a.DownStep? && Enabled(s, a) && DownOk(s.downs[a.d])
    ensures var t := FailStep(s, a.d, a.closed);
            && Guards(t, p) + One(Clears(s, a, p)) == Guards(s, p) && t.cancels == s.cancels
            && (p in t.tombs <==> p in s.tombs && !Clears(s, a, p))
  {
    if s.downs[a.d].stage.Failing? {
      FailingKeepsGuards(s, a, p);
      hide Guards;
    } else {
      TakingKeepsGuards(s, a.d, a.closed, p);
      hide Guards;
    }
  }

  lemma FailingKeepsGuards(s: State, a: Action, p: Path)
    requires a.DownStep? && Enabled(s, a) && s.downs[a.d].stage.Failing?
    ensures Guards(FailStep(s, a.d, a.closed), p) + One(Clears(s, a, p)) == Guards(s, p)
  {
    var t, w := FailStep(s, a.d, a.closed), s.downs[a.d];
    SumUpdate(s.downs, a.d, t.downs[a.d], DownGuards(p));
    if w.jobs != [] {
      SumRest(w.jobs, HasPath(p));
    }
    hide Sum, SlotGuards;
  }

  lemma TakingKeepsGuards(s: State, d: nat, closed: set<Path>, p: Path)
    requires d < |s.downs| && s.downs[d].at < |s.slots| && DownOk(s.downs[d]) && !s.downs[d].stage.Failing?
    ensures Guards(FailStep(s, d, closed), p) == Guards(s, p)
  {
    hide Sum, Guarding, HasPath;
    var t, w := FailStep(s, d, closed), s.downs[d];
    SumUpdate(s.downs, d, t.downs[d], DownGuards(p));
    SumUpdate(s.slots, w.at, t.slots[w.at], SlotGuards(p));
    SumNone<Job>(HasPath(p));
    if w.stage.TakeLedger? {
      SumConcat(w.jobs, s.slots[w.at].ledger, HasPath(p));
    }
  }

  // ----- Every step -----

  /** A tombstone that is inserted as a step of its own is inserted while it is guarded. */
  ghost predicate Timely(s: State, a: Action)
    requires Enabled(s, a)
  {
    a.Mark? ==> Guarded(s, s.unmarked[a.k])
  }

  lemma PushKeepsTombs(s: State, k: nat, p: Path)
    requires k < |s.entering| && p in PushStep(s, k).tombs && (p in s.tombs ==> Guarded(s, p))
    ensures Guarded(PushStep(s, k), p)
  {
    SumAppend(s.pending, Job(s.next, s.entering[k].path), HasPath(p));
    hide Sum;
  }

  lemma StartedKeepsTombs(s: State, a: Action, p: Path)
    requires Enabled(s, a) && (a.StartShutdown? || a.StartCancel?) && Guarded(s, p)
    ensures Guarded(Apply(s, a), p)
  {
    hide Sum;
    if a.StartShutdown? {
      SumNone<Job>(HasPath(p));
      SumAppend(s.downs, Down(0, CloseBuffer, [], 0), DownGuards(p));
    }
    if Cancelling(s, p) {
      var c :| 0 <= c < |s.cancels| && s.cancels[c].path == p;
      assert Apply(s, a).cancels[c].path == p;
    }
  }

  lemma TombKept(s: State, a: Action, p: Path)
    requires Enabled(s, a) && DownsOk(s) && TombsGuarded(s) && Timely(s, a) && p in Apply(s, a).tombs
    ensures Guarded(Apply(s, a), p)
  {
    hide Guards, SlotStep, ScanStep, FailStep, PushStep;
    assert p in s.tombs ==> Guarded(s, p);
    if OnSlot(a) {
      SlotKeepsGuards(s, a, p);
      SlotStepCancels(s, a);
    } else if a.Scan? {
      ScanKeepsTombs(s, a.c, p);
    } else if a.DownStep? {
      FailKeepsGuards(s, a, p);
    } else if a.Push? {
      PushKeepsTombs(s, a.k, p);
    } else if a.StartShutdown? || a.StartCancel? {
      StartedKeepsTombs(s, a, p);
    } else {
      AsideKeepsGuards(s, a, p);
    }
  }

  lemma SlotStepCancels(s: State, a: Action)
    requires OnSlot(a) && Enabled(s, a)
    ensures SlotStep(s, a).cancels == s.cancels
  {
  }

  lemma AsideKeepsGuards(s: State, a: Action, p: Path)
    requires Enabled(s, a) && Aside(a)
    ensures var t := Apply(s, a);
            && Guards(t, p) == Guards(s, p) && (a.StartCancel? || t.cancels == s.cancels)
            && (p in t.tombs <==> p in s.tombs || (a.Mark? && s.unmarked[a.k] == p))
  {
    AsideKeeps(s, a);
    hide Sum;
  }

  /** Every step keeps all tombstones guarded, except that inserting one as a step of its own does if and
      only if the path is guarded at that moment. */
  lemma TombStep(s: State, a: Action)
    requires Enabled(s, a) && DownsOk(s) && TombsGuarded(s)
    ensures TombsGuarded(Apply(s, a)) <==> Timely(s, a)
  {
    if Timely(s, a) {
      hide Apply, Enabled, Guarded, DownsOk, Timely;
      forall p | p in Apply(s, a).tombs ensures Guarded(Apply(s, a), p) {
        TombKept(s, a, p);
      }
    } else {
      AsideKeepsGuards(s, a, s.unmarked[a.k]);
      hide Guards;
    }
  }

  ghost predicate MarksTimely(s: State, run: seq<Action>)
    decreases |run|
  {
    run == [] || (Enabled(s, run[0]) && Timely(s, run[0]) && MarksTimely(Apply(s, run[0]), run[1..]))
  }

  ghost predicate GuardedThroughout(s: State, run: seq<Action>)
    decreases |run|
  {
    TombsGuarded(s) && (run == [] || (Enabled(s, run[0]) && GuardedThroughout(Apply(s, run[0]), run[1..])))
  }

  lemma {:induction false} TombRun(s: State, run: seq<Action>, t: State)
    requires Reaches(s, run, t) && DownsOk(s) && TombsGuarded(s)
    ensures GuardedThroughout(s, run) <==> MarksTimely(s, run)
    ensures MarksTimely(s, run) ==> TombsGuarded(t)
    decreases |run|
  {
    hide Apply, Enabled, TombsGuarded, DownsOk, Timely;
    if run != [] {
      TombStep(s, run[0]);
      DownsStep(s, run[0]);
      if Timely(s, run[0]) {
        TombRun(Apply(s, run[0]), run[1..], t);
      }
    }
  }

  /** Over any run of the code, every tombstone stands for a job that will still remove it, or for a
      running cancel, in every state, if and only if each separate insert happens while its path has such
      a job or cancel. */
  lemma TombsGuardedExactly(workers: nat, maxRetries: nat, atomicUnlink: bool, run: seq<Action>, t: State)
    requires Reaches(Init(workers, maxRetries, atomicUnlink), run, t)
    ensures var s := Init(workers, maxRetries, atomicUnlink); GuardedThroughout(s, run) <==> MarksTimely(s, run)
  {
    TombRun(Init(workers, maxRetries, atomicUnlink), run, t);
  }

  lemma FrontKept(s: State, a: Action)
    requires Enabled(s, a) && s.atomicUnlink && s.unmarked == []
    ensures Apply(s, a).atomicUnlink && Apply(s, a).unmarked == []
  {
    hide SlotNext, Tallied, SentBy, Keeping, Matching, Replies;
  }

  /** Inserted with the push, a tombstone is never untimely. */
  lemma {:induction false} AtomicIsTimely(s: State, run: seq<Action>, t: State)
    requires Reaches(s, run, t) && s.atomicUnlink && s.unmarked == []
    ensures MarksTimely(s, run)
    decreases |run|
  {
    if run != [] {
      assert !run[0].Mark?;
      FrontKept(s, run[0]);
      hide Apply, Enabled;
      AtomicIsTimely(Apply(s, run[0]), run[1..], t);
    }
  }

  // ----- A stray tombstone -----

  /** A step that neither cancels the path nor pushes a job of it leaves a stray tombstone stray. */
  lemma StrayStep(s: State, a: Action, p: Path)
    requires Enabled(s, a) && DownsOk(s) && p in s.tombs && !Guarded(s, p)
    requires a != StartCancel(p) && !(a.Push? && s.entering[a.k].path == p)
    ensures p in Apply(s, a).tombs && !Guarded(Apply(s, a), p)
  {
    hide Guards, SlotStep, ScanStep, FailStep, PushStep;
    if OnSlot(a) {
      SlotKeepsGuards(s, a, p);
      SlotStepCancels(s, a);
    } else if a.Scan? {
      assert s.cancels[a.c].path != p;
      ScanKeepsGuards(s, a.c, p);
      ScanLeavesStray(s, a.c, p);
    } else if a.DownStep? {
      FailKeepsGuards(s, a, p);
    } else if a.Push? {
      PushLeavesStray(s, a.k, p);
    } else if a.StartShutdown? {
      ShutdownLeavesStray(s, p);
    } else {
      AsideKeepsGuards(s, a, p);
    }
  }

  lemma ScanLeavesStray(s: State, c: nat, p: Path)
    requires c < |s.cancels| && p in s.tombs && !Cancelling(s, p)
    ensures p in ScanStep(s, c).tombs && !Cancelling(ScanStep(s, c), p)
  {
    hide Keeping, Matching, Replies;
    var t := ScanStep(s, c);
    assert s.cancels[c].path != p;
    forall e | 0 <= e < |t.cancels| ensures t.cancels[e].path != p {
      assert s.cancels[if |t.cancels| == |s.cancels| || e < c then e else e + 1].path != p;
    }
  }

  lemma PushLeavesStray(s: State, k: nat, p: Path)
    requires k < |s.entering| && s.entering[k].path != p && p in s.tombs && !Guarded(s, p)
    ensures p in PushStep(s, k).tombs && !Guarded(PushStep(s, k), p)
  {
    SumAppend(s.pending, Job(s.next, s.entering[k].path), HasPath(p));
    hide Sum;
  }

  lemma ShutdownGuards(s: State, p: Path)
    ensures Guards(Apply(s, StartShutdown), p) == Guards(s, p)
  {
    hide Sum, SlotGuards, HasPath, SlotStep, ScanStep, FailStep, PushStep, CheckStep;
    SumNone<Job>(HasPath(p));
    SumAppend(s.downs, Down(0, CloseBuffer, [], 0), DownGuards(p));
  }

  lemma ShutdownLeavesStray(s: State, p: Path)
    requires !Guarded(s, p)
    ensures !Guarded(Apply(s, StartShutdown), p) && Apply(s, StartShutdown).tombs == s.tombs
  {
    ShutdownGuards(s, p);
    hide Guards;
  }

  /** No cancel of the path starts and no job of it is pushed. */
  ghost predicate LeavesAlone(s: State, run: seq<Action>, p: Path)
    decreases |run|
  {
    run == [] || (&& Enabled(s, run[0]) && run[0] != StartCancel(p)
                  && !(run[0].Push? && s.entering[run[0].k].path == p) && LeavesAlone(Apply(s, run[0]), run[1..], p))
  }

  /** An untimely insert leaves its tombstone behind in every continuation that neither cancels the path
      nor pushes another job of it. */
  lemma StrayTombstoneStays(s: State, k: nat, run: seq<Action>, t: State)
    requires DownsOk(s) && Enabled(s, Mark(k)) && !Timely(s, Mark(k))
    requires Reaches(Apply(s, Mark(k)), run, t) && LeavesAlone(Apply(s, Mark(k)), run, s.unmarked[k])
    ensures s.unmarked[k] in t.tombs && !Guarded(t, s.unmarked[k])
  {
    DownsStep(s, Mark(k));
    AsideKeepsGuards(s, Mark(k), s.unmarked[k]);
    hide Guards, Reaches, LeavesAlone;
    StrayRun(Apply(s, Mark(k)), run, t, s.unmarked[k]);
  }

  lemma {:induction false} StrayRun(s: State, run: seq<Action>, t: State, p: Path)
    requires Reaches(s, run, t) && LeavesAlone(s, run, p) && DownsOk(s) && p in s.tombs && !Guarded(s, p)
    ensures p in t.tombs && !Guarded(t, p)
    decreases |run|
  {
    if run != [] {
      DownsStep(s, run[0]);
      StrayStep(s, run[0], p);
      hide Apply, Enabled, Guarded, DownsOk;
      StrayRun(Apply(s, run[0]), run[1..], t, p);
    }
  }

  /** A job in one of the places that hold unanswered jobs. */
  ghost predicate Holds(s: State, j: Job) {
    || j in s.pending
    || (exists i :: 0 <= i < |s.slots| && (j in InPc(s.slots[i].pc) || j in s.slots[i].ledger))
    || (exists d :: 0 <= d < |s.downs| && j in s.downs[d].jobs)
  }

  lemma GuardIsHeld(s: State, p: Path) returns (j: Job)
    requires Guards(s, p) > 0
    ensures j.path == p && Holds(s, j)
  {
    if Sum(s.pending, HasPath(p)) > 0 {
      var i := SumWitness(s.pending, HasPath(p));
      j := s.pending[i];
    } else if Sum(s.slots, SlotGuards(p)) > 0 {
      var i := SumWitness(s.slots, SlotGuards(p));
      var x := s.slots[i];
      if Sum(x.ledger, HasPath(p)) > 0 {
        var k := SumWitness(x.ledger, HasPath(p));
        j := x.ledger[k];
      } else {
        var k := SumWitness(Guarding(x.pc), HasPath(p));
        j := Guarding(x.pc)[k];
        assert j in InPc(x.pc);
      }
    } else {
      var d := SumWitness(s.downs, DownGuards(p));
      var w := s.downs[d];
      var k := SumWitness(Uncleared(w.jobs, w.stage.Failing? && w.stage.cleared), HasPath(p));
      j := Uncleared(w.jobs, w.stage.Failing? && w.stage.cleared)[k];
      assert j in w.jobs;
    }
  }

  lemma HeldIsInFlight(s: State, j: Job)
    requires Holds(s, j)
    ensures InFlight(s, j.id) > 0
  {
    if j in s.pending {
      MemberCounts(s.pending, j);
    } else if i :| 0 <= i < |s.slots| && (j in InPc(s.slots[i].pc) || j in s.slots[i].ledger) {
      MemberCounts(if j in s.slots[i].ledger then s.slots[i].ledger else InPc(s.slots[i].pc), j);
      SumAtLeast(s.slots, SlotIds(j.id), i);
    } else {
      var d :| 0 <= d < |s.downs| && j in s.downs[d].jobs;
      MemberCounts(s.downs[d].jobs, j);
      SumAtLeast(s.downs, DownIds(j.id), d);
    }
  }

  /** While inserts are timely, in particular in every run in which `unlink` inserts the tombstone with the
      push, a tombstone stands for an accepted job of its path that has no answer, or a cancel of the path
      is running. */
  lemma TombstoneMeansUnanswered(workers: nat, maxRetries: nat, atomicUnlink: bool, run: seq<Action>, t: State, p: Path)
    returns (j: Job)
    requires var s := Init(workers, maxRetries, atomicUnlink);
             Reaches(s, run, t) && p in t.tombs && (atomicUnlink || MarksTimely(s, run))
    ensures Cancelling(t, p) || (j.path == p && Holds(t, j) && j.id < t.next && Answered(t, j.id) == 0)
  {
    var s := Init(workers, maxRetries, atomicUnlink);
    if atomicUnlink {
      AtomicIsTimely(s, run, t);
    }
    TombRun(s, run, t);
    hide Reaches, MarksTimely, Guards, InFlight, Answered, Holds;
    assert Guarded(t, p);
    j := Job(0, p);
    if Guards(t, p) > 0 {
      j := GuardIsHeld(t, p);
      HeldIsInFlight(t, j);
      DeleteConservation(workers, maxRetries, atomicUnlink, run, t, j.id);
    }
  }

  // ----- A tombstone inserted too late -----

  lemma NoGuards(s: State, p: Path)
    requires s.pending == [] && s.downs == []
    requires forall i :: 0 <= i < |s.slots| ==> InPc(s.slots[i].pc) == [] && s.slots[i].ledger == []
    ensures Guards(s, p) == 0
  {
    SumNone<Job>(HasPath(p));
    SumZero(s.slots, SlotGuards(p));
  }

  /** One draining pump can answer everything that is pending and go to sleep. */
  lemma ServeAll(s: State, i: nat) returns (run: seq<Action>, t: State)
    requires i < |s.slots| && s.slots[i].pc.Drain? && PumpsOk(s)
    ensures Reaches(s, run, t) && Beside(s, t, i) && t.pending == []
    ensures InPc(t.slots[i].pc) == [] && t.slots[i].ledger == []
  {
    hide Apply, Reaches, Enabled;
    var early, m := Absorb(s, i);
    PumpsRun(s, early, m);
    var late;
    late, t := Drive(m, i);
    PumpsRun(m, late, t);
    assert PumpOk(t.slots[i], t.epoch);
    Join(s, early, m, late, t);
    run := early + late;
  }

  /** `unlink` pushes the job and then inserts the tombstone. When the pump answers the job in between,
      the tombstone is left with no job that would ever remove it. */
  lemma LateTombstone(workers: nat, maxRetries: nat, p: Path) returns (run: seq<Action>, t: State)
    ensures Reaches(Init(workers, maxRetries, false), run, t)
    ensures p in t.tombs && Guards(t, p) == 0 && !Cancelling(t, p)
  {
    var s0 := Init(workers, maxRetries, false);
    var s1 := Apply(s0, Admit(p, true));
    var s2 := Apply(s1, Push(0));
    assert s2.slots == s0.slots && s2.unmarked == [p] && s2.cancels == [] && s2.downs == [];
    assert PumpsOk(s2);
    First(s0, p, s1, s2);
    hide Apply, Reaches, Enabled, PumpsOk;
    var served, s3 := ServeAll(s2, 0);
    Marked(s3);
    t := Apply(s3, Mark(0));
    NoGuards(t, p);
    hide Guards;
    Nothing(t);
    Then(s3, Mark(0), [], t);
    Join(s2, served, s3, [Mark(0)] + [], t);
    var first := [Admit(p, true)] + ([Push(0)] + []);
    Join(s0, first, s2, served + ([Mark(0)] + []), t);
    run := first + (served + ([Mark(0)] + []));
  }

  lemma Nothing(s: State)
    ensures Reaches(s, [], s)
  {
  }

  lemma First(s0: State, p: Path, s1: State, s2: State)
    requires Enabled(s0, Admit(p, true)) && s1 == Apply(s0, Admit(p, true))
    requires Enabled(s1, Push(0)) && s2 == Apply(s1, Push(0))
    ensures Reaches(s0, [Admit(p, true)] + ([Push(0)] + []), s2)
  {
    hide Apply, Enabled;
    Nothing(s2);
    hide Reaches;
    Then(s1, Push(0), [], s2);
    Then(s0, Admit(p, true), [Push(0)] + [], s2);
  }

  lemma Marked(s: State)
    requires |s.unmarked| == 1
    ensures Enabled(s, Mark(0))
    ensures var t := Apply(s, Mark(0));
            && t.tombs == s.tombs + {s.unmarked[0]} && t.slots == s.slots && t.pending == s.pending
            && t.downs == s.downs && t.cancels == s.cancels
  {
  }

  // ----- One tombstone per unlink -----

  function Is(p: Path): Path -> nat {
    (q: Path) => One(q == p)
  }

  /** The step pushes an unlink of the path whose tombstone is inserted separately. */
  function Owed(s: State, a: Action, p: Path): nat
    requires Enabled(s, a)
  {
    One(a.Push? && s.entering[a.k].marks && !s.atomicUnlink && s.entering[a.k].path == p)
  }

  /** The step inserts one. */
  function Inserted(s: State, a: Action, p: Path): nat
    requires Enabled(s, a)
  {
    One(a.Mark? && s.unmarked[a.k] == p)
  }

  ghost function OwedIn(s: State, run: seq<Action>, t: State, p: Path): nat
    requires Reaches(s, run, t)
    decreases |run|
  {
    if run == [] then 0 else Owed(s, run[0], p) + OwedIn(Apply(s, run[0]), run[1..], t, p)
  }

  ghost function InsertedIn(s: State, run: seq<Action>, t: State, p: Path): nat
    requires Reaches(s, run, t)
    decreases |run|
  {
    if run == [] then 0 else Inserted(s, run[0], p) + InsertedIn(Apply(s, run[0]), run[1..], t, p)
  }

  lemma UnmarkedKept(s: State, a: Action)
    requires Enabled(s, a) && !a.Push? && !a.Mark?
    ensures Apply(s, a).unmarked == s.unmarked
  {
    hide SlotNext, Tallied, SentBy, Keeping, Matching, Replies;
    if OnSlot(a) {
      hide ScanStep, FailStep;
    } else if a.Scan? {
      hide SlotStep, FailStep;
    } else {
      hide SlotStep, ScanStep;
    }
  }

  lemma InsertStep(s: State, a: Action, p: Path)
    requires Enabled(s, a)
    ensures Sum(s.unmarked, Is(p)) + Owed(s, a, p) == Sum(Apply(s, a).unmarked, Is(p)) + Inserted(s, a, p)
  {
    hide Sum, SlotStep, ScanStep, FailStep;
    if a.Push? {
      SumAppend(s.unmarked, s.entering[a.k].path, Is(p));
    } else if a.Mark? {
      SumWithout(s.unmarked, a.k, Is(p));
    } else {
      UnmarkedKept(s, a);
      hide Apply, Enabled;
    }
  }

  lemma {:induction false} InsertRun(s: State, run: seq<Action>, t: State, p: Path)
    requires Reaches(s, run, t)
    ensures Sum(s.unmarked, Is(p)) + OwedIn(s, run, t, p) == Sum(t.unmarked, Is(p)) + InsertedIn(s, run, t, p)
    decreases |run|
  {
    hide Apply, Enabled, Sum, Owed, Inserted;
    if run != [] {
      InsertStep(s, run[0], p);
      InsertRun(Apply(s, run[0]), run[1..], t, p);
    }
  }

  /** In every run each unlink inserts its tombstone once: the inserts of a path and those still to come are its
      pushed unlinks. */
  lemma OneTombstonePerUnlink(workers: nat, maxRetries: nat, atomicUnlink: bool, run: seq<Action>, t: State, p: Path)
    requires Reaches(Init(workers, maxRetries, atomicUnlink), run, t)
    ensures InsertedIn(Init(workers, maxRetries, atomicUnlink), run, t, p) + Sum(t.unmarked, Is(p)) ==
            OwedIn(Init(workers, maxRetries, atomicUnlink), run, t, p)
  {
    InsertRun(Init(workers, maxRetries, atomicUnlink), run, t, p);
  }
}
