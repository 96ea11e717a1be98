/** Conservation laws of the deleter: no job is lost or answered twice, and the counters count what
    they say. */
module DeleteLaws {
  import opened Sums
  import opened DeletePump

  // ----- Weights -----

  function HasId(id: nat): Job -> nat {
    (j: Job) => One(j.id == id)
  }

  /** The jobs a pump holds: in its hand or its closing batch, and in its ledger. */
  function InPc(pc: Pc): seq<Job> {
    match pc
    case Hand(job, _) => [job]
    case Closing(batch, _) => batch
    case Acking(batch, _, _) => batch
    case _ => []
  }

  function SlotIds(id: nat): Slot -> nat {
    (x: Slot) => Sum(InPc(x.pc), HasId(id)) + Sum(x.ledger, HasId(id))
  }

  function DownIds(id: nat): Down -> nat {
    (w: Down) => Sum(w.jobs, HasId(id))
  }

  function RepliesTo(id: nat): Reply -> nat {
    (r: Reply) => One(r.id == id)
  }

  /** How often job `id` is in the pending queue, with a pump, or with a shutdown. */
  function InFlight(s: State, id: nat): nat {
    Sum(s.pending, HasId(id)) + Sum(s.slots, SlotIds(id)) + Sum(s.downs, DownIds(id))
  }

  function Answered(s: State, id: nat): nat {
    Sum(s.log, RepliesTo(id))
  }

  /** Every accepted job is in one place, or answered once. */
  ghost predicate Conserved(s: State, id: nat) {
    InFlight(s, id) + Answered(s, id) == One(id < s.next)
  }

  lemma {:induction false} MemberCounts(jobs: seq<Job>, j: Job)
    requires j in jobs
    ensures Sum(jobs, HasId(j.id)) > 0
  {
    var k :| 0 <= k < |jobs| && jobs[k] == j;
    SumAtLeast(jobs, HasId(j.id), k);
  }

  // ----- Filtering a queue -----

  lemma {:induction false} KeepOrMatch(jobs: seq<Job>, p: Path, f: Job -> nat)
    ensures Sum(jobs, f) == Sum(Keeping(jobs, p), f) + Sum(Matching(jobs, p), f)
  {
    if jobs != [] {
      KeepOrMatch(jobs[1..], p, f);
      var keep, rest := Keeping(jobs[1..], p), Matching(jobs[1..], p);
      SumConcat([jobs[0]], keep, f);
      SumConcat([jobs[0]], rest, f);
      SumOne(jobs[0], f);
    }
  }

  lemma {:induction false} RepliesCount(jobs: seq<Job>, a: Answer, id: nat)
    ensures Sum(Replies(jobs, a), RepliesTo(id)) == Sum(jobs, HasId(id))
  {
    if jobs != [] {
      RepliesCount(jobs[1..], a, id);
      assert Replies(jobs, a)[1..] == Replies(jobs[1..], a);
    }
  }

  // ----- Conservation, step by step -----

  lemma SlotConserves(s: State, a: Action, id: nat)
    requires Enabled(s, a) && OnSlot(a)
    ensures InFlight(SlotStep(s, a), id) + Answered(SlotStep(s, a), id) == InFlight(s, id) + Answered(s, id)
  {
    var x := s.slots[a.i];
    var y := SlotNext(x, s.pending, s.epoch, s.maxRetries, a);
    SumUpdate(s.slots, a.i, y, SlotIds(id));
    SlotShape(x, s.pending, s.epoch, s.maxRetries, a);
    SlotMoves(x, y, s.pending, a, id);
    if a.Take? {
      hide SlotNext, SlotIds;
    } else if a.Answer? {
      SumAppend(s.log, Reply(x.pc.batch[0].id, if x.pc.ok then Deleted else Failed), RepliesTo(id));
      hide SlotNext, SlotIds, Sum;
    } else {
      hide SlotNext, SlotIds, Sum;
    }
  }

  /** How the jobs of a pump move in one of its steps. */
  ghost predicate JobsMove(x: Slot, y: Slot, pending: seq<Job>, a: Action) {
    var h, h' := InPc(x.pc), InPc(y.pc);
    if a.Take? then pending != [] && h == [] && h' == [pending[0]] && y.ledger == x.ledger
    else if a.Answer? then h != [] && h' == h[1..] && y.ledger == x.ledger
    else || (h' == h && y.ledger == x.ledger)
         || (h' == [] && y.ledger == x.ledger + h)
         || (h == [] && h' == x.ledger && y.ledger == [])
  }

  lemma SlotShape(x: Slot, pending: seq<Job>, epoch: nat, maxRetries: nat, a: Action)
    requires OnSlot(a) && SlotEnabled(x, pending == [], a)
    ensures JobsMove(x, SlotNext(x, pending, epoch, maxRetries, a), pending, a)
  {
  }

  /** What a pump step takes in or gives out. */
  lemma SlotMoves(x: Slot, y: Slot, pending: seq<Job>, a: Action, id: nat)
    requires JobsMove(x, y, pending, a)
    ensures SlotIds(id)(y) + (if a.Answer? then One(InPc(x.pc)[0].id == id) else 0) ==
            SlotIds(id)(x) + (if a.Take? then One(pending[0].id == id) else 0)
  {
    var f, h := HasId(id), InPc(x.pc);
    SumNone<Job>(f);
    SumConcat(x.ledger, h, f);
    if a.Take? {
      SumOne(pending[0], f);
    } else if a.Answer? {
      SumRest(h, f);
    }
    hide Sum, InPc;
  }

  /** Answering the matching jobs of a queue keeps every count. */
  lemma FilterConserves(jobs: seq<Job>, p: Path, log: seq<Reply>, id: nat)
    ensures Sum(Keeping(jobs, p), HasId(id)) + Sum(log + Replies(Matching(jobs, p), Cancelled), RepliesTo(id)) ==
            Sum(jobs, HasId(id)) + Sum(log, RepliesTo(id))
  {
    KeepOrMatch(jobs, p, HasId(id));
    RepliesCount(Matching(jobs, p), Cancelled, id);
    SumConcat(log, Replies(Matching(jobs, p), Cancelled), RepliesTo(id));
  }

  lemma ScanConserves(s: State, c: nat, id: nat)
    requires c < |s.cancels|
    ensures InFlight(ScanStep(s, c), id) + Answered(ScanStep(s, c), id) == InFlight(s, id) + Answered(s, id)
  {
    hide Sum, InPc, Keeping, Matching, Replies, HasId, RepliesTo, DownIds;
    var k := s.cancels[c];
    if k.at == 0 {
      FilterConserves(s.pending, k.path, s.log, id);
    } else if k.at <= |s.slots| {
      var x := s.slots[k.at - 1];
      FilterConserves(x.ledger, k.path, s.log, id);
      SumUpdate(s.slots, k.at - 1, x.(ledger := Keeping(x.ledger, k.path)), SlotIds(id));
    }
  }

  /** A shutdown holds jobs only once it has taken some. */
  predicate DownOk(w: Down) {
    w.stage.CloseBuffer? || w.stage.TakePending? ==> w.jobs == [] && w.lost == 0
  }

  ghost predicate DownsOk(s: State) {
    forall d :: 0 <= d < |s.downs| ==> DownOk(s.downs[d])
  }

  lemma FailConserves(s: State, d: nat, closed: set<Path>, id: nat)
    requires d < |s.downs| && s.downs[d].at < |s.slots| && DownOk(s.downs[d])
    ensures var t := FailStep(s, d, closed);
            InFlight(t, id) + Answered(t, id) == InFlight(s, id) + Answered(s, id)
  {
    var t, w := FailStep(s, d, closed), s.downs[d];
    var x := s.slots[w.at];
    SumUpdate(s.downs, d, t.downs[d], DownIds(id));
    SumNone<Job>(HasId(id));
    SumUpdate(s.slots, w.at, t.slots[w.at], SlotIds(id));
    if w.stage.TakeLedger? {
      SumConcat(w.jobs, x.ledger, HasId(id));
    } else if w.stage.Failing? && w.jobs != [] && w.stage.cleared {
      SumRest(w.jobs, HasId(id));
      SumAppend(s.log, Reply(w.jobs[0].id, Lost), RepliesTo(id));
    }
    hide Sum, InPc;
  }

  lemma PushConserves(s: State, k: nat, id: nat)
    requires k < |s.entering| && Conserved(s, id)
    ensures Conserved(PushStep(s, k), id)
  {
    SumAppend(s.pending, Job(s.next, s.entering[k].path), HasId(id));
    hide Sum;
  }

  lemma ConservedStep(s: State, a: Action, id: nat)
    requires Enabled(s, a) && DownsOk(s) && Conserved(s, id)
    ensures Conserved(Apply(s, a), id)
  {
    hide InFlight, Answered, SlotStep, ScanStep, FailStep, PushStep;
    if OnSlot(a) {
      SlotConserves(s, a, id);
      SlotStepNext(s, a);
    } else if a.Scan? {
      ScanConserves(s, a.c, id);
      ScanStepNext(s, a.c);
    } else if a.DownStep? {
      FailConserves(s, a.d, a.closed, id);
      FailStepNext(s, a.d, a.closed);
    } else if a.Push? {
      PushConserves(s, a.k, id);
    } else {
      OtherConserves(s, a, id);
    }
  }

  lemma SlotStepNext(s: State, a: Action)
    requires OnSlot(a) && Enabled(s, a)
    ensures SlotStep(s, a).next == s.next
  {
  }

  lemma ScanStepNext(s: State, c: nat)
    requires c < |s.cancels|
    ensures ScanStep(s, c).next == s.next
  {
  }

  lemma FailStepNext(s: State, d: nat, closed: set<Path>)
    requires d < |s.downs| && s.downs[d].at < |s.slots|
    ensures FailStep(s, d, closed).next == s.next
  {
  }

  /** Steps that move no job and count nothing. */
  predicate Aside(a: Action) {
    !OnSlot(a) && !a.Scan? && !a.DownStep? && !a.Push? && !a.StartShutdown?
  }

  lemma AsideKeeps(s: State, a: Action)
    requires Enabled(s, a) && Aside(a)
    ensures var t := Apply(s, a);
            && t.slots == s.slots && t.pending == s.pending && t.downs == s.downs && t.log == s.log
            && t.next == s.next && t.tally == s.tally
  {
  }

  lemma OtherConserves(s: State, a: Action, id: nat)
    requires Enabled(s, a) && Conserved(s, id)
    requires Aside(a) || a.StartShutdown?
    ensures Conserved(Apply(s, a), id)
  {
    hide Sum, SlotIds, HasId, RepliesTo;
    if a.StartShutdown? {
      SumAppend(s.downs, Down(0, CloseBuffer, [], 0), DownIds(id));
      SumNone<Job>(HasId(id));
    } else {
      AsideKeeps(s, a);
      hide Apply, DownIds;
    }
  }

  lemma DownsStep(s: State, a: Action)
    requires Enabled(s, a) && DownsOk(s)
    ensures DownsOk(Apply(s, a))
  {
    if OnSlot(a) {
      hide SlotNext, Tallied, SentBy;
    } else if Aside(a) {
      AsideKeeps(s, a);
      hide Apply;
    } else {
      hide Keeping, Matching, Replies;
    }
  }

  lemma {:induction false} ConservedRun(s: State, run: seq<Action>, t: State, id: nat)
    requires Reaches(s, run, t) && DownsOk(s) && Conserved(s, id)
    ensures DownsOk(t) && Conserved(t, id)
    decreases |run|
  {
    hide Apply, Enabled, Conserved, DownsOk;
    if run != [] {
      DownsStep(s, run[0]);
      ConservedStep(s, run[0], id);
      ConservedRun(Apply(s, run[0]), run[1..], t, id);
    }
  }

  lemma InitConserved(workers: nat, maxRetries: nat, atomicUnlink: bool, id: nat)
    ensures Conserved(Init(workers, maxRetries, atomicUnlink), id)
  {
    SumZero(Init(workers, maxRetries, atomicUnlink).slots, SlotIds(id));
  }

  /** In every run, each accepted job is in exactly one of the pending queue, a pump and a shutdown
      and has no answer, or is in none of them and has exactly one answer. */
  lemma DeleteConservation(workers: nat, maxRetries: nat, atomicUnlink: bool, run: seq<Action>, t: State, id: nat)
    requires Reaches(Init(workers, maxRetries, atomicUnlink), run, t)
    ensures id < t.next ==> (InFlight(t, id) == 1 && Answered(t, id) == 0) || (InFlight(t, id) == 0 && Answered(t, id) == 1)
    ensures id >= t.next ==> InFlight(t, id) == 0 && Answered(t, id) == 0
  {
    InitConserved(workers, maxRetries, atomicUnlink, id);
    ConservedRun(Init(workers, maxRetries, atomicUnlink), run, t, id);
    hide InFlight, Answered;
  }

  // ----- First in, first out -----

  ghost predicate InOrder(jobs: seq<Job>, next: nat) {
    && (forall i, k :: 0 <= i < k < |jobs| ==> jobs[i].id < jobs[k].id)
    && (forall j :: j in jobs ==> j.id < next)
  }

  lemma {:induction false} KeepingInOrder(jobs: seq<Job>, p: Path, next: nat)
    requires InOrder(jobs, next)
    ensures InOrder(Keeping(jobs, p), next) && forall j :: j in Keeping(jobs, p) ==> j in jobs
  {
    if jobs != [] {
      assert jobs == [jobs[0]] + jobs[1..];
      KeepingInOrder(jobs[1..], p, next);
      assert forall j :: j in jobs[1..] ==> jobs[0].id < j.id;
    }
  }

  lemma OrderStep(s: State, a: Action)
    requires Enabled(s, a) && InOrder(s.pending, s.next)
    ensures InOrder(Apply(s, a).pending, Apply(s, a).next)
  {
    if a.Scan? {
      KeepingInOrder(s.pending, s.cancels[a.c].path, s.next);
    }
    hide SlotNext, Tallied, SentBy, Matching, Replies, Keeping;
  }

  lemma {:induction false} OrderRun(s: State, run: seq<Action>, t: State)
    requires Reaches(s, run, t) && InOrder(s.pending, s.next)
    ensures InOrder(t.pending, t.next)
    decreases |run|
  {
    hide Apply, Enabled, InOrder;
    if run != [] {
      OrderStep(s, run[0]);
      OrderRun(Apply(s, run[0]), run[1..], t);
    }
  }

  /** In every run a pump takes the job that was accepted first among those pending, and leaves the others. */
  lemma FirstInFirstOut(workers: nat, maxRetries: nat, atomicUnlink: bool, run: seq<Action>, s: State, i: nat)
    requires Reaches(Init(workers, maxRetries, atomicUnlink), run, s) && Enabled(s, Take(i))
    ensures var t := Apply(s, Take(i));
            && t.slots[i].pc.Hand? && !t.slots[i].pc.sent
            && var j := t.slots[i].pc.job;
               && j in s.pending && (forall x :: x in s.pending && x != j ==> j.id < x.id)
               && forall x :: x in t.pending <==> x in s.pending && x != j
  {
    OrderRun(Init(workers, maxRetries, atomicUnlink), run, s);
    hide Reaches;
    assert s.pending == [s.pending[0]] + s.pending[1..];
  }

  // ----- The counters -----

  function Gave(a: DeletePump.Answer): Reply -> nat {
    (r: Reply) => One(r.answer == a)
  }

  /** Answers of one kind still to be given for a batch that is already counted. */
  function Left(ok: bool): Slot -> nat {
    (x: Slot) => if x.pc.Acking? && x.pc.ok == ok then |x.pc.batch| else 0
  }

  function LostSoFar(): Down -> nat {
    (w: Down) => w.lost
  }

  /** `KEYS_TOTAL`, `FAILURES_TOTAL` and `SHUTDOWN_LOST_TOTAL`, between the steps of a batch. */
  ghost predicate TallyOk(s: State) {
    && s.tally.keys == Sum(s.log, Gave(Deleted)) + Sum(s.slots, Left(true))
    && s.tally.failures == s.tally.deleteErrors + Sum(s.log, Gave(Failed)) + Sum(s.slots, Left(false))
    && s.tally.lost + Sum(s.downs, LostSoFar()) == Sum(s.log, Gave(Lost))
  }

  lemma {:induction false} OtherReplies(jobs: seq<Job>, a: DeletePump.Answer, b: DeletePump.Answer)
    requires a != b
    ensures Sum(Replies(jobs, a), Gave(b)) == 0
  {
    if jobs != [] {
      OtherReplies(jobs[1..], a, b);
      assert Replies(jobs, a)[1..] == Replies(jobs[1..], a);
    }
  }

  lemma SlotTally(x: Slot, pending: seq<Job>, epoch: nat, maxRetries: nat, a: Action, t: Tally)
    requires OnSlot(a) && SlotEnabled(x, pending == [], a)
    ensures var y, t' := SlotNext(x, pending, epoch, maxRetries, a), Tallied(t, x, maxRetries, a);
            && t'.keys - t.keys == Left(true)(y) - Left(true)(x) + One(a.Answer? && x.pc.ok)
            && t'.failures - t.failures ==
               t'.deleteErrors - t.deleteErrors + Left(false)(y) - Left(false)(x) + One(a.Answer? && !x.pc.ok)
            && t'.lost == t.lost
  {
  }

  lemma SlotTallyOk(s: State, a: Action)
    requires Enabled(s, a) && OnSlot(a) && TallyOk(s)
    ensures TallyOk(SlotStep(s, a))
  {
    hide Sum, SlotNext, Tallied, SentBy, LostSoFar;
    var x := s.slots[a.i];
    var y := SlotNext(x, s.pending, s.epoch, s.maxRetries, a);
    SlotTally(x, s.pending, s.epoch, s.maxRetries, a, s.tally);
    SumUpdate(s.slots, a.i, y, Left(true));
    SumUpdate(s.slots, a.i, y, Left(false));
    if a.Answer? {
      var r := Reply(x.pc.batch[0].id, if x.pc.ok then Deleted else Failed);
      SumAppend(s.log, r, Gave(Deleted));
      SumAppend(s.log, r, Gave(Failed));
      SumAppend(s.log, r, Gave(Lost));
    }
  }

  lemma ScanTallyOk(s: State, c: nat)
    requires c < |s.cancels| && TallyOk(s)
    ensures TallyOk(ScanStep(s, c))
  {
    hide Sum, Keeping, Matching, Replies, LostSoFar, Gave;
    var k := s.cancels[c];
    if k.at <= |s.slots| {
      var jobs := Matching(if k.at == 0 then s.pending else s.slots[k.at - 1].ledger, k.path);
      CancelReplies(s.log, jobs, Deleted);
      CancelReplies(s.log, jobs, Failed);
      CancelReplies(s.log, jobs, Lost);
      if k.at > 0 {
        var x := s.slots[k.at - 1];
        SumUpdate(s.slots, k.at - 1, x.(ledger := Keeping(x.ledger, k.path)), Left(true));
        SumUpdate(s.slots, k.at - 1, x.(ledger := Keeping(x.ledger, k.path)), Left(false));
      }
    }
  }

  lemma CancelReplies(log: seq<Reply>, jobs: seq<Job>, a: DeletePump.Answer)
    requires a != Cancelled
    ensures Sum(log + Replies(jobs, Cancelled), Gave(a)) == Sum(log, Gave(a))
  {
    SumConcat(log, Replies(jobs, Cancelled), Gave(a));
    OtherReplies(jobs, Cancelled, a);
  }

  lemma FailShape(s: State, d: nat, closed: set<Path>)
    requires d < |s.downs| && s.downs[d].at < |s.slots|
    ensures var t, w := FailStep(s, d, closed), s.downs[d];
            && |t.slots| == |s.slots| && t.slots == s.slots[w.at := t.slots[w.at]]
            && t.slots[w.at].pc == s.slots[w.at].pc
            && |t.downs| == |s.downs| && t.downs == s.downs[d := t.downs[d]]
            && (if w.stage.Failing? && w.jobs != [] && w.stage.cleared then
                  t.log == s.log + [Reply(w.jobs[0].id, Lost)] && t.tally == s.tally && t.downs[d].lost == w.lost + 1
                else
                  && t.log == s.log && t.tally == s.tally.(lost := t.tally.lost)
                  && t.tally.lost + t.downs[d].lost == s.tally.lost + w.lost)
  {
  }

  lemma FailTallyOk(s: State, d: nat, closed: set<Path>)
    requires d < |s.downs| && s.downs[d].at < |s.slots| && TallyOk(s)
    ensures TallyOk(FailStep(s, d, closed))
  {
    hide Sum, FailStep;
    var t, w := FailStep(s, d, closed), s.downs[d];
    FailShape(s, d, closed);
    SumUpdate(s.downs, d, t.downs[d], LostSoFar());
    SumUpdate(s.slots, w.at, t.slots[w.at], Left(true));
    SumUpdate(s.slots, w.at, t.slots[w.at], Left(false));
    if t.log != s.log {
      var r := Reply(w.jobs[0].id, Lost);
      SumAppend(s.log, r, Gave(Deleted));
      SumAppend(s.log, r, Gave(Failed));
      SumAppend(s.log, r, Gave(Lost));
    }
  }

  lemma TallyStep(s: State, a: Action)
    requires Enabled(s, a) && TallyOk(s)
    ensures TallyOk(Apply(s, a))
  {
    hide Sum, Gave, Left, SlotStep, ScanStep, FailStep;
    if OnSlot(a) {
      SlotTallyOk(s, a);
    } else if a.Scan? {
      ScanTallyOk(s, a.c);
    } else if a.DownStep? {
      FailTallyOk(s, a.d, a.closed);
    } else if Aside(a) {
      AsideKeeps(s, a);
      hide Apply;
    } else if a.StartShutdown? {
      SumAppend(s.downs, Down(0, CloseBuffer, [], 0), LostSoFar());
    }
  }

  lemma {:induction false} TallyRun(s: State, run: seq<Action>, t: State)
    requires Reaches(s, run, t) && TallyOk(s)
    ensures TallyOk(t)
    decreases |run|
  {
    hide Apply, Enabled, TallyOk;
    if run != [] {
      TallyStep(s, run[0]);
      TallyRun(Apply(s, run[0]), run[1..], t);
    }
  }

  /** In every run the key counter is the Ok answers given, plus those still to be given for batches
      whose close has returned; the failure counter likewise, plus the errors of single `delete`
      calls; and the shutdown counter lags the BrokenPipe answers by those of slots still being
      failed. */
  lemma CountersCount(workers: nat, maxRetries: nat, atomicUnlink: bool, run: seq<Action>, t: State)
    requires Reaches(Init(workers, maxRetries, atomicUnlink), run, t)
    ensures t.tally.keys == Sum(t.log, Gave(Deleted)) + Sum(t.slots, Left(true))
    ensures t.tally.failures == t.tally.deleteErrors + Sum(t.log, Gave(Failed)) + Sum(t.slots, Left(false))
    ensures t.tally.lost + Sum(t.downs, LostSoFar()) == Sum(t.log, Gave(Lost))
  {
    var s := Init(workers, maxRetries, atomicUnlink);
    SumZero(s.slots, Left(true));
    SumZero(s.slots, Left(false));
    assert TallyOk(s);
    hide Sum, Gave, Left;
    TallyRun(s, run, t);
  }
}
