/** What an answer says about the backend: a delete answered Ok has happened, and once every delete of a path
    has been answered Ok a new object of that path is safe. */
module DeleteBackend {
  import opened Sums
  import opened DeletePump
  import opened DeleteLaws
  import opened DeleteCancel

  // ----- An Ok answer: the object is gone -----

  /** Jobs of the slot whose keys have been handed to opendal and not yet closed. */
  function HandedOver(x: Slot): seq<Job> {
    x.ledger + match x.pc
               case Hand(job, sent) => if sent then [job] else []
               case Closing(batch, _) => batch
               case _ => []
  }

  /** Every job `id` here is a delete of `p`. */
  predicate IdIsPath(jobs: seq<Job>, id: nat, p: Path) {
    forall j :: j in jobs && j.id == id ==> j.path == p
  }

  /** Job `id` has the key still in the slot's buffer, or the object is gone; with an Ok to be given, it is. */
  ghost predicate SlotOwes(x: Slot, gone: bool, id: nat, p: Path) {
    && IdIsPath(x.ledger, id, p) && IdIsPath(InPc(x.pc), id, p)
    && (forall j :: j in HandedOver(x) && j.id == id ==> gone || p in x.buffer)
    && (x.pc.Acking? && x.pc.ok ==> forall j :: j in x.pc.batch && j.id == id ==> gone)
  }

  ghost predicate Owes(s: State, id: nat, p: Path) {
    && id < s.next && IdIsPath(s.pending, id, p)
    && (forall i :: 0 <= i < |s.slots| ==> SlotOwes(s.slots[i], p !in s.backend, id, p))
    && (Reply(id, Deleted) in s.log ==> p !in s.backend)
  }

  lemma SlotOwesNext(x: Slot, pending: seq<Job>, epoch: nat, maxRetries: nat, a: Action, gone: bool, id: nat, p: Path)
    requires OnSlot(a) && SlotEnabled(x, pending == [], a) && SlotOwes(x, gone, id, p) && IdIsPath(pending, id, p)
    ensures SlotOwes(SlotNext(x, pending, epoch, maxRetries, a), gone || p in SentBy(x, a), id, p)
  {
    if a.Answer? {
      assert forall j :: j in x.pc.batch[1..] ==> j in x.pc.batch;
    }
  }

  lemma SlotOwesMore(x: Slot, gone: bool, id: nat, p: Path)
    requires SlotOwes(x, gone, id, p)
    ensures SlotOwes(x, true, id, p)
  {
  }

  lemma PumpOwes(s: State, a: Action, id: nat, p: Path)
    requires Enabled(s, a) && OnSlot(a) && Owes(s, id, p)
    ensures Owes(Apply(s, a), id, p)
  {
    var t, x := Apply(s, a), s.slots[a.i];
    SlotOwesNext(x, s.pending, s.epoch, s.maxRetries, a, p !in s.backend, id, p);
    StepBackend(s, a);
    forall i | 0 <= i < |s.slots| && p !in t.backend ensures SlotOwes(s.slots[i], true, id, p) {
      SlotOwesMore(s.slots[i], p !in s.backend, id, p);
    }
    hide SlotNext, SentBy, Tallied;
    if a.Answer? && x.pc.batch[0].id == id && x.pc.ok {
      assert x.pc.batch[0] in x.pc.batch;
    }
    hide SlotOwes, SlotEnabled;
    assert t.slots == s.slots[a.i := t.slots[a.i]];
  }

  lemma {:induction false} NeverDeleted(jobs: seq<Job>, a: DeletePump.Answer, id: nat)
    requires a != Deleted
    ensures Reply(id, Deleted) !in Replies(jobs, a)
  {
    if jobs != [] {
      NeverDeleted(jobs[1..], a, id);
    }
  }

  lemma KeepingOwes(x: Slot, q: Path, gone: bool, id: nat, p: Path)
    requires SlotOwes(x, gone, id, p)
    ensures SlotOwes(x.(ledger := Keeping(x.ledger, q)), gone, id, p)
  {
    KeptAreOld(x.ledger, q);
    assert forall j :: j in HandedOver(x.(ledger := Keeping(x.ledger, q))) ==> j in HandedOver(x);
  }

  lemma ScanOwes(s: State, c: nat, id: nat, p: Path)
    requires c < |s.cancels| && Owes(s, id, p)
    ensures Owes(ScanStep(s, c), id, p)
  {
    var k := s.cancels[c];
    KeptAreOld(s.pending, k.path);
    NeverDeleted(Matching(s.pending, k.path), Cancelled, id);
    if 0 < k.at <= |s.slots| {
      KeepingOwes(s.slots[k.at - 1], k.path, p !in s.backend, id, p);
      NeverDeleted(Matching(s.slots[k.at - 1].ledger, k.path), Cancelled, id);
    }
    hide SlotOwes, Keeping, Matching, Replies;
  }

  lemma ClosedOwes(x: Slot, closed: set<Path>, gone: bool, id: nat, p: Path)
    requires SlotOwes(x, gone, id, p)
    ensures SlotOwes(x.(buffer := x.buffer - closed), gone || p in closed, id, p)
  {
    assert HandedOver(x.(buffer := x.buffer - closed)) == HandedOver(x);
  }

  lemma EmptiedOwes(x: Slot, gone: bool, id: nat, p: Path)
    requires SlotOwes(x, gone, id, p)
    ensures SlotOwes(x.(ledger := []), gone, id, p)
  {
    assert forall j :: j in HandedOver(x.(ledger := [])) ==> j in HandedOver(x);
  }

  lemma DownOwes(s: State, d: nat, closed: set<Path>, id: nat, p: Path)
    requires d < |s.downs| && s.downs[d].at < |s.slots| && FailEnabled(s, d, closed) && Owes(s, id, p)
    ensures Owes(FailStep(s, d, closed), id, p)
  {
    var t, w := FailStep(s, d, closed), s.downs[d];
    ClosedOwes(s.slots[w.at], closed, p !in s.backend, id, p);
    EmptiedOwes(s.slots[w.at], p !in s.backend, id, p);
    forall i | 0 <= i < |s.slots| ensures SlotOwes(s.slots[i], true, id, p) {
      SlotOwesMore(s.slots[i], p !in s.backend, id, p);
    }
    hide SlotOwes, IdIsPath;
    assert p !in t.backend || p in s.backend;
  }

  lemma OtherOwes(s: State, a: Action, id: nat, p: Path)
    requires Enabled(s, a) && !OnSlot(a) && Owes(s, id, p) && a != Create(p)
    ensures Owes(Apply(s, a), id, p)
  {
    if a.Scan? {
      ScanOwes(s, a.c, id, p);
      hide ScanStep, Owes;
    } else if a.DownStep? {
      DownOwes(s, a.d, a.closed, id, p);
      hide FailStep, Owes;
    } else {
      hide SlotOwes;
    }
  }

  lemma {:induction false} OwesRun(s: State, run: seq<Action>, t: State, id: nat, p: Path)
    requires Reaches(s, run, t) && Owes(s, id, p) && Create(p) !in run
    ensures Owes(t, id, p)
    decreases |run|
  {
    hide Apply, Enabled, Owes;
    if run != [] {
      assert run == [run[0]] + run[1..];
      if OnSlot(run[0]) {
        PumpOwes(s, run[0], id, p);
      } else {
        OtherOwes(s, run[0], id, p);
      }
      OwesRun(Apply(s, run[0]), run[1..], t, id, p);
    }
  }

  /** A job that is nowhere in flight is in no list. */
  lemma NotInFlight(s: State, id: nat)
    requires InFlight(s, id) == 0 && Answered(s, id) == 0
    ensures forall j :: j in s.pending ==> j.id != id
    ensures forall i, j :: 0 <= i < |s.slots| && (j in s.slots[i].ledger || j in InPc(s.slots[i].pc)) ==> j.id != id
    ensures forall r :: r in s.log ==> r.id != id
  {
    hide Sum;
    forall j | j in s.pending ensures j.id != id {
      if j.id == id {
        MemberCounts(s.pending, j);
      }
    }
    forall i, j | 0 <= i < |s.slots| && (j in s.slots[i].ledger || j in InPc(s.slots[i].pc)) ensures j.id != id {
      if j.id == id {
        SumAtLeast(s.slots, SlotIds(id), i);
        if j in s.slots[i].ledger {
          MemberCounts(s.slots[i].ledger, j);
        } else {
          MemberCounts(InPc(s.slots[i].pc), j);
        }
      }
    }
    forall r | r in s.log ensures r.id != id {
      if r.id == id {
        var k :| 0 <= k < |s.log| && s.log[k] == r;
        SumAtLeast(s.log, RepliesTo(id), k);
      }
    }
  }

  lemma PushedOwes(s: State, k: nat)
    requires k < |s.entering| && InFlight(s, s.next) == 0 && Answered(s, s.next) == 0
    ensures Owes(PushStep(s, k), s.next, s.entering[k].path)
  {
    NotInFlight(s, s.next);
    hide InFlight, Answered;
    var t := PushStep(s, k);
    forall i | 0 <= i < |s.slots| ensures SlotOwes(s.slots[i], s.entering[k].path !in s.backend, s.next, s.entering[k].path) {
      assert forall j :: j in HandedOver(s.slots[i]) ==> j in s.slots[i].ledger || j in InPc(s.slots[i].pc);
    }
    hide SlotOwes;
  }

  /** In every run: from the push of a delete on, as long as its path is not created again, an Ok answer to it
      means that the object is gone. */
  lemma DeletedMeansGone(workers: nat, maxRetries: nat, atomicUnlink: bool, before: seq<Action>, s: State,
                         k: nat, after: seq<Action>, t: State)
    requires Reaches(Init(workers, maxRetries, atomicUnlink), before, s) && Enabled(s, Push(k))
    requires Reaches(Apply(s, Push(k)), after, t) && Create(s.entering[k].path) !in after
    ensures Reply(s.next, Deleted) in t.log ==> s.entering[k].path !in t.backend
  {
    DeleteConservation(workers, maxRetries, atomicUnlink, before, s, s.next);
    PushedOwes(s, k);
    OwesRun(Apply(s, Push(k)), after, t, s.next, s.entering[k].path);
    hide Reaches;
  }

  // ----- Every delete answered Ok: a new object is safe -----

  /** A buffered key of the path has a job that waits for its close. */
  ghost predicate BufferBacked(x: Slot, p: Path) {
    p in x.buffer ==> exists j :: j in HandedOver(x) && j.path == p
  }

  ghost predicate Backed(s: State, p: Path) {
    && (forall i :: 0 <= i < |s.slots| ==> BufferBacked(s.slots[i], p))
    && (forall k :: k in s.cancels ==> k.path != p) && s.downs == []
  }

  /** The step neither cancels the path, nor shuts the deleter down, nor gives a batch up. */
  predicate Ordinary(s: State, a: Action, p: Path)
    requires Enabled(s, a)
  {
    && a != StartCancel(p) && !a.StartShutdown?
    && (a.CloseErr? ==> s.slots[a.i].pc.attempt < s.maxRetries)
  }

  ghost predicate ReachesOrdinarily(s: State, run: seq<Action>, t: State, p: Path)
    decreases |run|
  {
    if run == [] then s == t
    else Enabled(s, run[0]) && Ordinary(s, run[0], p) && ReachesOrdinarily(Apply(s, run[0]), run[1..], t, p)
  }

  lemma SlotBacked(x: Slot, pending: seq<Job>, epoch: nat, maxRetries: nat, a: Action, p: Path)
    requires OnSlot(a) && SlotEnabled(x, pending == [], a) && BufferBacked(x, p)
    requires a.CloseErr? ==> x.pc.attempt < maxRetries
    ensures BufferBacked(SlotNext(x, pending, epoch, maxRetries, a), p)
  {
    var y := SlotNext(x, pending, epoch, maxRetries, a);
    if p in x.buffer {
      var j :| j in HandedOver(x) && j.path == p;
      assert a.CloseOk? || j in HandedOver(y);
    }
    if a.Delete? && x.pc.job.path == p {
      assert x.pc.job in HandedOver(y);
    }
  }

  lemma {:induction false} OthersKept(jobs: seq<Job>, q: Path, j: Job)
    requires j in jobs && j.path != q
    ensures j in Keeping(jobs, q)
  {
    if j != jobs[0] {
      OthersKept(jobs[1..], q, j);
    }
  }

  lemma ScanBacked(x: Slot, q: Path, p: Path)
    requires BufferBacked(x, p) && q != p
    ensures BufferBacked(x.(ledger := Keeping(x.ledger, q)), p)
  {
    if p in x.buffer {
      var j :| j in HandedOver(x) && j.path == p;
      if j in x.ledger {
        OthersKept(x.ledger, q, j);
      }
      assert j in HandedOver(x.(ledger := Keeping(x.ledger, q)));
    }
  }

  lemma BackedStep(s: State, a: Action, p: Path)
    requires Enabled(s, a) && Ordinary(s, a, p) && Backed(s, p)
    ensures Backed(Apply(s, a), p)
  {
    if OnSlot(a) {
      SlotBacked(s.slots[a.i], s.pending, s.epoch, s.maxRetries, a, p);
      hide SlotNext, SentBy, Tallied, BufferBacked;
    } else if a.Scan? {
      var k := s.cancels[a.c];
      assert k in s.cancels;
      if 0 < k.at <= |s.slots| {
        ScanBacked(s.slots[k.at - 1], k.path, p);
      }
      hide Keeping, Matching, Replies, BufferBacked;
    } else {
      hide BufferBacked;
    }
  }

  lemma {:induction false} BackedRun(s: State, run: seq<Action>, t: State, p: Path)
    requires ReachesOrdinarily(s, run, t, p) && Backed(s, p)
    ensures Backed(t, p)
    decreases |run|
  {
    hide Apply, Enabled, Backed, Ordinary;
    if run != [] {
      BackedStep(s, run[0], p);
      BackedRun(Apply(s, run[0]), run[1..], t, p);
    }
  }

  /** No delete of the path is on its way. */
  ghost predicate NoneInFlight(s: State, p: Path) {
    && (forall r :: r in s.entering ==> r.path != p) && NoneFor(s.pending, p)
    && forall i :: 0 <= i < |s.slots| ==> NoneFor(s.slots[i].ledger, p) && NoneFor(InPc(s.slots[i].pc), p)
  }

  /** In every run without a cancel of the path, a shutdown or a batch given up: once no delete of the path is on
      its way, an object created there survives every continuation that does not delete it again. */
  lemma AnsweredMeansSafe(workers: nat, maxRetries: nat, atomicUnlink: bool, run: seq<Action>, t: State, p: Path)
    requires ReachesOrdinarily(Init(workers, maxRetries, atomicUnlink), run, t, p) && NoneInFlight(t, p)
    ensures Safe(t, p)
  {
    BackedRun(Init(workers, maxRetries, atomicUnlink), run, t, p);
    hide ReachesOrdinarily;
    forall i | 0 <= i < |t.slots| ensures SlotSafe(t.slots[i], p) {
      var x := t.slots[i];
      assert forall j :: j in HandedOver(x) ==> j in x.ledger || j in InPc(x.pc);
    }
  }
}
