/** How often the deleter closes a batch before it gives up, counted in the run. */
module DeleteRetries {
  import opened DeletePump

  /** The batch that pump `i` is closing holds `j`. */
  predicate ClosingHolds(s: State, i: nat, j: Job) {
    i < |s.slots| && s.slots[i].pc.Closing? && j in s.slots[i].pc.batch
  }

  /** One more step for the count below. */
  function Counting(s: State, a: Action, i: nat, j: Job, n: nat): nat {
    if a == CheckLedger(i) then 0
    else if a.CloseErr? && a.i == i && ClosingHolds(s, i, j) then n + 1
    else n
  }

  /** The failed closes in the run of batches of pump `i` that held `j`, since the pump last came to its ledger
      from the queue; `n` are from before the run. */
  ghost function FailedCloses(s: State, run: seq<Action>, t: State, i: nat, j: Job, n: nat): nat
    requires Reaches(s, run, t)
    decreases |run|
  {
    if run == [] then n
    else FailedCloses(Apply(s, run[0]), run[1..], t, i, j, Counting(s, run[0], i, j, n))
  }

  /** Where pump `x` has failed to close `j` so far `n` times. */
  predicate Counted(x: Slot, maxRetries: nat, j: Job, n: nat) {
    && (x.pc.FlushTop? && j in x.ledger ==> x.pc.attempt == n <= maxRetries)
    && (x.pc.Closing? ==> x.ledger == [] && (j in x.pc.batch ==> x.pc.attempt == n <= maxRetries))
    && (x.pc.Acking? ==> j in x.pc.batch ==> if x.pc.ok then n <= maxRetries else n == maxRetries + 1)
  }

  ghost predicate RetryInv(s: State, i: nat, j: Job, n: nat) {
    i < |s.slots| ==> Counted(s.slots[i], s.maxRetries, j, n)
  }

  lemma SlotCounted(x: Slot, pending: seq<Job>, epoch: nat, maxRetries: nat, a: Action, j: Job, n: nat)
    requires OnSlot(a) && SlotEnabled(x, pending == [], a) && Counted(x, maxRetries, j, n)
    ensures var m := if a.CheckLedger? then 0 else if a.CloseErr? && j in x.pc.batch then n + 1 else n;
            Counted(SlotNext(x, pending, epoch, maxRetries, a), maxRetries, j, m)
  {
  }

  lemma {:induction false} KeepingIsPart(jobs: seq<Job>, p: Path, j: Job)
    requires j in Keeping(jobs, p)
    ensures j in jobs
  {
    if jobs[0].path == p || j != jobs[0] {
      KeepingIsPart(jobs[1..], p, j);
    }
  }

  /** Whoever else touches the slot only takes jobs out of the ledger. */
  lemma OthersTake(s: State, a: Action, i: nat, j: Job)
    requires Enabled(s, a) && i < |s.slots| && !(OnSlot(a) && a.i == i)
    ensures var t := Apply(s, a);
            && |t.slots| == |s.slots| && t.slots[i].pc == s.slots[i].pc && t.maxRetries == s.maxRetries
            && (s.slots[i].ledger == [] ==> t.slots[i].ledger == [])
            && (j in t.slots[i].ledger ==> j in s.slots[i].ledger)
  {
    if a.Scan? && 0 < s.cancels[a.c].at <= |s.slots| && s.cancels[a.c].at - 1 == i {
      var p := s.cancels[a.c].path;
      if j in Keeping(s.slots[i].ledger, p) {
        KeepingIsPart(s.slots[i].ledger, p, j);
      }
    }
    hide SlotNext, Tallied, SentBy, Matching, Replies;
  }

  lemma SizesKept(s: State, a: Action)
    requires Enabled(s, a)
    ensures |Apply(s, a).slots| == |s.slots| && Apply(s, a).maxRetries == s.maxRetries
  {
    hide SlotNext, Tallied, SentBy, Keeping, Matching, Replies;
    if OnSlot(a) {
      hide ScanStep, FailStep;
    } else if a.Scan? {
      hide SlotStep, FailStep;
    } else {
      hide SlotStep, ScanStep;
    }
  }

  lemma OwnStep(s: State, a: Action, j: Job, n: nat)
    requires Enabled(s, a) && OnSlot(a) && Counted(s.slots[a.i], s.maxRetries, j, n)
    ensures Counted(SlotStep(s, a).slots[a.i], s.maxRetries, j, Counting(s, a, a.i, j, n))
  {
    SlotCounted(s.slots[a.i], s.pending, s.epoch, s.maxRetries, a, j, n);
    hide SlotNext, Tallied, SentBy, Counted;
  }

  lemma RetryStep(s: State, a: Action, i: nat, j: Job, n: nat)
    requires Enabled(s, a) && RetryInv(s, i, j, n)
    ensures RetryInv(Apply(s, a), i, j, Counting(s, a, i, j, n)) && |Apply(s, a).slots| == |s.slots|
    ensures Apply(s, a).maxRetries == s.maxRetries
  {
    SizesKept(s, a);
    if i < |s.slots| {
      if OnSlot(a) && a.i == i {
        OwnStep(s, a, j, n);
        hide SlotStep, Counted, SlotEnabled;
      } else {
        OthersTake(s, a, i, j);
        hide Apply, Enabled;
      }
    } else {
      hide Apply, Enabled;
    }
  }

  lemma {:induction false} RetryRun(s: State, run: seq<Action>, t: State, i: nat, j: Job, n: nat)
    requires Reaches(s, run, t) && RetryInv(s, i, j, n)
    ensures RetryInv(t, i, j, FailedCloses(s, run, t, i, j, n)) && t.maxRetries == s.maxRetries
    decreases |run|
  {
    hide Apply, Enabled, RetryInv, Counting;
    if run != [] {
      RetryStep(s, run[0], i, j, n);
      RetryRun(Apply(s, run[0]), run[1..], t, i, j, Counting(s, run[0], i, j, n));
    }
  }

  /** In every run: a failed close of a batch that holds the job gives it up if and only if it is failure
      number `maxRetries` + 1 of such a batch since the pump came to its ledger. Any earlier one puts the job
      back into the ledger, with no answer, tombstone or counter touched. */
  lemma RetriedExactly(workers: nat, maxRetries: nat, atomicUnlink: bool, run: seq<Action>, s: State,
                       i: nat, landed: set<Path>, j: Job)
    requires Reaches(Init(workers, maxRetries, atomicUnlink), run, s)
    requires Enabled(s, CloseErr(i, landed)) && j in s.slots[i].pc.batch
    ensures var n := FailedCloses(Init(workers, maxRetries, atomicUnlink), run, s, i, j, 0);
            var t := Apply(s, CloseErr(i, landed));
            && n <= maxRetries && t.log == s.log && t.tombs == s.tombs
            && (n < maxRetries <==> j in t.slots[i].ledger && t.slots[i].pc.FlushTop? && t.tally == s.tally)
            && (n == maxRetries <==> t.slots[i].pc.Acking? && !t.slots[i].pc.ok && j in t.slots[i].pc.batch)
  {
    RetryRun(Init(workers, maxRetries, atomicUnlink), run, s, i, j, 0);
    hide Reaches, FailedCloses;
  }

  /** In every run: the answer a pump gives is Failed if and only if exactly `maxRetries` + 1 closes of batches
      with that job have failed since the pump came to its ledger. */
  lemma FailedExactly(workers: nat, maxRetries: nat, atomicUnlink: bool, run: seq<Action>, s: State, i: nat)
    requires Reaches(Init(workers, maxRetries, atomicUnlink), run, s) && Enabled(s, Answer(i))
    ensures var j, t := s.slots[i].pc.batch[0], Apply(s, Answer(i));
            var n := FailedCloses(Init(workers, maxRetries, atomicUnlink), run, s, i, j, 0);
            n <= maxRetries + 1 && t.log == s.log + [Reply(j.id, if n == maxRetries + 1 then Failed else Deleted)]
  {
    RetryRun(Init(workers, maxRetries, atomicUnlink), run, s, i, s.slots[i].pc.batch[0], 0);
    hide Reaches, FailedCloses;
  }
}
