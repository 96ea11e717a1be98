/** What a shutdown leaves behind: every job it takes is answered, as lost. */
module DeleteShutdown {
  import opened Sums
  import opened DeletePump
  import opened DeleteLaws
  import DeleteExact

  /** Shutdown `d` holds `j` for slot `k` and has yet to answer it. */
  predicate Holds(s: State, d: nat, k: nat, j: Job) {
    && d < |s.downs| && s.downs[d].at == k && j in s.downs[d].jobs
    && (s.downs[d].stage.TakeLedger? || s.downs[d].stage.Failing?)
  }

  ghost predicate HeldOrLost(s: State, d: nat, k: nat, j: Job) {
    Holds(s, d, k, j) || Reply(j.id, Lost) in s.log
  }

  lemma DownsApart(s: State, a: Action, d: nat)
    requires Enabled(s, a) && d < |s.downs| && !(a.DownStep? && a.d == d)
    ensures d < |Apply(s, a).downs| && Apply(s, a).downs[d] == s.downs[d]
  {
    hide SlotNext, Tallied, SentBy, Keeping, Matching, Replies;
  }

  lemma LogGrows(s: State, a: Action, r: Reply)
    requires Enabled(s, a) && r in s.log
    ensures r in Apply(s, a).log
  {
    hide SlotNext, Tallied, SentBy, Keeping, Matching, Replies;
  }

  lemma HeldStep(s: State, a: Action, d: nat, k: nat, j: Job)
    requires Enabled(s, a) && HeldOrLost(s, d, k, j)
    ensures HeldOrLost(Apply(s, a), d, k, j)
  {
    if Reply(j.id, Lost) in s.log {
      LogGrows(s, a, Reply(j.id, Lost));
      hide Apply;
    } else if a.DownStep? && a.d == d {
      var w := s.downs[d];
      assert w.jobs != [] ==> w.jobs == [w.jobs[0]] + w.jobs[1..];
      hide SlotNext;
    } else {
      DownsApart(s, a, d);
      hide Apply, Enabled;
    }
  }

  lemma {:induction false} HeldRun(s: State, run: seq<Action>, t: State, d: nat, k: nat, j: Job)
    requires Reaches(s, run, t) && HeldOrLost(s, d, k, j)
    ensures HeldOrLost(t, d, k, j)
    decreases |run|
  {
    hide Apply, Enabled, HeldOrLost;
    if run != [] {
      HeldStep(s, run[0], d, k, j);
      HeldRun(Apply(s, run[0]), run[1..], t, d, k, j);
    }
  }

  lemma {:induction false} ReplyCounts(log: seq<Reply>, r: Reply)
    requires r in log
    ensures Sum(log, RepliesTo(r.id)) > 0
  {
    var k :| 0 <= k < |log| && log[k] == r;
    SumAtLeast(log, RepliesTo(r.id), k);
  }

  /** The jobs a step of a shutdown takes: all that is pending, then the ledger of its slot. */
  function Taken(s: State, d: nat): seq<Job>
    requires d < |s.downs| && s.downs[d].at < |s.slots|
  {
    match s.downs[d].stage
    case TakePending => s.pending
    case TakeLedger => s.slots[s.downs[d].at].ledger
    case _ => []
  }

  /** In every run: a shutdown's step empties the pending queue, and then its slot's ledger; and once the
      shutdown has passed the slot, each job it took there is answered exactly once, as lost. */
  lemma ShutdownAnswers(workers: nat, maxRetries: nat, atomicUnlink: bool, before: seq<Action>, s: State,
                        d: nat, closed: set<Path>, after: seq<Action>, t: State)
    requires Reaches(Init(workers, maxRetries, atomicUnlink), before, s) && Enabled(s, DownStep(d, closed))
    requires Reaches(Apply(s, DownStep(d, closed)), after, t) && d < |t.downs| && t.downs[d].at > s.downs[d].at
    ensures s.downs[d].stage.TakePending? ==> Apply(s, DownStep(d, closed)).pending == []
    ensures s.downs[d].stage.TakeLedger? ==> Apply(s, DownStep(d, closed)).slots[s.downs[d].at].ledger == []
    ensures forall j :: j in Taken(s, d) ==> Reply(j.id, Lost) in t.log && Answered(t, j.id) == 1
  {
    var s1, k := Apply(s, DownStep(d, closed)), s.downs[d].at;
    forall j | j in Taken(s, d) ensures Reply(j.id, Lost) in t.log && Answered(t, j.id) == 1 {
      assert Holds(s1, d, k, j);
      hide Apply, Enabled, Reaches, Sum;
      HeldRun(s1, after, t, d, k, j);
      ReplyCounts(t.log, Reply(j.id, Lost));
      OnceAtMost(workers, maxRetries, atomicUnlink, before, s, DownStep(d, closed), after, t, j.id);
    }
  }

  lemma OnceAtMost(workers: nat, maxRetries: nat, atomicUnlink: bool, before: seq<Action>, s: State,
                   a: Action, after: seq<Action>, t: State, id: nat)
    requires Reaches(Init(workers, maxRetries, atomicUnlink), before, s) && Enabled(s, a)
    requires Reaches(Apply(s, a), after, t)
    ensures Answered(t, id) <= 1
  {
    hide Apply, Enabled;
    assert ([a] + after)[1..] == after;
    assert Reaches(s, [a] + after, t);
    DeleteExact.Join(Init(workers, maxRetries, atomicUnlink), before, s, [a] + after, t);
    DeleteConservation(workers, maxRetries, atomicUnlink, before + ([a] + after), t, id);
  }

  // ----- Nothing new -----

  lemma ClosedStep(s: State, a: Action)
    requires Enabled(s, a) && !s.accepting
    ensures !Apply(s, a).accepting && Apply(s, a).next + |Apply(s, a).entering| == s.next + |s.entering|
  {
    hide SlotNext, Tallied, SentBy, Keeping, Matching, Replies;
  }

  lemma {:induction false} ClosedRun(s: State, run: seq<Action>, t: State)
    requires Reaches(s, run, t) && !s.accepting
    ensures !t.accepting && t.next + |t.entering| == s.next + |s.entering|
    decreases |run|
  {
    hide Apply, Enabled;
    if run != [] {
      ClosedStep(s, run[0]);
      ClosedRun(Apply(s, run[0]), run[1..], t);
    }
  }

  /** Once a shutdown has begun no delete is admitted in any continuation: the only new jobs are those of calls
      that had seen the deleter accepting. */
  lemma NothingNewAfterShutdown(s: State, run: seq<Action>, t: State, p: Path, marks: bool)
    requires Reaches(Apply(s, StartShutdown), run, t)
    ensures !Enabled(t, Admit(p, marks)) && t.next + |t.entering| == s.next + |s.entering|
  {
    ClosedRun(Apply(s, StartShutdown), run, t);
  }
}
