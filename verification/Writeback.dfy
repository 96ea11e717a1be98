/** The upload worker of `src/writeback.rs` with the enqueue sites of `src/lib.rs`: a channel, a
    delay queue and upload tasks, a set of paths in flight, and (in off mode) one pending buffer per
    path. `history`, `flushedAt`, `stuck`, `orphaned`, `retries` and a task's
    `tried` only record what happened; no step consults them. */
module Writeback {
  import opened Wrappers
  import opened Crc32c
  import opened Sums

  type Path = string
  type bytes = seq<byte>

  const MAX_REENQUEUE_CYCLES: nat := 10
  const ATTEMPTS: nat := 5

  datatype Task = Task(path: Path, payload: bytes, cycle: nat, tried: nat)

  /** `Matched`: uploaded, and compared with the buffer. `Dropped`: the buffer has been dropped too, and
      only the claim is left. */
  datatype Place = Channel | Waiting | Uploading(attempt: nat) | Matched | Dropped

  datatype Live = Live(task: Task, place: Place)

  /** `disk`: uploads read a cache file, which may vanish. */
  datatype State = State(
    disk: bool, live: seq<Live>, pending: set<Path>, registered: set<Path>,
    backend: map<Path, bytes>, pendingCount: nat,
    snapshots: map<Path, nat>, history: map<Path, seq<bytes>>, flushedAt: map<Path, nat>,
    stuck: set<Path>, orphaned: set<Path>, retries: nat)

  datatype Action =
    | Write(p: Path, data: bytes)
    | Flush(p: Path)
    | Snapshot(p: Path)                // Flush in two steps: copy the buffer,
    | Send(p: Path)                    // then claim the path and enqueue
    | Disown(p: Path)                  // forget, unlink or symlink cleanup drops the claim
    | Drain(i: nat)                    // channel to delay queue
    | Start(i: nat)                    // the delay has passed
    | Vanish(i: nat)                   // it has, but the cache file is gone
    | Fail(i: nat, landed: bool)       // an error or a timeout, with or without effect
    | Succeed(i: nat)                  // uploaded, compared and forgotten in one step
    | Compare(i: nat)                  // Succeed in three steps: compare,
    | DropBuffer(i: nat)               // drop the buffer,
    | Unclaim(i: nat)                  // drop the claim

  predicate OnTask(a: Action) {
    || a.Drain? || a.Start? || a.Vanish? || a.Fail? || a.Succeed? || a.Compare? || a.DropBuffer? || a.Unclaim?
  }

  function SatPred(n: nat): nat {
    if n == 0 then 0 else n - 1
  }

  /** The versions of a path's buffer so far. */
  function Versions(s: State, p: Path): seq<bytes> {
    if p in s.history then s.history[p] else []
  }

  function Newest(s: State, p: Path): nat {
    SatPred(|Versions(s, p)|)
  }

  /** The bytes of the path's buffer. */
  function Buffer(s: State, p: Path): bytes {
    if Versions(s, p) == [] then [] else Versions(s, p)[Newest(s, p)]
  }

  predicate TaskEnabled(s: State, l: Live, a: Action)
    requires OnTask(a)
  {
    match a
    case Drain(_) => l.place.Channel?
    case Start(_) => l.place.Waiting?
    case Vanish(_) => l.place.Waiting? && s.disk
    case Fail(_, _) => l.place.Uploading?
    case Succeed(_) => l.place.Uploading?
    case Compare(_) => l.place.Uploading?
    case DropBuffer(_) => l.place.Matched?
    case Unclaim(_) => l.place.Dropped?
  }

  predicate Enabled(s: State, a: Action) {
    if OnTask(a) then a.i < |s.live| && TaskEnabled(s, s.live[a.i], a)
    else
      match a
      case Flush(p) => p in s.history
      case Snapshot(p) => p in s.history && p !in s.snapshots
      case Send(p) => p in s.snapshots && p in s.history && s.snapshots[p] < |s.history[p]|
      case _ => true
  }

  /** A buffer that has moved on since the upload began. */
  predicate MovedOn(s: State, t: Task) {
    !s.disk && t.path in s.registered && Buffer(s, t.path) != t.payload
  }

  /** The upload of a buffer that moved on, from the start. */
  function Again(s: State, t: Task): Live {
    Live(Task(t.path, Buffer(s, t.path), 0, 0), Channel)
  }

  predicate GivesUp(l: Live) {
    l.place.Uploading? && l.place.attempt + 1 >= ATTEMPTS && l.task.cycle + 1 > MAX_REENQUEUE_CYCLES
  }

  predicate Recycles(l: Live) {
    l.place.Uploading? && l.place.attempt + 1 >= ATTEMPTS && l.task.cycle + 1 <= MAX_REENQUEUE_CYCLES
  }

  /** After a failed attempt that is not the last: again in this cycle, or in the next one. */
  function Retried(l: Live): Live
    requires l.place.Uploading?
  {
    var t := l.task.(tried := l.task.tried + 1);
    if l.place.attempt + 1 < ATTEMPTS then Live(t, Uploading(l.place.attempt + 1))
    else Live(t.(cycle := t.cycle + 1), Channel)
  }

  /** Where the upload goes next, or nowhere if it ends. */
  function Next(s: State, l: Live, a: Action): Option<Live>
    requires OnTask(a) && TaskEnabled(s, l, a)
  {
    match a
    case Drain(_) => Some(l.(place := Waiting))
    case Start(_) => Some(l.(place := Uploading(0)))
    case Vanish(_) => None
    case Fail(_, _) => if GivesUp(l) then None else Some(Retried(l))
    case Succeed(_) => if MovedOn(s, l.task) then Some(Again(s, l.task)) else None
    case Compare(_) =>
      if MovedOn(s, l.task) then Some(Again(s, l.task)) else Some(l.(place := Matched))
    case DropBuffer(_) => Some(l.(place := Dropped))
    case Unclaim(_) => None
  }

  predicate Lands(a: Action) {
    a.Succeed? || a.Compare? || (a.Fail? && a.landed)
  }

  /** The step drops the buffer. */
  predicate Drops(s: State, l: Live, a: Action) {
    a.DropBuffer? || (a.Succeed? && !MovedOn(s, l.task))
  }

  /** The step drops the claim. */
  predicate Frees(s: State, l: Live, a: Action) {
    a.Unclaim? || (a.Succeed? && !MovedOn(s, l.task)) || (a.Fail? && GivesUp(l))
  }

  /** The step takes the upload out of the worker's count. */
  predicate Uncounts(l: Live, a: Action) {
    a.Vanish? || a.Succeed? || a.Compare? || (a.Fail? && GivesUp(l))
  }

  function TaskStep(s: State, a: Action): State
    requires OnTask(a) && Enabled(s, a)
  {
    var l := s.live[a.i];
    var next, p := Next(s, l, a), l.task.path;
    s.(live := if next.Some? then s.live[a.i := next.value] else Without(s.live, a.i),
       pending := if Frees(s, l, a) then s.pending - {p} else s.pending,
       registered := if Drops(s, l, a) then s.registered - {p} else s.registered,
       backend := if Lands(a) then s.backend[p := l.task.payload] else s.backend,
       pendingCount := if a.Drain? then s.pendingCount + 1
                       else if Uncounts(l, a) then SatPred(s.pendingCount) else s.pendingCount,
       stuck := if a.Fail? && GivesUp(l) then s.stuck + {p} else s.stuck,
       orphaned := if a.Vanish? then s.orphaned + {p} else s.orphaned,
       retries := if a.Fail? && Recycles(l) then s.retries + 1 else s.retries)
  }

  /** Claim the path for one task, unless it is claimed already. */
  function Enqueue(s: State, p: Path, payload: bytes): State {
    if p in s.pending then s
    else s.(pending := s.pending + {p}, live := s.live + [Live(Task(p, payload, 0, 0), Channel)],
            stuck := s.stuck - {p})
  }

  function Max(a: nat, b: nat): nat {
    if a < b then b else a
  }

  /** The version a flush of the path at version `n` leaves as flushed. */
  function FlushedWith(s: State, p: Path, n: nat): nat {
    if p in s.flushedAt then Max(s.flushedAt[p], n) else n
  }

  function Apply(s: State, a: Action): State
    requires Enabled(s, a)
  {
    if OnTask(a) then TaskStep(s, a)
    else
      match a
      case Write(p, data) =>
        s.(history := s.history[p := Versions(s, p) + [data]], registered := s.registered + {p})
      case Flush(p) =>
        Enqueue(s, p, Buffer(s, p)).(flushedAt := s.flushedAt[p := FlushedWith(s, p, Newest(s, p))])
      case Snapshot(p) => s.(snapshots := s.snapshots[p := Newest(s, p)])
      case Send(p) =>
        var at := s.snapshots[p];
        Enqueue(s, p, s.history[p][at]).(snapshots := s.snapshots - {p},
          flushedAt := s.flushedAt[p := FlushedWith(s, p, at)])
      case Disown(p) => s.(pending := s.pending - {p}, orphaned := s.orphaned - {p})
      case _ => s
  }

  function Init(disk: bool): State {
    State(disk, [], {}, {}, map[], 0, map[], map[], map[], {}, {}, 0)
  }

  ghost predicate Reaches(s: State, run: seq<Action>, t: State)
    decreases |run|
  {
    if run == [] then s == t else Enabled(s, run[0]) && Reaches(Apply(s, run[0]), run[1..], t)
  }

  /** The path an action is about. */
  function PathOf(s: State, a: Action): Path
    requires Enabled(s, a)
  {
    if OnTask(a) then s.live[a.i].task.path else a.p
  }

  // ----- The split steps and the whole ones -----

  /** Copying the buffer and claiming the path, with nothing in between, is a flush. */
  lemma SplitFlushIsFlush(s: State, p: Path)
    requires Enabled(s, Snapshot(p)) && s.history[p] != []
    ensures var s1 := Apply(s, Snapshot(p));
            Enabled(s1, Send(p)) && Enabled(s, Flush(p)) && Apply(s1, Send(p)) == Apply(s, Flush(p))
  {
    assert s.snapshots[p := Newest(s, p)] - {p} == s.snapshots;
  }

  /** Comparing, dropping the buffer and dropping the claim, with nothing in between, is a success. */
  lemma SplitSuccessIsSuccess(s: State, i: nat)
    requires Enabled(s, Compare(i))
    ensures Enabled(s, Succeed(i))
    ensures var s1 := Apply(s, Compare(i));
            if MovedOn(s, s.live[i].task) then s1 == Apply(s, Succeed(i))
            else && Enabled(s1, DropBuffer(i)) && Enabled(Apply(s1, DropBuffer(i)), Unclaim(i))
                 && Apply(Apply(s1, DropBuffer(i)), Unclaim(i)) == Apply(s, Succeed(i))
  {
    var l := s.live[i];
    if !MovedOn(s, l.task) {
      assert Without(s.live[i := l.(place := Matched)][i := l.(place := Dropped)], i) == Without(s.live, i);
    }
    hide MovedOn, Buffer;
  }

  // ----- One live task per claimed path -----

  function OfPath(p: Path): Live -> nat {
    (l: Live) => One(l.task.path == p)
  }

  function CountOf(live: seq<Live>, p: Path): nat {
    Sum(live, OfPath(p))
  }

  /** The path is claimed exactly when it has one live task, except after its cache file vanished: then
      it is claimed and has none. */
  ghost predicate ClaimLaw(s: State, p: Path) {
    && (p in s.orphaned ==> p in s.pending)
    && CountOf(s.live, p) == One(p in s.pending && p !in s.orphaned)
  }

  lemma {:induction false} NoneLive(live: seq<Live>, p: Path)
    ensures CountOf(live, p) == 0 <==> forall l :: l in live ==> l.task.path != p
    decreases |live|
  {
    if live != [] {
      NoneLive(live[1..], p);
      assert live == [live[0]] + live[1..];
    }
  }

  lemma LiveCounts(live: seq<Live>, i: nat)
    requires i < |live|
    ensures CountOf(live, live[i].task.path) > 0
  {
    SumAtLeast(live, OfPath(live[i].task.path), i);
  }

  /** A path with one live task has no other. */
  lemma OnlyTask(live: seq<Live>, i: nat, l: Live)
    requires i < |live| && CountOf(live, live[i].task.path) <= 1 && l in live && l.task.path == live[i].task.path
    ensures l == live[i]
  {
    var p := live[i].task.path;
    SumWithout(live, i, OfPath(p));
    NoneLive(Without(live, i), p);
  }

  lemma NextPath(s: State, l: Live, a: Action)
    requires OnTask(a) && TaskEnabled(s, l, a)
    ensures Next(s, l, a).Some? ==> Next(s, l, a).value.task.path == l.task.path
    ensures Next(s, l, a).None? <==> Frees(s, l, a) || a.Vanish?
  {
  }

  /** How a step on a task changes the number of live tasks of a path. */
  lemma TaskStepCount(s: State, a: Action, p: Path)
    requires OnTask(a) && Enabled(s, a)
    ensures var l := s.live[a.i];
            CountOf(s.live, p) == CountOf(TaskStep(s, a).live, p)
              + One(l.task.path == p && (Frees(s, l, a) || a.Vanish?))
  {
    hide Frees, Next, Sum;
    var l := s.live[a.i];
    NextPath(s, l, a);
    var next := Next(s, l, a);
    if next.Some? {
      SumUpdate(s.live, a.i, next.value, OfPath(p));
    } else {
      SumWithout(s.live, a.i, OfPath(p));
    }
  }

  lemma EnqueueCount(s: State, p: Path, payload: bytes, q: Path)
    ensures CountOf(Enqueue(s, p, payload).live, q) == CountOf(s.live, q) + One(p !in s.pending && q == p)
  {
    SumAppend(s.live, Live(Task(p, payload, 0, 0), Channel), OfPath(q));
  }

  lemma TaskClaim(s: State, a: Action, p: Path)
    requires OnTask(a) && Enabled(s, a) && ClaimLaw(s, p)
    ensures ClaimLaw(TaskStep(s, a), p)
  {
    TaskStepCount(s, a, p);
    LiveCounts(s.live, a.i);
    hide CountOf, Next, Frees, Drops, Uncounts, GivesUp, Recycles;
  }

  /** Every step keeps the law for a path, except that disowning the path keeps it if and only if the
      path has no live task. */
  lemma ClaimStep(s: State, a: Action, p: Path)
    requires ClaimLaw(s, p) && Enabled(s, a)
    ensures ClaimLaw(Apply(s, a), p) <==> !(a == Disown(p) && CountOf(s.live, p) > 0)
  {
    if OnTask(a) {
      TaskClaim(s, a, p);
      hide ClaimLaw, TaskStep;
    } else if a.Flush? {
      EnqueueCount(s, a.p, Buffer(s, a.p), p);
      hide CountOf, Buffer;
    } else if a.Send? {
      EnqueueCount(s, a.p, s.history[a.p][s.snapshots[a.p]], p);
      hide CountOf;
    } else {
      hide CountOf;
    }
  }

  /** The law holds in every state of a run. */
  ghost predicate ClaimedThroughout(s: State, run: seq<Action>, p: Path)
    decreases |run|
  {
    ClaimLaw(s, p) && (run == [] || (Enabled(s, run[0]) && ClaimedThroughout(Apply(s, run[0]), run[1..], p)))
  }

  /** The path is never disowned while a task for it is live. */
  ghost predicate NeverDisownedLive(s: State, run: seq<Action>, p: Path)
    decreases |run|
  {
    run == [] || (&& Enabled(s, run[0]) && !(run[0] == Disown(p) && CountOf(s.live, p) > 0)
                  && NeverDisownedLive(Apply(s, run[0]), run[1..], p))
  }

  lemma {:induction false} ClaimRun(s: State, run: seq<Action>, t: State, p: Path)
    requires ClaimLaw(s, p) && Reaches(s, run, t)
    ensures ClaimedThroughout(s, run, p) <==> NeverDisownedLive(s, run, p)
    ensures NeverDisownedLive(s, run, p) ==> ClaimLaw(t, p)
    decreases |run|
  {
    hide Apply, Enabled, ClaimLaw, CountOf;
    if run != [] {
      ClaimStep(s, run[0], p);
      if !(run[0] == Disown(p) && CountOf(s.live, p) > 0) {
        ClaimRun(Apply(s, run[0]), run[1..], t, p);
      }
    }
  }

  /** Over a run from the start, a path is claimed exactly when it has one live task (or its cache file
      vanished), in every state, if and only if it is never disowned while a task for it is live. */
  lemma OneTaskExactly(disk: bool, run: seq<Action>, t: State, p: Path)
    requires Reaches(Init(disk), run, t)
    ensures ClaimedThroughout(Init(disk), run, p) <==> NeverDisownedLive(Init(disk), run, p)
    ensures NeverDisownedLive(Init(disk), run, p) ==> CountOf(t.live, p) == One(p in t.pending && p !in t.orphaned)
  {
    ClaimRun(Init(disk), run, t, p);
  }

  /** Disowned while its task is live, a path can get a second one. */
  lemma SecondTask(s: State, p: Path) returns (run: seq<Action>, t: State)
    requires ClaimLaw(s, p) && CountOf(s.live, p) > 0 && p in s.history
    ensures run == [Disown(p), Flush(p)] && Reaches(s, run, t) && CountOf(t.live, p) == 2
  {
    var s1 := Apply(s, Disown(p));
    t := Apply(s1, Flush(p));
    EnqueueCount(s1, p, Buffer(s1, p), p);
    hide CountOf, Buffer;
    run := [Disown(p), Flush(p)];
    assert run[1..] == [Flush(p)] && run[1..][1..] == [];
    assert Reaches(s1, run[1..], t);
  }

  // ----- A vanished cache file -----

  /** The path is claimed and has no task, in every state of a run. */
  ghost predicate StaysOrphaned(s: State, run: seq<Action>, p: Path)
    decreases |run|
  {
    && p in s.orphaned && p in s.pending && CountOf(s.live, p) == 0
    && (run == [] || (Enabled(s, run[0]) && StaysOrphaned(Apply(s, run[0]), run[1..], p)))
  }

  lemma OrphanStep(s: State, a: Action, p: Path)
    requires ClaimLaw(s, p) && Enabled(s, a) && p in s.orphaned && a != Disown(p)
    ensures var t := Apply(s, a);
            p in t.orphaned && (p in s.backend <==> p in t.backend) && (p in s.backend ==> t.backend[p] == s.backend[p])
  {
    if OnTask(a) {
      LiveCounts(s.live, a.i);
    }
    hide CountOf, Next, Frees, Drops, Uncounts, Buffer;
  }

  /** After its cache file vanished a path stays claimed with no task if and only if it is not disowned;
      until then no flush of it is uploaded and the backend keeps what it had. */
  lemma {:induction false} OrphanedUntilDisowned(s: State, run: seq<Action>, t: State, p: Path)
    requires ClaimLaw(s, p) && Reaches(s, run, t) && p in s.orphaned
    ensures StaysOrphaned(s, run, p) <==> Disown(p) !in run
    ensures Disown(p) !in run ==>
              && p in t.orphaned && p in t.pending && CountOf(t.live, p) == 0
              && (p in s.backend <==> p in t.backend) && (p in s.backend ==> t.backend[p] == s.backend[p])
    decreases |run|
  {
    hide Apply, Enabled, CountOf;
    if run != [] {
      assert run == [run[0]] + run[1..];
      if run[0] == Disown(p) {
        DisownFrees(s, p);
      } else {
        ClaimStep(s, run[0], p);
        OrphanStep(s, run[0], p);
        OrphanedUntilDisowned(Apply(s, run[0]), run[1..], t, p);
      }
    }
  }

  lemma DisownFrees(s: State, p: Path)
    ensures Enabled(s, Disown(p)) && p !in Apply(s, Disown(p)).orphaned && p !in Apply(s, Disown(p)).pending
  {
  }

  // ----- The retry budget -----

  /** A task has made five attempts for each finished cycle, and one for each in this cycle. */
  predicate Budgeted(l: Live) {
    && l.task.cycle <= MAX_REENQUEUE_CYCLES
    && (l.place.Channel? || l.place.Waiting? ==> l.task.tried == 5 * l.task.cycle)
    && (l.place.Uploading? ==>
          l.place.attempt < ATTEMPTS && l.task.tried == 5 * l.task.cycle + l.place.attempt)
  }

  ghost predicate RetryInv(s: State) {
    forall l :: l in s.live ==> Budgeted(l)
  }

  lemma NextBudgeted(s: State, l: Live, a: Action)
    requires OnTask(a) && TaskEnabled(s, l, a) && Budgeted(l)
    ensures Next(s, l, a).Some? ==> Budgeted(Next(s, l, a).value)
    ensures a.Fail? ==> (Next(s, l, a).None? <==> l.task.tried + 1 == 55)
  {
    hide MovedOn, Buffer, Newest;
  }

  lemma RetryStep(s: State, a: Action)
    requires RetryInv(s) && Enabled(s, a)
    ensures RetryInv(Apply(s, a))
  {
    if OnTask(a) {
      NextBudgeted(s, s.live[a.i], a);
    }
    hide Next, Budgeted, Frees, Drops, Uncounts, Buffer;
  }

  lemma {:induction false} RetryRun(s: State, run: seq<Action>, t: State)
    requires RetryInv(s) && Reaches(s, run, t)
    ensures RetryInv(t)
    decreases |run|
  {
    hide Apply, Enabled, RetryInv;
    if run != [] {
      RetryStep(s, run[0]);
      RetryRun(Apply(s, run[0]), run[1..], t);
    }
  }

  /** No task ever carries a cycle above 10 or has made more than 54 attempts, and it is given up, its
      path freed and declared stuck, at its 55th failure and no other: five in each of the cycles 0 to
      10. */
  lemma GivenUpAtFiftyFive(disk: bool, run: seq<Action>, s: State, i: nat, landed: bool)
    requires Reaches(Init(disk), run, s) && i < |s.live|
    ensures s.live[i].task.cycle <= MAX_REENQUEUE_CYCLES
    ensures s.live[i].place.Uploading? ==> s.live[i].task.tried <= 54
    ensures Enabled(s, Fail(i, landed)) ==>
              var t, p := Apply(s, Fail(i, landed)), s.live[i].task.path;
              if s.live[i].task.tried + 1 == 55
              then t.live == Without(s.live, i) && p !in t.pending && p in t.stuck
              else |t.live| == |s.live| && t.pending == s.pending && t.stuck == s.stuck
  {
    RetryRun(Init(disk), run, s);
    assert Budgeted(s.live[i]);
    if Enabled(s, Fail(i, landed)) {
      NextBudgeted(s, s.live[i], Fail(i, landed));
      NextPath(s, s.live[i], Fail(i, landed));
    }
    hide Reaches, Next;
  }

  function Fails(run: seq<Action>): nat {
    if run == [] then 0 else One(run[0].Fail?) + Fails(run[1..])
  }

  function StepsLeft(l: Live): int {
    3 * (55 - l.task.tried) + (if l.place.Channel? then 2 else if l.place.Waiting? then 1 else 0)
  }

  /** One step of a task that keeps failing. */
  lemma NextTry(s: State, l: Live, a: Action)
    requires OnTask(a) && TaskEnabled(s, l, a) && Budgeted(l) && (a.Drain? || a.Start? || a.Fail?)
    ensures var next := Next(s, l, a);
            if a.Fail? && l.task.tried == 54 then next.None?
            else && next.Some? && Budgeted(next.value) && next.value.task.path == l.task.path
                 && (next.value.place.Channel? || next.value.place.Waiting? || next.value.place.Uploading?)
                 && next.value.task.tried == l.task.tried + One(a.Fail?) < 55
                 && 0 <= StepsLeft(next.value) < StepsLeft(l)
  {
    hide MovedOn, Buffer, Newest;
  }

  /** A task that always fails gets all its 55 attempts and then frees its path. */
  lemma {:induction false} AlwaysFailing(s: State, i: nat) returns (run: seq<Action>, t: State)
    requires i < |s.live| && Budgeted(s.live[i]) && s.live[i].task.tried < 55
    requires s.live[i].place.Channel? || s.live[i].place.Waiting? || s.live[i].place.Uploading?
    ensures Reaches(s, run, t) && Fails(run) == 55 - s.live[i].task.tried
    ensures s.live[i].task.path !in t.pending && s.live[i].task.path in t.stuck
    decreases StepsLeft(s.live[i])
  {
    var l := s.live[i];
    var a := if l.place.Channel? then Drain(i) else if l.place.Waiting? then Start(i) else Fail(i, false);
    NextTry(s, l, a);
    NextPath(s, l, a);
    var s' := Apply(s, a);
    hide Next, Budgeted, StepsLeft, Uncounts, Recycles, Drops;
    if a.Fail? && l.task.tried == 54 {
      run, t := [a], s';
      assert run[1..] == [];
    } else {
      assert s'.live[i] == Next(s, l, a).value;
      hide Apply;
      var rest;
      rest, t := AlwaysFailing(s', i);
      run := [a] + rest;
      assert run[1..] == rest;
    }
  }

  /** Attempts the live tasks of a path have made. */
  function TriedBy(p: Path): Live -> nat {
    (l: Live) => if l.task.path == p then l.task.tried else 0
  }

  function FailsNow(s: State, a: Action, p: Path): nat
    requires Enabled(s, a)
  {
    One(a.Fail? && s.live[a.i].task.path == p)
  }

  /** Failed attempts of the path's tasks in a run. */
  ghost function FailsOf(s: State, run: seq<Action>, t: State, p: Path): nat
    requires Reaches(s, run, t)
    decreases |run|
  {
    if run == [] then 0
    else FailsNow(s, run[0], p) + FailsOf(Apply(s, run[0]), run[1..], t, p)
  }

  predicate Fruitless(a: Action) {
    a.Drain? || a.Start? || a.Fail? || a.Write?
  }

  /** The path's task does nothing but fail, and no flush or disown of the path comes in between. */
  ghost predicate OnlyFails(s: State, run: seq<Action>, t: State, p: Path)
    requires Reaches(s, run, t)
    decreases |run|
  {
    run == [] || (&& (PathOf(s, run[0]) == p ==> Fruitless(run[0]))
                  && OnlyFails(Apply(s, run[0]), run[1..], t, p))
  }

  /** The path has one task with `k` attempts behind it, or was given up after 55. */
  ghost predicate Tried(s: State, p: Path, k: nat) {
    if k < 55 then CountOf(s.live, p) == 1 && p in s.pending && Sum(s.live, TriedBy(p)) == k
    else k == 55 && CountOf(s.live, p) == 0 && p !in s.pending && p in s.stuck
  }

  lemma NextTried(s: State, l: Live, a: Action, p: Path)
    requires OnTask(a) && TaskEnabled(s, l, a) && Budgeted(l)
    requires l.task.path == p ==> a.Drain? || a.Start? || a.Fail?
    ensures var next := Next(s, l, a); var tried := if next.Some? then TriedBy(p)(next.value) else 0;
            if a.Fail? && l.task.path == p then if l.task.tried == 54 then next.None? else next.Some? && tried == l.task.tried + 1
            else tried == TriedBy(p)(l) && (l.task.path == p ==> next.Some?)
  {
    NextPath(s, l, a);
    hide MovedOn, Buffer;
  }

  lemma TaskTried(s: State, a: Action, p: Path, k: nat)
    requires RetryInv(s) && OnTask(a) && Enabled(s, a) && Tried(s, p, k)
    requires s.live[a.i].task.path == p ==> Fruitless(a)
    ensures Tried(TaskStep(s, a), p, k + FailsNow(s, a, p))
  {
    var l := s.live[a.i];
    assert Budgeted(l);
    NextTried(s, l, a, p);
    NextPath(s, l, a);
    TaskStepCount(s, a, p);
    LiveCounts(s.live, a.i);
    SumAtLeast(s.live, TriedBy(p), a.i);
    if l.task.path == p {
      OthersUntried(s.live, a.i);
    }
    if Next(s, l, a).Some? {
      SumUpdate(s.live, a.i, Next(s, l, a).value, TriedBy(p));
    } else {
      SumWithout(s.live, a.i, TriedBy(p));
    }
    hide Next, Sum, CountOf, Drops, Uncounts, Recycles, RetryInv, TaskEnabled;
  }

  lemma OthersUntried(live: seq<Live>, i: nat)
    requires i < |live| && CountOf(live, live[i].task.path) == 1
    ensures Sum(live, TriedBy(live[i].task.path)) == live[i].task.tried
  {
    var p := live[i].task.path;
    SumWithout(live, i, OfPath(p));
    NoneLive(Without(live, i), p);
    SumZero(Without(live, i), TriedBy(p));
    SumWithout(live, i, TriedBy(p));
  }

  lemma OtherTried(s: State, a: Action, p: Path, k: nat)
    requires !OnTask(a) && Enabled(s, a) && Tried(s, p, k) && (PathOf(s, a) == p ==> a.Write?)
    ensures Tried(Apply(s, a), p, k)
  {
    if a.Flush? {
      EnqueueCount(s, a.p, Buffer(s, a.p), p);
      SumAppend(s.live, Live(Task(a.p, Buffer(s, a.p), 0, 0), Channel), TriedBy(p));
    } else if a.Send? {
      EnqueueCount(s, a.p, s.history[a.p][s.snapshots[a.p]], p);
      SumAppend(s.live, Live(Task(a.p, s.history[a.p][s.snapshots[a.p]], 0, 0), Channel), TriedBy(p));
    }
    hide Sum, CountOf, Buffer;
  }

  /** In every interleaving in which a path's task only ever fails, it has made `k` attempts plus one for
      each failure, gets at most 55, and is given up, with its path free and stuck, exactly at the 55th. */
  lemma {:induction false} AllAttempts(s: State, run: seq<Action>, t: State, p: Path, k: nat)
    requires RetryInv(s) && Reaches(s, run, t) && OnlyFails(s, run, t, p) && Tried(s, p, k)
    ensures Tried(t, p, k + FailsOf(s, run, t, p))
    decreases |run|
  {
    hide Apply, Enabled, Tried, RetryInv, FailsNow, PathOf, Fruitless;
    if run != [] {
      RetryStep(s, run[0]);
      TriedStep(s, run[0], p, k);
      AllAttempts(Apply(s, run[0]), run[1..], t, p, k + FailsNow(s, run[0], p));
    }
  }

  lemma TriedStep(s: State, a: Action, p: Path, k: nat)
    requires RetryInv(s) && Enabled(s, a) && Tried(s, p, k) && (PathOf(s, a) == p ==> Fruitless(a))
    ensures Tried(Apply(s, a), p, k + FailsNow(s, a, p))
  {
    if OnTask(a) {
      TaskTried(s, a, p, k);
      hide TaskStep, Tried;
    } else {
      OtherTried(s, a, p, k);
      hide Tried, Apply;
    }
  }

  /** The step gives the path a new task: a flush that claims it, or a success that finds the buffer moved on. */
  predicate StartsOver(s: State, a: Action, p: Path)
    requires Enabled(s, a)
  {
    if a.Flush? || a.Send? then a.p == p && p !in s.pending
    else (a.Succeed? || a.Compare?) && s.live[a.i].task.path == p && MovedOn(s, s.live[a.i].task)
  }

  lemma StartsUntried(s: State, a: Action, p: Path)
    requires Enabled(s, a) && ClaimLaw(s, p) && StartsOver(s, a, p)
    ensures Tried(Apply(s, a), p, 0)
  {
    var t := Apply(s, a);
    var i := if OnTask(a) then a.i else |s.live|;
    if OnTask(a) {
      TaskStepCount(s, a, p);
      LiveCounts(s.live, i);
    } else if a.Flush? {
      EnqueueCount(s, p, Buffer(s, p), p);
    } else {
      EnqueueCount(s, p, s.history[p][s.snapshots[p]], p);
    }
    hide CountOf, Buffer, MovedOn;
    assert t.live[i].task.path == p && t.live[i].task.tried == 0;
    OthersUntried(t.live, i);
  }

  /** In every run in which the path is not disowned under a live task: from the step that gives it a new task,
      be it a flush or a success that finds the buffer moved on, exactly 55 failures in the run that follows
      end the upload, free the path and declare it stuck, and fewer leave it in flight. */
  lemma FullBudget(disk: bool, before: seq<Action>, s: State, a: Action, after: seq<Action>, t: State, p: Path)
    requires Reaches(Init(disk), before, s) && NeverDisownedLive(Init(disk), before, p)
    requires Enabled(s, a) && StartsOver(s, a, p)
    requires Reaches(Apply(s, a), after, t) && OnlyFails(Apply(s, a), after, t, p)
    ensures var fails := FailsOf(Apply(s, a), after, t, p);
            && fails <= 55
            && (fails < 55 <==> p in t.pending && CountOf(t.live, p) == 1)
            && (fails == 55 <==> p !in t.pending && p in t.stuck && CountOf(t.live, p) == 0)
  {
    hide Reaches, Apply, Enabled, CountOf, Sum, ClaimLaw, RetryInv, OnlyFails, FailsOf, NeverDisownedLive, StartsOver;
    hide Tried, Init, PathOf, Fruitless, MovedOn, OnTask;
    InitLaws(disk, p);
    ClaimRun(Init(disk), before, s, p);
    StartsUntried(s, a, p);
    RetryRun(Init(disk), before, s);
    RetryStep(s, a);
    AllAttempts(Apply(s, a), after, t, p, 0);
    TriedMeans(t, p, FailsOf(Apply(s, a), after, t, p));
  }

  lemma InitLaws(disk: bool, p: Path)
    ensures ClaimLaw(Init(disk), p) && RetryInv(Init(disk))
  {
  }

  lemma TriedMeans(s: State, p: Path, k: nat)
    requires Tried(s, p, k)
    ensures k <= 55 && (k < 55 <==> p in s.pending && CountOf(s.live, p) == 1)
    ensures k == 55 <==> p !in s.pending && p in s.stuck && CountOf(s.live, p) == 0
  {
    hide CountOf;
  }

  // ----- The pending counter -----

  function Held(): Live -> nat {
    (l: Live) => One(l.place.Waiting? || l.place.Uploading?)
  }

  /** Tasks the worker has taken from the channel and not finished. */
  function InWorker(live: seq<Live>): nat {
    Sum(live, Held())
  }

  ghost predicate CounterInv(s: State) {
    s.pendingCount == InWorker(s.live) + s.retries
  }

  lemma NextHeld(s: State, l: Live, a: Action)
    requires OnTask(a) && TaskEnabled(s, l, a)
    ensures var next := Next(s, l, a); var held := if next.Some? then Held()(next.value) else 0;
            Held()(l) + One(a.Drain?) == held + One(Uncounts(l, a)) + One(a.Fail? && Recycles(l))
  {
    hide MovedOn, Buffer, Newest;
  }

  lemma TaskCounter(s: State, a: Action)
    requires CounterInv(s) && Enabled(s, a) && OnTask(a)
    ensures CounterInv(TaskStep(s, a))
  {
    var l := s.live[a.i];
    NextHeld(s, l, a);
    SumAtLeast(s.live, Held(), a.i);
    hide Next, Uncounts, Recycles, Held, Sum, Frees, Drops;
    if Next(s, l, a).Some? {
      SumUpdate(s.live, a.i, Next(s, l, a).value, Held());
    } else {
      SumWithout(s.live, a.i, Held());
    }
  }

  lemma CounterStep(s: State, a: Action)
    requires CounterInv(s) && Enabled(s, a)
    ensures CounterInv(Apply(s, a))
  {
    hide Sum;
    if OnTask(a) {
      TaskCounter(s, a);
      hide TaskStep;
    } else if a.Flush? {
      SumAppend(s.live, Live(Task(a.p, Buffer(s, a.p), 0, 0), Channel), Held());
      hide Buffer;
    } else if a.Send? {
      SumAppend(s.live, Live(Task(a.p, s.history[a.p][s.snapshots[a.p]], 0, 0), Channel), Held());
    }
  }

  lemma {:induction false} CounterRun(s: State, run: seq<Action>, t: State)
    requires CounterInv(s) && Reaches(s, run, t)
    ensures CounterInv(t)
    decreases |run|
  {
    hide Apply, Enabled, CounterInv;
    if run != [] {
      CounterStep(s, run[0]);
      CounterRun(Apply(s, run[0]), run[1..], t);
    }
  }

  /** `pending_count()` is the uploads in the worker plus every retry cycle ever started: it is the
      number in flight exactly while no task has been re-enqueued. */
  lemma PendingCountLaw(disk: bool, run: seq<Action>, t: State)
    requires Reaches(Init(disk), run, t)
    ensures t.pendingCount == InWorker(t.live) + t.retries
    ensures t.pendingCount == InWorker(t.live) <==> t.retries == 0
  {
    CounterRun(Init(disk), run, t);
  }
}
