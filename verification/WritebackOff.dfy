/** Off mode of the upload worker: when flushed content can be lost, and when it cannot. Everything is
    stated for one path `p`; steps about other paths change nothing for it. */
module WritebackOff {
  import opened Sums
  import opened Writeback

  // ----- Off mode: what a flush can rely on -----

  /** The bytes `d` are a version of the path's buffer no older than `n`. */
  ghost predicate Covers(s: State, p: Path, n: nat, d: bytes) {
    exists v :: n <= v < |Versions(s, p)| && Versions(s, p)[v] == d
  }

  /** Uploaded and compared: what is written from here on is not in this upload. */
  predicate InWindow(l: Live) {
    l.place.Matched? || l.place.Dropped?
  }

  /** This upload will leave version `n` of its path, or a later one, on the backend. */
  ghost predicate Carries(s: State, l: Live, n: nat) {
    var p := l.task.path;
    if InWindow(l) then p in s.backend && Covers(s, p, n, s.backend[p])
    else p in s.registered || Covers(s, p, n, l.task.payload)
  }

  ghost predicate AllCarry(s: State, p: Path, n: nat) {
    forall l :: l in s.live && l.task.path == p ==> Carries(s, l, n)
  }

  ghost predicate OnBackend(s: State, p: Path, n: nat) {
    p in s.backend && Covers(s, p, n, s.backend[p])
  }

  ghost predicate FlushOk(s: State, p: Path)
    requires p in s.flushedAt
  {
    && s.flushedAt[p] < |Versions(s, p)| && AllCarry(s, p, s.flushedAt[p])
    && (p in s.stuck || p in s.pending || OnBackend(s, p, s.flushedAt[p]))
  }

  ghost predicate BufferOk(s: State, p: Path) {
    && !s.disk && p !in s.orphaned
    && (p in s.history ==> s.history[p] != [])
    && (p in s.snapshots ==> s.snapshots[p] < |Versions(s, p)|)
    && (p in s.pending ==> p in s.history && p !in s.stuck)
    && (p in s.flushedAt ==> FlushOk(s, p))
  }

  /** Enqueueing `payload` for a flush of version `n`: the upload in flight carries that version; or there
      is none, and the new one does. */
  ghost predicate Claimable(s: State, p: Path, n: nat, payload: bytes) {
    var flushed := FlushedWith(s, p, n);
    if p in s.pending then AllCarry(s, p, flushed)
    else p in s.registered || Covers(s, p, flushed, payload)
  }

  /** A flush of `p` is careful when its bytes will be carried, and a disown when no task is live. */
  ghost predicate Careful(s: State, a: Action, p: Path)
    requires Enabled(s, a)
  {
    && (a == Disown(p) ==> CountOf(s.live, p) == 0)
    && (a == Flush(p) ==> Claimable(s, p, Newest(s, p), Buffer(s, p)))
    && (a == Send(p) ==> Claimable(s, p, s.snapshots[p], s.history[p][s.snapshots[p]]))
  }

  ghost predicate ReachesCareful(s: State, run: seq<Action>, t: State, p: Path)
    decreases |run|
  {
    if run == [] then s == t
    else Enabled(s, run[0]) && Careful(s, run[0], p) && ReachesCareful(Apply(s, run[0]), run[1..], t, p)
  }

  // ----- Steps about other paths -----

  predicate Same<V(==)>(m: map<Path, V>, m': map<Path, V>, p: Path) {
    (p in m <==> p in m') && (p in m ==> m'[p] == m[p])
  }

  ghost predicate SameFor(s: State, s': State, p: Path) {
    && s'.disk == s.disk
    && (p in s'.pending <==> p in s.pending) && (p in s'.registered <==> p in s.registered)
    && (p in s'.stuck <==> p in s.stuck) && (p in s'.orphaned <==> p in s.orphaned)
    && Same(s.snapshots, s'.snapshots, p) && Same(s.history, s'.history, p)
    && Same(s.flushedAt, s'.flushedAt, p) && Same(s.backend, s'.backend, p)
    && forall l: Live :: l.task.path == p ==> (l in s'.live <==> l in s.live)
  }

  lemma OtherLive(s: State, a: Action, x: Live)
    requires OnTask(a) && Enabled(s, a) && s.live[a.i].task.path != x.task.path
    ensures x in TaskStep(s, a).live <==> x in s.live
  {
    var l := s.live[a.i];
    NextPath(s, l, a);
    hide Next, Frees, Drops, Uncounts, GivesUp, Recycles, SatPred, Without;
    if Next(s, l, a).Some? {
      InUpdate(s.live, a.i, Next(s, l, a).value, x);
    } else {
      InWithout(s.live, a.i, x);
    }
  }

  lemma OtherTask(s: State, a: Action, p: Path)
    requires OnTask(a) && Enabled(s, a) && s.live[a.i].task.path != p
    ensures SameFor(s, TaskStep(s, a), p)
  {
    forall x: Live | x.task.path == p ensures x in TaskStep(s, a).live <==> x in s.live {
      OtherLive(s, a, x);
    }
    hide Next, Frees, Drops, Uncounts, GivesUp, Recycles, SatPred, Without, TaskEnabled;
  }

  lemma InUpdate(live: seq<Live>, i: nat, y: Live, x: Live)
    requires i < |live| && x != y && x != live[i]
    ensures x in live[i := y] <==> x in live
  {
    if x in live {
      var j :| 0 <= j < |live| && live[j] == x;
      assert live[i := y][j] == x;
    }
  }

  lemma InWithout(live: seq<Live>, i: nat, x: Live)
    requires i < |live| && x != live[i]
    ensures x in Without(live, i) <==> x in live
  {
    assert live == live[..i] + [live[i]] + live[i + 1..];
  }

  lemma OtherPath(s: State, a: Action, p: Path)
    requires Enabled(s, a) && PathOf(s, a) != p
    ensures SameFor(s, Apply(s, a), p)
  {
    if OnTask(a) {
      OtherTask(s, a, p);
      hide TaskStep;
    }
    hide Buffer;
  }

  lemma BufferSame(s: State, s': State, p: Path)
    requires SameFor(s, s', p) && BufferOk(s, p)
    ensures BufferOk(s', p)
  {
    assert Versions(s', p) == Versions(s, p);
    assert forall n, d :: Covers(s, p, n, d) ==> Covers(s', p, n, d);
    if p in s.flushedAt {
      forall l | l in s'.live && l.task.path == p ensures Carries(s', l, s.flushedAt[p]) {
        assert Carries(s, l, s.flushedAt[p]);
      }
    }
  }

  // ----- Steps about the path itself -----

  lemma CoversMore(s: State, s': State, p: Path)
    requires Versions(s, p) <= Versions(s', p)
    ensures forall n, d :: Covers(s, p, n, d) ==> Covers(s', p, n, d)
  {
    forall n: nat, d | Covers(s, p, n, d) ensures Covers(s', p, n, d) {
      var v :| n <= v < |Versions(s, p)| && Versions(s, p)[v] == d;
      assert Versions(s', p)[v] == d;
    }
  }

  lemma CoversNewest(s: State, p: Path, n: nat)
    requires n < |Versions(s, p)|
    ensures Covers(s, p, n, Buffer(s, p))
  {
    assert Versions(s, p)[Newest(s, p)] == Buffer(s, p);
  }

  lemma WriteBuffer(s: State, p: Path, data: bytes)
    requires BufferOk(s, p)
    ensures BufferOk(Apply(s, Write(p, data)), p)
  {
    var s' := Apply(s, Write(p, data));
    CoversMore(s, s', p);
    hide Covers;
    if p in s.flushedAt {
      forall l | l in s'.live && l.task.path == p ensures Carries(s', l, s.flushedAt[p]) {
        assert Carries(s, l, s.flushedAt[p]);
      }
    }
  }

  /** The one task of a path after its step. */
  lemma TaskAfter(s: State, a: Action)
    requires OnTask(a) && Enabled(s, a) && CountOf(s.live, s.live[a.i].task.path) == 1
    ensures var next := Next(s, s.live[a.i], a);
            forall l :: l in TaskStep(s, a).live && l.task.path == s.live[a.i].task.path ==>
                        next.Some? && l == next.value
  {
    var l, p := s.live[a.i], s.live[a.i].task.path;
    var next := Next(s, l, a);
    NextPath(s, l, a);
    TaskStepCount(s, a, p);
    hide Next, Frees, Drops, Uncounts, GivesUp, Recycles, CountOf;
    forall x | x in TaskStep(s, a).live && x.task.path == p ensures next.Some? && x == next.value {
      NoneLive(TaskStep(s, a).live, p);
      assert next.Some? ==> TaskStep(s, a).live[a.i] == next.value;
      OnlyTask(TaskStep(s, a).live, a.i, x);
    }
  }

  /** A task carries its path's flushed version from place to place. */
  lemma NextCarries(s: State, a: Action, n: nat)
    requires OnTask(a) && Enabled(s, a) && !s.disk && Carries(s, s.live[a.i], n)
    requires n < |Versions(s, s.live[a.i].task.path)|
    ensures var l := s.live[a.i]; var next, s' := Next(s, l, a), TaskStep(s, a);
            && (next.Some? ==> Carries(s', next.value, n))
            && (next.None? && !a.Fail? ==> OnBackend(s', l.task.path, n))
  {
    var l := s.live[a.i];
    CoversNewest(s, l.task.path, n);
    CoversMore(s, TaskStep(s, a), l.task.path);
    hide Covers, Buffer, Without, SatPred, Recycles, Newest;
  }

  lemma TaskBuffer(s: State, a: Action, p: Path)
    requires OnTask(a) && Enabled(s, a) && s.live[a.i].task.path == p && ClaimLaw(s, p) && BufferOk(s, p)
    ensures BufferOk(TaskStep(s, a), p)
  {
    var l, s' := s.live[a.i], TaskStep(s, a);
    LiveCounts(s.live, a.i);
    TaskAfter(s, a);
    NextPath(s, l, a);
    if p in s.flushedAt {
      assert Carries(s, l, s.flushedAt[p]);
      NextCarries(s, a, s.flushedAt[p]);
    }
    hide Carries, Covers, CountOf, Next, Drops, Uncounts, Recycles;
  }

  lemma ClaimBuffer(s: State, p: Path, n: nat, payload: bytes, s': State)
    requires ClaimLaw(s, p) && BufferOk(s, p) && p in s.history && n < |Versions(s, p)| && Claimable(s, p, n, payload)
    requires s' == Enqueue(s, p, payload).(snapshots := s'.snapshots, flushedAt := s.flushedAt[p := FlushedWith(s, p, n)])
    requires p in s'.snapshots ==> p in s.snapshots && s'.snapshots[p] == s.snapshots[p]
    ensures BufferOk(s', p)
  {
    CoversMore(s, s', p);
    NoneLive(s.live, p);
    hide Covers, CountOf;
    forall l | l in s'.live && l.task.path == p ensures Carries(s', l, FlushedWith(s, p, n)) {
      assert l in s.live ==> Carries(s, l, FlushedWith(s, p, n));
    }
  }

  lemma SnapshotBuffer(s: State, p: Path)
    requires BufferOk(s, p) && Enabled(s, Snapshot(p))
    ensures BufferOk(Apply(s, Snapshot(p)), p)
  {
    var s' := Apply(s, Snapshot(p));
    CoversMore(s, s', p);
    hide Covers;
    if p in s.flushedAt {
      forall l | l in s'.live && l.task.path == p ensures Carries(s', l, s.flushedAt[p]) {
        assert Carries(s, l, s.flushedAt[p]);
      }
    }
  }

  lemma DisownBuffer(s: State, p: Path)
    requires ClaimLaw(s, p) && BufferOk(s, p) && CountOf(s.live, p) == 0
    ensures BufferOk(Apply(s, Disown(p)), p)
  {
    var s' := Apply(s, Disown(p));
    assert s' == s;
  }

  lemma BufferStep(s: State, a: Action, p: Path)
    requires ClaimLaw(s, p) && BufferOk(s, p) && Enabled(s, a) && Careful(s, a, p)
    ensures BufferOk(Apply(s, a), p)
  {
    hide BufferOk, ClaimLaw, TaskStep, Claimable, CountOf;
    if PathOf(s, a) != p {
      OtherPath(s, a, p);
      BufferSame(s, Apply(s, a), p);
    } else if OnTask(a) {
      TaskBuffer(s, a, p);
    } else if a.Write? {
      WriteBuffer(s, p, a.data);
    } else if a.Flush? {
      NewestFits(s, p);
      ClaimBuffer(s, p, Newest(s, p), Buffer(s, p), Apply(s, a));
    } else if a.Send? {
      ClaimBuffer(s, p, s.snapshots[p], s.history[p][s.snapshots[p]], Apply(s, a));
    } else if a.Snapshot? {
      SnapshotBuffer(s, p);
    } else {
      DisownBuffer(s, p);
    }
  }

  lemma NewestFits(s: State, p: Path)
    requires BufferOk(s, p) && p in s.history
    ensures Newest(s, p) < |Versions(s, p)|
  {
  }

  lemma {:induction false} CarefulRun(s: State, run: seq<Action>, t: State, p: Path)
    requires ClaimLaw(s, p) && BufferOk(s, p) && ReachesCareful(s, run, t, p)
    ensures ClaimLaw(t, p) && BufferOk(t, p) && Reaches(s, run, t)
    decreases |run|
  {
    hide ClaimLaw, BufferOk, Apply, Enabled, Claimable, CountOf;
    if run != [] {
      ClaimStep(s, run[0], p);
      BufferStep(s, run[0], p);
      hide Careful;
      CarefulRun(Apply(s, run[0]), run[1..], t, p);
    }
  }

  /** Flushed content that is neither on the backend, nor in flight, nor declared stuck. */
  ghost predicate LostUpdate(s: State, p: Path) {
    p in s.flushedAt && p !in s.stuck && CountOf(s.live, p) == 0 && !OnBackend(s, p, s.flushedAt[p])
  }

  /** Off mode: over every run whose flushes and disowns of the path are careful, what was flushed, or
      something written later, is on the backend, or one task is in flight for the path, or the path was
      declared stuck. */
  lemma NoLostUpdate(run: seq<Action>, t: State, p: Path)
    requires ReachesCareful(Init(false), run, t, p)
    ensures CountOf(t.live, p) == One(p in t.pending) && !LostUpdate(t, p)
  {
    CarefulRun(Init(false), run, t, p);
    hide CountOf;
  }

  // ----- A careless flush can lose its bytes -----

  /** Steps a task needs to end by success. */
  function ToEnd(l: Live): nat {
    match l.place
    case Channel => 3
    case Waiting => 2
    case Uploading(_) => 1
    case Matched => 2
    case Dropped => 1
  }

  function Onward(l: Live, i: nat): Action {
    match l.place
    case Channel => Drain(i)
    case Waiting => Start(i)
    case Uploading(_) => Succeed(i)
    case Matched => DropBuffer(i)
    case Dropped => Unclaim(i)
  }

  lemma StillNotCarried(s: State, i: nat, n: nat)
    requires i < |s.live| && !s.disk && !Carries(s, s.live[i], n)
    ensures var l := s.live[i]; var a := Onward(l, i);
            && OnTask(a) && a.i == i && Enabled(s, a)
            && var s', next := TaskStep(s, a), Next(s, l, a);
               && s'.flushedAt == s.flushedAt && s'.stuck == s.stuck && s'.disk == s.disk
               && (next.Some? ==> !Carries(s', next.value, n) && ToEnd(next.value) < ToEnd(l))
               && (next.None? ==> !OnBackend(s', l.task.path, n))
  {
    var l := s.live[i];
    var s' := TaskStep(s, Onward(l, i));
    CoversMore(s', s, l.task.path);
    hide Covers, Buffer, Without, SatPred, Recycles, GivesUp;
  }

  /** A task that does not carry the flushed version ends with the version lost. */
  lemma {:induction false} Settle(s: State, i: nat) returns (run: seq<Action>, t: State)
    requires i < |s.live| && !s.disk
    requires var p := s.live[i].task.path;
             CountOf(s.live, p) == 1 && p in s.flushedAt && p !in s.stuck && !Carries(s, s.live[i], s.flushedAt[p])
    ensures ReachesCareful(s, run, t, s.live[i].task.path) && LostUpdate(t, s.live[i].task.path)
    decreases ToEnd(s.live[i])
  {
    var l, p := s.live[i], s.live[i].task.path;
    var a := Onward(l, i);
    StillNotCarried(s, i, s.flushedAt[p]);
    TaskStepCount(s, a, p);
    NextPath(s, l, a);
    var s' := Apply(s, a);
    assert Next(s, l, a).Some? ==> s'.live[i] == Next(s, l, a).value;
    hide CountOf, Carries, Next, Frees, TaskStep, ToEnd, Onward, OnBackend;
    if Next(s, l, a).Some? {
      run, t := Settle(s', i);
    } else {
      run, t := [], s';
    }
    hide Apply, Enabled;
    assert ([a] + run)[1..] == run;
    run := [a] + run;
  }

  /** From a careless flush on, its bytes can end up neither on the backend, nor in flight, nor stuck. */
  lemma CarelessFlushLoses(s: State, a: Action, p: Path) returns (more: seq<Action>, t: State)
    requires ClaimLaw(s, p) && BufferOk(s, p) && Enabled(s, a) && (a == Flush(p) || a == Send(p)) && !Careful(s, a, p)
    ensures ReachesCareful(Apply(s, a), more, t, p) && LostUpdate(t, p)
  {
    var s1 := Apply(s, a);
    var n, payload := if a.Flush? then Newest(s, p) else s.snapshots[p], if a.Flush? then Buffer(s, p) else s.history[p][s.snapshots[p]];
    var flushed := FlushedWith(s, p, n);
    CoversMore(s1, s, p);
    EnqueueCount(s, p, payload, p);
    if p in s.pending {
      var l :| l in s.live && l.task.path == p && !Carries(s, l, flushed);
      var i :| 0 <= i < |s.live| && s.live[i] == l;
      hide Covers, CountOf, Buffer;
      more, t := Settle(s1, i);
    } else {
      var i := |s.live|;
      assert s1.live[i] == Live(Task(p, payload, 0, 0), Channel);
      hide Covers, CountOf, Buffer;
      more, t := Settle(s1, i);
    }
  }

  // ----- A disown under a live task can lose a later flush -----

  lemma Take(s: State, a: Action, rest: seq<Action>, t: State, p: Path) returns (run: seq<Action>)
    requires Enabled(s, a) && Careful(s, a, p) && ReachesCareful(Apply(s, a), rest, t, p)
    ensures run == [a] + rest && ReachesCareful(s, run, t, p)
  {
    hide Apply, Enabled, Careful;
    run := [a] + rest;
    assert run[1..] == rest;
  }

  /** The path has one task and is not claimed. */
  ghost predicate Loose(s: State, i: nat, p: Path) {
    && !s.disk && i < |s.live| && s.live[i].task.path == p && CountOf(s.live, p) == 1 && p !in s.pending
    && (p in s.flushedAt ==> s.flushedAt[p] < |Versions(s, p)|)
  }

  /** `b` has just been written and flushed, and its task is the last. */
  ghost predicate JustFlushed(s: State, p: Path, b: bytes) {
    && s.live != [] && s.live[|s.live| - 1].task == Task(p, b, 0, 0)
    && p in s.flushedAt && p !in s.stuck && Versions(s, p) != [] && Buffer(s, p) == b
    && s.flushedAt[p] == Newest(s, p)
  }

  function Flushed(s: State, p: Path, b: bytes): State {
    Apply(Apply(s, Write(p, b)), Flush(p))
  }

  lemma WriteFlush(s: State, p: Path, b: bytes)
    requires p !in s.pending && (p in s.flushedAt ==> s.flushedAt[p] < |Versions(s, p)|)
    ensures Enabled(s, Write(p, b)) && Careful(s, Write(p, b), p)
    ensures var s1 := Apply(s, Write(p, b)); Enabled(s1, Flush(p)) && Careful(s1, Flush(p), p)
    ensures var s2 := Flushed(s, p, b);
            && s2.disk == s.disk && s2.live == s.live + [Live(Task(p, b, 0, 0), Channel)]
            && p in s2.pending && JustFlushed(s2, p, b)
  {
    hide CountOf, Covers;
  }

  /** The last task ends by success, and the claim and the buffer go with it. */
  lemma LastSucceeds(s: State, p: Path, b: bytes) returns (run: seq<Action>, t: State)
    requires JustFlushed(s, p, b) && s.live[|s.live| - 1].place.Channel?
    ensures ReachesCareful(s, run, t, p) && t.live == s.live[..|s.live| - 1] && t.disk == s.disk
    ensures p !in t.pending && p !in t.registered && p !in t.stuck
    ensures t.flushedAt == s.flushedAt && t.history == s.history
    ensures forall d :: d != b ==> !Covers(t, p, t.flushedAt[p], d)
  {
    var k := |s.live| - 1;
    var s1 := Apply(s, Drain(k));
    var s2 := Apply(s1, Start(k));
    assert s2.live[k].task == s.live[k].task && s2.live[..k] == s.live[..k];
    t := Apply(s2, Succeed(k));
    assert t.live == s.live[..k];
    hide CountOf, Claimable, Buffer, Apply, TaskStep, Enabled;
    run := Take(s2, Succeed(k), [], t, p);
    run := Take(s1, Start(k), run, t, p);
    run := Take(s, Drain(k), run, t, p);
  }

  /** Other bytes are written, flushed and uploaded first; then the old task overwrites them. */
  lemma LooseLoses(s: State, i: nat, p: Path) returns (run: seq<Action>, t: State)
    requires Loose(s, i, p) && !InWindow(s.live[i])
    ensures ReachesCareful(s, run, t, p) && LostUpdate(t, p)
  {
    hide CountOf, Apply, Enabled, Careful, Covers, LostUpdate, ReachesCareful, Versions, Buffer, Newest;
    var b := s.live[i].task.payload + [0];
    WriteFlush(s, p, b);
    var s2 := Flushed(s, p, b);
    var first, s3 := LastSucceeds(s2, p, b);
    assert s3.live == s.live;
    run, t := Settle(s3, i);
    JoinCareful(s2, first, s3, run, t, p);
    run := Take(Apply(s, Write(p, b)), Flush(p), first + run, t, p);
    run := Take(s, Write(p, b), run, t, p);
  }

  lemma DropAndUnclaim(s: State, i: nat, p: Path) returns (run: seq<Action>, t: State)
    requires i < |s.live| && s.live[i].task.path == p && InWindow(s.live[i])
    ensures ReachesCareful(s, run, t, p) && t.live == Without(s.live, i) && t.disk == s.disk && p !in t.pending
    ensures t.flushedAt == s.flushedAt && t.history == s.history
  {
    hide CountOf, Claimable, Buffer;
    run, t := [], s;
    if s.live[i].place.Matched? {
      var s1 := Apply(s, DropBuffer(i));
      t := Apply(s1, Unclaim(i));
      assert t.live == Without(s.live, i);
      hide Apply, TaskStep, Enabled;
      run := Take(s1, Unclaim(i), [], t, p);
      run := Take(s, DropBuffer(i), run, t, p);
    } else {
      t := Apply(s, Unclaim(i));
      run := Take(s, Unclaim(i), [], t, p);
    }
  }

  /** A compared task ends while a new one is in flight, and the new one's claim goes with it. */
  lemma WindowLoosens(s: State, i: nat, p: Path) returns (run: seq<Action>, t: State, k: nat)
    requires Loose(s, i, p) && InWindow(s.live[i])
    ensures ReachesCareful(s, run, t, p) && Loose(t, k, p) && !InWindow(t.live[k])
  {
    hide Apply, Enabled, Careful, Sum, ReachesCareful, Buffer;
    WriteFlush(s, p, []);
    var s2 := Flushed(s, p, []);
    SumAppend(s.live, Live(Task(p, [], 0, 0), Channel), OfPath(p));
    SumWithout(s2.live, i, OfPath(p));
    run, t := DropAndUnclaim(s2, i, p);
    k := |t.live| - 1;
    run := Take(Apply(s, Write(p, [])), Flush(p), run, t, p);
    run := Take(s, Write(p, []), run, t, p);
  }

  /** From a disown under a live task on, a later careful flush can be lost. */
  lemma DisownLoses(s: State, p: Path) returns (more: seq<Action>, t: State)
    requires ClaimLaw(s, p) && BufferOk(s, p) && CountOf(s.live, p) > 0
    ensures ReachesCareful(Apply(s, Disown(p)), more, t, p) && LostUpdate(t, p)
  {
    NoneLive(s.live, p);
    var l :| l in s.live && l.task.path == p;
    var i :| 0 <= i < |s.live| && s.live[i] == l;
    var s1 := Apply(s, Disown(p));
    assert Loose(s1, i, p);
    hide CountOf, Apply, Loose, LostUpdate;
    if InWindow(l) {
      var early, s2, k := WindowLoosens(s1, i, p);
      more, t := LooseLoses(s2, k, p);
      JoinCareful(s1, early, s2, more, t, p);
      more := early + more;
    } else {
      more, t := LooseLoses(s1, i, p);
    }
  }

  // ----- Care is exact, step by step and over runs -----

  /** No careful continuation loses an update of the path. */
  ghost predicate SafeFrom(s: State, p: Path) {
    forall more, t :: ReachesCareful(s, more, t, p) ==> !LostUpdate(t, p)
  }

  lemma KeptIsSafe(s: State, p: Path)
    requires ClaimLaw(s, p) && BufferOk(s, p)
    ensures SafeFrom(s, p)
  {
    forall more, t | ReachesCareful(s, more, t, p) ensures !LostUpdate(t, p) {
      CarefulRun(s, more, t, p);
      hide CountOf, ReachesCareful;
    }
  }

  lemma SafeStep(s: State, a: Action, p: Path)
    requires ClaimLaw(s, p) && BufferOk(s, p) && Enabled(s, a)
    ensures SafeFrom(Apply(s, a), p) <==> Careful(s, a, p)
    ensures Careful(s, a, p) ==> ClaimLaw(Apply(s, a), p) && BufferOk(Apply(s, a), p)
  {
    hide ReachesCareful, Apply, Enabled, CountOf, ClaimLaw, BufferOk, Claimable;
    if Careful(s, a, p) {
      ClaimStep(s, a, p);
      BufferStep(s, a, p);
      KeptIsSafe(Apply(s, a), p);
    } else if a == Disown(p) {
      var more, t := DisownLoses(s, p);
    } else {
      var more, t := CarelessFlushLoses(s, a, p);
    }
  }

  /** After any careful run, a flush of the path can never lose its bytes in a careful continuation if
      and only if it is careful. */
  lemma FlushLosesExactly(run: seq<Action>, s: State, a: Action, p: Path)
    requires ReachesCareful(Init(false), run, s, p) && Enabled(s, a) && (a == Flush(p) || a == Send(p))
    ensures SafeFrom(Apply(s, a), p) <==> Careful(s, a, p)
  {
    CarefulRun(Init(false), run, s, p);
    SafeStep(s, a, p);
  }

  /** After any careful run, dropping the path's claim can never lose a flush of it in a careful
      continuation if and only if the path has no live task. */
  lemma DisownLosesExactly(run: seq<Action>, s: State, p: Path)
    requires ReachesCareful(Init(false), run, s, p)
    ensures SafeFrom(Apply(s, Disown(p)), p) <==> CountOf(s.live, p) == 0
  {
    CarefulRun(Init(false), run, s, p);
    hide ReachesCareful, CountOf, SafeFrom, ClaimLaw, BufferOk;
    SafeStep(s, Disown(p), p);
  }

  /** Every state of the run is safe. */
  ghost predicate SafeThroughout(s: State, run: seq<Action>, p: Path)
    decreases |run|
  {
    SafeFrom(s, p) && (run == [] || (Enabled(s, run[0]) && SafeThroughout(Apply(s, run[0]), run[1..], p)))
  }

  lemma {:induction false} SafeRun(s: State, run: seq<Action>, t: State, p: Path)
    requires ClaimLaw(s, p) && BufferOk(s, p) && Reaches(s, run, t)
    ensures SafeThroughout(s, run, p) <==> ReachesCareful(s, run, t, p)
    decreases |run|
  {
    hide Apply, Enabled, ClaimLaw, BufferOk, Careful, SafeFrom;
    KeptIsSafe(s, p);
    if run != [] {
      SafeStep(s, run[0], p);
      if Careful(s, run[0], p) {
        SafeRun(Apply(s, run[0]), run[1..], t, p);
      }
    }
  }

  /** Off mode: over any run from the start, every state is one from which no careful continuation loses
      an update of the path, if and only if every flush and every disown of the path was careful. */
  lemma CarefulExactly(run: seq<Action>, t: State, p: Path)
    requires Reaches(Init(false), run, t)
    ensures SafeThroughout(Init(false), run, p) <==> ReachesCareful(Init(false), run, t, p)
  {
    SafeRun(Init(false), run, t, p);
  }

  // ----- Checks and flushes taken as one step -----

  /** Only one-step flushes and one-step success checks, and no disown. */
  predicate OneStep(run: seq<Action>) {
    forall a :: a in run ==> !a.Compare? && !a.Snapshot? && !a.Send? && !a.Disown?
  }

  /** Every task of the path will be compared with the buffer, or holds its bytes. */
  ghost predicate TasksCurrent(s: State, p: Path) {
    forall l :: l in s.live && l.task.path == p ==>
                !InWindow(l) && (p in s.registered || l.task.payload == Buffer(s, p))
  }

  lemma OneStepTask(s: State, a: Action, p: Path)
    requires OnTask(a) && Enabled(s, a) && s.live[a.i].task.path == p && ClaimLaw(s, p) && BufferOk(s, p)
    requires TasksCurrent(s, p) && !a.Compare?
    ensures TasksCurrent(TaskStep(s, a), p)
  {
    LiveCounts(s.live, a.i);
    TaskAfter(s, a);
    hide CountOf, Without, SatPred, Recycles, Newest;
  }

  lemma OneStepKeeps(s: State, a: Action, p: Path)
    requires ClaimLaw(s, p) && BufferOk(s, p) && TasksCurrent(s, p) && Enabled(s, a)
    requires !a.Compare? && !a.Snapshot? && !a.Send? && !a.Disown?
    ensures Careful(s, a, p) && TasksCurrent(Apply(s, a), p)
  {
    if PathOf(s, a) != p {
      OtherPath(s, a, p);
      hide Apply, BufferOk, ClaimLaw;
    } else if OnTask(a) {
      OneStepTask(s, a, p);
      hide TaskStep, BufferOk, ClaimLaw;
    } else if a.Flush? {
      CoversNewest(s, p, Newest(s, p));
      hide Covers;
    }
  }

  lemma {:induction false} OneStepRun(s: State, run: seq<Action>, t: State, p: Path)
    requires ClaimLaw(s, p) && BufferOk(s, p) && TasksCurrent(s, p) && Reaches(s, run, t) && OneStep(run)
    ensures ReachesCareful(s, run, t, p) && TasksCurrent(t, p)
    decreases |run|
  {
    if run != [] {
      assert run[0] in run;
      hide Apply, Enabled, ClaimLaw, BufferOk, TasksCurrent, CountOf, Claimable;
      OneStepKeeps(s, run[0], p);
      ClaimStep(s, run[0], p);
      BufferStep(s, run[0], p);
      OneStepRun(Apply(s, run[0]), run[1..], t, p);
    }
  }

  /** Taking the success check and the enqueue of a flush as one step each, no update is lost in any run,
      and a path that leaves by success leaves with the backend equal to its buffer. */
  lemma OneStepLosesNothing(run: seq<Action>, t: State, p: Path, i: nat)
    requires Reaches(Init(false), run, t) && OneStep(run)
    ensures CountOf(t.live, p) == One(p in t.pending) && !LostUpdate(t, p)
    ensures Enabled(t, Succeed(i)) && t.live[i].task.path == p && p !in Apply(t, Succeed(i)).pending ==>
              OnBackend(Apply(t, Succeed(i)), p, 0) && Apply(t, Succeed(i)).backend[p] == Buffer(t, p)
  {
    OneStepRun(Init(false), run, t, p);
    CarefulRun(Init(false), run, t, p);
    NoLostUpdate(run, t, p);
    if Enabled(t, Succeed(i)) && t.live[i].task.path == p {
      LiveCounts(t.live, i);
      CoversNewest(t, p, 0);
      CoversMore(t, Apply(t, Succeed(i)), p);
    }
    hide CountOf, Covers, LostUpdate, Reaches, ReachesCareful;
  }

  // ----- From the comparison to the end of the claim -----

  /** What a run writes to the path. */
  function WritesOf(run: seq<Action>, p: Path): seq<bytes> {
    if run == [] then []
    else (if run[0].Write? && run[0].p == p then [run[0].data] else []) + WritesOf(run[1..], p)
  }

  lemma VersionsStep(s: State, a: Action, p: Path)
    requires Enabled(s, a)
    ensures Versions(Apply(s, a), p) == Versions(s, p) + (if a.Write? && a.p == p then [a.data] else [])
  {
    hide Buffer, TaskEnabled, Next, Frees, Drops, Uncounts;
  }

  lemma {:induction false} VersionsRun(s: State, run: seq<Action>, t: State, p: Path)
    requires Reaches(s, run, t)
    ensures Versions(t, p) == Versions(s, p) + WritesOf(run, p)
    decreases |run|
  {
    hide Apply, Enabled, Versions;
    if run != [] {
      VersionsStep(s, run[0], p);
      VersionsRun(Apply(s, run[0]), run[1..], t, p);
    }
  }

  /** The path's task is uploaded and compared, and the backend holds `d`. */
  ghost predicate Window(s: State, p: Path, d: bytes) {
    && p in s.pending && p in s.backend && s.backend[p] == d
    && exists l :: l in s.live && l.task.path == p && InWindow(l) && l.task.payload == d
  }

  /** The path's task is uploaded and compared in every state of a run. */
  ghost predicate WindowStays(s: State, run: seq<Action>, p: Path)
    decreases |run|
  {
    && (exists l :: l in s.live && l.task.path == p && InWindow(l))
    && (run == [] || (Enabled(s, run[0]) && WindowStays(Apply(s, run[0]), run[1..], p)))
  }

  lemma WindowStep(s: State, a: Action, p: Path, d: bytes)
    requires ClaimLaw(s, p) && Window(s, p, d) && Enabled(s, a) && a != Disown(p)
    requires exists l :: l in Apply(s, a).live && l.task.path == p && InWindow(l)
    ensures Window(Apply(s, a), p, d)
  {
    var l :| l in s.live && l.task.path == p && InWindow(l) && l.task.payload == d;
    if PathOf(s, a) != p {
      OtherPath(s, a, p);
      hide Apply;
    } else if OnTask(a) {
      LiveCounts(s.live, a.i);
      OnlyTask(s.live, a.i, l);
      TaskAfter(s, a);
      var x :| x in Apply(s, a).live && x.task.path == p && InWindow(x);
      hide CountOf;
    } else {
      hide CountOf, Buffer;
      assert l in Apply(s, a).live;
    }
  }

  lemma {:induction false} WindowRun(s: State, run: seq<Action>, t: State, p: Path, d: bytes)
    requires ClaimLaw(s, p) && Window(s, p, d) && Reaches(s, run, t) && Disown(p) !in run && WindowStays(s, run, p)
    ensures ClaimLaw(t, p) && Window(t, p, d)
    decreases |run|
  {
    if run != [] {
      assert run == [run[0]] + run[1..];
      hide Apply, Enabled, ClaimLaw, Window, CountOf;
      ClaimStep(s, run[0], p);
      WindowStep(s, run[0], p, d);
      WindowRun(Apply(s, run[0]), run[1..], t, p, d);
    }
  }

  lemma MatchedWindow(s: State, i: nat)
    requires i < |s.live| && ClaimLaw(s, s.live[i].task.path) && !s.disk && Enabled(s, Compare(i))
    requires var t := s.live[i].task; t.path in s.registered && Buffer(s, t.path) == t.payload
    ensures var p := s.live[i].task.path; var s' := Apply(s, Compare(i));
            ClaimLaw(s', p) && Window(s', p, s.live[i].task.payload) && Versions(s', p) == Versions(s, p)
  {
    ClaimStep(s, Compare(i), s.live[i].task.path);
    LiveCounts(s.live, i);
    var s' := Apply(s, Compare(i));
    assert s'.live[i] == s.live[i].(place := Matched);
    hide CountOf;
  }

  /** From a comparison that finds the buffer unchanged to the end of the claim: the path leaves with the
      backend equal to its buffer if and only if nothing was written to it meanwhile, or the last write
      put the uploaded bytes back. */
  lemma LeavesWithCurrentBuffer(s: State, i: nat, more: seq<Action>, t: State, k: nat)
    requires i < |s.live| && ClaimLaw(s, s.live[i].task.path) && !s.disk && Enabled(s, Compare(i))
    requires var x := s.live[i].task; x.path in s.registered && x.path in s.history && Buffer(s, x.path) == x.payload
    requires var p := s.live[i].task.path;
             && Reaches(Apply(s, Compare(i)), more, t) && Disown(p) !in more && WindowStays(Apply(s, Compare(i)), more, p)
             && Enabled(t, Unclaim(k)) && t.live[k].task.path == p
    ensures var x := s.live[i].task; var u, w := Apply(t, Unclaim(k)), WritesOf(more, x.path);
            && x.path !in u.pending && x.path in u.backend
            && (u.backend[x.path] == Buffer(u, x.path) <==> w == [] || w[|w| - 1] == x.payload)
  {
    var p, d := s.live[i].task.path, s.live[i].task.payload;
    MatchedWindow(s, i);
    WindowRun(Apply(s, Compare(i)), more, t, p, d);
    VersionsRun(Apply(s, Compare(i)), more, t, p);
    VersionsStep(t, Unclaim(k), p);
    hide CountOf, Reaches, WindowStays;
  }

  /** A flush in that time is careful if and only if the same holds. */
  lemma FlushInWindowExactly(s: State, i: nat, more: seq<Action>, t: State)
    requires i < |s.live| && ClaimLaw(s, s.live[i].task.path) && !s.disk && Enabled(s, Compare(i))
    requires var x := s.live[i].task; x.path in s.registered && x.path in s.history && Buffer(s, x.path) == x.payload
    requires var p := s.live[i].task.path;
             && Reaches(Apply(s, Compare(i)), more, t) && Disown(p) !in more && WindowStays(Apply(s, Compare(i)), more, p)
             && Enabled(t, Flush(p)) && BufferOk(t, p)
    ensures var x := s.live[i].task; var w := WritesOf(more, x.path);
            Careful(t, Flush(x.path), x.path) <==> w == [] || w[|w| - 1] == x.payload
  {
    var p, d := s.live[i].task.path, s.live[i].task.payload;
    MatchedWindow(s, i);
    WindowRun(Apply(s, Compare(i)), more, t, p, d);
    VersionsRun(Apply(s, Compare(i)), more, t, p);
    hide Reaches, WindowStays, Careful, Window, BufferOk;
    FlushInWindow(t, p, d);
  }

  lemma FlushInWindow(s: State, p: Path, d: bytes)
    requires ClaimLaw(s, p) && BufferOk(s, p) && Window(s, p, d) && Enabled(s, Flush(p))
    ensures Careful(s, Flush(p), p) <==> Buffer(s, p) == d
  {
    CoversNewest(s, p, Newest(s, p));
    assert Covers(s, p, Newest(s, p), d) <==> Buffer(s, p) == d;
    var l :| l in s.live && l.task.path == p && InWindow(l) && l.task.payload == d;
    var k :| 0 <= k < |s.live| && s.live[k] == l;
    hide Covers;
    forall x | x in s.live && x.task.path == p ensures x == l {
      OnlyTask(s.live, k, x);
    }
    hide CountOf;
  }

  // ----- Three runs that lose an update -----

  lemma {:induction false} Join(s: State, a: seq<Action>, t: State, b: seq<Action>, u: State)
    requires Reaches(s, a, t) && Reaches(t, b, u)
    ensures Reaches(s, a + b, u)
    decreases |a|
  {
    hide Apply, Enabled;
    if a == [] {
      assert a + b == b;
    } else {
      assert (a + b)[1..] == a[1..] + b;
      Join(Apply(s, a[0]), a[1..], t, b, u);
    }
  }

  ghost predicate Goes(s: State, a: Action, t: State, p: Path) {
    Enabled(s, a) && Careful(s, a, p) && Apply(s, a) == t
  }

  lemma {:induction false} Through(states: seq<State>, actions: seq<Action>, p: Path)
    requires |states| == |actions| + 1
    requires forall k :: 0 <= k < |actions| ==> Goes(states[k], actions[k], states[k + 1], p)
    ensures ReachesCareful(states[0], actions, states[|actions|], p)
    decreases |actions|
  {
    hide Apply, Enabled, Careful;
    if actions != [] {
      Through(states[1..], actions[1..], p);
    }
  }

  /** A state in which only `p` has been used. */
  function Solo(p: Path, live: seq<Live>, registered: bool, backend: map<Path, bytes>, count: nat,
                history: map<Path, seq<bytes>>, flushed: map<Path, nat>, snapshots: map<Path, nat>): State {
    State(false, live, if live == [] then {} else {p}, if registered then {p} else {}, backend, count,
          snapshots, history, flushed, {}, {}, 0)
  }

  lemma SoloWrite(p: Path, live: seq<Live>, r: bool, backend: map<Path, bytes>, count: nat,
                  old_: seq<bytes>, flushed: map<Path, nat>, snapshots: map<Path, nat>, data: bytes)
    ensures Goes(Solo(p, live, r, backend, count, map[p := old_], flushed, snapshots), Write(p, data),
                 Solo(p, live, true, backend, count, map[p := old_ + [data]], flushed, snapshots), p)
    ensures Goes(Solo(p, live, r, backend, count, map[], flushed, snapshots), Write(p, data),
                 Solo(p, live, true, backend, count, map[p := [data]], flushed, snapshots), p)
  {
    assert [] + [data] == [data];
  }

  lemma SoloFlush(p: Path, history: seq<bytes>, flushed: map<Path, nat>, snapshots: map<Path, nat>)
    requires history != [] && flushed == map[]
    ensures Goes(Solo(p, [], true, map[], 0, map[p := history], flushed, snapshots), Flush(p),
                 Solo(p, [Live(Task(p, history[|history| - 1], 0, 0), Channel)], true, map[], 0,
                      map[p := history], map[p := |history| - 1], snapshots), p)
  {
  }

  lemma SoloStart(p: Path, t: Task, history: map<Path, seq<bytes>>, flushed: map<Path, nat>, snapshots: map<Path, nat>)
    requires t.path == p
    ensures Goes(Solo(p, [Live(t, Channel)], true, map[], 0, history, flushed, snapshots), Drain(0),
                 Solo(p, [Live(t, Waiting)], true, map[], 1, history, flushed, snapshots), p)
    ensures Goes(Solo(p, [Live(t, Waiting)], true, map[], 1, history, flushed, snapshots), Start(0),
                 Solo(p, [Live(t, Uploading(0))], true, map[], 1, history, flushed, snapshots), p)
  {
    hide CountOf;
  }

  lemma SoloCompare(p: Path, t: Task, history: seq<bytes>, flushed: map<Path, nat>)
    requires t.path == p && history != [] && history[|history| - 1] == t.payload
    ensures Goes(Solo(p, [Live(t, Uploading(0))], true, map[], 1, map[p := history], flushed, map[]), Compare(0),
                 Solo(p, [Live(t, Matched)], true, map[p := t.payload], 0, map[p := history], flushed, map[]), p)
    ensures Goes(Solo(p, [Live(t, Matched)], true, map[p := t.payload], 0, map[p := history], flushed, map[]), DropBuffer(0),
                 Solo(p, [Live(t, Dropped)], false, map[p := t.payload], 0, map[p := history], flushed, map[]), p)
  {
    hide CountOf;
  }

  lemma {:induction false} JoinCareful(s: State, a: seq<Action>, t: State, b: seq<Action>, u: State, p: Path)
    requires ReachesCareful(s, a, t, p) && ReachesCareful(t, b, u, p)
    ensures ReachesCareful(s, a + b, u, p)
    decreases |a|
  {
    hide Apply, Enabled, Careful;
    if a == [] {
      assert a + b == b;
    } else {
      assert (a + b)[1..] == a[1..] + b;
      JoinCareful(Apply(s, a[0]), a[1..], t, b, u, p);
    }
  }

  function Uploaded(p: Path, a: bytes, place: Place, registered: bool, history: seq<bytes>): State {
    Solo(p, [Live(Task(p, a, 0, 0), place)], registered, map[p := a], 0, map[p := history], map[p := 0], map[])
  }

  lemma UploadOne(p: Path, a: bytes) returns (run: seq<Action>)
    ensures ReachesCareful(Init(false), run, Uploaded(p, a, Matched, true, [a]), p)
  {
    var t, h, f := Task(p, a, 0, 0), map[p := [a]], map[p := 0];
    assert Init(false) == Solo(p, [], false, map[], 0, map[], map[], map[]);
    hide Goes, Solo, ReachesCareful;
    SoloWrite(p, [], false, map[], 0, [], map[], map[], a);
    SoloFlush(p, [a], map[], map[]);
    SoloStart(p, t, h, f, map[]);
    SoloCompare(p, t, [a], f);
    run := [Write(p, a), Flush(p), Drain(0), Start(0), Compare(0)];
    Through([Init(false), Solo(p, [], true, map[], 0, h, map[], map[]),
             Solo(p, [Live(t, Channel)], true, map[], 0, h, f, map[]), Solo(p, [Live(t, Waiting)], true, map[], 1, h, f, map[]),
             Solo(p, [Live(t, Uploading(0))], true, map[], 1, h, f, map[]), Uploaded(p, a, Matched, true, [a])], run, p);
  }

  /** A path whose upload of `a` has been compared when `b` is written: before the buffer is dropped, or
      after. */
  lemma WrittenInWindow(p: Path, a: bytes, b: bytes, dropped: bool) returns (run: seq<Action>, s: State)
    requires a != b
    ensures ReachesCareful(Init(false), run, s, p) && Enabled(s, Flush(p)) && !Careful(s, Flush(p), p)
  {
    var t, f := Task(p, a, 0, 0), map[p := 0];
    s := Uploaded(p, a, if dropped then Dropped else Matched, true, [a] + [b]);
    Uncarried(p, a, b, dropped);
    hide Goes, Solo, ReachesCareful, Careful, Enabled;
    var early := UploadOne(p, a);
    SoloCompare(p, t, [a], f);
    SoloWrite(p, [Live(t, if dropped then Dropped else Matched)], !dropped, map[p := a], 0, [a], f, map[], b);
    var s0, late := Uploaded(p, a, Matched, true, [a]), if dropped then [DropBuffer(0), Write(p, b)] else [Write(p, b)];
    if dropped {
      Through([s0, Uploaded(p, a, Dropped, false, [a]), s], late, p);
    } else {
      Through([s0, s], late, p);
    }
    JoinCareful(Init(false), early, s0, late, s, p);
    run := early + late;
  }

  lemma Uncarried(p: Path, a: bytes, b: bytes, dropped: bool)
    requires a != b
    ensures var s := Uploaded(p, a, if dropped then Dropped else Matched, true, [a] + [b]);
            Enabled(s, Flush(p)) && !Careful(s, Flush(p), p)
  {
    var l := Live(Task(p, a, 0, 0), if dropped then Dropped else Matched);
    var s := Solo(p, [l], true, map[p := a], 0, map[p := [a] + [b]], map[p := 0], map[]);
    assert Versions(s, p) == [a] + [b] && Newest(s, p) == 1;
    assert !Carries(s, l, 1);
    assert l in s.live;
  }

  /** The success check of the code compares, drops the buffer and drops the claim. A write and a flush
      between any two of these are lost: the flush finds the path claimed, and then the claim goes. */
  lemma SplitCheckLosesUpdate(p: Path, dropped: bool) returns (run: seq<Action>, t: State)
    ensures Reaches(Init(false), run, t) && LostUpdate(t, p)
  {
    var early, s := WrittenInWindow(p, [0], [1], dropped);
    run, t := LoseAfter(early, s, Flush(p), p);
  }

  lemma LoseAfter(early: seq<Action>, s: State, a: Action, p: Path) returns (run: seq<Action>, t: State)
    requires ReachesCareful(Init(false), early, s, p) && Enabled(s, a) && (a == Flush(p) || a == Send(p)) && !Careful(s, a, p)
    ensures Reaches(Init(false), run, t) && LostUpdate(t, p)
  {
    CarefulRun(Init(false), early, s, p);
    var more;
    more, t := CarelessFlushLoses(s, a, p);
    hide Enabled, Apply, LostUpdate, BufferOk, ClaimLaw, Careful;
    CarelessReaches(Apply(s, a), more, t, p);
    assert ([a] + more)[1..] == more;
    Join(Init(false), early, s, [a] + more, t);
    run := early + ([a] + more);
  }

  lemma {:induction false} CarelessReaches(s: State, run: seq<Action>, t: State, p: Path)
    requires ReachesCareful(s, run, t, p)
    ensures Reaches(s, run, t)
    decreases |run|
  {
    hide Enabled, Apply, Careful;
    if run != [] {
      CarelessReaches(Apply(s, run[0]), run[1..], t, p);
    }
  }

  lemma SoloSnapshot(p: Path, a: bytes)
    ensures Goes(Solo(p, [], true, map[], 0, map[p := [a]], map[], map[]), Snapshot(p),
                 Solo(p, [], true, map[], 0, map[p := [a]], map[], map[p := 0]), p)
  {
  }

  lemma SoloSucceed(p: Path, a: bytes, b: bytes)
    requires a != b
    ensures Goes(Solo(p, [Live(Task(p, b, 0, 0), Uploading(0))], true, map[], 1, map[p := [a] + [b]], map[p := 1], map[p := 0]),
                 Succeed(0), Solo(p, [], false, map[p := b], 0, map[p := [a] + [b]], map[p := 1], map[p := 0]), p)
    ensures var s := Solo(p, [], false, map[p := b], 0, map[p := [a] + [b]], map[p := 1], map[p := 0]);
            Enabled(s, Send(p)) && !Careful(s, Send(p), p)
  {
    hide CountOf;
    assert {p} - {p} == {};
    var s := Solo(p, [], false, map[p := b], 0, map[p := [a] + [b]], map[p := 1], map[p := 0]);
    assert Versions(s, p) == [a] + [b];
    assert !Covers(s, p, 1, a);
  }

  lemma CopyWaits(p: Path, a: bytes, b: bytes) returns (run: seq<Action>)
    ensures ReachesCareful(Init(false), run, Solo(p, [], true, map[], 0, map[p := [a] + [b]], map[], map[p := 0]), p)
  {
    assert Init(false) == Solo(p, [], false, map[], 0, map[], map[], map[]);
    hide Goes, Solo, ReachesCareful;
    SoloWrite(p, [], false, map[], 0, [], map[], map[], a);
    SoloSnapshot(p, a);
    SoloWrite(p, [], true, map[], 0, [a], map[], map[p := 0], b);
    run := [Write(p, a), Snapshot(p), Write(p, b)];
    Through([Init(false), Solo(p, [], true, map[], 0, map[p := [a]], map[], map[]),
             Solo(p, [], true, map[], 0, map[p := [a]], map[], map[p := 0]),
             Solo(p, [], true, map[], 0, map[p := [a] + [b]], map[], map[p := 0])], run, p);
  }

  /** A flush of the code copies the buffer and then claims the path. A copy that waits while a newer
      version is flushed and uploaded overwrites it. */
  lemma SplitFlushLosesUpdate(p: Path) returns (run: seq<Action>, t: State)
    ensures Reaches(Init(false), run, t) && LostUpdate(t, p)
  {
    hide Goes, Solo, ReachesCareful, Reaches, Careful, Enabled, Apply;
    var a, b: bytes := [0], [1];
    var task, h, f, at := Task(p, b, 0, 0), map[p := [a] + [b]], map[p := 1], map[p := 0];
    var early := CopyWaits(p, a, b);
    SoloFlush(p, [a] + [b], map[], at);
    SoloStart(p, task, h, f, at);
    SoloSucceed(p, a, b);
    var late := [Flush(p), Drain(0), Start(0), Succeed(0)];
    var s0, s := Solo(p, [], true, map[], 0, h, map[], at), Solo(p, [], false, map[p := b], 0, h, f, at);
    Through([s0, Solo(p, [Live(task, Channel)], true, map[], 0, h, f, at), Solo(p, [Live(task, Waiting)], true, map[], 1, h, f, at),
             Solo(p, [Live(task, Uploading(0))], true, map[], 1, h, f, at), s], late, p);
    JoinCareful(Init(false), early, s0, late, s, p);
    run, t := LoseAfter(early + late, s, Send(p), p);
  }
}
