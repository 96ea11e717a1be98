/** What comes out of the prefetcher: which bytes readers get and give back, that the queued bytes are the
    file, and how transient errors end. */
module PrefetcherFile {
  import opened Wrappers
  import opened Crc32c
  import opened PartQueue
  import opened Prefetcher

  // ----- What a reader holds -----

  /** In every run: after `pop(o)` the reader holds the one queued part that covers `o`, with the file's bytes,
      if there is one, and stays idle if there is none; other readers keep what they hold. */
  lemma PopHandsOver(c: Config, readers: nat, run: seq<Action>, s: State, r: nat, o: nat)
    requires c.minWindow <= c.maxWindow && Reaches(c, Init(c, readers), run, s) && Enabled(c, s, PopPart(r, o))
    ensures var t := Apply(c, s, PopPart(r, o));
            && (t.readers[r].Popped? <==> exists p :: p in s.queue.parts && p.Covers(o))
            && (t.readers[r].Popped? ==>
                  var p := t.readers[r].part;
                  && p in s.queue.parts && p !in t.queue.parts
                  && p.Covers(o) && p.End() <= |c.file| && p.data == c.file[p.offset..p.End()])
            && (!t.readers[r].Popped? ==> t.readers[r].Idle?)
            && t.readers == s.readers[r := t.readers[r]]
  {
    ReadersGetTheFile(c, readers, run, s, o);
    PopFindsExactly(s.queue, o);
    if p :| p in s.queue.parts && p.Covers(o) {
      PopKeepsExactly(s.queue, o, p);
      var i :| 0 <= i < |s.queue.parts| && s.queue.parts[i] == p;
    }
    hide Reaches, WellFormed, AfterPop, PopResult;
  }

  /** A step of reader `r`. */
  predicate ByReader(a: Action, r: nat) {
    (a.PopPart? || a.FreePart? || a.UncountPart?) && a.r == r
  }

  lemma {:induction false} ReaderWaits(c: Config, s: State, run: seq<Action>, t: State, r: nat)
    requires c.minWindow <= c.maxWindow && Reaches(c, s, run, t) && forall a :: a in run ==> !ByReader(a, r)
    requires r < |s.readers|
    ensures |t.readers| == |s.readers| && t.readers[r] == s.readers[r]
    decreases |run|
  {
    if run != [] {
      assert run == [run[0]] + run[1..];
      ReaderWaitsNow(c, s, run[0], r);
      hide Apply, Enabled;
      ReaderWaits(c, Apply(c, s, run[0]), run[1..], t, r);
    }
  }

  lemma ReaderWaitsNow(c: Config, s: State, a: Action, r: nat)
    requires c.minWindow <= c.maxWindow && Enabled(c, s, a) && !ByReader(a, r) && r < |s.readers|
    ensures |Apply(c, s, a).readers| == |s.readers| && Apply(c, s, a).readers[r] == s.readers[r]
  {
    hide AfterPop, PopResult, PushOutcomeOf, AfterPush, IsFullFor;
  }

  /** In every run: a reader that holds a part still holds it when it comes to release it, whatever the others
      did meanwhile. Its two steps give back exactly the part's bytes, first to the budget and then to the
      counter, which does not wrap, and touch nothing else. */
  lemma PartReturned(c: Config, readers: nat, before: seq<Action>, s: State, mid: seq<Action>, u: State,
                     after: seq<Action>, v: State, r: nat)
    requires c.minWindow <= c.maxWindow && Reaches(c, Init(c, readers), before, s)
    requires r < |s.readers| && s.readers[r].Popped?
    requires Reaches(c, s, mid, u) && forall a :: a in mid ==> !ByReader(a, r)
    ensures Enabled(c, u, FreePart(r)) && u.readers[r] == s.readers[r]
    ensures var n, u' := |s.readers[r].part.data|, Apply(c, u, FreePart(r));
            && u' == u.(net := u.net - n, readers := u'.readers)
            && (Reaches(c, u', after, v) && (forall a :: a in after ==> !ByReader(a, r)) ==>
                  && Enabled(c, v, UncountPart(r)) && v.inflight >= n
                  && var v' := Apply(c, v, UncountPart(r));
                     v'.readers[r].Idle? && v' == v.(inflight := v.inflight - n, readers := v'.readers))
  {
    hide Reaches, Inv;
    InitInv(c, readers);
    InvRun(c, Init(c, readers), before, s);
    InvRun(c, s, mid, u);
    ReaderWaits(c, s, mid, u, r);
    FreesPart(c, u, r);
    hide Apply;
    var u' := Apply(c, u, FreePart(r));
    if Reaches(c, u', after, v) && forall a :: a in after ==> !ByReader(a, r) {
      InvRun(c, u', after, v);
      ReaderWaits(c, u', after, v, r);
      UncountsPart(c, v, r);
    }
  }

  lemma FreesPart(c: Config, s: State, r: nat)
    requires c.minWindow <= c.maxWindow && Inv(c, s) && r < |s.readers| && s.readers[r].Popped?
    ensures Enabled(c, s, FreePart(r)) && Inv(c, Apply(c, s, FreePart(r)))
    ensures var t := Apply(c, s, FreePart(r));
            && |t.readers| == |s.readers| && t.readers[r] == Freed(s.readers[r].part)
            && t == s.(net := s.net - |s.readers[r].part.data|, readers := t.readers)
  {
    InvStep(c, s, FreePart(r));
    hide Inv;
  }

  lemma UncountsPart(c: Config, s: State, r: nat)
    requires c.minWindow <= c.maxWindow && Inv(c, s) && r < |s.readers| && s.readers[r].Freed?
    ensures Enabled(c, s, UncountPart(r)) && s.inflight >= |s.readers[r].part.data|
    ensures var t := Apply(c, s, UncountPart(r));
            && |t.readers| == |s.readers| && t.readers[r].Idle?
            && t == s.(inflight := s.inflight - |s.readers[r].part.data|, readers := t.readers)
  {
    ReadersUpdate(s.readers, r, Idle);
    hide ContentInv, WindowInv, HeldByReaders, FreedByReaders, SumLen;
  }

  lemma QueuedStaysNow(c: Config, s: State, a: Action, p: Part)
    requires c.minWindow <= c.maxWindow && Enabled(c, s, a) && WellFormed(s.queue) && p in s.queue.parts
    requires a.PopPart? ==> a.o < p.offset
    ensures p in Apply(c, s, a).queue.parts
  {
    if a.PopPart? {
      PopKeepsExactly(s.queue, a.o, p);
    }
    hide AfterPop, PopResult, IsFullFor, WellFormed;
  }

  lemma {:induction false} QueuedStays(c: Config, s: State, run: seq<Action>, t: State, p: Part)
    requires c.minWindow <= c.maxWindow && Inv(c, s) && Reaches(c, s, run, t) && p in s.queue.parts
    requires forall a :: a in run && a.PopPart? ==> a.o < p.offset
    ensures p in t.queue.parts
    decreases |run|
  {
    if run != [] {
      assert run == [run[0]] + run[1..];
      QueuedStaysNow(c, s, run[0], p);
      InvRun(c, s, [run[0]], Apply(c, s, run[0]));
      hide Apply, Enabled, Inv;
      QueuedStays(c, Apply(c, s, run[0]), run[1..], t, p);
    }
  }

  /** In every run: bytes that were read and queued are found by any reader, at every offset they cover, until
      a `pop` at or past them. */
  lemma EnqueuedIsFound(c: Config, readers: nat, before: seq<Action>, s: State, after: seq<Action>, t: State,
                        r: nat, o: nat)
    requires c.minWindow <= c.maxWindow && Reaches(c, Init(c, readers), before, s)
    requires Enabled(c, s, Enqueue) && !IsTerminal(s.queue) && !IsFullFor(s.queue, s.pc.n)
    requires Reaches(c, Apply(c, s, Enqueue), after, t) && forall a :: a in after && a.PopPart? ==> a.o < s.offset
    requires Enabled(c, t, PopPart(r, o)) && s.offset <= o < s.offset + s.pc.len
    ensures Apply(c, t, PopPart(r, o)).readers[r] == Popped(Part(s.offset, c.file[s.offset..s.offset + s.pc.len]))
  {
    assert s.pc.Push? && s.offset + s.pc.len <= |c.file|;
    hide Reaches, Apply, Enabled, Inv, PartInHand;
    var s', p := Apply(c, s, Enqueue), PartInHand(c, s);
    InitInv(c, readers);
    InvRun(c, Init(c, readers), before, s);
    Landed(c, s);
    QueuedStays(c, s', after, t, p);
    InvRun(c, s', after, t);
    FoundBy(c, t, r, o, p);
  }

  lemma Landed(c: Config, s: State)
    requires c.minWindow <= c.maxWindow && Inv(c, s)
    requires Enabled(c, s, Enqueue) && !IsTerminal(s.queue) && !IsFullFor(s.queue, s.pc.n)
    ensures Inv(c, Apply(c, s, Enqueue)) && PartInHand(c, s) in Apply(c, s, Enqueue).queue.parts
    ensures PartInHand(c, s) == Part(s.offset, c.file[s.offset..s.offset + s.pc.len])
  {
    PushAlwaysLands(c, s);
    PushTakesExactly(s.queue, PartInHand(c, s));
    InvStep(c, s, Enqueue);
    hide Inv, WellFormed, PushOutcomeOf, AfterPush;
  }

  lemma FoundBy(c: Config, s: State, r: nat, o: nat, p: Part)
    requires c.minWindow <= c.maxWindow && Inv(c, s) && Enabled(c, s, PopPart(r, o)) && p in s.queue.parts && p.Covers(o)
    ensures Apply(c, s, PopPart(r, o)).readers[r] == Popped(p)
  {
    PopFindsExactly(s.queue, o);
    hide WindowInv, BudgetInv, AfterPop, PopResult, WellFormed;
    var i :| 0 <= i < |s.queue.parts| && s.queue.parts[i] == p;
  }

  // ----- The whole file -----

  /** What the step adds to the queue. */
  function QueuedNow(c: Config, s: State, a: Action): seq<byte>
    requires Enabled(c, s, a)
  {
    if a.Enqueue? && !IsTerminal(s.queue) && !IsFullFor(s.queue, s.pc.n) then PartInHand(c, s).data else []
  }

  /** The bytes queued in a run, in order. */
  ghost function QueuedIn(c: Config, s: State, run: seq<Action>, t: State): seq<byte>
    requires c.minWindow <= c.maxWindow && Reaches(c, s, run, t)
    decreases |run|
  {
    if run == [] then [] else QueuedNow(c, s, run[0]) + QueuedIn(c, Apply(c, s, run[0]), run[1..], t)
  }

  /** The step skips nothing: the shrunk request is granted, and a read that succeeds is full. */
  predicate Lossless(s: State, a: Action) {
    && !(a == Reserve(false) && s.pc.AskAgain?)
    && (a.Fetch? && a.result.Got? && s.pc.Read? ==> a.result.len == s.pc.n)
  }

  ghost predicate ReachesLossless(c: Config, s: State, run: seq<Action>, t: State)
    requires c.minWindow <= c.maxWindow
    decreases |run|
  {
    if run == [] then s == t
    else Enabled(c, s, run[0]) && Lossless(s, run[0]) && ReachesLossless(c, Apply(c, s, run[0]), run[1..], t)
  }

  ghost predicate FullHand(s: State) {
    s.pc.Push? ==> s.pc.len == s.pc.n
  }

  lemma LosslessStep(c: Config, s: State, a: Action)
    requires c.minWindow <= c.maxWindow && Inv(c, s) && Enabled(c, s, a) && Lossless(s, a) && FullHand(s)
    ensures FullHand(Apply(c, s, a)) && s.offset <= Apply(c, s, a).offset <= |c.file|
    ensures QueuedNow(c, s, a) == c.file[s.offset..Apply(c, s, a).offset]
  {
    WindowStep(c, s, a);
    if a.Enqueue? && !IsTerminal(s.queue) && !IsFullFor(s.queue, s.pc.n) {
      PushAlwaysLands(c, s);
    }
    hide ContentInv, BudgetInv, PushOutcomeOf, AfterPush, AfterPop, PopResult, IsFullFor;
  }

  lemma TwoPieces(file: seq<byte>, a: nat, b: nat, e: nat)
    requires a <= b <= e <= |file|
    ensures file[a..b] + file[b..e] == file[a..e]
  {
  }

  lemma OffsetInFile(c: Config, s: State)
    requires Inv(c, s)
    ensures s.offset <= |c.file| && c.file[s.offset..s.offset] == []
  {
    hide ContentInv, BudgetInv;
  }

  lemma {:induction false} LosslessRun(c: Config, s: State, run: seq<Action>, t: State)
    requires c.minWindow <= c.maxWindow && Inv(c, s) && FullHand(s) && ReachesLossless(c, s, run, t)
    ensures Reaches(c, s, run, t) && s.offset <= t.offset <= |c.file|
    ensures QueuedIn(c, s, run, t) == c.file[s.offset..t.offset]
    decreases |run|
  {
    if run == [] {
      OffsetInFile(c, s);
      hide Inv;
    } else {
      var s' := Apply(c, s, run[0]);
      LosslessStep(c, s, run[0]);
      InvStep(c, s, run[0]);
      hide Inv, Apply, Enabled, QueuedNow, Lossless, FullHand;
      LosslessRun(c, s', run[1..], t);
      TwoPieces(c.file, s.offset, s'.offset, t.offset);
    }
  }

  /** The thread leaves its loop only at the end of the file, when cancelled, or with an error. */
  ghost predicate StopsForAReason(c: Config, s: State) {
    && (s.pc.Closing? || s.pc.Done? || ((s.pc.GiveBack? || s.pc.Return?) && s.pc.next.Stop?) ==>
          s.offset >= |c.file| || s.queue.cancelled || s.queue.error)
    && (s.queue.finished <==> s.pc.Done?)
  }

  lemma StopsStep(c: Config, s: State, a: Action)
    requires c.minWindow <= c.maxWindow && Inv(c, s) && StopsForAReason(c, s) && Enabled(c, s, a)
    ensures StopsForAReason(c, Apply(c, s, a))
  {
    hide Inv;
    if a.Enqueue? {
      EnqueueStops(c, s);
      hide Apply;
    } else if a.PopPart? {
      hide PopResult, Stale, SumLen;
    } else {
      hide AfterPop, PopResult, AfterEnqueue;
    }
  }

  lemma EnqueueStops(c: Config, s: State)
    requires c.minWindow <= c.maxWindow && Inv(c, s) && StopsForAReason(c, s) && Enabled(c, s, Enqueue)
    ensures StopsForAReason(c, Apply(c, s, Enqueue))
  {
    if !IsTerminal(s.queue) && !IsFullFor(s.queue, s.pc.n) {
      PushAlwaysLands(c, s);
    }
    hide Inv, IsFullFor, SumLen;
  }

  lemma {:induction false} StopsRun(c: Config, s: State, run: seq<Action>, t: State)
    requires c.minWindow <= c.maxWindow && Inv(c, s) && StopsForAReason(c, s) && Reaches(c, s, run, t)
    ensures StopsForAReason(c, t)
    decreases |run|
  {
    if run != [] {
      StopsStep(c, s, run[0]);
      InvStep(c, s, run[0]);
      hide Inv, Apply, Enabled, StopsForAReason;
      StopsRun(c, Apply(c, s, run[0]), run[1..], t);
    }
  }

  /** In every run the thread finishes only at the end of the file, when cancelled, or with an error. */
  lemma FinishedAtTheEnd(c: Config, readers: nat, run: seq<Action>, t: State)
    requires c.minWindow <= c.maxWindow && Reaches(c, Init(c, readers), run, t) && t.pc.Done?
    ensures t.queue.finished && (t.offset == |c.file| || t.queue.cancelled || t.queue.error)
  {
    InitInv(c, readers);
    InvRun(c, Init(c, readers), run, t);
    StopsRun(c, Init(c, readers), run, t);
    hide ContentInv, BudgetInv, Reaches;
  }

  /** In every run that skips nothing the queued bytes, in order, are the file up to the thread's offset; and a
      thread that has finished without a cancel or an error has queued the whole file. */
  lemma QueuesTheFile(c: Config, readers: nat, run: seq<Action>, t: State)
    requires c.minWindow <= c.maxWindow && ReachesLossless(c, Init(c, readers), run, t)
    ensures Reaches(c, Init(c, readers), run, t) && t.offset <= |c.file|
    ensures QueuedIn(c, Init(c, readers), run, t) == c.file[..t.offset]
    ensures t.pc.Done? && !t.queue.cancelled && !t.queue.error ==> QueuedIn(c, Init(c, readers), run, t) == c.file
  {
    InitInv(c, readers);
    LosslessRun(c, Init(c, readers), run, t);
    hide Inv, QueuedIn, Reaches, ReachesLossless;
    assert c.file[0..t.offset] == c.file[..t.offset];
    if t.pc.Done? && !t.queue.cancelled && !t.queue.error {
      FinishedAtTheEnd(c, readers, run, t);
      assert c.file[..|c.file|] == c.file;
    }
  }

  lemma LosslessThen(c: Config, s: State, a: Action, rest: seq<Action>, s': State, t: State) returns (run: seq<Action>)
    requires c.minWindow <= c.maxWindow && Enabled(c, s, a) && Lossless(s, a) && Apply(c, s, a) == s'
    requires ReachesLossless(c, s', rest, t)
    ensures ReachesLossless(c, s, run, t)
  {
    hide Apply, Enabled, Lossless;
    run := [a] + rest;
    assert run[1..] == rest;
  }

  /** The loop's top with nothing in the way and room for the rest of the file. */
  ghost predicate Clear(c: Config, s: State) {
    && 1 <= c.minWindow <= c.maxWindow && s.pc.Top? && s.override.None? && s.floor.None? && s.offset <= |c.file|
    && !IsTerminal(s.queue) && s.queue.currentBytes + |c.file| - s.offset <= s.queue.maxBytes
    && (s.queue.parts != [] ==> s.queue.parts[|s.queue.parts| - 1].End() <= s.offset)
  }

  /** One granted, full request. */
  lemma FullRound(c: Config, s: State, s': State, rest: seq<Action>, t: State) returns (run: seq<Action>)
    requires Clear(c, s) && s.offset < |c.file|
    requires var n := Min(Window(c, s, c.minWindow), |c.file| - s.offset);
             s' == s.(transient := 0, offset := s.offset + n, net := s.net + n, inflight := s.inflight + n,
                      queue := AfterPush(s.queue, Part(s.offset, c.file[s.offset..s.offset + n])))
    requires ReachesLossless(c, s', rest, t)
    ensures ReachesLossless(c, s, run, t)
  {
    hide ReachesLossless;
    var n := Min(Window(c, s, c.minWindow), |c.file| - s.offset);
    var s1 := s.(pc := Ask(n));
    var s2 := s.(pc := Grant(n), net := s.net + n);
    var s3 := s2.(pc := Read(n), inflight := s.inflight + n);
    var s4 := s3.(pc := Push(n, n));
    assert PartInHand(c, s4) == Part(s.offset, c.file[s.offset..s.offset + n]);
    run := LosslessThen(c, s4, Enqueue, rest, s', t);
    run := LosslessThen(c, s3, Fetch(Got(n)), run, s4, t);
    run := LosslessThen(c, s2, Count, run, s3, t);
    run := LosslessThen(c, s1, Reserve(true), run, s2, t);
    run := LosslessThen(c, s, Iterate(c.minWindow), run, s1, t);
  }

  lemma {:induction false} FullRounds(c: Config, s: State) returns (run: seq<Action>, t: State)
    requires Clear(c, s)
    ensures ReachesLossless(c, s, run, t) && t.pc.Done? && !t.queue.cancelled && !t.queue.error
    decreases |c.file| - s.offset
  {
    if s.offset == |c.file| {
      var s1 := s.(pc := Closing);
      t := s1.(pc := Done, queue := s.queue.(finished := true));
      run := LosslessThen(c, s1, Finish, [], t, t);
      run := LosslessThen(c, s, Iterate(c.minWindow), run, s1, t);
    } else {
      var n := Min(Window(c, s, c.minWindow), |c.file| - s.offset);
      var s' := s.(transient := 0, offset := s.offset + n, net := s.net + n, inflight := s.inflight + n,
                   queue := AfterPush(s.queue, Part(s.offset, c.file[s.offset..s.offset + n])));
      assert Clear(c, s');
      hide ReachesLossless, Clear;
      run, t := FullRounds(c, s');
      run := FullRound(c, s, s', run, t);
    }
  }

  /** With a positive minimum window and a queue that takes it, every file has a run that queues it whole. */
  lemma DownloadsAll(c: Config) returns (run: seq<Action>, t: State)
    requires 1 <= c.minWindow <= c.maxWindow && |c.file| <= c.maxQueue
    ensures ReachesLossless(c, Init(c, 0), run, t) && Reaches(c, Init(c, 0), run, t)
    ensures t.pc.Done? && QueuedIn(c, Init(c, 0), run, t) == c.file
  {
    run, t := FullRounds(c, Init(c, 0));
    QueuesTheFile(c, 0, run, t);
  }

  // ----- Transient errors -----

  /** One more step for the count below. */
  function Erring(s: State, a: Action, n: nat): nat {
    if a == Fetch(Transient) then n + 1
    else if a.Enqueue? && s.pc.Push? && !IsTerminal(s.queue) && !IsFullFor(s.queue, s.pc.n) then 0
    else n
  }

  /** The transient errors in the run since the last part was queued; `n` are from before the run. */
  ghost function Transients(c: Config, s: State, run: seq<Action>, t: State, n: nat): nat
    requires c.minWindow <= c.maxWindow && Reaches(c, s, run, t)
    decreases |run|
  {
    if run == [] then n else Transients(c, Apply(c, s, run[0]), run[1..], t, Erring(s, run[0], n))
  }

  predicate Retrying(pc: Pc) {
    (pc.GiveBack? || pc.Return?) && pc.next.Retry?
  }

  ghost predicate TransientInv(s: State, n: nat) {
    n == s.transient + if Retrying(s.pc) then 1 else 0
  }

  lemma TransientStep(c: Config, s: State, a: Action, n: nat)
    requires c.minWindow <= c.maxWindow && Inv(c, s) && Enabled(c, s, a) && TransientInv(s, n)
    ensures TransientInv(Apply(c, s, a), Erring(s, a, n))
  {
    if a.Enqueue? && !IsTerminal(s.queue) && !IsFullFor(s.queue, s.pc.n) {
      PushAlwaysLands(c, s);
    }
    hide ContentInv, BudgetInv, AfterPop, PopResult, IsFullFor, SumLen;
  }

  lemma {:induction false} TransientRun(c: Config, s: State, run: seq<Action>, t: State, n: nat)
    requires c.minWindow <= c.maxWindow && Inv(c, s) && TransientInv(s, n) && Reaches(c, s, run, t)
    ensures Inv(c, t) && TransientInv(t, Transients(c, s, run, t, n))
    decreases |run|
  {
    if run != [] {
      TransientStep(c, s, run[0], n);
      InvStep(c, s, run[0]);
      hide Inv, Apply, Enabled, TransientInv, Erring;
      TransientRun(c, Apply(c, s, run[0]), run[1..], t, Erring(s, run[0], n));
    }
  }

  /** In every run: a transient error makes the thread give up, with an error, if and only if it is the sixth
      since a part was last queued; before that it stays at its offset and tries again (or dies on a
      crossed clamp). */
  lemma GivesUpAtTheSixth(c: Config, readers: nat, run: seq<Action>, s: State)
    requires c.minWindow <= c.maxWindow && Reaches(c, Init(c, readers), run, s) && Enabled(c, s, Release) && s.pc.next.Retry?
    ensures var n, t := Transients(c, Init(c, readers), run, s, 0), Apply(c, s, Release);
            && 1 <= n <= 6 && t.offset == s.offset
            && (n == 6 <==> t.pc.Closing?) && (n < 6 <==> t.pc.Top? || t.pc.Aborted?)
            && t.queue == if n == 6 then s.queue.(error := true) else s.queue
  {
    InitInv(c, readers);
    TransientRun(c, Init(c, readers), run, s, 0);
    hide ContentInv, BudgetInv, Reaches, Transients;
  }

  lemma {:induction false} ProducerWaits(c: Config, s: State, run: seq<Action>, t: State)
    requires c.minWindow <= c.maxWindow && Reaches(c, s, run, t) && forall a :: a in run ==> !ByProducer(a)
    ensures t.pc == s.pc && t.offset == s.offset && t.override == s.override
    decreases |run|
  {
    if run != [] {
      assert run == [run[0]] + run[1..];
      assert run[0] in run;
      ProducerWaitsNow(c, s, run[0]);
      hide Apply, Enabled;
      ProducerWaits(c, Apply(c, s, run[0]), run[1..], t);
    }
  }

  lemma ProducerWaitsNow(c: Config, s: State, a: Action)
    requires c.minWindow <= c.maxWindow && Enabled(c, s, a) && !ByProducer(a)
    ensures var t := Apply(c, s, a); t.pc == s.pc && t.offset == s.offset && t.override == s.override
  {
    hide AfterPop, PopResult;
  }

  /** In every run: after a tolerated transient error of a request for `n` bytes, and whatever others do and the
      rate controller answers meanwhile, the next request is at the same offset, for half of `n` but not
      less than the minimum window, as far as the file goes. */
  lemma RetriesHalf(c: Config, readers: nat, before: seq<Action>, s: State, mid: seq<Action>, u: State, w: nat)
    requires c.minWindow <= c.maxWindow && Reaches(c, Init(c, readers), before, s) && Enabled(c, s, Release)
    requires s.pc.next.Retry? && Apply(c, s, Release).pc.Top?
    requires Reaches(c, Apply(c, s, Release), mid, u) && forall a :: a in mid ==> !ByProducer(a)
    requires Enabled(c, u, Iterate(w)) && !u.queue.cancelled
    ensures var t, half := Apply(c, u, Iterate(w)), if s.pc.n / 2 >= c.minWindow then s.pc.n / 2 else c.minWindow;
            t.offset == s.offset <= |c.file| && t.pc == Ask(Min(half, |c.file| - s.offset))
  {
    InitInv(c, readers);
    InvRun(c, Init(c, readers), before, s);
    ProducerWaits(c, Apply(c, s, Release), mid, u);
    hide Reaches, ContentInv, BudgetInv;
    RetrySize(c, s);
    hide Inv, AfterRelease;
  }

  /** The window a tolerated transient error leaves for the retry. */
  lemma RetrySize(c: Config, s: State)
    requires c.minWindow <= c.maxWindow && WindowInv(c, s) && Enabled(c, s, Release) && s.pc.next.Retry?
    requires Apply(c, s, Release).pc.Top?
    ensures var t := Apply(c, s, Release);
            && t.offset == s.offset < |c.file| && s.pc.n >= c.minWindow
            && t.override == Some(if s.pc.n / 2 >= c.minWindow then s.pc.n / 2 else c.minWindow)
  {
  }

  // ----- Requests -----

  /** In every run: at the top of its loop, with file left and no cancel, the thread asks for the window of the
      rate controller (at the start of the file the configured chunk, kept within the window bounds), but not more than the floor of an
      earlier transient error and not more than the file has left; right after such an error, for the floor. */
  lemma RequestsTheWindow(c: Config, readers: nat, run: seq<Action>, s: State, w: nat)
    requires c.minWindow <= c.maxWindow && Reaches(c, Init(c, readers), run, s) && Enabled(c, s, Iterate(w))
    requires s.offset < |c.file| && !s.queue.cancelled
    ensures var t, rest := Apply(c, s, Iterate(w)), |c.file| - s.offset;
            var first := if c.chunkSize < c.minWindow then c.minWindow
                         else if c.chunkSize > c.maxWindow then c.maxWindow else c.chunkSize;
            var wanted := if s.offset == 0 then first else w;
            && t.pc.Ask? && t.pc.n <= rest && t.offset == s.offset && t.override.None?
            && (s.floor.None? ==> t.pc.n == Min(wanted, rest))
            && (s.floor.Some? && s.override.None? ==> t.pc.n == Min(Min(wanted, s.floor.value), rest))
            && (s.override.Some? ==> s.floor.Some? && t.pc.n == Min(s.floor.value, rest))
  {
    InitInv(c, readers);
    InvRun(c, Init(c, readers), run, s);
    hide ContentInv, BudgetInv, Reaches;
  }

  /** In every run: a refused request for `n` bytes is asked for again with half of `n`, but not less than the
      minimum window; refused again, it is skipped by exactly that much; granted, exactly that much is read. */
  lemma RefusedHalves(c: Config, readers: nat, before: seq<Action>, s: State, mid: seq<Action>, u: State, ok: bool)
    requires c.minWindow <= c.maxWindow && Reaches(c, Init(c, readers), before, s)
    requires s.pc.Ask? && Enabled(c, s, Reserve(false)) && s.pc.n >= c.minWindow
    requires Reaches(c, Apply(c, s, Reserve(false)), mid, u) && forall a :: a in mid ==> !ByProducer(a)
    requires Enabled(c, u, Reserve(ok))
    ensures var t, half := Apply(c, u, Reserve(ok)), if s.pc.n / 2 >= c.minWindow then s.pc.n / 2 else c.minWindow;
            && t.queue == u.queue && t.inflight == u.inflight
            && (ok ==> t.pc == Grant(half) && t.net == u.net + half && t.offset == s.offset)
            && (!ok ==> t.pc == Top && t.net == u.net && t.offset == s.offset + half)
  {
    ProducerWaits(c, Apply(c, s, Reserve(false)), mid, u);
    hide Reaches;
  }

  // ----- Cancelling -----

  /** The steps a cancelled thread has left. */
  function StepsLeft(pc: Pc): nat {
    match pc
    case Ask(_) => 9
    case AskAgain(_) => 8
    case Grant(_) => 7
    case Read(_) => 6
    case Push(_, _) => 5
    case GiveBack(_, _) => 4
    case Return(_, _) => 3
    case Top => 2
    case Closing => 1
    case Done => 0
    case Aborted => 0
  }

  lemma CancelledStep(c: Config, s: State, a: Action)
    requires c.minWindow <= c.maxWindow && Enabled(c, s, a) && s.queue.cancelled
    ensures var t := Apply(c, s, a);
            && t.queue.cancelled && StepsLeft(t.pc) + (if ByProducer(a) then 1 else 0) <= StepsLeft(s.pc)
            && !(ByProducer(a) && a.Enqueue? && Parked(s))
            && |t.queue.parts| <= |s.queue.parts|
  {
    hide SumLen, IsFullFor;
  }

  /** From a cancelled state on the thread takes at most nine more steps, whatever it was doing, and queues
      nothing. */
  lemma {:induction false} CancelStops(c: Config, s: State, run: seq<Action>, t: State)
    requires c.minWindow <= c.maxWindow && Reaches(c, s, run, t) && s.queue.cancelled
    ensures t.queue.cancelled && WorkSteps(c, s, run, t) + StepsLeft(t.pc) <= StepsLeft(s.pc) <= 9
    ensures |t.queue.parts| <= |s.queue.parts|
    decreases |run|
  {
    if run != [] {
      CancelledStep(c, s, run[0]);
      hide Apply, Enabled, StepsLeft, Parked;
      CancelStops(c, Apply(c, s, run[0]), run[1..], t);
    }
  }
}
