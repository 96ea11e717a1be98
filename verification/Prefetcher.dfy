/** The prefetcher of `src/prefetcher.rs` as a transition system. One download thread, any number of
    readers and one owner share a part queue, a byte counter and a memory budget; every action is
    one lock-protected region or one atomic operation. The rate controller's window, the budget's
    answers and the backend's answers are choices of the environment. */
module Prefetcher {
  import opened Wrappers
  import opened Crc32c
  import opened PartQueue
  import opened Sums
  import Backpressure

  const MAX_CONSECUTIVE_TRANSIENT_READ_ERRORS: nat := 5
  const WORD: nat := 0x1_0000_0000_0000_0000

  datatype Config = Config(file: seq<byte>, maxQueue: nat, chunkSize: nat, minWindow: nat, maxWindow: nat)

  /** What follows once a reservation has been given back. */
  datatype Next = Stop | Skip(backEnd: nat) | Retry

  /** Where the download thread stands; `n` is the size of the current request. */
  datatype Pc =
    | Top                       // at the loop test
    | Ask(n: nat)               // about to reserve
    | AskAgain(n: nat)          // refused once, about to reserve the shrunk size
    | Grant(n: nat)             // reserved, not yet counted
    | Read(n: nat)              // counted, reading the range
    | Push(n: nat, len: nat)    // holding `len` bytes, about to queue them
    | GiveBack(n: nat, next: Next)  // about to uncount
    | Return(n: nat, next: Next)    // uncounted, about to release
    | Closing                   // left the loop
    | Done
    | Aborted                   // a clamp whose bounds were crossed panics

  datatype Reader = Idle | Popped(part: Part) | Freed(part: Part)

  /** The owner's drop loads the counter, releases what it loaded, and stores zero. */
  datatype DropStage = Open | Loaded(residual: nat) | Released | Dropped

  datatype State = State(
    pc: Pc, offset: nat, transient: nat, override: Option<nat>, floor: Option<nat>,
    queue: Queue, inflight: nat, net: int, readers: seq<Reader>, drop: DropStage, handAtDrop: nat)

  datatype ReadResult = Got(len: nat) | Transient | Fatal

  datatype Action =
    | Iterate(window: nat)      // loop test and window choice; `window` is the controller's
    | Reserve(ok: bool)
    | Count
    | Fetch(result: ReadResult)
    | Enqueue
    | Uncount
    | Release
    | Finish
    | PopPart(r: nat, o: nat)
    | FreePart(r: nat)
    | UncountPart(r: nat)
    | Cancel
    | DropLoad
    | DropRelease
    | DropStore

  predicate ByProducer(a: Action) {
    a.Iterate? || a.Reserve? || a.Count? || a.Fetch? || a.Enqueue? || a.Uncount? || a.Release? || a.Finish?
  }

  function Min(a: nat, b: nat): nat {
    if a <= b then a else b
  }

  function FirstChunk(c: Config): nat
    requires c.minWindow <= c.maxWindow
  {
    Backpressure.Clamp(c.chunkSize, c.minWindow, c.maxWindow)
  }

  /** Half of `n`, but within the configured minimum and `n`. */
  function Halved(c: Config, n: nat): nat
    requires c.minWindow <= n
  {
    Backpressure.Clamp(n / 2, c.minWindow, n)
  }

  /** `apply_sticky_floor`. */
  function ApplyStickyFloor(floor: Option<nat>, window: nat): Option<nat> {
    match floor
    case None => Some(window)
    case Some(f) => Some(Min(f, window))
  }

  /** The window of one iteration. */
  function Window(c: Config, s: State, controller: nat): nat
    requires c.minWindow <= c.maxWindow
  {
    match s.override
    case Some(w) => w
    case None =>
      var w := if s.offset == 0 then FirstChunk(c) else controller;
      match s.floor
      case Some(f) => Min(w, f)
      case None => w
  }

  function WrapSub(a: nat, b: nat): nat {
    if a >= b then a - b else (WORD + a - b % WORD) % WORD
  }

  function PartInHand(c: Config, s: State): Part
    requires s.pc.Push? && s.offset + s.pc.len <= |c.file|
  {
    Part(s.offset, c.file[s.offset..s.offset + s.pc.len])
  }

  /** The budget grants an empty request (`MemLimiter.EmptyRequestGranted`); any other may be refused. */
  predicate Enabled(c: Config, s: State, a: Action) {
    match a
    case Iterate(w) => s.pc.Top? && c.minWindow <= w <= c.maxWindow
    case Reserve(ok) => (s.pc.Ask? || s.pc.AskAgain?) && (ok || s.pc.n > 0)
    case Count => s.pc.Grant?
    case Fetch(res) => s.pc.Read? && (res.Got? ==> res.len <= s.pc.n && s.offset + res.len <= |c.file|)
    case Enqueue => s.pc.Push? && s.offset + s.pc.len <= |c.file|
    case Uncount => s.pc.GiveBack?
    case Release => s.pc.Return?
    case Finish => s.pc.Closing?
    case PopPart(r, _) => r < |s.readers| && s.readers[r].Idle? && s.drop.Open?
    case FreePart(r) => r < |s.readers| && s.readers[r].Popped?
    case UncountPart(r) => r < |s.readers| && s.readers[r].Freed?
    case Cancel => true
    case DropLoad => s.drop.Open? && s.queue.cancelled && forall r :: 0 <= r < |s.readers| ==> s.readers[r].Idle?
    case DropRelease => s.drop.Loaded?
    case DropStore => s.drop.Released?
  }

  /** The thread stays parked on the condition variable: not terminal, and no room. */
  predicate Parked(s: State) {
    s.pc.Push? && !IsTerminal(s.queue) && IsFullFor(s.queue, s.pc.n)
  }

  function AfterRelease(c: Config, s: State): State
    requires s.pc.Return?
  {
    var t := s.(net := s.net - s.pc.n);
    match s.pc.next
    case Stop => t.(pc := Closing)
    case Skip(e) => t.(pc := Top, transient := 0, offset := e)
    case Retry =>
      var u := t.(transient := s.transient + 1);
      if u.transient > MAX_CONSECUTIVE_TRANSIENT_READ_ERRORS then
        u.(pc := Closing, queue := u.queue.(error := true))
      else if s.pc.n < c.minWindow then u.(pc := Aborted)
      else
        var w := Halved(c, s.pc.n);
        u.(pc := Top, floor := ApplyStickyFloor(s.floor, w), override := Some(w))
  }

  function AfterEnqueue(c: Config, s: State): State
    requires Enabled(c, s, Enqueue)
  {
    if IsTerminal(s.queue) then s.(pc := GiveBack(s.pc.n, Stop))
    else if IsFullFor(s.queue, s.pc.n) then s
    else
      var part := PartInHand(c, s);
      match PushOutcomeOf(s.queue, part)
      case Pushed =>
        s.(pc := Top, transient := 0, offset := s.offset + s.pc.n, queue := AfterPush(s.queue, part))
      case Cancelled => s.(pc := GiveBack(s.pc.n, Stop))
      case Full => s
      case Overlap(e) => s.(pc := GiveBack(s.pc.n, Skip(e)))
  }

  function Apply(c: Config, s: State, a: Action): State
    requires c.minWindow <= c.maxWindow && Enabled(c, s, a)
  {
    match a
    case Iterate(w) =>
      if s.offset >= |c.file| || s.queue.cancelled then s.(pc := Closing)
      else s.(pc := Ask(Min(Window(c, s, w), |c.file| - s.offset)), override := None)
    case Reserve(ok) =>
      if ok then s.(pc := Grant(s.pc.n), net := s.net + s.pc.n)
      else if s.pc.AskAgain? then s.(pc := Top, offset := s.offset + s.pc.n)
      else if s.pc.n < c.minWindow then s.(pc := Aborted)
      else s.(pc := AskAgain(Halved(c, s.pc.n)))
    case Count => s.(pc := Read(s.pc.n), inflight := s.inflight + s.pc.n)
    case Fetch(Got(len)) => s.(pc := Push(s.pc.n, len))
    case Fetch(Transient) => s.(pc := GiveBack(s.pc.n, Retry))
    case Fetch(Fatal) => s.(pc := GiveBack(s.pc.n, Stop), queue := s.queue.(error := true))
    case Enqueue => AfterEnqueue(c, s)
    case Uncount => s.(pc := Return(s.pc.n, s.pc.next), inflight := WrapSub(s.inflight, s.pc.n))
    case Release => AfterRelease(c, s)
    case Finish => s.(pc := Done, queue := s.queue.(finished := true))
    case PopPart(r, o) =>
      var t := s.(queue := AfterPop(s.queue, o));
      var p := PopResult(s.queue, o);
      if p.Some? then t.(readers := s.readers[r := Popped(p.value)]) else t
    case FreePart(r) =>
      s.(net := s.net - |s.readers[r].part.data|, readers := s.readers[r := Freed(s.readers[r].part)])
    case UncountPart(r) =>
      s.(inflight := WrapSub(s.inflight, |s.readers[r].part.data|), readers := s.readers[r := Idle])
    case Cancel => s.(queue := s.queue.(cancelled := true))
    case DropLoad => s.(drop := Loaded(s.inflight), handAtDrop := Hand(s.pc))
    case DropRelease =>
      if s.drop.residual > 0 then s.(net := s.net - s.drop.residual, drop := Released) else s.(drop := Dropped)
    case DropStore => s.(inflight := 0, drop := Dropped)
  }

  function Init(c: Config, readers: nat): State {
    State(Top, 0, 0, None, None, Queue([], c.maxQueue, 0, false, false, false), 0, 0,
          seq(readers, i => Idle), Open, 0)
  }

  ghost predicate Reaches(c: Config, s: State, run: seq<Action>, t: State)
    requires c.minWindow <= c.maxWindow
    decreases |run|
  {
    if run == [] then s == t
    else Enabled(c, s, run[0]) && Reaches(c, Apply(c, s, run[0]), run[1..], t)
  }

  // ----- Where the reserved bytes are -----

  /** Reserved and counted, in the thread's hands. */
  function Hand(pc: Pc): nat {
    if pc.Read? || pc.Push? || pc.GiveBack? then pc.n else 0
  }

  /** Reserved, but not or no longer counted. */
  function Transit(pc: Pc): nat {
    if pc.Grant? || pc.Return? then pc.n else 0
  }

  function HeldBy(): Reader -> nat {
    (r: Reader) => if r.Idle? then 0 else |r.part.data|
  }

  function FreedBy(): Reader -> nat {
    (r: Reader) => if r.Freed? then |r.part.data| else 0
  }

  function HeldByReaders(rs: seq<Reader>): nat {
    Sum(rs, HeldBy())
  }

  function FreedByReaders(rs: seq<Reader>): nat {
    Sum(rs, FreedBy())
  }

  lemma ReadersUpdate(rs: seq<Reader>, r: nat, x: Reader)
    requires r < |rs|
    ensures HeldByReaders(rs[r := x]) + HeldBy()(rs[r]) == HeldByReaders(rs) + HeldBy()(x)
    ensures FreedByReaders(rs[r := x]) + FreedBy()(rs[r]) == FreedByReaders(rs) + FreedBy()(x)
    ensures FreedByReaders(rs) <= HeldByReaders(rs)
    ensures HeldBy()(rs[r]) <= HeldByReaders(rs) && FreedBy()(rs[r]) <= FreedByReaders(rs)
  {
    SumUpdate(rs, r, x, HeldBy());
    SumUpdate(rs, r, x, FreedBy());
    SumAtLeast(rs, HeldBy(), r);
    SumAtLeast(rs, FreedBy(), r);
    FreedWithinHeld(rs);
  }

  lemma {:induction false} FreedWithinHeld(rs: seq<Reader>)
    ensures FreedByReaders(rs) <= HeldByReaders(rs)
  {
    if rs != [] {
      FreedWithinHeld(rs[1..]);
    }
  }

  lemma IdleReaders(rs: seq<Reader>)
    requires forall r :: 0 <= r < |rs| ==> rs[r].Idle?
    ensures HeldByReaders(rs) == 0 && FreedByReaders(rs) == 0
  {
    SumZero(rs, HeldBy());
    SumZero(rs, FreedBy());
  }

  // ----- Invariants -----

  /** Content: every queued or popped part is a piece of the file, in order, and everything queued
      ends at or before the thread's offset. */
  ghost predicate IsPiece(c: Config, p: Part) {
    p.End() <= |c.file| && p.data == c.file[p.offset..p.End()]
  }

  ghost predicate ContentInv(c: Config, s: State) {
    && WellFormed(s.queue) && s.queue.maxBytes == c.maxQueue
    && (forall p :: p in s.queue.parts ==> IsPiece(c, p) && p.End() <= s.offset)
    && (forall r :: 0 <= r < |s.readers| && !s.readers[r].Idle? ==> IsPiece(c, s.readers[r].part))
  }

  predicate HasRequest(pc: Pc) {
    !(pc.Top? || pc.Closing? || pc.Done? || pc.Aborted?)
  }

  /** Windows: requests stay inside the file and under the floor, an override is the floor, and a
      skip past an overlap is never planned. */
  ghost predicate WindowInv(c: Config, s: State) {
    && s.offset <= |c.file| && s.transient <= MAX_CONSECUTIVE_TRANSIENT_READ_ERRORS + 1
    && (s.pc.Top? || HasRequest(s.pc) ==> s.transient <= MAX_CONSECUTIVE_TRANSIENT_READ_ERRORS)
    && (s.floor.Some? ==> s.floor.value >= c.minWindow)
    && (s.override.Some? ==> s.override == s.floor)
    && (HasRequest(s.pc) ==>
          && s.offset + s.pc.n <= |c.file| && s.override.None? && s.offset < |c.file|
          && (s.floor.Some? ==> s.pc.n <= s.floor.value)
          && (s.pc.n >= c.minWindow || s.pc.n == |c.file| - s.offset))
    && (s.pc.Push? ==> s.pc.len <= s.pc.n)
    && (s.pc.GiveBack? || s.pc.Return? ==> !s.pc.next.Skip?)
  }

  /** Budget: the limiter's net matches the counter up to what is mid-way, and the counter covers
      everything queued or in hand. Once the owner drops the handle only the thread's own share is
      left, and what the owner has loaded and not yet released. */
  ghost predicate BudgetInv(s: State) {
    if !s.drop.Open? then
      && s.queue.cancelled && HeldByReaders(s.readers) == 0
      && (forall r :: 0 <= r < |s.readers| ==> s.readers[r].Idle?)
      && s.net == Transit(s.pc) + Hand(s.pc) - s.handAtDrop + (if s.drop.Loaded? then s.drop.residual else 0)
    else
      && s.net == s.inflight + Transit(s.pc) - FreedByReaders(s.readers)
      && s.inflight >= SumLen(s.queue.parts) + Hand(s.pc) + HeldByReaders(s.readers)
  }

  ghost predicate Inv(c: Config, s: State) {
    ContentInv(c, s) && WindowInv(c, s) && BudgetInv(s)
  }

  lemma InitInv(c: Config, readers: nat)
    requires c.minWindow <= c.maxWindow
    ensures Inv(c, Init(c, readers))
  {
    IdleReaders(Init(c, readers).readers);
  }

  /** The branches of `push` other than success are dead once terminal and full have been ruled out
      under the same lock: the queue ends before the thread's offset, and a read is never longer
      than the room checked for. */
  lemma PushAlwaysLands(c: Config, s: State)
    requires Inv(c, s) && Enabled(c, s, Enqueue) && !IsTerminal(s.queue) && !IsFullFor(s.queue, s.pc.n)
    ensures PushOutcomeOf(s.queue, PartInHand(c, s)) == Pushed
  {
    var q := s.queue;
    assert q.parts != [] ==> q.parts[|q.parts| - 1] in q.parts;
  }

  lemma ContentStep(c: Config, s: State, a: Action)
    requires c.minWindow <= c.maxWindow && Inv(c, s) && Enabled(c, s, a)
    ensures ContentInv(c, Apply(c, s, a))
  {
    hide BudgetInv, WellFormed;
    match a {
      case Enqueue => EnqueueContent(c, s);
      case PopPart(r, o) => PopContent(c, s, r, o);
      case _ => FlagsKeepWellFormed(s.queue);
    }
  }

  lemma FlagsKeepWellFormed(q: Queue)
    requires WellFormed(q)
    ensures forall f, e, x :: WellFormed(q.(finished := f, error := e, cancelled := x))
  {
  }

  lemma EnqueueContent(c: Config, s: State)
    requires c.minWindow <= c.maxWindow && Inv(c, s) && Enabled(c, s, Enqueue)
    ensures ContentInv(c, Apply(c, s, Enqueue))
  {
    hide BudgetInv, WellFormed;
    PushKeepsWellFormed(s.queue, PartInHand(c, s));
    var t := Apply(c, s, Enqueue);
    assert forall p :: p in t.queue.parts ==> p in s.queue.parts || p == PartInHand(c, s);
  }

  lemma PopContent(c: Config, s: State, r: nat, o: nat)
    requires c.minWindow <= c.maxWindow && Inv(c, s) && Enabled(c, s, PopPart(r, o))
    ensures ContentInv(c, Apply(c, s, PopPart(r, o)))
  {
    hide BudgetInv, WindowInv;
    PopKeepsWellFormed(s.queue, o);
    PopFindsExactly(s.queue, o);
    hide WellFormed, AfterPop;
    assert PopResult(s.queue, o).Some? ==> PopResult(s.queue, o).value in s.queue.parts;
  }

  lemma WindowStep(c: Config, s: State, a: Action)
    requires c.minWindow <= c.maxWindow && Inv(c, s) && Enabled(c, s, a)
    ensures WindowInv(c, Apply(c, s, a))
  {
    match a {
      case Enqueue => EnqueueWindow(c, s);
      case Release => ReleaseWindow(c, s);
      case Iterate(w) => IterateWindow(c, s, w);
      case Reserve(ok) => ReserveWindow(c, s, ok);
      case _ => hide BudgetInv, ContentInv;
    }
  }

  lemma EnqueueWindow(c: Config, s: State)
    requires c.minWindow <= c.maxWindow && Inv(c, s) && Enabled(c, s, Enqueue)
    ensures WindowInv(c, Apply(c, s, Enqueue))
  {
    if !IsTerminal(s.queue) && !IsFullFor(s.queue, s.pc.n) {
      PushAlwaysLands(c, s);
    }
    hide BudgetInv, ContentInv;
  }

  lemma ReleaseWindow(c: Config, s: State)
    requires c.minWindow <= c.maxWindow && WindowInv(c, s) && Enabled(c, s, Release)
    ensures WindowInv(c, Apply(c, s, Release))
  {
  }

  lemma IterateWindow(c: Config, s: State, w: nat)
    requires c.minWindow <= c.maxWindow && WindowInv(c, s) && Enabled(c, s, Iterate(w))
    ensures WindowInv(c, Apply(c, s, Iterate(w)))
  {
  }

  lemma ReserveWindow(c: Config, s: State, ok: bool)
    requires c.minWindow <= c.maxWindow && WindowInv(c, s) && Enabled(c, s, Reserve(ok))
    ensures WindowInv(c, Apply(c, s, Reserve(ok)))
  {
  }

  lemma BudgetStep(c: Config, s: State, a: Action)
    requires c.minWindow <= c.maxWindow && Inv(c, s) && Enabled(c, s, a)
    ensures BudgetInv(Apply(c, s, a))
  {
    match a {
      case Enqueue => EnqueueBudget(c, s);
      case PopPart(r, o) => PopBudget(c, s, r, o);
      case FreePart(r) => ReaderBudget(c, s, a, r);
      case UncountPart(r) => ReaderBudget(c, s, a, r);
      case DropLoad => DropBudget(c, s);
      case _ => ProducerBudget(c, s, a);
    }
  }

  lemma ReaderBudget(c: Config, s: State, a: Action, r: nat)
    requires c.minWindow <= c.maxWindow && BudgetInv(s) && Enabled(c, s, a) && (a == FreePart(r) || a == UncountPart(r))
    ensures BudgetInv(Apply(c, s, a))
  {
    ReadersUpdate(s.readers, r, if a.FreePart? then Freed(s.readers[r].part) else Idle);
    hide ContentInv, WindowInv, HeldByReaders, FreedByReaders, SumLen;
  }

  lemma DropBudget(c: Config, s: State)
    requires c.minWindow <= c.maxWindow && BudgetInv(s) && Enabled(c, s, DropLoad)
    ensures BudgetInv(Apply(c, s, DropLoad))
  {
    IdleReaders(s.readers);
    hide HeldByReaders, FreedByReaders, SumLen;
  }

  lemma ProducerBudget(c: Config, s: State, a: Action)
    requires c.minWindow <= c.maxWindow && BudgetInv(s) && Enabled(c, s, a)
    requires (ByProducer(a) && !a.Enqueue?) || a.Cancel? || a.DropRelease? || a.DropStore?
    ensures BudgetInv(Apply(c, s, a))
  {
    hide HeldByReaders, FreedByReaders, SumLen, AfterEnqueue, AfterPop, PopResult;
    if a.Release? {
      hide Window;
    } else {
      hide AfterRelease;
    }
  }

  lemma EnqueueBudget(c: Config, s: State)
    requires c.minWindow <= c.maxWindow && Inv(c, s) && Enabled(c, s, Enqueue)
    ensures BudgetInv(Apply(c, s, Enqueue))
  {
    if !IsTerminal(s.queue) && !IsFullFor(s.queue, s.pc.n) {
      PushAlwaysLands(c, s);
      var part := PartInHand(c, s);
      SumAppend(s.queue.parts, part, Length());
    }
    hide ContentInv;
  }

  lemma PopBudget(c: Config, s: State, r: nat, o: nat)
    requires c.minWindow <= c.maxWindow && Inv(c, s) && Enabled(c, s, PopPart(r, o))
    ensures BudgetInv(Apply(c, s, PopPart(r, o)))
  {
    hide WindowInv, ContentInv;
    SumLenSuffix(s.queue.parts, Stale(s.queue.parts, o));
    var p := PopResult(s.queue, o);
    if p.Some? {
      ReadersUpdate(s.readers, r, Popped(p.value));
    }
  }

  lemma InvStep(c: Config, s: State, a: Action)
    requires c.minWindow <= c.maxWindow && Inv(c, s) && Enabled(c, s, a)
    ensures Inv(c, Apply(c, s, a))
  {
    ContentStep(c, s, a);
    WindowStep(c, s, a);
    BudgetStep(c, s, a);
    hide ContentInv, WindowInv, BudgetInv, Apply, Enabled;
  }

  lemma {:induction false} InvRun(c: Config, s: State, run: seq<Action>, t: State)
    requires c.minWindow <= c.maxWindow && Inv(c, s) && Reaches(c, s, run, t)
    ensures Inv(c, t)
    decreases |run|
  {
    if run != [] {
      InvStep(c, s, run[0]);
      hide Inv, Apply, Enabled;
      InvRun(c, Apply(c, s, run[0]), run[1..], t);
    }
  }

  // ----- What readers get -----

  /** In every interleaving the queue stays in order, disjoint and within its bound; `pop(o)` finds
      a part exactly when a queued part covers `o`; and what it finds is the file's own bytes. */
  lemma ReadersGetTheFile(c: Config, readers: nat, run: seq<Action>, t: State, o: nat)
    requires c.minWindow <= c.maxWindow && Reaches(c, Init(c, readers), run, t)
    ensures WellFormed(t.queue) && t.queue.maxBytes == c.maxQueue
    ensures PopResult(t.queue, o).Some? <==> exists p :: p in t.queue.parts && p.Covers(o)
    ensures PopResult(t.queue, o).Some? ==>
              var p := PopResult(t.queue, o).value;
              p.Covers(o) && p.End() <= |c.file| && p.data == c.file[p.offset..p.End()]
  {
    InitInv(c, readers);
    InvRun(c, Init(c, readers), run, t);
    PopFindsExactly(t.queue, o);
    if p :| p in t.queue.parts && p.Covers(o) {
      var i :| 0 <= i < |t.queue.parts| && t.queue.parts[i] == p;
    }
  }

  /** In every run the queue refuses a part only because it is terminal or full for the reserved
      size; overlap never happens, and neither does "full" after the check under the same lock. */
  lemma DeadBranches(c: Config, readers: nat, run: seq<Action>, t: State)
    requires c.minWindow <= c.maxWindow && Reaches(c, Init(c, readers), run, t)
    ensures Enabled(c, t, Enqueue) && !IsTerminal(t.queue) && !IsFullFor(t.queue, t.pc.n) ==>
              PushOutcomeOf(t.queue, PartInHand(c, t)) == Pushed
    ensures t.pc.GiveBack? || t.pc.Return? ==> !t.pc.next.Skip?
  {
    InitInv(c, readers);
    InvRun(c, Init(c, readers), run, t);
    if Enabled(c, t, Enqueue) && !IsTerminal(t.queue) && !IsFullFor(t.queue, t.pc.n) {
      PushAlwaysLands(c, t);
    }
  }

  // ----- The memory budget -----

  /** The counter's subtraction is the one modulo 2^64. */
  lemma WrapSubIsModular(a: nat, b: nat)
    requires a < WORD && b < WORD
    ensures WrapSub(a, b) < WORD && (WrapSub(a, b) + b) % WORD == a
  {
  }

  /** The drop releases exactly what it loaded, and ends with the counter at zero unless there was nothing. */
  lemma DropCompletes(c: Config, s: State)
    requires c.minWindow <= c.maxWindow && s.drop.Loaded?
    ensures Enabled(c, s, DropRelease)
    ensures var t := Apply(c, s, DropRelease);
            && t.net == s.net - s.drop.residual && (s.drop.residual == 0 ==> t.drop.Dropped? && t.inflight == s.inflight)
            && (s.drop.residual > 0 ==>
                  && Enabled(c, t, DropStore)
                  && var u := Apply(c, t, DropStore); u.drop.Dropped? && u.inflight == 0 && u.net == t.net)
  {
  }

  /** Until the owner drops the handle, the limiter's net is the counter up to what is mid-way, the
      counter covers the queue, the thread's hand and the readers' hands, and so no subtraction
      from it wraps. */
  lemma BudgetConserved(c: Config, readers: nat, run: seq<Action>, t: State)
    requires c.minWindow <= c.maxWindow && Reaches(c, Init(c, readers), run, t) && t.drop.Open?
    ensures t.net == t.inflight + Transit(t.pc) - FreedByReaders(t.readers)
    ensures t.inflight >= SumLen(t.queue.parts) + Hand(t.pc) + HeldByReaders(t.readers)
    ensures t.pc.GiveBack? ==> t.inflight >= t.pc.n
    ensures forall r :: 0 <= r < |t.readers| && t.readers[r].Freed? ==> t.inflight >= |t.readers[r].part.data|
  {
    InitInv(c, readers);
    InvRun(c, Init(c, readers), run, t);
    forall r | 0 <= r < |t.readers| && t.readers[r].Freed? ensures t.inflight >= |t.readers[r].part.data| {
      ReadersUpdate(t.readers, r, Idle);
    }
  }

  /** After a drop, once the thread holds no request, the net is what the thread had in hand when the drop
      loaded the counter, released twice: zero exactly when it had nothing in hand then. */
  lemma DropBalancesExactly(c: Config, readers: nat, run: seq<Action>, t: State)
    requires c.minWindow <= c.maxWindow && Reaches(c, Init(c, readers), run, t)
    requires (t.drop.Released? || t.drop.Dropped?) && !HasRequest(t.pc)
    ensures t.net == 0 - t.handAtDrop && (t.net == 0 <==> t.handAtDrop == 0)
  {
    InitInv(c, readers);
    InvRun(c, Init(c, readers), run, t);
  }

  lemma {:induction false} HandKept(c: Config, s: State, run: seq<Action>, t: State)
    requires c.minWindow <= c.maxWindow && Reaches(c, s, run, t) && !s.drop.Open?
    ensures !t.drop.Open? && t.handAtDrop == s.handAtDrop
    decreases |run|
  {
    if run != [] {
      HandKeptNow(c, s, run[0]);
      hide Apply, Enabled;
      HandKept(c, Apply(c, s, run[0]), run[1..], t);
    }
  }

  lemma HandKeptNow(c: Config, s: State, a: Action)
    requires c.minWindow <= c.maxWindow && Enabled(c, s, a) && !s.drop.Open?
    ensures !Apply(c, s, a).drop.Open? && Apply(c, s, a).handAtDrop == s.handAtDrop
  {
    hide AfterPop, PopResult, PushOutcomeOf, AfterPush, IsFullFor;
  }

  /** A drop whose load finds the thread finished, aborted or between requests ends with the net at zero. */
  lemma DropWhenFinished(c: Config, readers: nat, run: seq<Action>, s: State, more: seq<Action>, t: State)
    requires c.minWindow <= c.maxWindow && Reaches(c, Init(c, readers), run, s)
    requires Enabled(c, s, DropLoad) && !HasRequest(s.pc)
    requires Reaches(c, Apply(c, s, DropLoad), more, t) && t.drop.Dropped? && !HasRequest(t.pc)
    ensures t.net == 0
  {
    InitInv(c, readers);
    InvRun(c, Init(c, readers), run, s);
    BudgetStep(c, s, DropLoad);
    ContentStep(c, s, DropLoad);
    WindowStep(c, s, DropLoad);
    HandKept(c, Apply(c, s, DropLoad), more, t);
    InvRun(c, Apply(c, s, DropLoad), more, t);
    hide ContentInv, WindowInv;
  }

  /** The thread fails its read after the owner's drop. */
  lemma FailsAfterDrop(c: Config, s: State) returns (run: seq<Action>, t: State)
    requires c.minWindow <= c.maxWindow && s.pc.Read?
    ensures Reaches(c, s, run, t) && t.pc.Done? && t.drop == s.drop && t.net == s.net - s.pc.n
  {
    var n := s.pc.n;
    var s1 := s.(pc := GiveBack(n, Stop), queue := s.queue.(error := true));
    var s2 := s1.(pc := Return(n, Stop), inflight := WrapSub(s.inflight, n));
    var s3 := s2.(pc := Closing, net := s.net - n);
    t := s3.(pc := Done, queue := s3.queue.(finished := true));
    Follow(c, s3, Finish, [], t, t);
    Follow(c, s2, Release, [Finish], s3, t);
    Follow(c, s1, Uncount, [Release, Finish], s2, t);
    Follow(c, s, Fetch(Fatal), [Uncount, Release, Finish], s1, t);
    run := [Fetch(Fatal)] + [Uncount, Release, Finish];
  }

  lemma DropsInRead(c: Config, s: State) returns (run: seq<Action>, t: State)
    requires c.minWindow <= c.maxWindow && s.pc.Read? && s.drop.Open? && s.readers == [] && s.inflight > 0
    ensures Reaches(c, s, run, t) && t.pc.Done? && t.drop.Dropped? && t.net == s.net - s.inflight - s.pc.n
  {
    var s1 := s.(queue := s.queue.(cancelled := true));
    var s2 := s1.(drop := Loaded(s.inflight), handAtDrop := Hand(s.pc));
    var s3 := s2.(net := s.net - s.inflight, drop := Released);
    var s4 := s3.(inflight := 0, drop := Dropped);
    var rest;
    rest, t := FailsAfterDrop(c, s4);
    hide Reaches;
    Follow(c, s3, DropStore, rest, s4, t);
    Follow(c, s2, DropRelease, [DropStore] + rest, s3, t);
    Follow(c, s1, DropLoad, [DropRelease] + ([DropStore] + rest), s2, t);
    Follow(c, s, Cancel, [DropLoad] + ([DropRelease] + ([DropStore] + rest)), s1, t);
    run := [Cancel] + ([DropLoad] + ([DropRelease] + ([DropStore] + rest)));
  }

  /** One that gives up waiting while a read is under way releases that reservation twice. */
  lemma DropDuringRead(c: Config) returns (run: seq<Action>, t: State)
    requires 1 <= c.minWindow <= c.maxWindow && |c.file| > 0
    ensures Reaches(c, Init(c, 0), run, t) && t.pc.Done? && t.drop.Dropped?
    ensures t.net == 0 - Min(FirstChunk(c), |c.file|) < 0
  {
    var n := Min(FirstChunk(c), |c.file|);
    var s0 := Init(c, 0);
    var s1 := s0.(pc := Ask(n));
    var s2 := s1.(pc := Grant(n), net := n);
    var s3 := s2.(pc := Read(n), inflight := n);
    var rest;
    rest, t := DropsInRead(c, s3);
    hide Reaches;
    Follow(c, s2, Count, rest, s3, t);
    Follow(c, s1, Reserve(true), [Count] + rest, s2, t);
    Follow(c, s0, Iterate(c.minWindow), [Reserve(true)] + ([Count] + rest), s1, t);
    run := [Iterate(c.minWindow)] + ([Reserve(true)] + ([Count] + rest));
  }

  lemma Follow(c: Config, s: State, a: Action, rest: seq<Action>, s': State, t: State)
    requires c.minWindow <= c.maxWindow && Enabled(c, s, a) && Apply(c, s, a) == s'
    requires Reaches(c, s', rest, t)
    ensures Reaches(c, s, [a] + rest, t)
  {
    hide Apply, Enabled;
    assert ([a] + rest)[1..] == rest;
  }

  // ----- The window ratchet -----

  lemma FloorStep(c: Config, s: State, a: Action)
    requires c.minWindow <= c.maxWindow && Inv(c, s) && Enabled(c, s, a) && s.floor.Some?
    ensures var t := Apply(c, s, a); t.floor.Some? && t.floor.value <= s.floor.value
  {
    hide ContentInv, BudgetInv;
  }

  lemma {:induction false} FloorRun(c: Config, s: State, run: seq<Action>, t: State)
    requires c.minWindow <= c.maxWindow && Inv(c, s) && Reaches(c, s, run, t) && s.floor.Some?
    ensures t.floor.Some? && t.floor.value <= s.floor.value
    decreases |run|
  {
    if run != [] {
      InvRun(c, s, [run[0]], Apply(c, s, run[0]));
      FloorStep(c, s, run[0]);
      hide Apply, Enabled, Inv;
      FloorRun(c, Apply(c, s, run[0]), run[1..], t);
    }
  }

  /** Once a transient error has set the floor, then in every continuation, whatever the rate
      controller answers, the floor only sinks, never below the minimum window; a pending retry
      size is the floor itself; and every request is at most the floor as it was. */
  lemma WindowRatchet(c: Config, readers: nat, before: seq<Action>, s: State, after: seq<Action>, t: State)
    requires c.minWindow <= c.maxWindow && Reaches(c, Init(c, readers), before, s) && s.floor.Some?
    requires Reaches(c, s, after, t)
    ensures t.floor.Some? && c.minWindow <= t.floor.value <= s.floor.value
    ensures t.override.Some? ==> t.override == t.floor
    ensures HasRequest(t.pc) ==> t.pc.n <= s.floor.value
  {
    InitInv(c, readers);
    InvRun(c, Init(c, readers), before, s);
    InvRun(c, s, after, t);
    FloorRun(c, s, after, t);
  }

  // ----- Termination -----

  function Rank(pc: Pc): nat {
    match pc
    case Top => 9
    case Ask(_) => 8
    case AskAgain(_) => 7
    case Grant(_) => 6
    case Read(_) => 5
    case Push(_, _) => 4
    case GiveBack(_, _) => 3
    case Return(_, _) => 2
    case Closing => 1
    case Done => 0
    case Aborted => 0
  }

  /** The download loop makes progress, or has nothing to do. */
  predicate Progresses(c: Config) {
    c.minWindow <= c.maxWindow && (c.minWindow >= 1 || c.file == [])
  }

  /** Bytes still to go, then transient errors still allowed, then the place in the iteration. */
  ghost function Fuel(c: Config, s: State): nat
    requires WindowInv(c, s)
  {
    ((|c.file| - s.offset) * 7 + (6 - s.transient)) * 10 + Rank(s.pc)
  }

  lemma StepUsesFuel(c: Config, s: State, a: Action)
    requires Progresses(c) && Inv(c, s) && Enabled(c, s, a)
    ensures WindowInv(c, Apply(c, s, a))
    ensures ByProducer(a) && !(a.Enqueue? && Parked(s)) ==> Fuel(c, Apply(c, s, a)) < Fuel(c, s)
    ensures !ByProducer(a) ==> Fuel(c, Apply(c, s, a)) == Fuel(c, s)
  {
    WindowStep(c, s, a);
    if a.Enqueue? {
      if !Parked(s) {
        EnqueueUsesFuel(c, s);
      }
    } else {
      OtherUsesFuel(c, s, a);
    }
  }

  lemma EnqueueUsesFuel(c: Config, s: State)
    requires Progresses(c) && Inv(c, s) && Enabled(c, s, Enqueue) && !Parked(s)
    requires WindowInv(c, Apply(c, s, Enqueue))
    ensures Fuel(c, Apply(c, s, Enqueue)) < Fuel(c, s)
  {
    if !IsTerminal(s.queue) {
      PushAlwaysLands(c, s);
    }
    hide ContentInv, BudgetInv;
  }

  lemma OtherUsesFuel(c: Config, s: State, a: Action)
    requires Progresses(c) && WindowInv(c, s) && Enabled(c, s, a) && !a.Enqueue?
    requires WindowInv(c, Apply(c, s, a))
    ensures ByProducer(a) ==> Fuel(c, Apply(c, s, a)) < Fuel(c, s)
    ensures !ByProducer(a) ==> Fuel(c, Apply(c, s, a)) == Fuel(c, s)
  {
    if a.Reserve? {
      ReserveUsesFuel(c, s, a.ok);
    } else if a.Release? {
      ReleaseUsesFuel(c, s);
    } else {
      assert Apply(c, s, a).offset == s.offset && Apply(c, s, a).transient == s.transient;
    }
  }

  lemma ReserveUsesFuel(c: Config, s: State, ok: bool)
    requires Progresses(c) && WindowInv(c, s) && Enabled(c, s, Reserve(ok))
    requires WindowInv(c, Apply(c, s, Reserve(ok)))
    ensures Fuel(c, Apply(c, s, Reserve(ok))) < Fuel(c, s)
  {
  }

  lemma ReleaseUsesFuel(c: Config, s: State)
    requires Progresses(c) && WindowInv(c, s) && Enabled(c, s, Release)
    requires WindowInv(c, Apply(c, s, Release))
    ensures Fuel(c, Apply(c, s, Release)) < Fuel(c, s)
  {
  }

  /** The download thread's own steps in a run, not counting waits for room. */
  ghost function WorkSteps(c: Config, s: State, run: seq<Action>, t: State): nat
    requires c.minWindow <= c.maxWindow && Reaches(c, s, run, t)
    decreases |run|
  {
    if run == [] then 0
    else (if ByProducer(run[0]) && !(run[0].Enqueue? && Parked(s)) then 1 else 0)
         + WorkSteps(c, Apply(c, s, run[0]), run[1..], t)
  }

  lemma {:induction false} WorkIsBounded(c: Config, s: State, run: seq<Action>, t: State)
    requires Progresses(c) && Inv(c, s) && Reaches(c, s, run, t)
    ensures Inv(c, t) && WorkSteps(c, s, run, t) + Fuel(c, t) <= Fuel(c, s)
    decreases |run|
  {
    if run != [] {
      var s' := Apply(c, s, run[0]);
      InvRun(c, s, [run[0]], s');
      StepUsesFuel(c, s, run[0]);
      WorkIsBounded(c, s', run[1..], t);
      if run[0].Enqueue? && Parked(s) {
        assert s' == s;
      }
    }
  }

  /** With a positive minimum window, or an empty file, the download loop takes at most 70 steps per byte of
      the file (and 69 more) in any run whatsoever, not counting waits for room: its offset never passes
      the end, and it makes at most six transient errors between two successes. */
  lemma DownloadTerminates(c: Config, readers: nat, run: seq<Action>, t: State)
    requires Progresses(c) && Reaches(c, Init(c, readers), run, t)
    ensures WorkSteps(c, Init(c, readers), run, t) <= 70 * |c.file| + 69
    ensures t.offset <= |c.file| && t.transient <= 6
  {
    InitInv(c, readers);
    WorkIsBounded(c, Init(c, readers), run, t);
  }

  /** At the top of the loop with room in the queue, and at most one byte to ask for. */
  ghost predicate Stalling(c: Config, s: State) {
    && c.minWindow == 0 && s.pc.Top? && s.override.None? && s.floor.None? && s.offset < |c.file|
    && Min(Window(c, s, 0), |c.file| - s.offset) <= 1
    && !IsTerminal(s.queue) && s.queue.currentBytes <= s.queue.maxBytes
    && (s.queue.parts != [] ==> s.queue.parts[|s.queue.parts| - 1].End() <= s.offset)
  }

  /** The state once an empty part has been queued. */
  function EmptyQueued(s: State): State {
    s.(transient := 0, queue := AfterPush(s.queue, Part(s.offset, [])))
  }

  /** A granted empty request reads nothing, queues an empty part and leaves the offset where it was. */
  lemma EmptyRead(c: Config, s: State, pc: Pc, rest: seq<Action>, t: State) returns (run: seq<Action>)
    requires Stalling(c, s) && (pc == Ask(0) || pc == AskAgain(0)) && Reaches(c, EmptyQueued(s), rest, t)
    ensures Stalling(c, EmptyQueued(s)) && Reaches(c, s.(pc := pc), run, t)
    ensures WorkSteps(c, s.(pc := pc), run, t) == 4 + WorkSteps(c, EmptyQueued(s), rest, t)
  {
    var s1, s2, s3 := s.(pc := Grant(0)), s.(pc := Read(0)), s.(pc := Push(0, 0));
    hide Reaches, WorkSteps;
    assert PartInHand(c, s3) == Part(s.offset, []);
    Work(c, s3, Enqueue, rest, EmptyQueued(s), t);
    Work(c, s2, Fetch(Got(0)), [Enqueue] + rest, s3, t);
    Work(c, s1, Count, [Fetch(Got(0))] + ([Enqueue] + rest), s2, t);
    run := [Count] + ([Fetch(Got(0))] + ([Enqueue] + rest));
    Work(c, s.(pc := pc), Reserve(true), run, s1, t);
    run := [Reserve(true)] + run;
  }

  /** One round: an empty request is granted; a request for one byte is refused, and the half of it granted. */
  lemma EmptyRound(c: Config, s: State, rest: seq<Action>, t: State) returns (run: seq<Action>)
    requires Stalling(c, s) && Reaches(c, EmptyQueued(s), rest, t)
    ensures Reaches(c, s, run, t) && WorkSteps(c, s, run, t) > WorkSteps(c, EmptyQueued(s), rest, t)
  {
    hide Reaches, WorkSteps;
    var n := Min(Window(c, s, 0), |c.file| - s.offset);
    if n == 0 {
      run := EmptyRead(c, s, Ask(0), rest, t);
    } else {
      run := EmptyRead(c, s, AskAgain(0), rest, t);
      Work(c, s.(pc := Ask(1)), Reserve(false), run, s.(pc := AskAgain(0)), t);
      run := [Reserve(false)] + run;
    }
    Work(c, s, Iterate(0), run, s.(pc := Ask(n)), t);
    run := [Iterate(0)] + run;
  }

  lemma {:induction false} EmptyRounds(c: Config, s: State, k: nat) returns (run: seq<Action>, t: State)
    requires Stalling(c, s)
    ensures Reaches(c, s, run, t) && WorkSteps(c, s, run, t) >= k
    decreases k
  {
    if k == 0 {
      run, t := [], s;
    } else {
      assert Stalling(c, EmptyQueued(s));
      hide Reaches, WorkSteps, Stalling, EmptyQueued;
      run, t := EmptyRounds(c, EmptyQueued(s), k - 1);
      run := EmptyRound(c, s, run, t);
    }
  }

  /** With a minimum window of zero the download of any non-empty file need not end, whatever the maximum. */
  lemma ZeroWindowStalls(c: Config, k: nat) returns (run: seq<Action>, t: State)
    requires c.minWindow == 0 && c.file != []
    ensures Reaches(c, Init(c, 0), run, t) && WorkSteps(c, Init(c, 0), run, t) >= k
  {
    hide Reaches, WorkSteps;
    var s0 := Init(c, 0);
    var n := Min(FirstChunk(c), |c.file|);
    if n <= 1 {
      run, t := EmptyRounds(c, s0, k);
    } else {
      var s1, s2 := s0.(pc := Ask(n)), s0.(pc := AskAgain(n / 2));
      var s3 := s0.(offset := n / 2);
      var rest;
      rest, t := EmptyRounds(c, s3, k);
      Work(c, s2, Reserve(false), rest, s3, t);
      Work(c, s1, Reserve(false), [Reserve(false)] + rest, s2, t);
      Work(c, s0, Iterate(0), [Reserve(false)] + ([Reserve(false)] + rest), s1, t);
      run := [Iterate(0)] + ([Reserve(false)] + ([Reserve(false)] + rest));
    }
  }

  ghost predicate BoundedBy(c: Config, bound: nat)
    requires c.minWindow <= c.maxWindow
  {
    forall readers, run, t :: Reaches(c, Init(c, readers), run, t) ==> WorkSteps(c, Init(c, readers), run, t) <= bound
  }

  /** The work of the download thread is bounded over all runs if and only if the minimum window is positive
      or the file is empty. */
  lemma TerminatesExactly(c: Config)
    requires c.minWindow <= c.maxWindow
    ensures (exists bound :: BoundedBy(c, bound)) <==> c.minWindow >= 1 || c.file == []
  {
    hide Reaches, WorkSteps;
    if Progresses(c) {
      forall readers, run, t | Reaches(c, Init(c, readers), run, t)
        ensures WorkSteps(c, Init(c, readers), run, t) <= 70 * |c.file| + 69
      {
        DownloadTerminates(c, readers, run, t);
      }
      assert BoundedBy(c, 70 * |c.file| + 69);
    } else {
      forall bound: nat ensures !BoundedBy(c, bound) {
        var run, t := ZeroWindowStalls(c, bound + 1);
      }
    }
  }

  lemma Work(c: Config, s: State, a: Action, rest: seq<Action>, s': State, t: State)
    requires c.minWindow <= c.maxWindow && Enabled(c, s, a) && Apply(c, s, a) == s'
    requires ByProducer(a) && !(a.Enqueue? && Parked(s)) && Reaches(c, s', rest, t)
    ensures Reaches(c, s, [a] + rest, t) && WorkSteps(c, s, [a] + rest, t) == 1 + WorkSteps(c, s', rest, t)
  {
    hide Apply, Enabled;
    assert ([a] + rest)[1..] == rest;
  }

  // ----- The clamp that panics -----

  /** In every reachable state the thread dies on a crossed clamp in the next step exactly when that is a
      refused reservation or a tolerated transient error with fewer bytes left than the minimum window. */
  lemma AbortsExactly(c: Config, readers: nat, run: seq<Action>, s: State, a: Action)
    requires c.minWindow <= c.maxWindow && Reaches(c, Init(c, readers), run, s) && Enabled(c, s, a) && !s.pc.Aborted?
    ensures Apply(c, s, a).pc.Aborted? <==>
              && |c.file| - s.offset < c.minWindow
              && ((a == Reserve(false) && s.pc.Ask?) ||
                  (a == Release && s.pc.next.Retry? && s.transient < MAX_CONSECUTIVE_TRANSIENT_READ_ERRORS))
  {
    InitInv(c, readers);
    InvRun(c, Init(c, readers), run, s);
    hide ContentInv, BudgetInv, WindowInv, Reaches, Apply, Enabled;
    AbortsNow(c, s, a);
  }

  lemma AbortsNow(c: Config, s: State, a: Action)
    requires c.minWindow <= c.maxWindow && WindowInv(c, s) && Enabled(c, s, a) && !s.pc.Aborted?
    ensures Apply(c, s, a).pc.Aborted? <==> Crossed(c, s, a)
  {
    hide AfterPop, PopResult, PushOutcomeOf, AfterPush, IsFullFor;
  }

  predicate Crossed(c: Config, s: State, a: Action)
    requires Enabled(c, s, a)
  {
    && |c.file| - s.offset < c.minWindow
    && ((a == Reserve(false) && s.pc.Ask?) ||
        (a == Release && s.pc.next.Retry? && s.transient < MAX_CONSECUTIVE_TRANSIENT_READ_ERRORS))
  }

  /** A file shorter than the minimum window reaches it with the first refusal. */
  lemma ShortFileAborts(c: Config) returns (run: seq<Action>, t: State)
    requires 0 < |c.file| < c.minWindow <= c.maxWindow
    ensures run == [Iterate(c.minWindow), Reserve(false)] && Reaches(c, Init(c, 0), run, t) && t.pc.Aborted?
  {
    var s0 := Init(c, 0);
    var s1 := s0.(pc := Ask(|c.file|));
    t := s0.(pc := Aborted);
    Follow(c, s1, Reserve(false), [], t, t);
    Follow(c, s0, Iterate(c.minWindow), [Reserve(false)], s1, t);
    run := [Iterate(c.minWindow)] + [Reserve(false)];
  }
}
