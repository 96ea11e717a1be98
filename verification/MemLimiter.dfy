/** The memory budget of `src/mem_limiter.rs`, each call split at its atomic operations and run by
    any number of threads. `held` is a history variable: what completed reservations of a label
    still hold, less the releases that have begun. */
module MemLimiter {
  import opened MapTotal
  import opened Sums

  type Label = string

  const U64_MAX: nat := 0xFFFF_FFFF_FFFF_FFFF
  const I64_MAX: nat := 0x7FFF_FFFF_FFFF_FFFF

  /** Where a thread stands inside a call. */
  datatype Pc =
    | Idle
    | Reserving(tag: Label, n: nat)              // about to load `used`
    | Loaded(tag: Label, n: nat, current: nat)   // loaded, about to compare and swap
    | Reserved(tag: Label, n: nat)               // `used` taken, label not yet recorded
    | Released(tag: Label, n: nat)               // `used` given back, label not yet recorded
    | LabelReleased(n: nat)                        // release_if_reserved: label done, `used` not

  datatype State = State(cap: nat, used: nat, labels: map<Label, nat>, held: map<Label, nat>, threads: seq<Pc>)

  datatype Action =
    | Begin(t: nat, tag: Label, n: nat)          // try_reserve is called
    | Load(t: nat)
    | Swap(t: nat)
    | Record(t: nat)
    | Release(t: nat, tag: Label, n: nat)        // first half of release
    | TryRelease(t: nat, tag: Label, n: nat)     // first half of release_if_reserved
    | Finish(t: nat)                               // second half of either release

  function SatAdd(a: nat, b: nat): nat {
    if a + b > U64_MAX then U64_MAX else a + b
  }

  function SatSub(a: nat, b: nat): nat {
    if a >= b then a - b else 0
  }

  function Min(a: nat, b: nat): nat {
    if a <= b then a else b
  }

  function Get(m: map<Label, nat>, l: Label): nat {
    if l in m then m[l] else 0
  }

  /** A label's count after `record` of minus `n`: above 63 bits the negated amount wraps. */
  function Unrecorded(c: nat, n: nat): nat {
    if n <= I64_MAX + 1 then SatSub(c, n) else (c + SatSub(U64_MAX + 1, n)) % (U64_MAX + 1)
  }

  function Go(s: State, t: nat, pc: Pc): State
    requires t < |s.threads|
  {
    s.(threads := s.threads[t := pc])
  }

  predicate Enabled(s: State, a: Action) {
    && a.t < |s.threads|
    && match a
       case Begin(_, _, n) => s.threads[a.t].Idle? && n <= U64_MAX
       case Load(_) => s.threads[a.t].Reserving?
       case Swap(_) => s.threads[a.t].Loaded?
       case Record(_) => s.threads[a.t].Reserved?
       case Release(_, _, n) => s.threads[a.t].Idle? && n <= U64_MAX
       case TryRelease(_, _, n) => s.threads[a.t].Idle? && n <= U64_MAX
       case Finish(_) => s.threads[a.t].Released? || s.threads[a.t].LabelReleased?
  }

  function Apply(s: State, a: Action): State
    requires Enabled(s, a)
  {
    var pc := s.threads[a.t];
    match a
    case Begin(t, tag, n) =>
      if s.cap == 0 then
        var safe := Min(n, I64_MAX);
        Go(s.(used := (s.used + safe) % (U64_MAX + 1)), t, Reserved(tag, safe))
      else Go(s, t, Reserving(tag, n))
    case Load(t) =>
      if SatAdd(s.used, pc.n) > s.cap then Go(s, t, Idle)
      else Go(s, t, Loaded(pc.tag, pc.n, s.used))
    case Swap(t) =>
      if s.used == pc.current then
        Go(s.(used := SatAdd(pc.current, pc.n)), t, Reserved(pc.tag, pc.n))
      else Go(s, t, Reserving(pc.tag, pc.n))
    case Record(t) =>
      var m := Min(pc.n, I64_MAX);
      Go(s.(labels := s.labels[pc.tag := (Get(s.labels, pc.tag) + m) % (U64_MAX + 1)],
            held := s.held[pc.tag := Get(s.held, pc.tag) + pc.n]), t, Idle)
    case Release(t, tag, n) =>
      Go(s.(used := SatSub(s.used, n), held := s.held[tag := SatSub(Get(s.held, tag), n)]),
         t, Released(tag, n))
    case TryRelease(t, tag, n) =>
      if tag in s.labels && s.labels[tag] >= n then
        Go(s.(labels := s.labels[tag := s.labels[tag] - n],
              held := s.held[tag := SatSub(Get(s.held, tag), n)]), t, LabelReleased(n))
      else s
    case Finish(t) =>
      if pc.Released? then
        Go(s.(labels := s.labels[pc.tag := Unrecorded(Get(s.labels, pc.tag), pc.n)]), t, Idle)
      else Go(s.(used := SatSub(s.used, pc.n)), t, Idle)
  }

  function Init(cap: nat, n: nat): State {
    State(cap, 0, map[], map[], seq(n, i => Idle))
  }

  ghost predicate Reaches(s: State, run: seq<Action>, t: State)
    decreases |run|
  {
    if run == [] then s == t else Enabled(s, run[0]) && Reaches(Apply(s, run[0]), run[1..], t)
  }

  // ----- The cap -----

  /** A loaded value leaves room for its reservation. */
  ghost predicate WithinCap(s: State) {
    && s.used <= s.cap
    && forall t :: 0 <= t < |s.threads| && s.threads[t].Loaded? ==>
         SatAdd(s.threads[t].current, s.threads[t].n) <= s.cap
  }

  lemma WithinCapStep(s: State, a: Action)
    requires s.cap > 0 && WithinCap(s) && Enabled(s, a)
    ensures Apply(s, a).cap == s.cap && WithinCap(Apply(s, a))
  {
  }

  lemma {:induction false} WithinCapRun(s: State, run: seq<Action>, t: State)
    requires s.cap > 0 && WithinCap(s) && Reaches(s, run, t)
    ensures WithinCap(t) && t.cap == s.cap
    decreases |run|
  {
    if run != [] {
      WithinCapStep(s, run[0]);
      WithinCapRun(Apply(s, run[0]), run[1..], t);
    }
  }

  /** With a cap, no interleaving of any number of threads ever takes `used` above it. */
  lemma NeverAboveCap(cap: nat, n: nat, run: seq<Action>, t: State)
    requires cap > 0 && Reaches(Init(cap, n), run, t)
    ensures t.used <= cap
  {
    WithinCapRun(Init(cap, n), run, t);
  }

  // ----- When a reservation is refused -----

  /** The thread is inside a `try_reserve` of `n` bytes. */
  predicate InCall(pc: Pc, tag: Label, n: nat) {
    pc == Reserving(tag, n) || (pc.Loaded? && pc.tag == tag && pc.n == n) || pc == Reserved(tag, n)
  }

  /** A call of `try_reserve` goes on until its bytes are recorded, or until it loads a count that leaves no room:
      then nothing has changed. */
  lemma CallEndsExactly(s: State, a: Action, t: nat, tag: Label, n: nat)
    requires Enabled(s, a) && t < |s.threads| && InCall(s.threads[t], tag, n)
    ensures var s' := Apply(s, a);
            && |s'.threads| == |s.threads|
            && (InCall(s'.threads[t], tag, n) <==> a != Record(t) && !(a == Load(t) && SatAdd(s.used, n) > s.cap))
            && (a == Load(t) && SatAdd(s.used, n) > s.cap ==> s.used + n > s.cap && s' == Go(s, t, Idle))
            && (a == Record(t) ==> s'.threads[t].Idle? && Get(s'.held, tag) == Get(s.held, tag) + n)
            && (a == Record(t) ==> Get(s'.labels, tag) == (Get(s.labels, tag) + Signed63(n)) % (U64_MAX + 1))
  {
  }

  /** A label is told at most the largest signed word. */
  function Signed63(n: nat): nat {
    if n < 0x8000_0000_0000_0000 then n else 0x7FFF_FFFF_FFFF_FFFF
  }

  /** Without a cap a request is taken at once, up to the largest signed word. */
  lemma UncappedTakes(s: State, t: nat, tag: Label, n: nat)
    requires Enabled(s, Begin(t, tag, n)) && s.cap == 0
    ensures var s' := Apply(s, Begin(t, tag, n));
            s'.threads[t] == Reserved(tag, Signed63(n)) && s'.used == (s.used + Signed63(n)) % (U64_MAX + 1)
  {
  }

  /** The call of thread `t` goes on through the run, or ends with its bytes recorded. */
  ghost predicate EndsRecorded(s: State, run: seq<Action>, t: nat, tag: Label, n: nat)
    decreases |run|
  {
    && t < |s.threads| && InCall(s.threads[t], tag, n)
    && (run == [] || (Enabled(s, run[0]) &&
                      (run[0] == Record(t) || EndsRecorded(Apply(s, run[0]), run[1..], t, tag, n))))
  }

  /** There is room for `n` bytes in every state of the run. */
  ghost predicate RoomThroughout(s: State, run: seq<Action>, n: nat)
    decreases |run|
  {
    s.used + n <= s.cap && (run == [] || (Enabled(s, run[0]) && RoomThroughout(Apply(s, run[0]), run[1..], n)))
  }

  lemma {:induction false} RoomIsGranted(s: State, run: seq<Action>, u: State, t: nat, tag: Label, n: nat)
    requires Reaches(s, run, u) && t < |s.threads| && InCall(s.threads[t], tag, n) && RoomThroughout(s, run, n)
    ensures EndsRecorded(s, run, t, tag, n)
    decreases |run|
  {
    if run != [] && run[0] != Record(t) {
      CallEndsExactly(s, run[0], t, tag, n);
      hide Apply, Enabled, InCall;
      RoomIsGranted(Apply(s, run[0]), run[1..], u, t, tag, n);
    }
  }

  lemma {:induction false} RoomForNothing(s: State, run: seq<Action>, u: State)
    requires s.cap > 0 && WithinCap(s) && Reaches(s, run, u)
    ensures RoomThroughout(s, run, 0)
    decreases |run|
  {
    if run != [] {
      WithinCapStep(s, run[0]);
      hide Apply, Enabled;
      RoomForNothing(Apply(s, run[0]), run[1..], u);
    }
  }

  ghost predicate Uncapped(s: State) {
    s.cap == 0 && forall t :: 0 <= t < |s.threads| ==> !s.threads[t].Reserving? && !s.threads[t].Loaded?
  }

  lemma {:induction false} UncappedRun(s: State, run: seq<Action>, u: State)
    requires Uncapped(s) && Reaches(s, run, u)
    ensures Uncapped(u)
    decreases |run|
  {
    if run != [] {
      UncappedRun(Apply(s, run[0]), run[1..], u);
    }
  }

  lemma {:induction false} UncappedIsGranted(s: State, run: seq<Action>, u: State, t: nat, tag: Label, n: nat)
    requires Uncapped(s) && Reaches(s, run, u) && t < |s.threads| && InCall(s.threads[t], tag, n)
    ensures EndsRecorded(s, run, t, tag, n)
    decreases |run|
  {
    if run != [] && run[0] != Record(t) {
      CallEndsExactly(s, run[0], t, tag, n);
      UncappedRun(s, [run[0]], Apply(s, run[0]));
      hide Apply, Enabled, InCall, Uncapped;
      UncappedIsGranted(Apply(s, run[0]), run[1..], u, t, tag, n);
    }
  }

  /** In every run: a reservation that fits at every moment of its call is never refused, however often it loses
      the swap; and without a cap none is. */
  lemma FittingIsGranted(cap: nat, threads: nat, before: seq<Action>, s: State, run: seq<Action>, u: State,
                         t: nat, tag: Label, n: nat)
    requires Reaches(Init(cap, threads), before, s) && t < |s.threads| && InCall(s.threads[t], tag, n)
    requires Reaches(s, run, u) && (cap == 0 || RoomThroughout(s, run, n))
    ensures EndsRecorded(s, run, t, tag, n)
  {
    if cap == 0 {
      UncappedRun(Init(cap, threads), before, s);
      UncappedIsGranted(s, run, u, t, tag, n);
    } else {
      RoomIsGranted(s, run, u, t, tag, n);
    }
  }

  /** In every run a reservation of no bytes is never refused, at any of its steps. */
  lemma EmptyRequestGranted(cap: nat, threads: nat, before: seq<Action>, s: State, run: seq<Action>, u: State,
                            t: nat, tag: Label)
    requires Reaches(Init(cap, threads), before, s) && t < |s.threads| && InCall(s.threads[t], tag, 0)
    requires Reaches(s, run, u)
    ensures EndsRecorded(s, run, t, tag, 0)
  {
    if cap > 0 {
      WithinCapRun(Init(cap, threads), before, s);
      RoomForNothing(s, run, u);
    }
    FittingIsGranted(cap, threads, before, s, run, u, t, tag, 0);
  }

  // ----- Giving back -----

  /** `release_if_reserved` gives back exactly when the label holds at least `n`; its first half takes them from
      the label, its second from `used`; and otherwise nothing changes. */
  lemma TryReleaseExactly(s: State, t: nat, tag: Label, n: nat)
    requires Enabled(s, TryRelease(t, tag, n))
    ensures var s1 := Apply(s, TryRelease(t, tag, n));
            if tag in s.labels && n <= Get(s.labels, tag) then
              && s1.threads[t].LabelReleased? && s1.used == s.used
              && Get(s1.labels, tag) == Get(s.labels, tag) - n && (forall l :: l != tag ==> Get(s1.labels, l) == Get(s.labels, l))
              && Enabled(s1, Finish(t))
              && var s2 := Apply(s1, Finish(t));
                 s2.threads == s.threads && s2.labels == s1.labels && s2.used == SatSub(s.used, n)
            else s1 == s
  {
    var s1 := Apply(s, TryRelease(t, tag, n));
    assert s1.threads[t].LabelReleased? ==> s1.threads[t := Idle] == s.threads;
  }

  lemma ReleaseBoth(s: State, t: nat, tag: Label, n: nat)
    requires Enabled(s, Release(t, tag, n)) && n <= I64_MAX && n <= s.used && n <= Get(s.labels, tag)
    ensures var s1 := Apply(s, Release(t, tag, n));
            && Enabled(s1, Finish(t))
            && var s2 := Apply(s1, Finish(t));
               && s2.threads == s.threads && s2.used == s.used - n
               && Get(s2.labels, tag) == Get(s.labels, tag) - n
               && forall l :: l != tag ==> Get(s2.labels, l) == Get(s.labels, l)
  {
    var s1 := Apply(s, Release(t, tag, n));
    assert s1.threads[t := Idle] == s.threads;
  }

  /** A granted reservation and either kind of release undo each other: `used` and every label are as before. */
  lemma ReleaseUndoesReserve(s: State, t: nat, tag: Label, n: nat, checked: bool)
    requires t < |s.threads| && s.threads[t].Idle? && n <= I64_MAX
    requires s.used + n <= U64_MAX && Get(s.labels, tag) + n <= U64_MAX
    ensures var g := Granted(s, tag, n); var a := if checked then TryRelease(t, tag, n) else Release(t, tag, n);
            && Enabled(g, a) && Enabled(Apply(g, a), Finish(t))
            && var u := Apply(Apply(g, a), Finish(t));
               u.used == s.used && u.threads == s.threads && forall l :: Get(u.labels, l) == Get(s.labels, l)
  {
    var g := Granted(s, tag, n);
    assert Get(g.labels, tag) == Get(s.labels, tag) + n && tag in g.labels;
    if checked {
      TryReleaseExactly(g, t, tag, n);
    } else {
      ReleaseBoth(g, t, tag, n);
    }
    hide Apply;
  }

  // ----- Negative amounts -----

  /** A 64-bit word read as a signed one. */
  function AsSigned(n: nat): int {
    if n <= I64_MAX then n else n - (U64_MAX + 1)
  }

  /** Negation of a signed word: the least one is its own negative. */
  function Negated(x: int): int {
    if x == -(I64_MAX + 1) then x else -x
  }

  /** `record` of a signed amount. */
  function Recorded(c: nat, delta: int): nat {
    if delta >= 0 then (c + delta) % (U64_MAX + 1) else SatSub(c, -delta)
  }

  /** What a release leaves of a label's count is what recording the negated word leaves. */
  lemma UnrecordedIsSigned(c: nat, n: nat)
    requires c <= U64_MAX && n <= U64_MAX
    ensures Unrecorded(c, n) == Recorded(c, Negated(AsSigned(n)))
  {
  }

  // ----- Conservation -----

  /** What a caller owes: amounts fit 63 bits, and releases give back what the label holds. */
  predicate Owes(s: State, a: Action)
    requires Enabled(s, a)
  {
    match a
    case Begin(_, _, n) => n <= I64_MAX
    case Release(_, tag, n) => n <= I64_MAX && tag in s.held && s.held[tag] >= n
    case TryRelease(_, tag, n) => tag in s.held && s.held[tag] >= n
    case _ => true
  }

  /** The sum a step makes fits 64 bits. */
  predicate Fits(s: State, a: Action)
    requires Enabled(s, a)
  {
    var pc := s.threads[a.t];
    match a
    case Begin(_, _, n) => s.cap == 0 ==> s.used + n <= U64_MAX
    case Swap(_) => s.used == pc.current ==> pc.current + pc.n <= U64_MAX
    case Record(_) => Get(s.labels, pc.tag) + pc.n <= U64_MAX
    case _ => true
  }

  predicate Paired(s: State, a: Action)
    requires Enabled(s, a)
  {
    Owes(s, a) && Fits(s, a)
  }

  ghost predicate ReachesPaired(s: State, run: seq<Action>, t: State)
    decreases |run|
  {
    if run == [] then s == t
    else Enabled(s, run[0]) && Paired(s, run[0]) && ReachesPaired(Apply(s, run[0]), run[1..], t)
  }

  /** How far one thread makes `used` run ahead of `held`. */
  function UsedLag(): Pc -> nat {
    (pc: Pc) => if pc.Reserved? || pc.LabelReleased? then pc.n else 0
  }

  /** How far one thread makes its label's count run ahead of what the label holds. */
  function LabelLag(l: Label): Pc -> nat {
    (pc: Pc) => if pc.Released? && pc.tag == l then pc.n else 0
  }

  predicate Modest(pc: Pc) {
    (pc.Reserving? || pc.Loaded? || pc.Reserved? || pc.Released?) ==> pc.n <= I64_MAX
  }

  ghost predicate Accounted(s: State) {
    && (forall t :: 0 <= t < |s.threads| ==> Modest(s.threads[t]))
    && s.labels.Keys == s.held.Keys
    && (forall t :: 0 <= t < |s.threads| && s.threads[t].Released? ==> s.threads[t].tag in s.held)
    && s.used == Total(s.held) + Sum(s.threads, UsedLag())
    && forall l :: Get(s.labels, l) == Get(s.held, l) + Sum(s.threads, LabelLag(l))
  }

  /** The change one step makes: to a label's holding and count, and to `used`. */
  lemma AccountedChange(s: State, s': State, t: nat, pc: Pc, tag: Label)
    requires Accounted(s) && t < |s.threads| && s'.threads == s.threads[t := pc] && Modest(pc)
    requires forall l :: l != tag ==>
               && Get(s'.labels, l) == Get(s.labels, l) && Get(s'.held, l) == Get(s.held, l)
               && LabelLag(l)(s.threads[t]) == LabelLag(l)(pc)
    requires Get(s'.labels, tag) + Get(s.held, tag) + LabelLag(tag)(s.threads[t]) ==
             Get(s.labels, tag) + Get(s'.held, tag) + LabelLag(tag)(pc)
    requires s'.used + Total(s.held) + UsedLag()(s.threads[t]) == s.used + Total(s'.held) + UsedLag()(pc)
    requires s'.labels.Keys == s'.held.Keys >= s.held.Keys && (pc.Released? ==> pc.tag in s'.held)
    ensures Accounted(s')
  {
    SumUpdate(s.threads, t, pc, UsedLag());
    forall l ensures Get(s'.labels, l) == Get(s'.held, l) + Sum(s'.threads, LabelLag(l)) {
      SumUpdate(s.threads, t, pc, LabelLag(l));
    }
  }

  /** A label holds no more than the total, so a paired release cannot underflow `used`. */
  lemma HoldingFits(m: map<Label, nat>, l: Label)
    requires l in m
    ensures m[l] <= Total(m)
  {
    TotalRemove(m, l);
  }

  lemma AccountedStep(s: State, a: Action)
    requires Accounted(s) && Enabled(s, a) && Paired(s, a)
    ensures Accounted(Apply(s, a))
  {
    hide Accounted;
    var s' := Apply(s, a);
    var pc := s.threads[a.t];
    match a
    case Begin(t, tag, n) => BeginAccounted(s, a);
    case Load(t) => LoadAccounted(s, a);
    case Swap(t) => SwapAccounted(s, a);
    case Record(t) => RecordAccounted(s, a);
    case Release(t, tag, n) => ReleaseAccounted(s, a);
    case TryRelease(t, tag, n) => TryReleaseAccounted(s, a);
    case Finish(t) => FinishAccounted(s, a);
  }

  lemma BeginAccounted(s: State, a: Action)
    requires a.Begin? && Accounted(s) && Enabled(s, a) && Paired(s, a)
    ensures Accounted(Apply(s, a))
  {
    hide Total, Sum;
    var s' := Apply(s, a);
    AccountedChange(s, s', a.t, s'.threads[a.t], a.tag);
  }

  lemma LoadAccounted(s: State, a: Action)
    requires a.Load? && Accounted(s) && Enabled(s, a)
    ensures Accounted(Apply(s, a))
  {
    hide Total, Sum;
    var s' := Apply(s, a);
    AccountedChange(s, s', a.t, s'.threads[a.t], s.threads[a.t].tag);
  }

  lemma SwapAccounted(s: State, a: Action)
    requires a.Swap? && Accounted(s) && Enabled(s, a) && Paired(s, a)
    ensures Accounted(Apply(s, a))
  {
    hide Total, Sum;
    var s' := Apply(s, a);
    AccountedChange(s, s', a.t, s'.threads[a.t], s.threads[a.t].tag);
  }

  lemma RecordAccounted(s: State, a: Action)
    requires a.Record? && Accounted(s) && Enabled(s, a) && Paired(s, a)
    ensures Accounted(Apply(s, a))
  {
    hide Total, Sum;
    var s', pc := Apply(s, a), s.threads[a.t];
    TotalUpdate(s.held, pc.tag, Get(s.held, pc.tag) + pc.n);
    AccountedChange(s, s', a.t, Idle, pc.tag);
  }

  lemma ReleaseAccounted(s: State, a: Action)
    requires a.Release? && Accounted(s) && Enabled(s, a) && Paired(s, a)
    ensures Accounted(Apply(s, a))
  {
    hide Total, Sum;
    var s' := Apply(s, a);
    HoldingFits(s.held, a.tag);
    TotalUpdate(s.held, a.tag, s.held[a.tag] - a.n);
    AccountedChange(s, s', a.t, Released(a.tag, a.n), a.tag);
  }

  lemma TryReleaseAccounted(s: State, a: Action)
    requires a.TryRelease? && Accounted(s) && Enabled(s, a) && Paired(s, a)
    ensures Accounted(Apply(s, a))
  {
    hide Total, Sum;
    var s' := Apply(s, a);
    if s' != s {
      TotalUpdate(s.held, a.tag, s.held[a.tag] - a.n);
      AccountedChange(s, s', a.t, LabelReleased(a.n), a.tag);
    }
  }

  lemma LagOfOne(ts: seq<Pc>, t: nat, l: Label)
    requires t < |ts|
    ensures Sum(ts, LabelLag(l)) >= LabelLag(l)(ts[t]) && Sum(ts, UsedLag()) >= UsedLag()(ts[t])
  {
    SumAtLeast(ts, LabelLag(l), t);
    SumAtLeast(ts, UsedLag(), t);
  }

  lemma FinishAccounted(s: State, a: Action)
    requires a.Finish? && Accounted(s) && Enabled(s, a)
    ensures Accounted(Apply(s, a))
  {
    hide Total, Sum;
    var s', pc := Apply(s, a), s.threads[a.t];
    var tag := if pc.Released? then pc.tag else "";
    LagOfOne(s.threads, a.t, tag);
    AccountedChange(s, s', a.t, Idle, tag);
  }

  lemma {:induction false} AccountedRun(s: State, run: seq<Action>, t: State)
    requires Accounted(s) && ReachesPaired(s, run, t)
    ensures Accounted(t)
    decreases |run|
  {
    hide Accounted, Enabled, Apply, Paired;
    if run != [] {
      AccountedStep(s, run[0]);
      AccountedRun(Apply(s, run[0]), run[1..], t);
    }
  }

  lemma SumMisfit(s: State, a: Action)
    requires Accounted(s) && Enabled(s, a) && Owes(s, a) && !Fits(s, a)
    ensures !Accounted(Apply(s, a))
  {
    var s', pc := Apply(s, a), s.threads[a.t];
    SumUpdate(s.threads, a.t, s'.threads[a.t], UsedLag());
    if a.Record? {
      SumUpdate(s.threads, a.t, Idle, LabelLag(pc.tag));
      hide Total, Sum;
      assert Get(s'.labels, pc.tag) < Get(s'.held, pc.tag) + Sum(s'.threads, LabelLag(pc.tag));
    }
    hide Total, Sum;
  }

  /** A step of honest callers keeps the accounts if and only if its sum fits 64 bits. */
  lemma AccountedExactly(s: State, a: Action)
    requires Accounted(s) && Enabled(s, a) && Owes(s, a)
    ensures Accounted(Apply(s, a)) <==> Fits(s, a)
  {
    hide Accounted, Apply, Enabled, Owes, Fits;
    if Fits(s, a) {
      AccountedStep(s, a);
    } else {
      SumMisfit(s, a);
    }
  }

  ghost predicate ReachesOwing(s: State, run: seq<Action>, t: State)
    decreases |run|
  {
    if run == [] then s == t
    else Enabled(s, run[0]) && Owes(s, run[0]) && ReachesOwing(Apply(s, run[0]), run[1..], t)
  }

  ghost predicate AccountedThroughout(s: State, run: seq<Action>)
    decreases |run|
  {
    Accounted(s) && (run == [] || (Enabled(s, run[0]) && AccountedThroughout(Apply(s, run[0]), run[1..])))
  }

  ghost predicate FitThroughout(s: State, run: seq<Action>)
    decreases |run|
  {
    run == [] || (Enabled(s, run[0]) && Fits(s, run[0]) && FitThroughout(Apply(s, run[0]), run[1..]))
  }

  lemma {:induction false} ExactRun(s: State, run: seq<Action>, t: State)
    requires Accounted(s) && ReachesOwing(s, run, t)
    ensures AccountedThroughout(s, run) <==> FitThroughout(s, run)
    decreases |run|
  {
    hide Accounted, Enabled, Apply, Owes, Fits;
    if run != [] {
      AccountedExactly(s, run[0]);
      if Fits(s, run[0]) {
        ExactRun(Apply(s, run[0]), run[1..], t);
      }
    }
  }

  /** For honest callers, the label counts and `used` are what is held, up to the halves of calls in
      progress, in every state of a run if and only if every sum made in it fits 64 bits. */
  lemma LabelsExactly(cap: nat, n: nat, run: seq<Action>, t: State)
    requires ReachesOwing(Init(cap, n), run, t)
    ensures AccountedThroughout(Init(cap, n), run) <==> FitThroughout(Init(cap, n), run)
  {
    InitAccounted(cap, n);
    ExactRun(Init(cap, n), run, t);
  }

  /** No call is between two of its writes. */
  predicate Quiet(s: State) {
    forall t :: 0 <= t < |s.threads| ==> s.threads[t].Idle? || s.threads[t].Reserving? || s.threads[t].Loaded?
  }

  lemma QuietLags(ts: seq<Pc>, l: Label)
    requires forall t :: 0 <= t < |ts| ==> ts[t].Idle? || ts[t].Reserving? || ts[t].Loaded?
    ensures Sum(ts, UsedLag()) == 0 && Sum(ts, LabelLag(l)) == 0
  {
    SumZero(ts, UsedLag());
    SumZero(ts, LabelLag(l));
  }

  /** Whenever no call is between two of its writes, the label counts are exactly what the labels
      hold, and they add up to `used`. */
  lemma LabelsAddUp(cap: nat, n: nat, run: seq<Action>, t: State)
    requires ReachesPaired(Init(cap, n), run, t) && Quiet(t)
    ensures t.labels == t.held && Total(t.labels) == t.used
  {
    InitAccounted(cap, n);
    AccountedRun(Init(cap, n), run, t);
    QuietLags(t.threads, "");
    forall l ensures Sum(t.threads, LabelLag(l)) == 0 {
      QuietLags(t.threads, l);
    }
    assert forall l :: l in t.labels ==> t.labels[l] == Get(t.labels, l) == Get(t.held, l);
  }

  // ----- Amounts small enough for the sums to fit -----

  /** What a caller owes when amounts are at most `bound`: releases give back what the label holds. */
  predicate Honest(s: State, a: Action, bound: nat)
    requires Enabled(s, a)
  {
    && (a.Begin? || a.Release? || a.TryRelease? ==> a.n <= bound)
    && (a.Release? || a.TryRelease? ==> a.tag in s.held && s.held[a.tag] >= a.n)
  }

  ghost predicate ReachesHonest(s: State, run: seq<Action>, t: State, bound: nat)
    decreases |run|
  {
    if run == [] then s == t
    else Enabled(s, run[0]) && Honest(s, run[0], bound) && ReachesHonest(Apply(s, run[0]), run[1..], t, bound)
  }

  ghost predicate Within(s: State, bound: nat) {
    forall t :: 0 <= t < |s.threads| && !s.threads[t].Idle? ==> s.threads[t].n <= bound
  }

  lemma {:induction false} LagsWithin(ts: seq<Pc>, l: Label, bound: nat)
    requires forall t :: 0 <= t < |ts| && !ts[t].Idle? ==> ts[t].n <= bound
    ensures Sum(ts, LabelLag(l)) <= |ts| * bound
  {
    if ts != [] {
      LagsWithin(ts[1..], l, bound);
      assert |ts| * bound == bound + |ts[1..]| * bound;
    }
  }

  lemma HonestIsPaired(s: State, a: Action, bound: nat)
    requires Accounted(s) && WithinCap(s) && Within(s, bound) && Enabled(s, a) && Honest(s, a, bound)
    requires 0 < s.cap < U64_MAX && bound <= I64_MAX && s.cap + |s.threads| * bound <= U64_MAX
    ensures Paired(s, a)
  {
    if a.Record? {
      var pc := s.threads[a.t];
      LagOfOne(s.threads, a.t, pc.tag);
      LagsWithin(s.threads, pc.tag, bound);
      if pc.tag in s.held {
        HoldingFits(s.held, pc.tag);
      }
    }
  }

  lemma WithinStep(s: State, a: Action, bound: nat)
    requires Within(s, bound) && Enabled(s, a) && Honest(s, a, bound) && s.cap > 0
    ensures Within(Apply(s, a), bound) && |Apply(s, a).threads| == |s.threads| && Apply(s, a).cap == s.cap
  {
  }

  lemma {:induction false} HonestRun(s: State, run: seq<Action>, t: State, bound: nat)
    requires Accounted(s) && WithinCap(s) && Within(s, bound) && ReachesHonest(s, run, t, bound)
    requires 0 < s.cap < U64_MAX && bound <= I64_MAX && s.cap + |s.threads| * bound <= U64_MAX
    ensures ReachesPaired(s, run, t)
    decreases |run|
  {
    hide Accounted, WithinCap, Within, Enabled, Apply, Paired, Honest;
    if run != [] {
      HonestIsPaired(s, run[0], bound);
      AccountedStep(s, run[0]);
      WithinCapStep(s, run[0]);
      WithinStep(s, run[0], bound);
      HonestRun(Apply(s, run[0]), run[1..], t, bound);
    }
  }

  /** With `n` threads and amounts up to `bound` it is enough that cap plus `n` such amounts fit 64
      bits: then paired releases alone make the labels add up to `used` whenever no call is mid-way. */
  lemma LabelsAddUpWithin(cap: nat, n: nat, bound: nat, run: seq<Action>, t: State)
    requires 0 < cap < U64_MAX && bound <= I64_MAX && cap + n * bound <= U64_MAX
    requires ReachesHonest(Init(cap, n), run, t, bound) && Quiet(t)
    ensures t.labels == t.held && Total(t.labels) == t.used <= cap
  {
    var s := Init(cap, n);
    InitAccounted(cap, n);
    hide ReachesPaired, ReachesHonest;
    HonestRun(s, run, t, bound);
    LabelsAddUp(cap, n, run, t);
    PairedReaches(s, run, t);
    NeverAboveCap(cap, n, run, t);
  }

  lemma InitAccounted(cap: nat, n: nat)
    ensures Accounted(Init(cap, n))
  {
    var s := Init(cap, n);
    QuietLags(s.threads, "");
    forall l ensures Sum(s.threads, LabelLag(l)) == 0 {
      QuietLags(s.threads, l);
    }
  }

  lemma {:induction false} PairedReaches(s: State, run: seq<Action>, t: State)
    requires ReachesPaired(s, run, t)
    ensures Reaches(s, run, t)
    decreases |run|
  {
    hide Enabled, Apply, Paired;
    if run != [] {
      PairedReaches(Apply(s, run[0]), run[1..], t);
    }
  }

  function Reserve(t: nat, tag: Label, n: nat): seq<Action> {
    [Begin(t, tag, n), Load(t), Swap(t), Record(t)]
  }

  /** The state after one undisturbed, granted reservation. */
  function Granted(s: State, tag: Label, n: nat): State {
    s.(used := SatAdd(s.used, n),
       labels := s.labels[tag := (Get(s.labels, tag) + Min(n, I64_MAX)) % (U64_MAX + 1)],
       held := s.held[tag := Get(s.held, tag) + n])
  }

  lemma Follow(s: State, a: Action, rest: seq<Action>, s': State, t: State)
    requires Enabled(s, a) && Apply(s, a) == s' && Reaches(s', rest, t)
    ensures Reaches(s, [a] + rest, t)
  {
    hide Enabled, Apply;
    assert ([a] + rest)[1..] == rest;
  }

  lemma TakeSteps(s: State, t: nat, tag: Label, n: nat)
    requires s.cap > 0 && t < |s.threads| && s.threads[t].Idle? && n <= U64_MAX && SatAdd(s.used, n) <= s.cap
    ensures Enabled(s, Begin(t, tag, n)) && Apply(s, Begin(t, tag, n)) == Go(s, t, Reserving(tag, n))
    ensures var s1 := Go(s, t, Reserving(tag, n));
            Enabled(s1, Load(t)) && Apply(s1, Load(t)) == Go(s, t, Loaded(tag, n, s.used))
    ensures var s2 := Go(s, t, Loaded(tag, n, s.used));
            Enabled(s2, Swap(t)) && Apply(s2, Swap(t)) == Go(s.(used := SatAdd(s.used, n)), t, Reserved(tag, n))
  {
  }

  lemma RecordStep(s: State, t: nat, tag: Label, n: nat)
    requires t < |s.threads| && s.threads[t].Idle?
    ensures var s3 := Go(s.(used := SatAdd(s.used, n)), t, Reserved(tag, n));
            Enabled(s3, Record(t)) && Apply(s3, Record(t)) == Granted(s, tag, n)
  {
    assert s.threads[t := Reserved(tag, n)][t := Idle] == s.threads;
  }

  lemma ReserveReaches(s: State, t: nat, tag: Label, n: nat, rest: seq<Action>, u: State)
    requires s.cap > 0 && t < |s.threads| && s.threads[t].Idle? && n <= U64_MAX && SatAdd(s.used, n) <= s.cap
    requires Reaches(Granted(s, tag, n), rest, u)
    ensures Reaches(s, Reserve(t, tag, n) + rest, u)
  {
    hide Reaches, Apply, Enabled, Granted, SatAdd, Go;
    TakeSteps(s, t, tag, n);
    RecordStep(s, t, tag, n);
    var s1, s2 := Go(s, t, Reserving(tag, n)), Go(s, t, Loaded(tag, n, s.used));
    var s3 := Go(s.(used := SatAdd(s.used, n)), t, Reserved(tag, n));
    Follow(s3, Record(t), rest, Granted(s, tag, n), u);
    Follow(s2, Swap(t), [Record(t)] + rest, s3, u);
    Follow(s1, Load(t), [Swap(t)] + ([Record(t)] + rest), s2, u);
    Follow(s, Begin(t, tag, n), [Load(t)] + ([Swap(t)] + ([Record(t)] + rest)), s1, u);
    assert Reserve(t, tag, n) + rest == [Begin(t, tag, n)] + ([Load(t)] + ([Swap(t)] + ([Record(t)] + rest)));
  }

  /** At the largest cap a sum need not fit: it saturates, the reservation is granted all the same, and the
      labels then claim more than `used`. */
  lemma SaturatedReservation() returns (run: seq<Action>, t: State)
    ensures Reaches(Init(U64_MAX, 1), run, t) && Quiet(t)
    ensures t.used == U64_MAX && t.labels == map["a" := I64_MAX, "b" := I64_MAX, "c" := 2]
  {
    hide Reaches;
    var s0 := Init(U64_MAX, 1);
    assert s0.threads == [Idle];
    var s1 := Granted(s0, "a", I64_MAX);
    var s2 := Granted(s1, "b", I64_MAX);
    var s3 := Granted(s2, "c", 2);
    run := Reserve(0, "a", I64_MAX) + (Reserve(0, "b", I64_MAX) + Reserve(0, "c", 2));
    NoActions(s3);
    ReserveReaches(s2, 0, "c", 2, [], s3);
    assert Reserve(0, "c", 2) + [] == Reserve(0, "c", 2);
    ReserveReaches(s1, 0, "b", I64_MAX, Reserve(0, "c", 2), s3);
    ReserveReaches(s0, 0, "a", I64_MAX, Reserve(0, "b", I64_MAX) + Reserve(0, "c", 2), s3);
    t := s3;
  }

  lemma NoActions(s: State)
    ensures Reaches(s, [], s)
  {
  }

  function Half(): Pc {
    Released("a", I64_MAX)
  }

  function Wrapped(used: nat, count: nat, held: nat, threads: seq<Pc>): State {
    State(I64_MAX, used, map["a" := count], map["a" := held], threads)
  }

  /** The second halves of two releases, after the label has wrapped. */
  lemma FinishBoth() returns (run: seq<Action>)
    ensures Reaches(Wrapped(I64_MAX, I64_MAX - 2, I64_MAX, [Half(), Half(), Idle]), run,
                    Wrapped(I64_MAX, 0, I64_MAX, [Idle, Idle, Idle]))
  {
    var s0 := Wrapped(I64_MAX, I64_MAX - 2, I64_MAX, [Half(), Half(), Idle]);
    var s1 := Wrapped(I64_MAX, 0, I64_MAX, [Idle, Half(), Idle]);
    var s2 := Wrapped(I64_MAX, 0, I64_MAX, [Idle, Idle, Idle]);
    NoActions(s2);
    Follow(s1, Finish(1), [], s2, s2);
    Follow(s0, Finish(0), [Finish(1)] + [], s1, s2);
    run := [Finish(0)] + ([Finish(1)] + []);
  }

  lemma GrantedWrapped(count: nat, threads: seq<Pc>)
    ensures Granted(Wrapped(0, count, 0, threads), "a", I64_MAX) ==
            Wrapped(I64_MAX, (count + I64_MAX) % (U64_MAX + 1), I64_MAX, threads)
  {
    assert map["a" := count]["a" := (count + I64_MAX) % (U64_MAX + 1)] == map["a" := (count + I64_MAX) % (U64_MAX + 1)];
    assert map["a" := 0]["a" := I64_MAX] == map["a" := I64_MAX];
  }

  lemma HalfReleased(count: nat, threads: seq<Pc>, t: nat)
    requires t < |threads| && threads[t].Idle?
    ensures var s := Wrapped(I64_MAX, count, I64_MAX, threads);
            Enabled(s, Release(t, "a", I64_MAX))
            && Apply(s, Release(t, "a", I64_MAX)) == Wrapped(0, count, 0, threads[t := Half()])
  {
    assert map["a" := I64_MAX]["a" := 0] == map["a" := 0];
  }

  /** Thread `t` reserves and begins to release. */
  lemma ReserveAndHalf(count: nat, threads: seq<Pc>, t: nat, rest: seq<Action>, u: State) returns (run: seq<Action>)
    requires t < |threads| && threads[t].Idle?
    requires Reaches(Wrapped(0, (count + I64_MAX) % (U64_MAX + 1), 0, threads[t := Half()]), rest, u)
    ensures Reaches(Wrapped(0, count, 0, threads), run, u)
  {
    hide Reaches, Apply, Enabled;
    GrantedWrapped(count, threads);
    HalfReleased((count + I64_MAX) % (U64_MAX + 1), threads, t);
    var s := Wrapped(0, count, 0, threads);
    Follow(Granted(s, "a", I64_MAX), Release(t, "a", I64_MAX), rest,
           Wrapped(0, (count + I64_MAX) % (U64_MAX + 1), 0, threads[t := Half()]), u);
    ReserveReaches(s, t, "a", I64_MAX, [Release(t, "a", I64_MAX)] + rest, u);
    run := Reserve(t, "a", I64_MAX) + ([Release(t, "a", I64_MAX)] + rest);
  }

  lemma FirstGranted()
    ensures Init(I64_MAX, 3).threads == [Idle, Idle, Idle]
    ensures Granted(Init(I64_MAX, 3), "a", I64_MAX) == Wrapped(I64_MAX, I64_MAX, I64_MAX, [Idle, Idle, Idle])
  {
  }

  /** Below it, a label's count can wrap while releases are between their halves: three threads reserve and
      two of them release under one label, and its count ends at zero with `used` at the cap. */
  lemma WrappedLabel() returns (run: seq<Action>, t: State)
    ensures Reaches(Init(I64_MAX, 3), run, t) && Quiet(t)
    ensures t.used == I64_MAX && t.labels == map["a" := 0] && t.held == map["a" := I64_MAX]
  {
    hide Reaches, Apply, Enabled;
    var m, idle := I64_MAX, [Idle, Idle, Idle];
    t := Wrapped(m, 0, m, idle);
    var r := FinishBoth();
    GrantedWrapped(2 * m, [Half(), Half(), Idle]);
    ReserveReaches(Wrapped(0, 2 * m, 0, [Half(), Half(), Idle]), 2, "a", m, r, t);
    r := Reserve(2, "a", m) + r;
    assert [Half(), Idle, Idle][1 := Half()] == [Half(), Half(), Idle] && idle[0 := Half()] == [Half(), Idle, Idle];
    r := ReserveAndHalf(m, [Half(), Idle, Idle], 1, r, t);
    HalfReleased(m, idle, 0);
    Follow(Wrapped(m, m, m, idle), Release(0, "a", m), r, Wrapped(0, m, 0, [Half(), Idle, Idle]), t);
    FirstGranted();
    ReserveReaches(Init(m, 3), 0, "a", m, [Release(0, "a", m)] + r, t);
    run := Reserve(0, "a", m) + ([Release(0, "a", m)] + r);
  }
}
