/** The write-behind deleter of `src/concurrent_delete.rs` as a transition system. Pump tasks share a
    pending queue; each has a ledger, a retry loop and a barrier acknowledgement. Every step is one
    lock-protected region or one atomic operation, and any step may follow any other. */
module DeletePump {

  type Path = string

  datatype Job = Job(id: nat, path: Path)

  datatype Answer = Deleted | Failed | Cancelled | Lost

  datatype Reply = Reply(id: nat, answer: Answer)

  /** Where a pump task is. `sent` in `Hand`: the key is in opendal's buffer. `cleared` in `Acking`:
      the tombstone of the first job is gone. */
  datatype Pc =
    | Drain
    | Hand(job: Job, sent: bool)
    | Check
    | FlushTop(attempt: nat)
    | Closing(batch: seq<Job>, attempt: nat)
    | Acking(batch: seq<Job>, ok: bool, cleared: bool)
    | Load
    | Loaded(seen: nat)
    | Sleep

  /** `buffer` is what opendal's deleter holds for this slot. */
  datatype Slot = Slot(pc: Pc, ledger: seq<Job>, ack: nat, buffer: set<Path>)

  /** A `flush` call: it looks at the slots one by one, from the first again if one lags. */
  datatype Flusher = Waiting(target: nat, at: nat) | Returned(target: nat, ok: bool)

  /** A `cancel_pending` call: the pending queue, then each ledger, then the tombstone. */
  datatype Cancel = Cancel(path: Path, at: nat)

  /** The part of `shutdown` that fails the jobs of slot `at`, with the jobs it holds. */
  datatype Down = Down(at: nat, stage: Stage, jobs: seq<Job>, lost: nat)

  datatype Stage = CloseBuffer | TakePending | TakeLedger | Failing(cleared: bool)

  /** An `enqueue` that has seen the pump accepting; `marks`: `unlink` inserts a tombstone. */
  datatype Request = Request(path: Path, marks: bool)

  datatype Tally = Tally(keys: nat, failures: nat, lost: nat, deleteErrors: nat)

  /** `atomicUnlink`: the tombstone is inserted in the same step as the push; otherwise it waits in
      `unmarked`. `log` and `deleteErrors` only record what happened. */
  datatype State = State(
    slots: seq<Slot>, pending: seq<Job>, downs: seq<Down>, log: seq<Reply>, next: nat,
    cancels: seq<Cancel>, tombs: set<Path>, epoch: nat, flushers: seq<Flusher>, tally: Tally,
    accepting: bool, entering: seq<Request>, unmarked: seq<Path>, backend: set<Path>,
    maxRetries: nat, atomicUnlink: bool)

  datatype Action =
    // callers
    | Admit(p: Path, marks: bool)
    | Push(k: nat)
    | Mark(k: nat)
    | Create(p: Path)
    // pump i
    | Take(i: nat)
    | DrainDone(i: nat)
    | Delete(i: nat, err: bool, sent: set<Path>)   // `sent`: what an automatic flush sends
    | Record(i: nat)
    | CheckLedger(i: nat)
    | TakeBatch(i: nat)
    | CloseOk(i: nat)
    | CloseErr(i: nat, landed: set<Path>)
    | ClearTomb(i: nat)
    | Answer(i: nat)
    | AckDone(i: nat)
    | LoadEpoch(i: nat)
    | StoreAck(i: nat)
    | Wake(i: nat)
    // flush
    | StartFlush
    | CheckAck(f: nat)
    | TimeOut(f: nat)
    // cancel_pending
    | StartCancel(p: Path)
    | Scan(c: nat)
    // shutdown
    | StartShutdown
    | DownStep(d: nat, closed: set<Path>)   // `closed`: the buffered keys a best-effort close sends

  predicate OnSlot(a: Action) {
    || a.Take? || a.DrainDone? || a.Delete? || a.Record? || a.CheckLedger? || a.TakeBatch? || a.CloseOk?
    || a.CloseErr? || a.ClearTomb? || a.Answer? || a.AckDone? || a.LoadEpoch? || a.StoreAck? || a.Wake?
  }

  /** A step of the pump at `x`; `empty`: nothing is pending. */
  predicate SlotEnabled(x: Slot, empty: bool, a: Action)
    requires OnSlot(a)
  {
    match a
    case Take(_) => x.pc.Drain? && !empty
    case DrainDone(_) => x.pc.Drain? && empty
    case Delete(_, _, sent) => x.pc.Hand? && !x.pc.sent && sent <= x.buffer + {x.pc.job.path}
    case Record(_) => x.pc.Hand? && x.pc.sent
    case CheckLedger(_) => x.pc.Check?
    case TakeBatch(_) => x.pc.FlushTop?
    case CloseOk(_) => x.pc.Closing?
    case CloseErr(_, landed) => x.pc.Closing? && landed <= x.buffer
    case ClearTomb(_) => x.pc.Acking? && x.pc.batch != [] && !x.pc.cleared
    case Answer(_) => x.pc.Acking? && x.pc.batch != [] && x.pc.cleared
    case AckDone(_) => x.pc.Acking? && x.pc.batch == []
    case LoadEpoch(_) => x.pc.Load?
    case StoreAck(_) => x.pc.Loaded?
    case Wake(_) => x.pc.Sleep?
  }

  predicate Enabled(s: State, a: Action) {
    if OnSlot(a) then a.i < |s.slots| && SlotEnabled(s.slots[a.i], s.pending == [], a)
    else
      match a
      case Admit(_, _) => s.accepting
      case Push(k) => k < |s.entering|
      case Mark(k) => k < |s.unmarked|
      case CheckAck(f) => f < |s.flushers| && s.flushers[f].Waiting?
      case TimeOut(f) => f < |s.flushers| && s.flushers[f].Waiting?
      case Scan(c) => c < |s.cancels|
      case DownStep(d, closed) => d < |s.downs| && s.downs[d].at < |s.slots| && FailEnabled(s, d, closed)
      case _ => true
  }

  /** The best-effort close waits for the slot's deleter, which its pump holds until it has recorded
      the key it sent. */
  predicate FailEnabled(s: State, d: nat, closed: set<Path>)
    requires d < |s.downs| && s.downs[d].at < |s.slots|
  {
    var x := s.slots[s.downs[d].at];
    s.downs[d].stage.CloseBuffer? ==> closed <= x.buffer && !(x.pc.Hand? && x.pc.sent)
  }

  function Max(a: nat, b: nat): nat {
    if a < b then b else a
  }

  /** The pump after its step. */
  function SlotNext(x: Slot, pending: seq<Job>, epoch: nat, maxRetries: nat, a: Action): Slot
    requires OnSlot(a) && SlotEnabled(x, pending == [], a)
  {
    match a
    case Take(_) => x.(pc := Hand(pending[0], false))
    case DrainDone(_) => x.(pc := Check)
    case Delete(_, _, sent) =>
      x.(pc := Hand(x.pc.job, true), buffer := x.buffer + {x.pc.job.path} - sent)
    case Record(_) => x.(pc := Drain, ledger := x.ledger + [x.pc.job])
    case CheckLedger(_) => x.(pc := if x.ledger == [] then Load else FlushTop(0))
    case TakeBatch(_) =>
      if x.ledger == [] then x.(pc := Load) else x.(pc := Closing(x.ledger, x.pc.attempt), ledger := [])
    case CloseOk(_) => x.(pc := Acking(x.pc.batch, true, false), buffer := {})
    case CloseErr(_, landed) =>
      if x.pc.attempt < maxRetries then
        x.(pc := FlushTop(x.pc.attempt + 1), ledger := x.ledger + x.pc.batch, buffer := x.buffer - landed)
      else x.(pc := Acking(x.pc.batch, false, false), buffer := x.buffer - landed)
    case ClearTomb(_) => x.(pc := Acking(x.pc.batch, x.pc.ok, true))
    case Answer(_) => x.(pc := Acking(x.pc.batch[1..], x.pc.ok, false))
    case AckDone(_) => x.(pc := Load)
    case LoadEpoch(_) => x.(pc := Loaded(epoch))
    case StoreAck(_) => x.(pc := Sleep, ack := Max(x.ack, x.pc.seen))
    case Wake(_) => x.(pc := Drain)
  }

  /** Keys a step sends to the backend. */
  function SentBy(x: Slot, a: Action): set<Path> {
    if a.Delete? then a.sent
    else if a.CloseOk? then x.buffer
    else if a.CloseErr? then a.landed
    else {}
  }

  function Tallied(t: Tally, x: Slot, maxRetries: nat, a: Action): Tally {
    if a.Delete? && a.err then t.(failures := t.failures + 1, deleteErrors := t.deleteErrors + 1)
    else if a.CloseOk? && x.pc.Closing? then t.(keys := t.keys + |x.pc.batch|)
    else if a.CloseErr? && x.pc.Closing? && x.pc.attempt >= maxRetries then
      t.(failures := t.failures + |x.pc.batch|)
    else t
  }

  function SlotStep(s: State, a: Action): State
    requires OnSlot(a) && Enabled(s, a)
  {
    var x := s.slots[a.i];
    s.(slots := s.slots[a.i := SlotNext(x, s.pending, s.epoch, s.maxRetries, a)],
       pending := if a.Take? then s.pending[1..] else s.pending,
       log := if a.Answer? then s.log + [Reply(x.pc.batch[0].id, if x.pc.ok then Deleted else Failed)] else s.log,
       tombs := if a.ClearTomb? then s.tombs - {x.pc.batch[0].path} else s.tombs,
       tally := Tallied(s.tally, x, s.maxRetries, a),
       backend := s.backend - SentBy(x, a))
  }

  function Keeping(jobs: seq<Job>, p: Path): seq<Job> {
    if jobs == [] then []
    else if jobs[0].path == p then Keeping(jobs[1..], p)
    else [jobs[0]] + Keeping(jobs[1..], p)
  }

  function Matching(jobs: seq<Job>, p: Path): seq<Job> {
    if jobs == [] then []
    else if jobs[0].path == p then [jobs[0]] + Matching(jobs[1..], p)
    else Matching(jobs[1..], p)
  }

  function Replies(jobs: seq<Job>, a: Answer): seq<Reply> {
    if jobs == [] then [] else [Reply(jobs[0].id, a)] + Replies(jobs[1..], a)
  }

  /** One lock region of `cancel_pending`. */
  function ScanStep(s: State, c: nat): State
    requires c < |s.cancels|
  {
    var k := s.cancels[c];
    if k.at == 0 then
      s.(cancels := s.cancels[c := k.(at := 1)], pending := Keeping(s.pending, k.path),
         log := s.log + Replies(Matching(s.pending, k.path), Cancelled))
    else if k.at <= |s.slots| then
      var x := s.slots[k.at - 1];
      s.(cancels := s.cancels[c := k.(at := k.at + 1)],
         slots := s.slots[k.at - 1 := x.(ledger := Keeping(x.ledger, k.path))],
         log := s.log + Replies(Matching(x.ledger, k.path), Cancelled))
    else s.(cancels := s.cancels[..c] + s.cancels[c + 1..], tombs := s.tombs - {k.path})
  }

  /** One region of `fail_all_pending`, or the move to the next slot. */
  function FailStep(s: State, d: nat, closed: set<Path>): State
    requires d < |s.downs| && s.downs[d].at < |s.slots|
  {
    var w := s.downs[d];
    var x := s.slots[w.at];
    match w.stage
    case CloseBuffer =>
      s.(downs := s.downs[d := w.(stage := TakePending)],
         slots := s.slots[w.at := x.(buffer := x.buffer - closed)], backend := s.backend - closed)
    case TakePending =>
      s.(downs := s.downs[d := w.(stage := TakeLedger, jobs := s.pending)], pending := [])
    case TakeLedger =>
      s.(downs := s.downs[d := w.(stage := Failing(false), jobs := w.jobs + x.ledger)],
         slots := s.slots[w.at := x.(ledger := [])])
    case Failing(cleared) =>
      if w.jobs == [] then
        s.(downs := s.downs[d := Down(w.at + 1, CloseBuffer, [], 0)],
           tally := s.tally.(lost := s.tally.lost + w.lost))
      else if !cleared then
        s.(downs := s.downs[d := w.(stage := Failing(true))], tombs := s.tombs - {w.jobs[0].path})
      else
        s.(downs := s.downs[d := w.(stage := Failing(false), jobs := w.jobs[1..], lost := w.lost + 1)],
           log := s.log + [Reply(w.jobs[0].id, Lost)])
  }

  function CheckStep(s: State, f: nat): State
    requires f < |s.flushers| && s.flushers[f].Waiting?
  {
    var w := s.flushers[f];
    s.(flushers := s.flushers[f :=
         if w.at >= |s.slots| then Returned(w.target, true)
         else if s.slots[w.at].ack >= w.target then w.(at := w.at + 1)
         else w.(at := 0)])
  }

  function PushStep(s: State, k: nat): State
    requires k < |s.entering|
  {
    var r := s.entering[k];
    s.(entering := s.entering[..k] + s.entering[k + 1..],
       pending := s.pending + [Job(s.next, r.path)], next := s.next + 1,
       tombs := if r.marks && s.atomicUnlink then s.tombs + {r.path} else s.tombs,
       unmarked := if r.marks && !s.atomicUnlink then s.unmarked + [r.path] else s.unmarked)
  }

  function Apply(s: State, a: Action): State
    requires Enabled(s, a)
  {
    if OnSlot(a) then SlotStep(s, a)
    else
      match a
      case Admit(p, marks) => s.(entering := s.entering + [Request(p, marks)])
      case Push(k) => PushStep(s, k)
      case Mark(k) =>
        s.(unmarked := s.unmarked[..k] + s.unmarked[k + 1..], tombs := s.tombs + {s.unmarked[k]})
      case Create(p) => s.(backend := s.backend + {p})
      case StartFlush => s.(epoch := s.epoch + 1, flushers := s.flushers + [Waiting(s.epoch + 1, 0)])
      case CheckAck(f) => CheckStep(s, f)
      case TimeOut(f) => s.(flushers := s.flushers[f := Returned(s.flushers[f].target, false)])
      case StartCancel(p) => s.(cancels := s.cancels + [Cancel(p, 0)])
      case Scan(c) => ScanStep(s, c)
      case StartShutdown => s.(accepting := false, downs := s.downs + [Down(0, CloseBuffer, [], 0)])
      case DownStep(d, closed) => FailStep(s, d, closed)
      case _ => s
  }

  /** At least one pump, all at the top of their loops. */
  function Init(workers: nat, maxRetries: nat, atomicUnlink: bool): State {
    State(seq(Max(workers, 1), i => Slot(Drain, [], 0, {})), [], [], [], 0, [], {}, 0, [], Tally(0, 0, 0, 0),
          true, [], [], {}, maxRetries, atomicUnlink)
  }

  ghost predicate Reaches(s: State, run: seq<Action>, t: State)
    decreases |run|
  {
    if run == [] then s == t else Enabled(s, run[0]) && Reaches(Apply(s, run[0]), run[1..], t)
  }
}
