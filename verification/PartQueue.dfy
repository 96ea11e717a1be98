/** The bounded queue of `src/prefetcher.rs`: what `push` and `pop` do to it as functions on its
    contents, and the object whose methods do that in place. */
module PartQueue {
  import opened Wrappers
  import opened Crc32c
  import opened Sums

  datatype Part = Part(offset: nat, data: seq<byte>) {
    function End(): nat {
      offset + |data|
    }
    predicate Covers(o: nat) {
      offset <= o < End()
    }
  }

  datatype Queue = Queue(parts: seq<Part>, maxBytes: nat, currentBytes: nat,
                         finished: bool, error: bool, cancelled: bool)

  datatype PushOutcome = Pushed | Cancelled | Full | Overlap(backEnd: nat)

  predicate IsTerminal(q: Queue) {
    q.finished || q.error || q.cancelled
  }

  predicate IsFullFor(q: Queue, len: nat) {
    q.currentBytes + len > q.maxBytes
  }

  /** The outcome of `push`; only `Pushed` changes the queue. */
  function PushOutcomeOf(q: Queue, part: Part): PushOutcome {
    if IsTerminal(q) then Cancelled
    else if IsFullFor(q, |part.data|) then Full
    else if q.parts != [] && part.offset < q.parts[|q.parts| - 1].End() then
      Overlap(q.parts[|q.parts| - 1].End())
    else Pushed
  }

  function AfterPush(q: Queue, part: Part): Queue {
    if PushOutcomeOf(q, part) == Pushed then
      q.(parts := q.parts + [part], currentBytes := q.currentBytes + |part.data|)
    else q
  }

  /** How many parts `pop(o)` finds stale: the leading ones that end at or before `o`. */
  function Stale(parts: seq<Part>, o: nat): (n: nat)
    ensures n <= |parts|
  {
    if parts != [] && parts[0].End() <= o then 1 + Stale(parts[1..], o) else 0
  }

  function PopResult(q: Queue, o: nat): Option<Part> {
    var n := Stale(q.parts, o);
    if n < |q.parts| && q.parts[n].Covers(o) then Some(q.parts[n]) else None
  }

  function Length(): Part -> nat {
    (p: Part) => |p.data|
  }

  function SumLen(parts: seq<Part>): nat {
    Sum(parts, Length())
  }

  function AfterPop(q: Queue, o: nat): Queue {
    var n := Stale(q.parts, o);
    var kept := if PopResult(q, o).Some? then q.parts[n + 1..] else q.parts[n..];
    q.(parts := kept, currentBytes := SumLen(kept))
  }

  /** Parts in order and disjoint, the counter right, the bound kept. */
  ghost predicate WellFormed(q: Queue) {
    && (forall i, j :: 0 <= i < j < |q.parts| ==> q.parts[i].End() <= q.parts[j].offset)
    && q.currentBytes == SumLen(q.parts) && q.currentBytes <= q.maxBytes
  }

  lemma SumLenSuffix(parts: seq<Part>, n: nat)
    requires n <= |parts|
    ensures SumLen(parts[n..]) <= SumLen(parts)
    ensures n < |parts| ==> SumLen(parts[n..]) == |parts[n].data| + SumLen(parts[n + 1..])
  {
    assert parts == parts[..n] + parts[n..];
    SumConcat(parts[..n], parts[n..], Length());
    assert n < |parts| ==> parts[n..][1..] == parts[n + 1..];
  }

  lemma PushKeepsWellFormed(q: Queue, part: Part)
    requires WellFormed(q)
    ensures WellFormed(AfterPush(q, part))
  {
    SumAppend(q.parts, part, Length());
    if PushOutcomeOf(q, part) == Pushed && q.parts != [] {
      assert forall i :: 0 <= i < |q.parts| ==> q.parts[i].End() <= q.parts[|q.parts| - 1].End();
    }
  }

  function Suffix(q: Queue, n: nat): Queue
    requires n <= |q.parts|
  {
    q.(parts := q.parts[n..], currentBytes := SumLen(q.parts[n..]))
  }

  lemma SuffixWellFormed(q: Queue, n: nat)
    requires WellFormed(q) && n <= |q.parts|
    ensures WellFormed(Suffix(q, n))
  {
    SumLenSuffix(q.parts, n);
    hide SumLen;
    var kept := q.parts[n..];
    forall i, j | 0 <= i < j < |kept| ensures kept[i].End() <= kept[j].offset {
      assert kept[i] == q.parts[n + i] && kept[j] == q.parts[n + j];
    }
  }

  lemma PopKeepsWellFormed(q: Queue, o: nat)
    requires WellFormed(q)
    ensures WellFormed(AfterPop(q, o))
  {
    hide WellFormed, SumLen, Stale;
    var n := Stale(q.parts, o);
    SuffixWellFormed(q, n);
    if PopResult(q, o).Some? {
      SuffixWellFormed(q, n + 1);
    }
  }

  lemma {:induction false} StaleAreBefore(parts: seq<Part>, o: nat)
    ensures var n := Stale(parts, o);
            && (forall i :: 0 <= i < n ==> parts[i].End() <= o)
            && (n < |parts| ==> o < parts[n].End())
  {
    if parts != [] && parts[0].End() <= o {
      StaleAreBefore(parts[1..], o);
      forall i | 0 < i < Stale(parts, o) ensures parts[i].End() <= o {
        assert parts[i] == parts[1..][i - 1];
      }
    }
  }

  /** `pop(o)` finds a part exactly when some queued part covers `o`, and it is the only one that
      does. Besides it, only parts that end at or before `o` leave the queue. */
  lemma PopFindsExactly(q: Queue, o: nat)
    requires WellFormed(q)
    ensures PopResult(q, o).Some? <==> exists i :: 0 <= i < |q.parts| && q.parts[i].Covers(o)
    ensures forall i :: 0 <= i < |q.parts| && q.parts[i].Covers(o) ==> PopResult(q, o) == Some(q.parts[i])
    ensures forall p :: p in q.parts && p !in AfterPop(q, o).parts ==> p.End() <= o || PopResult(q, o) == Some(p)
    ensures forall p :: p in AfterPop(q, o).parts ==> p in q.parts
  {
    var n := Stale(q.parts, o);
    StaleAreBefore(q.parts, o);
    assert forall i :: 0 <= i < |q.parts| && q.parts[i].Covers(o) ==> i == n;
    forall i | n < i < |q.parts| ensures q.parts[i] in AfterPop(q, o).parts {
      assert q.parts[i] == q.parts[n + 1..][i - (n + 1)] == q.parts[n..][i - n];
    }
    assert n < |q.parts| ==> q.parts[n] == q.parts[n..][0];
  }

  /** A part leaves the queue exactly at a `pop` at or past its start. */
  lemma PopKeepsExactly(q: Queue, o: nat, p: Part)
    requires WellFormed(q) && p in q.parts
    ensures p in AfterPop(q, o).parts <==> o < p.offset
  {
    if o < p.offset {
      PopFindsExactly(q, o);
      hide WellFormed, SumLen, Stale;
    } else {
      KeptAreAhead(q, o);
    }
  }

  lemma KeptAreAhead(q: Queue, o: nat)
    requires WellFormed(q)
    ensures forall p :: p in AfterPop(q, o).parts ==> o < p.offset
  {
    StaleAreBefore(q.parts, o);
    hide SumLen, Stale;
    var n := Stale(q.parts, o);
    forall p | p in AfterPop(q, o).parts ensures o < p.offset {
      var i :| n <= i < |q.parts| && q.parts[i] == p && (i == n ==> !p.Covers(o));
    }
  }

  /** A part is taken exactly when the queue is open, has room for it and ends before it; an overlap is
      reported with the end of what is queued; and any other outcome leaves the queue alone. */
  lemma PushTakesExactly(q: Queue, part: Part)
    requires WellFormed(q)
    ensures PushOutcomeOf(q, part) == Pushed <==>
            && !IsTerminal(q) && SumLen(q.parts) + |part.data| <= q.maxBytes
            && forall p :: p in q.parts ==> p.End() <= part.offset
    ensures PushOutcomeOf(q, part).Overlap? ==>
              var e := PushOutcomeOf(q, part).backEnd;
              part.offset < e && (exists p :: p in q.parts && p.End() == e) && forall p :: p in q.parts ==> p.End() <= e
    ensures PushOutcomeOf(q, part) != Pushed ==> AfterPush(q, part) == q
    ensures PushOutcomeOf(q, part) == Pushed ==> AfterPush(q, part).parts == q.parts + [part]
  {
    hide SumLen;
    if q.parts != [] {
      var last := q.parts[|q.parts| - 1];
      assert last in q.parts;
      forall p | p in q.parts ensures p.End() <= last.End() {
        var i :| 0 <= i < |q.parts| && q.parts[i] == p;
      }
    }
  }

  /** What `push` stores, `pop` finds: after a push that succeeds, that very part at every offset it covers, and
      at every other offset what was found before. */
  lemma PushThenPop(q: Queue, part: Part, o: nat)
    requires WellFormed(q)
    ensures PopResult(AfterPush(q, part), o) ==
            if PushOutcomeOf(q, part) == Pushed && part.Covers(o) then Some(part) else PopResult(q, o)
  {
    PushKeepsWellFormed(q, part);
    PushTakesExactly(q, part);
    hide WellFormed, SumLen, AfterPush, PushOutcomeOf;
    if PushOutcomeOf(q, part) == Pushed {
      OneMorePart(q, AfterPush(q, part), part, o);
    }
  }

  lemma OneMorePart(q: Queue, q': Queue, part: Part, o: nat)
    requires WellFormed(q) && WellFormed(q') && q'.parts == q.parts + [part]
    ensures PopResult(q', o) == if part.Covers(o) then Some(part) else PopResult(q, o)
  {
    PopFindsExactly(q, o);
    PopFindsExactly(q', o);
    hide WellFormed, SumLen, AfterPop, PopResult;
    if part.Covers(o) {
      assert q'.parts[|q.parts|] == part;
    } else if PopResult(q', o).Some? {
      var i :| 0 <= i < |q'.parts| && q'.parts[i].Covers(o);
      assert q.parts[i].Covers(o);
    }
  }

  lemma SumLenFront(parts: seq<Part>)
    requires parts != []
    ensures SumLen(parts) == |parts[0].data| + SumLen(parts[1..])
  {
    SumRest(parts, Length());
  }

  /** What `pop` does, by cases on the front of the queue. */
  lemma PopByFront(q: Queue, o: nat)
    requires q.currentBytes == SumLen(q.parts)
    ensures q.parts == [] || o < q.parts[0].offset ==> PopResult(q, o) == None && AfterPop(q, o) == q
    ensures q.parts != [] && q.parts[0].Covers(o) ==>
              PopResult(q, o) == Some(q.parts[0]) && AfterPop(q, o) == Suffix(q, 1)
    ensures q.parts != [] && q.parts[0].End() <= o ==>
              PopResult(q, o) == PopResult(Suffix(q, 1), o) && AfterPop(q, o) == AfterPop(Suffix(q, 1), o)
  {
    hide SumLen;
    if q.parts != [] && q.parts[0].End() <= o {
      PopPastFront(q, o);
      hide PopResult, AfterPop;
    } else {
      assert Stale(q.parts, o) == 0;
      hide Stale;
      assert q.parts[0..] == q.parts;
    }
  }

  lemma PopPastFront(q: Queue, o: nat)
    requires q.parts != [] && q.parts[0].End() <= o
    ensures PopResult(q, o) == PopResult(Suffix(q, 1), o) && AfterPop(q, o) == AfterPop(Suffix(q, 1), o)
  {
    FrontIsStale(q.parts, o);
    hide Stale, SumLen;
  }

  lemma FrontIsStale(parts: seq<Part>, o: nat)
    requires parts != [] && parts[0].End() <= o
    ensures var n := Stale(parts, o);
            && n == 1 + Stale(parts[1..], o) && parts[n..] == parts[1..][n - 1..]
            && (n < |parts| ==> parts[n] == parts[1..][n - 1] && parts[n + 1..] == parts[1..][n..])
  {
  }

  /** The queue as the object the producer and its readers share. */
  class PartQueue {
    const maxBytes: nat
    var parts: seq<Part>
    var currentBytes: nat
    var finished: bool
    var error: bool
    var cancelled: bool

    ghost function View(): Queue
      reads this
    {
      Queue(parts, maxBytes, currentBytes, finished, error, cancelled)
    }

    ghost predicate Valid()
      reads this
    {
      WellFormed(View())
    }

    constructor (limit: nat)
      ensures Valid() && View() == Queue([], limit, 0, false, false, false)
    {
      maxBytes := limit;
      parts, currentBytes, finished, error, cancelled := [], 0, false, false, false;
    }

    method Push(part: Part) returns (r: PushOutcome)
      requires Valid()
      modifies this`parts, this`currentBytes
      ensures Valid() && r == PushOutcomeOf(old(View()), part) && View() == AfterPush(old(View()), part)
    {
      PushKeepsWellFormed(View(), part);
      if finished || error || cancelled {
        return Cancelled;
      }
      if currentBytes + |part.data| > maxBytes {
        return Full;
      }
      if parts != [] {
        var back := parts[|parts| - 1];
        var backEnd := back.offset + |back.data|;
        if part.offset < backEnd {
          return Overlap(backEnd);
        }
      }
      parts := parts + [part];
      currentBytes := currentBytes + |parts[|parts| - 1].data|;
      return Pushed;
    }

    method Pop(o: nat) returns (r: Option<Part>)
      requires Valid()
      modifies this`parts, this`currentBytes
      ensures Valid() && r == PopResult(old(View()), o) && View() == AfterPop(old(View()), o)
    {
      PopKeepsWellFormed(View(), o);
      assert currentBytes == SumLen(parts);
      hide WellFormed, PopResult, AfterPop, SumLen;
      while parts != []
        invariant currentBytes == SumLen(parts)
        invariant PopResult(View(), o) == PopResult(old(View()), o)
        invariant AfterPop(View(), o) == AfterPop(old(View()), o)
        decreases |parts|
      {
        PopByFront(View(), o);
        SumLenFront(parts);
        var front := parts[0];
        if front.offset <= o && o < front.offset + |front.data| {
          parts := parts[1..];
          currentBytes := currentBytes - |front.data|;
          return Some(front);
        }
        if front.offset + |front.data| <= o {
          parts := parts[1..];
          currentBytes := currentBytes - |front.data|;
        } else {
          break;
        }
      }
      PopByFront(View(), o);
      return None;
    }
  }
}
