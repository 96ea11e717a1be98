/** The generation table of `src/disk_write_pool.rs`: a block write queued by a read carries the
    generation its path had, every invalidation bumps the generation, and a job whose generation is
    no longer current is skipped. A full table is cleared. */
module PathGen {
  import opened Crc32c
  import opened Sums

  type Path = seq<byte>
  type Table = map<Path, nat>

  /** The generation is a u64 that wraps. */
  const WRAP: nat := 0x1_0000_0000_0000_0000
  const PATH_CACHE_GEN_HARD_CAP: nat := 100_000

  function Wrapped(n: nat): (r: nat)
    ensures r < WRAP && (n < WRAP ==> r == n)
  {
    n % WRAP
  }

  function GenOf(t: Table, p: Path): nat {
    if p in t then t[p] else 0
  }

  function Bumped(t: Table, p: Path, cap: nat): Table {
    if |t| < cap then t[p := if p in t then Wrapped(t[p] + 1) else 1] else map[p := 1]
  }

  ghost predicate InRange(t: Table) {
    forall p :: p in t ==> t[p] < WRAP
  }

  /** What a bump does to every path: its own generation moves unless the table is full and that
      generation is 1; another path's moves only when a full table is cleared under it. */
  lemma BumpMoves(t: Table, p: Path, q: Path, cap: nat)
    requires InRange(t)
    ensures InRange(Bumped(t, p, cap))
    ensures GenOf(Bumped(t, p, cap), q) == GenOf(t, q) <==>
            (if |t| < cap then q != p else if q == p then GenOf(t, p) == 1 else GenOf(t, q) == 0)
  {
  }

  // ----- Runs -----

  /** `since` and `cleared` record, for the proofs, the invalidations of the path and whether the
      table was cleared after the job was queued. */
  datatype Job = Job(path: Path, gen: nat, since: nat, cleared: bool)

  /** `bumps` counts the invalidations of each path since the table was last cleared and
      `invalidated` is every path ever invalidated; no step consults them. */
  datatype State = State(cap: nat, table: Table, jobs: seq<Job>, bumps: map<Path, nat>, invalidated: set<Path>)

  datatype Action = Invalidate(p: Path) | Submit(p: Path) | Execute(i: nat)

  predicate Enabled(s: State, a: Action) {
    a.Execute? ==> a.i < |s.jobs|
  }

  function Aged(j: Job, p: Path, clears: bool): Job {
    j.(since := j.since + (if j.path == p then 1 else 0), cleared := j.cleared || clears)
  }

  function Apply(s: State, a: Action): State
    requires Enabled(s, a)
  {
    match a
    case Invalidate(p) =>
      var clears := |s.table| >= s.cap;
      s.(table := Bumped(s.table, p, s.cap),
         jobs := seq(|s.jobs|, i requires 0 <= i < |s.jobs| => Aged(s.jobs[i], p, clears)),
         bumps := if clears then map[p := 1] else s.bumps[p := GenOf(s.bumps, p) + 1],
         invalidated := s.invalidated + {p})
    case Submit(p) => s.(jobs := s.jobs + [Job(p, GenOf(s.table, p), 0, false)])
    case Execute(i) => s.(jobs := s.jobs[..i] + s.jobs[i + 1..])
  }

  function Init(cap: nat): State {
    State(cap, map[], [], map[], {})
  }

  ghost predicate Reaches(s: State, run: seq<Action>, t: State)
    decreases |run|
  {
    if run == [] then s == t else Enabled(s, run[0]) && Reaches(Apply(s, run[0]), run[1..], t)
  }

  /** Executing the job writes its block. */
  predicate Performs(s: State, i: nat)
    requires i < |s.jobs|
  {
    GenOf(s.table, s.jobs[i].path) == s.jobs[i].gen
  }

  /** The generation of a path is the number of its invalidations since the last clear. */
  ghost predicate CountInv(s: State) {
    && s.bumps.Keys == s.table.Keys <= s.invalidated
    && InRange(s.table)
    && forall p :: p in s.table ==> s.table[p] == Wrapped(s.bumps[p])
  }

  ghost predicate JobOk(s: State, j: Job) {
    && j.gen < WRAP
    && (!j.cleared ==> GenOf(s.table, j.path) == Wrapped(j.gen + j.since))
    && (j.cleared ==> s.cap <= |s.invalidated|)
  }

  ghost predicate Inv(s: State) {
    CountInv(s) && forall j :: j in s.jobs ==> JobOk(s, j)
  }

  lemma Sub(a: set<Path>, b: set<Path>)
    requires a <= b
    ensures |a| <= |b|
  {
    assert b == a + (b - a);
  }

  lemma NextCount(n: nat)
    ensures Wrapped(Wrapped(n) + 1) == Wrapped(n + 1)
  {
  }

  lemma CountAfter(s: State, p: Path)
    requires CountInv(s)
    ensures CountInv(Apply(s, Invalidate(p)))
  {
    hide Wrapped;
    NextCount(GenOf(s.bumps, p));
  }

  /** A queued job after an invalidation. */
  lemma JobAfter(s: State, p: Path, i: nat)
    requires CountInv(s) && i < |s.jobs| && JobOk(s, s.jobs[i])
    ensures JobOk(Apply(s, Invalidate(p)), Aged(s.jobs[i], p, |s.table| >= s.cap))
  {
    hide Wrapped;
    var t, j := Apply(s, Invalidate(p)), s.jobs[i];
    NextCount(j.gen + j.since);
    Sub(s.table.Keys, t.invalidated);
    Sub(s.invalidated, t.invalidated);
  }

  lemma InvalidateInv(s: State, p: Path)
    requires Inv(s)
    ensures Inv(Apply(s, Invalidate(p)))
  {
    hide CountInv, JobOk, Aged;
    var t := Apply(s, Invalidate(p));
    CountAfter(s, p);
    forall j | j in t.jobs ensures JobOk(t, j) {
      var i :| 0 <= i < |t.jobs| && t.jobs[i] == j;
      JobAfter(s, p, i);
    }
  }

  lemma InvStep(s: State, a: Action)
    requires Inv(s) && Enabled(s, a)
    ensures Inv(Apply(s, a)) && Apply(s, a).cap == s.cap
  {
    var t := Apply(s, a);
    if a.Invalidate? {
      InvalidateInv(s, a.p);
    } else {
      forall j | j in t.jobs ensures JobOk(t, j) {
        assert j in s.jobs ==> JobOk(s, j);
      }
    }
  }

  lemma {:induction false} InvRun(s: State, run: seq<Action>, t: State)
    requires Inv(s) && Reaches(s, run, t)
    ensures Inv(t) && t.cap == s.cap
    decreases |run|
  {
    hide Inv, Apply, Enabled;
    if run != [] {
      InvStep(s, run[0]);
      InvRun(Apply(s, run[0]), run[1..], t);
    }
  }

  /** A job is performed exactly when its path's invalidations since the last clear agree, modulo
      2^64, with the generation it carries. */
  lemma PerformedExactly(cap: nat, run: seq<Action>, s: State, i: nat)
    requires Reaches(Init(cap), run, s) && i < |s.jobs|
    ensures Performs(s, i) <==> Wrapped(GenOf(s.bumps, s.jobs[i].path)) == s.jobs[i].gen
  {
    InvRun(Init(cap), run, s);
  }

  /** While fewer paths than the cap have ever been invalidated, a queued write is performed exactly
      when its path was not invalidated since, as long as that happened fewer than 2^64 times. */
  lemma GuardExact(cap: nat, run: seq<Action>, s: State, i: nat)
    requires Reaches(Init(cap), run, s) && i < |s.jobs|
    requires |s.invalidated| < cap || !s.jobs[i].cleared
    ensures Performs(s, i) <==> Wrapped(s.jobs[i].since) == 0
    ensures s.jobs[i].since < WRAP ==> (Performs(s, i) <==> s.jobs[i].since == 0)
  {
    hide Reaches, Wrapped;
    InvRun(Init(cap), run, s);
    assert JobOk(s, s.jobs[i]);
    SameModulo(s.jobs[i].gen, s.jobs[i].since);
  }

  lemma SameModulo(g: nat, n: nat)
    requires g < WRAP
    ensures Wrapped(g + n) == g <==> Wrapped(n) == 0
  {
  }

  function Submitted(): Action -> nat {
    (a: Action) => One(a.Submit?)
  }

  function Executed(): Action -> nat {
    (a: Action) => One(a.Execute?)
  }

  /** In every run each queued write is executed once: those executed and those still queued are all. */
  lemma {:induction false} EachJobOnce(s: State, run: seq<Action>, t: State)
    requires Reaches(s, run, t)
    ensures |t.jobs| + Sum(run, Executed()) == |s.jobs| + Sum(run, Submitted())
    decreases |run|
  {
    if run != [] {
      EachJobOnce(Apply(s, run[0]), run[1..], t);
    }
  }

  // ----- A full table lets a stale write through -----

  function Name(k: nat): (p: Path)
    ensures |p| == k
  {
    if k == 0 then [] else [0] + Name(k - 1)
  }

  /** A table of the first `n` names, each invalidated once. */
  ghost predicate Filled(t: Table, n: nat) {
    && |t| == n
    && forall p :: (p in t <==> |p| < n && p == Name(|p|)) && (p in t ==> t[p] == 1)
  }

  lemma FillOne(t: Table, n: nat, cap: nat)
    requires Filled(t, n) && n < cap
    ensures Filled(Bumped(t, Name(n), cap), n + 1)
  {
    hide Name;
    var t' := Bumped(t, Name(n), cap);
    assert Name(n) !in t;
    assert t'.Keys == t.Keys + {Name(n)};
    forall p ensures p in t' <==> |p| < n + 1 && p == Name(|p|) {
    }
  }

  lemma {:induction false} Fill(cap: nat, n: nat) returns (run: seq<Action>, s: State)
    requires n <= cap
    ensures Reaches(Init(cap), run, s) && s.cap == cap && s.jobs == [] && Filled(s.table, n)
  {
    hide Bumped, Name;
    if n == 0 {
      run, s := [], Init(cap);
    } else {
      var before, s' := Fill(cap, n - 1);
      FillOne(s'.table, n - 1, cap);
      hide Filled, Reaches;
      var a := Invalidate(Name(n - 1));
      s := Apply(s', a);
      run := before + [a];
      Extend(Init(cap), before, s', a);
    }
  }

  lemma {:induction false} Extend(s: State, run: seq<Action>, t: State, a: Action)
    requires Reaches(s, run, t) && Enabled(t, a)
    ensures Reaches(s, run + [a], Apply(t, a))
    decreases |run|
  {
    hide Apply, Enabled;
    if run == [] {
      assert [a][1..] == [];
    } else {
      assert (run + [a])[1..] == run[1..] + [a];
      Extend(Apply(s, run[0]), run[1..], t, a);
    }
  }

  /** For every cap: fill the table, queue a write for one of its paths and invalidate that path. The
      table is cleared, the path's generation is 1 again, and the stale write is performed. */
  lemma FullTableRevivesJob(cap: nat) returns (run: seq<Action>, s: State)
    requires cap > 0
    ensures Reaches(Init(cap), run, s) && |s.jobs| == 1
    ensures s.jobs[0].since == 1 && Performs(s, 0)
  {
    var fill, s0 := Fill(cap, cap);
    var p := Name(0);
    hide Reaches, Wrapped;
    var s1 := Apply(s0, Submit(p));
    s := Apply(s1, Invalidate(p));
    Extend(Init(cap), fill, s0, Submit(p));
    Extend(Init(cap), fill + [Submit(p)], s1, Invalidate(p));
    run := fill + [Submit(p)] + [Invalidate(p)];
  }
}
