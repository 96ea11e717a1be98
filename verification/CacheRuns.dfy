/** The two-level block cache as a transition system, each call split where another thread can come in: a
    read between its memory miss, its disk lookup and its backfill, a queued write between its generation
    check and its file, a fetched block between its file and its index entry, and an invalidation between
    memory, block files and generation. Paths have distinct inodes, so memory is keyed by path. `puts`
    only records. */
module CacheRuns {
  import opened BlockFormat
  import opened DiskCache
  import opened Sums
  import PathGen

  /** `bounded`: memory has a limit and evicts. */
  datatype Config = Config(codec: Codec, hash: bytes -> nat, directIo: bool, bounded: bool, cap: nat)

  /** A block in the hands of a reader or of a pool worker. */
  datatype Held = Held(key: BlockKey, data: bytes)

  /** An invalidation that has cleared memory, or removed the block files too. */
  datatype Stage = Cleared | Removed

  datatype Call = Call(path: bytes, stage: Stage)

  datatype State = State(
    files: Files, index: map<BlockKey, nat>, gens: PathGen.Table,
    jobs: seq<WriteJob>,       // queued
    writing: seq<Held>,        // checked, about to be written
    indexing: seq<BlockKey>,   // submitted or written, about to be indexed
    mem: map<BlockKey, bytes>,
    missed: seq<BlockKey>,     // reads that missed memory, about to look on disk
    holding: seq<Held>,        // reads that hit on disk, about to backfill memory
    calls: seq<Call>, puts: Puts)

  datatype Action =
    | PutMem(k: BlockKey, d: bytes)
    | PutFile(k: BlockKey, d: bytes)
    | Submit(k: BlockKey, d: bytes)
    | Index(i: nat, size: nat)
    | Check(i: nat)
    | WriteOut(i: nat, opens: bool)
    | DropBlock(k: BlockKey)           // eviction, age sweep, expiry
    | DropFile(k: BlockKey)            // a rejected block file
    | Evict(k: BlockKey)               // puts of other blocks push it out of memory
    | Miss(k: BlockKey)
    | Lookup(i: nat)
    | Backfill(i: nat)
    | ClearMem(p: bytes)               // invalidate: memory,
    | RemoveBlocks(i: nat)             // block files and index entries,
    | Bump(i: nat)                     // generation

  predicate Enabled(c: Config, s: State, a: Action) {
    match a
    case PutFile(k, _) => !c.directIo && |k.path| <= MAX_PATH_LEN
    case Submit(_, _) => !c.directIo
    case Index(i, _) => i < |s.indexing|
    case Check(i) => i < |s.jobs|
    case WriteOut(i, _) => i < |s.writing|
    case Evict(_) => c.bounded
    case Miss(k) => k !in s.mem
    case Lookup(i) => i < |s.missed|
    case Backfill(i) => i < |s.holding|
    case RemoveBlocks(i) => i < |s.calls| && s.calls[i].stage.Cleared?
    case Bump(i) => i < |s.calls| && s.calls[i].stage.Removed?
    case _ => true
  }

  function Written(c: Config, files: Files, k: BlockKey, d: bytes): Files
    requires |k.path| <= MAX_PATH_LEN
  {
    files[FileOf(c.hash, k) := Block(c.codec, k.path, d)]
  }

  /** What a disk lookup finds. */
  function Found(c: Config, files: Files, k: BlockKey): seq<Held> {
    var f := FileOf(c.hash, k);
    if !c.directIo && f in files && ReadBlock(c.codec, files[f], k.path).Hit?
    then [Held(k, ReadBlock(c.codec, files[f], k.path).data)] else []
  }

  function WithoutPath(mem: map<BlockKey, bytes>, p: bytes): map<BlockKey, bytes> {
    map k | k in mem && k.path != p :: mem[k]
  }

  function Apply(c: Config, s: State, a: Action): State
    requires Enabled(c, s, a)
  {
    match a
    case PutMem(k, d) => s.(mem := s.mem[k := d], puts := Putting(s.puts, k, d))
    case PutFile(k, d) =>
      s.(files := Written(c, s.files, k, d), indexing := s.indexing + [k], puts := Putting(s.puts, k, d))
    case Submit(k, d) =>
      s.(jobs := s.jobs + [WriteJob(k, d, PathGen.GenOf(s.gens, k.path))], indexing := s.indexing + [k],
         puts := Putting(s.puts, k, d))
    case Index(i, size) => s.(index := s.index[s.indexing[i] := size], indexing := Without(s.indexing, i))
    case Check(i) =>
      var j := s.jobs[i];
      s.(jobs := Without(s.jobs, i), writing := s.writing + if Current(j, s.gens) then [Held(j.key, j.data)] else [])
    case WriteOut(i, opens) =>
      var w := s.writing[i];
      s.(writing := Without(s.writing, i),
         files := if opens && |w.key.path| <= MAX_PATH_LEN then Written(c, s.files, w.key, w.data) else s.files)
    case DropBlock(k) => s.(files := s.files - {FileOf(c.hash, k)}, index := s.index - {k})
    case DropFile(k) => s.(files := s.files - {FileOf(c.hash, k)})
    case Evict(k) => s.(mem := s.mem - {k})
    case Miss(k) => s.(missed := s.missed + [k])
    case Lookup(i) =>
      s.(missed := Without(s.missed, i), holding := s.holding + Found(c, s.files, s.missed[i]))
    case Backfill(i) =>
      s.(mem := s.mem[s.holding[i].key := s.holding[i].data], holding := Without(s.holding, i))
    case ClearMem(p) => s.(mem := WithoutPath(s.mem, p), calls := s.calls + [Call(p, Cleared)])
    case RemoveBlocks(i) =>
      var keys := BlocksOf(s.index, s.calls[i].path);
      s.(files := s.files - FilesOf(c.hash, keys), index := s.index - keys,
         calls := s.calls[i := Call(s.calls[i].path, Removed)])
    case Bump(i) =>
      s.(gens := PathGen.Bumped(s.gens, s.calls[i].path, c.cap), puts := Forgetting(s.puts, s.calls[i].path),
         calls := Without(s.calls, i))
  }

  function Init(): State {
    State(map[], map[], map[], [], [], [], map[], [], [], [], map[])
  }

  /** The step is not part of an invalidation of `p`; with `clears` off it does not clear the generation
      table either. */
  predicate Quiet(c: Config, s: State, a: Action, p: bytes, clears: bool)
    requires Enabled(c, s, a)
  {
    && a != ClearMem(p) && (a.RemoveBlocks? || a.Bump? ==> s.calls[a.i].path != p)
    && (a.Bump? && !clears ==> |s.gens| < c.cap)
  }

  ghost predicate Reaches(c: Config, s: State, run: seq<Action>, t: State)
    decreases |run|
  {
    if run == [] then s == t else Enabled(c, s, run[0]) && Reaches(c, Apply(c, s, run[0]), run[1..], t)
  }

  ghost predicate ReachesQuiet(c: Config, s: State, run: seq<Action>, t: State, p: bytes, clears: bool)
    decreases |run|
  {
    if run == [] then s == t
    else && Enabled(c, s, run[0]) && Quiet(c, s, run[0], p, clears)
         && ReachesQuiet(c, Apply(c, s, run[0]), run[1..], t, p, clears)
  }

  // ----- A block on its way to disk -----

  /** A fetched block that is queued while its path has some generation passes its check whenever the path has
      that generation, its write makes it readable under its own key, and its index entry comes. */
  lemma SubmittedIsServed(c: Config, s: State, k: BlockKey, d: bytes, t: State, i: nat)
    requires SoundCodec(c.codec) && Enabled(c, s, Submit(k, d)) && |k.path| <= MAX_PATH_LEN && |d| <= CACHE_BLOCK_SIZE
    ensures var s' := Apply(c, s, Submit(k, d));
            && WasPut(s'.puts, k, d) && s'.indexing == s.indexing + [k] && |s'.jobs| == |s.jobs| + 1
            && (i < |t.jobs| && t.jobs[i] == s'.jobs[|s.jobs|] && PathGen.GenOf(t.gens, k.path) == PathGen.GenOf(s.gens, k.path) ==>
                  && Enabled(c, t, Check(i))
                  && var u := Apply(c, t, Check(i));
                     && u.writing == t.writing + [Held(k, d)] && Enabled(c, u, WriteOut(|t.writing|, true))
                     && Serves(c.codec, c.hash, Apply(c, u, WriteOut(|t.writing|, true)).files, k, d))
  {
    hide Block, SoundCodec, Serves;
    ServesWritten(c.codec, c.hash, t.files, k, d, k, d);
    PutIsPut(s.puts, k, d);
  }

  // ----- Every call ends once -----

  function Submits(): Action -> nat { (a: Action) => One(a.Submit?) }
  function PutFiles(): Action -> nat { (a: Action) => One(a.PutFile?) }
  function Indexes(): Action -> nat { (a: Action) => One(a.Index?) }
  function Checks(): Action -> nat { (a: Action) => One(a.Check?) }
  function WriteOuts(): Action -> nat { (a: Action) => One(a.WriteOut?) }
  function Misses(): Action -> nat { (a: Action) => One(a.Miss?) }
  function Lookups(): Action -> nat { (a: Action) => One(a.Lookup?) }
  function Backfills(): Action -> nat { (a: Action) => One(a.Backfill?) }
  function ClearMems(): Action -> nat { (a: Action) => One(a.ClearMem?) }
  function Removals(): Action -> nat { (a: Action) => One(a.RemoveBlocks?) }
  function Bumps(): Action -> nat { (a: Action) => One(a.Bump?) }
  function AtRemoved(): Call -> nat { (k: Call) => One(k.stage.Removed?) }

  lemma StepMoves(c: Config, s: State, a: Action)
    requires Enabled(c, s, a)
    ensures var t := Apply(c, s, a);
            && |t.jobs| + Checks()(a) == |s.jobs| + Submits()(a)
            && |t.indexing| + Indexes()(a) == |s.indexing| + Submits()(a) + PutFiles()(a)
            && |t.writing| + WriteOuts()(a) <= |s.writing| + Checks()(a)
            && |t.missed| + Lookups()(a) == |s.missed| + Misses()(a)
            && |t.holding| + Backfills()(a) <= |s.holding| + Lookups()(a)
            && |t.calls| + Bumps()(a) == |s.calls| + ClearMems()(a)
  {
    hide Written, FilesOf, BlocksOf, WithoutPath, PathGen.Bumped;
  }

  lemma StageMoves(c: Config, s: State, a: Action)
    requires Enabled(c, s, a)
    ensures Sum(Apply(c, s, a).calls, AtRemoved()) + Bumps()(a) == Sum(s.calls, AtRemoved()) + Removals()(a)
  {
    hide Written, FilesOf, BlocksOf, WithoutPath, PathGen.Bumped, Found;
    if a.ClearMem? {
      SumAppend(s.calls, Call(a.p, Cleared), AtRemoved());
    } else if a.RemoveBlocks? {
      SumUpdate(s.calls, a.i, Call(s.calls[a.i].path, Removed), AtRemoved());
    } else if a.Bump? {
      SumWithout(s.calls, a.i, AtRemoved());
    }
    hide Sum;
  }

  /** In every run: each queued write is checked once and written at most
      once, each fetched block is indexed once, each read looks on disk once and backfills at most once, and
      each invalidation takes its three steps once, in order. */
  lemma {:induction false} EveryCallEndsOnce(c: Config, s: State, run: seq<Action>, t: State)
    requires Reaches(c, s, run, t)
    ensures |t.jobs| + Sum(run, Checks()) == |s.jobs| + Sum(run, Submits())
    ensures |t.indexing| + Sum(run, Indexes()) == |s.indexing| + Sum(run, Submits()) + Sum(run, PutFiles())
    ensures |t.writing| + Sum(run, WriteOuts()) <= |s.writing| + Sum(run, Checks())
    ensures |t.missed| + Sum(run, Lookups()) == |s.missed| + Sum(run, Misses())
    ensures |t.holding| + Sum(run, Backfills()) <= |s.holding| + Sum(run, Lookups())
    ensures |t.calls| + Sum(run, Bumps()) == |s.calls| + Sum(run, ClearMems())
    ensures Sum(t.calls, AtRemoved()) + Sum(run, Bumps()) == Sum(s.calls, AtRemoved()) + Sum(run, Removals())
    decreases |run|
  {
    if run != [] {
      StepMoves(c, s, run[0]);
      StageMoves(c, s, run[0]);
      EveryCallEndsOnce(c, Apply(c, s, run[0]), run[1..], t);
      hide Apply, Enabled;
    }
  }

  // ----- What a single step leaves -----

  /** A block put into memory is what a read gets, and no other block in memory has changed. */
  lemma PutIsAnswered(c: Config, s: State, k: BlockKey, d: bytes, other: BlockKey, e: bytes)
    ensures var t := Apply(c, s, PutMem(k, d));
            && Answers(c, t, k, d) && WasPut(t.puts, k, d)
            && (other != k ==> (Answers(c, t, other, e) <==> Answers(c, s, other, e)))
  {
    hide Serves;
  }

  /** A dropped block is neither readable nor indexed; a rejected file is not readable; other files stay. */
  lemma DroppedIsGone(c: Config, s: State, k: BlockKey, d: bytes, other: BlockKey, e: bytes)
    ensures var t := Apply(c, s, DropBlock(k));
            && !Serves(c.codec, c.hash, t.files, k, d) && k !in t.index && (forall x :: x in s.index && x != k ==> x in t.index)
            && (FileOf(c.hash, other) != FileOf(c.hash, k) ==>
                  (Serves(c.codec, c.hash, t.files, other, e) <==> Serves(c.codec, c.hash, s.files, other, e)))
    ensures var t := Apply(c, s, DropFile(k));
            && !Serves(c.codec, c.hash, t.files, k, d) && t.index == s.index
            && (FileOf(c.hash, other) != FileOf(c.hash, k) ==>
                  (Serves(c.codec, c.hash, t.files, other, e) <==> Serves(c.codec, c.hash, s.files, other, e)))
  {
  }

  // ----- Serving old bytes -----

  /** A read that looks in memory now, or on disk after it missed memory, gets `d`. */
  ghost predicate Answers(c: Config, s: State, k: BlockKey, d: bytes) {
    || (k in s.mem && s.mem[k] == d)
    || (!c.directIo && (k !in s.mem || k in s.missed) && Serves(c.codec, c.hash, s.files, k, d))
  }

  /** Some read of the path gets bytes that were not put since its last invalidation. */
  ghost predicate ServesStale(c: Config, s: State, p: bytes) {
    exists k: BlockKey, d :: k.path == p && Answers(c, s, k, d) && !WasPut(s.puts, k, d)
  }

  /** No read gets old bytes of the path before its next invalidation begins, whatever is read, put, written,
      dropped or evicted until then, and whichever other paths are invalidated. */
  ghost predicate SafeUntilNext(c: Config, s: State, p: bytes, clears: bool) {
    forall more, t :: ReachesQuiet(c, s, more, t, p, clears) ==> !ServesStale(c, t, p)
  }

  /** The block can be looked up on disk: memory lacks it, may lose it, or has been missed already. */
  predicate Shown(c: Config, s: State, k: BlockKey) {
    !c.directIo && (c.bounded || k !in s.mem || k in s.missed)
  }

  /** A block file of these bytes can be written and read back. */
  predicate Writable(k: BlockKey, d: bytes) {
    |k.path| <= MAX_PATH_LEN && |d| <= CACHE_BLOCK_SIZE
  }

  ghost predicate MemFresh(s: State, p: bytes) {
    forall k :: k in s.mem && k.path == p ==> WasPut(s.puts, k, s.mem[k])
  }

  ghost predicate HeldFresh(s: State, p: bytes) {
    forall h :: h in s.holding && h.key.path == p ==> WasPut(s.puts, h.key, h.data)
  }

  ghost predicate FilesFresh(c: Config, s: State, p: bytes) {
    forall k: BlockKey, d :: k.path == p && Serves(c.codec, c.hash, s.files, k, d) && Shown(c, s, k) ==>
                             WasPut(s.puts, k, d)
  }

  ghost predicate WritesFresh(c: Config, s: State, p: bytes) {
    forall w :: w in s.writing && w.key.path == p && Writable(w.key, w.data) && Shown(c, s, w.key) ==>
                WasPut(s.puts, w.key, w.data)
  }

  /** A queued write passes its check while its path has its generation; clearing the table gives every path
      generation zero. */
  predicate CanPass(j: WriteJob, gens: PathGen.Table, clears: bool) {
    Current(j, gens) || (clears && j.gen == 0)
  }

  ghost predicate JobsFresh(c: Config, s: State, p: bytes, clears: bool) {
    forall j :: j in s.jobs && j.key.path == p && Writable(j.key, j.data) && Shown(c, s, j.key) ==>
                CanPass(j, s.gens, clears) ==> WasPut(s.puts, j.key, j.data)
  }

  ghost predicate Fresh(c: Config, s: State, p: bytes, clears: bool) {
    MemFresh(s, p) && HeldFresh(s, p) && FilesFresh(c, s, p) && WritesFresh(c, s, p) && JobsFresh(c, s, p, clears)
  }

  // ----- Fresh stays fresh -----

  lemma QuietKeeps(c: Config, s: State, a: Action, p: bytes, clears: bool, k: BlockKey)
    requires Enabled(c, s, a) && Quiet(c, s, a, p, clears) && k.path == p
    ensures Shown(c, Apply(c, s, a), k) ==> Shown(c, s, k)
    ensures forall d :: WasPut(s.puts, k, d) ==> WasPut(Apply(c, s, a).puts, k, d)
  {
    hide Written, Found, FilesOf, BlocksOf;
  }

  lemma MemStep(c: Config, s: State, a: Action, p: bytes, clears: bool)
    requires Enabled(c, s, a) && Quiet(c, s, a, p, clears) && MemFresh(s, p) && HeldFresh(s, p)
    ensures MemFresh(Apply(c, s, a), p)
  {
    var t := Apply(c, s, a);
    forall k | k in t.mem && k.path == p ensures WasPut(t.puts, k, t.mem[k]) {
      QuietKeeps(c, s, a, p, clears, k);
    }
  }

  lemma FoundServes(c: Config, files: Files, k: BlockKey, h: Held)
    requires h in Found(c, files, k)
    ensures h.key == k && !c.directIo && Serves(c.codec, c.hash, files, k, h.data)
  {
  }

  lemma HeldStep(c: Config, s: State, a: Action, p: bytes, clears: bool)
    requires Enabled(c, s, a) && Quiet(c, s, a, p, clears) && HeldFresh(s, p) && FilesFresh(c, s, p)
    ensures HeldFresh(Apply(c, s, a), p)
  {
    hide Found, Serves;
    var t := Apply(c, s, a);
    forall h | h in t.holding && h.key.path == p ensures WasPut(t.puts, h.key, h.data) {
      QuietKeeps(c, s, a, p, clears, h.key);
      if h !in s.holding {
        FoundServes(c, s.files, s.missed[a.i], h);
      }
    }
  }

  /** What a step makes readable was readable, or has just been written. */
  lemma ServesAfter(c: Config, s: State, a: Action, k: BlockKey, d: bytes)
    requires SoundCodec(c.codec) && Enabled(c, s, a) && Serves(c.codec, c.hash, Apply(c, s, a).files, k, d)
    ensures || Serves(c.codec, c.hash, s.files, k, d) || a == PutFile(k, d)
            || (a.WriteOut? && s.writing[a.i] == Held(k, d) && Writable(k, d))
  {
    hide Serves, Block, SoundCodec;
    if a.PutFile? {
      ServesWritten(c.codec, c.hash, s.files, a.k, a.d, k, d);
    } else if a.WriteOut? && a.opens && |s.writing[a.i].key.path| <= MAX_PATH_LEN {
      ServesWritten(c.codec, c.hash, s.files, s.writing[a.i].key, s.writing[a.i].data, k, d);
    } else if a.DropBlock? || a.DropFile? {
      ServesKept(c.codec, c.hash, s.files, {FileOf(c.hash, a.k)}, k, d);
    } else if a.RemoveBlocks? {
      ServesKept(c.codec, c.hash, s.files, FilesOf(c.hash, BlocksOf(s.index, s.calls[a.i].path)), k, d);
    }
  }

  lemma FilesStep(c: Config, s: State, a: Action, p: bytes, clears: bool)
    requires SoundCodec(c.codec) && Enabled(c, s, a) && Quiet(c, s, a, p, clears)
    requires FilesFresh(c, s, p) && WritesFresh(c, s, p)
    ensures FilesFresh(c, Apply(c, s, a), p)
  {
    hide Serves, SoundCodec, Shown, WasPut, Writable;
    var t := Apply(c, s, a);
    forall k: BlockKey, d | k.path == p && Serves(c.codec, c.hash, t.files, k, d) && Shown(c, t, k)
      ensures WasPut(t.puts, k, d)
    {
      QuietKeeps(c, s, a, p, clears, k);
      ServesAfter(c, s, a, k, d);
      if a == PutFile(k, d) {
        PutIsPut(s.puts, k, d);
      } else if a.WriteOut? && s.writing[a.i] == Held(k, d) && Writable(k, d) {
        assert s.writing[a.i] in s.writing;
      }
    }
  }

  lemma WritesStep(c: Config, s: State, a: Action, p: bytes, clears: bool)
    requires Enabled(c, s, a) && Quiet(c, s, a, p, clears) && WritesFresh(c, s, p) && JobsFresh(c, s, p, clears)
    ensures WritesFresh(c, Apply(c, s, a), p)
  {
    hide Shown, WasPut, Writable, Written, Found;
    var t := Apply(c, s, a);
    forall w | w in t.writing && w.key.path == p && Writable(w.key, w.data) && Shown(c, t, w.key)
      ensures WasPut(t.puts, w.key, w.data)
    {
      QuietKeeps(c, s, a, p, clears, w.key);
      if w !in s.writing {
        assert s.jobs[a.i] in s.jobs;
      }
    }
  }

  /** Another path's bump leaves a path its generation, or clears it to zero. */
  lemma GensStep(c: Config, s: State, a: Action, p: bytes, clears: bool)
    requires Enabled(c, s, a) && Quiet(c, s, a, p, clears)
    ensures var g := PathGen.GenOf(Apply(c, s, a).gens, p); g == PathGen.GenOf(s.gens, p) || (clears && g == 0)
  {
    hide Written, Found, FilesOf, BlocksOf;
  }

  lemma JobsStep(c: Config, s: State, a: Action, p: bytes, clears: bool)
    requires Enabled(c, s, a) && Quiet(c, s, a, p, clears) && JobsFresh(c, s, p, clears)
    ensures JobsFresh(c, Apply(c, s, a), p, clears)
  {
    GensStep(c, s, a, p, clears);
    hide Shown, WasPut, Writable, Written, Found, PathGen.GenOf, PathGen.Bumped;
    var t := Apply(c, s, a);
    forall j | j in t.jobs && j.key.path == p && Writable(j.key, j.data) && Shown(c, t, j.key) && CanPass(j, t.gens, clears)
      ensures WasPut(t.puts, j.key, j.data)
    {
      QuietKeeps(c, s, a, p, clears, j.key);
      if j !in s.jobs {
        PutIsPut(s.puts, a.k, a.d);
      }
    }
  }

  lemma {:induction false} FreshRun(c: Config, s: State, run: seq<Action>, t: State, p: bytes, clears: bool)
    requires SoundCodec(c.codec) && Fresh(c, s, p, clears) && ReachesQuiet(c, s, run, t, p, clears)
    ensures Fresh(c, t, p, clears)
    decreases |run|
  {
    if run != [] {
      hide Apply, Enabled, Quiet, MemFresh, HeldFresh, FilesFresh, WritesFresh, JobsFresh, SoundCodec;
      MemStep(c, s, run[0], p, clears);
      HeldStep(c, s, run[0], p, clears);
      FilesStep(c, s, run[0], p, clears);
      WritesStep(c, s, run[0], p, clears);
      JobsStep(c, s, run[0], p, clears);
      FreshRun(c, Apply(c, s, run[0]), run[1..], t, p, clears);
    }
  }

  lemma FreshServesNothingOld(c: Config, s: State, p: bytes, clears: bool)
    requires Fresh(c, s, p, clears)
    ensures !ServesStale(c, s, p)
  {
    hide WritesFresh, JobsFresh, HeldFresh, Serves, WasPut;
  }

  // ----- What is not fresh can be served -----

  lemma Then(c: Config, s: State, a: Action, rest: seq<Action>, t: State, p: bytes, clears: bool)
    returns (run: seq<Action>)
    requires Enabled(c, s, a) && Quiet(c, s, a, p, clears) && ReachesQuiet(c, Apply(c, s, a), rest, t, p, clears)
    ensures ReachesQuiet(c, s, run, t, p, clears)
  {
    hide Apply, Enabled, Quiet;
    run := [a] + rest;
    assert run[1..] == rest;
  }

  lemma StaleFile(c: Config, s: State, k: BlockKey, d: bytes, clears: bool) returns (run: seq<Action>, t: State)
    requires Serves(c.codec, c.hash, s.files, k, d) && Shown(c, s, k) && !WasPut(s.puts, k, d)
    ensures ReachesQuiet(c, s, run, t, k.path, clears) && ServesStale(c, t, k.path)
  {
    hide Serves, WasPut;
    if k !in s.mem || k in s.missed {
      run, t := [], s;
      assert Answers(c, t, k, d);
    } else {
      t := Apply(c, s, Evict(k));
      assert Answers(c, t, k, d);
      run := Then(c, s, Evict(k), [], t, k.path, clears);
    }
  }

  lemma StaleHeld(c: Config, s: State, i: nat, clears: bool) returns (run: seq<Action>, t: State)
    requires i < |s.holding| && !WasPut(s.puts, s.holding[i].key, s.holding[i].data)
    ensures ReachesQuiet(c, s, run, t, s.holding[i].key.path, clears) && ServesStale(c, t, s.holding[i].key.path)
  {
    t := Apply(c, s, Backfill(i));
    assert Answers(c, t, s.holding[i].key, s.holding[i].data);
    run := Then(c, s, Backfill(i), [], t, s.holding[i].key.path, clears);
  }

  lemma StaleWrite(c: Config, s: State, i: nat, clears: bool) returns (run: seq<Action>, t: State)
    requires SoundCodec(c.codec) && i < |s.writing|
    requires var w := s.writing[i]; Writable(w.key, w.data) && Shown(c, s, w.key) && !WasPut(s.puts, w.key, w.data)
    ensures ReachesQuiet(c, s, run, t, s.writing[i].key.path, clears) && ServesStale(c, t, s.writing[i].key.path)
  {
    hide Serves, WasPut, SoundCodec, ServesStale, Block;
    var w := s.writing[i];
    ServesWritten(c.codec, c.hash, s.files, w.key, w.data, w.key, w.data);
    run, t := StaleFile(c, Apply(c, s, WriteOut(i, true)), w.key, w.data, clears);
    run := Then(c, s, WriteOut(i, true), run, t, w.key.path, clears);
  }

  lemma StaleJob(c: Config, s: State, i: nat, clears: bool) returns (run: seq<Action>, t: State)
    requires SoundCodec(c.codec) && i < |s.jobs| && Current(s.jobs[i], s.gens)
    requires var j := s.jobs[i]; Writable(j.key, j.data) && Shown(c, s, j.key) && !WasPut(s.puts, j.key, j.data)
    ensures ReachesQuiet(c, s, run, t, s.jobs[i].key.path, clears) && ServesStale(c, t, s.jobs[i].key.path)
  {
    hide WasPut, SoundCodec, ServesStale, Writable;
    var j, s' := s.jobs[i], Apply(c, s, Check(i));
    assert s'.writing[|s.writing|] == Held(j.key, j.data);
    run, t := StaleWrite(c, s', |s.writing|, clears);
    run := Then(c, s, Check(i), run, t, j.key.path, clears);
  }

  /** What the clearing of the table leaves alone for a path. */
  ghost predicate SameFor(s: State, t: State, p: bytes) {
    && t.jobs == s.jobs && t.missed == s.missed
    && (forall k: BlockKey :: k.path == p ==> (k in t.mem <==> k in s.mem))
    && (forall k: BlockKey, d :: k.path == p ==> (WasPut(t.puts, k, d) <==> WasPut(s.puts, k, d)))
  }

  /** The three steps of an invalidation, uninterrupted. */
  function Invalidated(c: Config, s: State, p: bytes): State {
    var keys := BlocksOf(s.index, p);
    s.(mem := WithoutPath(s.mem, p), files := s.files - FilesOf(c.hash, keys), index := s.index - keys,
       gens := PathGen.Bumped(s.gens, p, c.cap), puts := Forgetting(s.puts, p))
  }

  lemma WholeCall(c: Config, s: State, p: bytes)
    ensures Enabled(c, s, ClearMem(p))
    ensures var n := |s.calls|; var s1 := Apply(c, s, ClearMem(p));
            && Enabled(c, s1, RemoveBlocks(n)) && s1.calls[n].path == p && s1.gens == s.gens
            && var s2 := Apply(c, s1, RemoveBlocks(n));
               && Enabled(c, s2, Bump(n)) && s2.calls[n].path == p && s2.gens == s.gens
               && Apply(c, s2, Bump(n)) == Invalidated(c, s, p)
  {
    hide BlocksOf, FilesOf, PathGen.Bumped, Forgetting, WithoutPath;
    var n, s1 := |s.calls|, Apply(c, s, ClearMem(p));
    assert s1.calls[n] == Call(p, Cleared);
    var s2 := Apply(c, s1, RemoveBlocks(n));
    assert s2.calls[n] == Call(p, Removed);
    assert Without(s2.calls, n) == s.calls;
  }

  lemma OtherCall(c: Config, s: State, q: bytes, rest: seq<Action>, t: State, p: bytes) returns (run: seq<Action>)
    requires q != p && ReachesQuiet(c, Invalidated(c, s, q), rest, t, p, true)
    ensures ReachesQuiet(c, s, run, t, p, true)
  {
    WholeCall(c, s, q);
    hide Apply, Enabled, Invalidated;
    var n, s1 := |s.calls|, Apply(c, s, ClearMem(q));
    var s2 := Apply(c, s1, RemoveBlocks(n));
    run := Then(c, s2, Bump(n), rest, t, p, true);
    run := Then(c, s1, RemoveBlocks(n), run, t, p, true);
    run := Then(c, s, ClearMem(q), run, t, p, true);
  }

  lemma {:induction false} LongerThanAll(ps: set<bytes>) returns (n: nat)
    ensures forall p :: p in ps ==> |p| < n
    decreases |ps|
  {
    if ps == {} {
      n := 0;
    } else {
      var p :| p in ps;
      n := LongerThanAll(ps - {p});
      n := if |p| < n then n else |p| + 1;
    }
  }

  lemma NewPath(ps: set<bytes>) returns (q: bytes)
    ensures q !in ps
  {
    var n := LongerThanAll(ps);
    q := PathGen.Name(n);
  }

  lemma OneMore(gens: PathGen.Table, q: bytes, cap: nat, p: bytes)
    requires q != p && q !in gens
    ensures var t := PathGen.Bumped(gens, q, cap);
            if |gens| < cap then |t| == |gens| + 1 else PathGen.GenOf(t, p) == 0
  {
    var t := PathGen.Bumped(gens, q, cap);
    if |gens| < cap {
      assert t.Keys == gens.Keys + {q};
      assert |t.Keys| == |gens.Keys| + 1;
    }
  }

  lemma OthersSame(c: Config, s: State, q: bytes, p: bytes)
    requires q != p
    ensures SameFor(s, Invalidated(c, s, q), p)
  {
    hide BlocksOf, FilesOf, PathGen.Bumped;
  }

  /** Invalidations of other paths fill the table and clear it. */
  lemma {:induction false} Recycle(c: Config, s: State, p: bytes) returns (run: seq<Action>, t: State)
    ensures ReachesQuiet(c, s, run, t, p, true) && SameFor(s, t, p) && PathGen.GenOf(t.gens, p) == 0
    decreases c.cap - |s.gens|
  {
    var q := NewPath(s.gens.Keys + {p});
    var s' := Invalidated(c, s, q);
    OneMore(s.gens, q, c.cap, p);
    OthersSame(c, s, q, p);
    hide PathGen.Bumped, PathGen.GenOf, BlocksOf, FilesOf, WithoutPath, Forgetting;
    run, t := [], s';
    if |s.gens| < c.cap {
      run, t := Recycle(c, s', p);
    }
    hide ReachesQuiet;
    run := OtherCall(c, s, q, run, t, p);
  }

  lemma {:induction false} JoinQuiet(c: Config, s: State, a: seq<Action>, t: State, b: seq<Action>, u: State,
                                     p: bytes, clears: bool)
    requires ReachesQuiet(c, s, a, t, p, clears) && ReachesQuiet(c, t, b, u, p, clears)
    ensures ReachesQuiet(c, s, a + b, u, p, clears)
    decreases |a|
  {
    hide Apply, Enabled, Quiet;
    if a == [] {
      assert a + b == b;
    } else {
      assert (a + b)[1..] == a[1..] + b;
      JoinQuiet(c, Apply(c, s, a[0]), a[1..], t, b, u, p, clears);
    }
  }

  lemma RevivedJob(c: Config, s: State, i: nat) returns (run: seq<Action>, t: State)
    requires SoundCodec(c.codec) && i < |s.jobs| && s.jobs[i].gen == 0
    requires var j := s.jobs[i]; Writable(j.key, j.data) && Shown(c, s, j.key) && !WasPut(s.puts, j.key, j.data)
    ensures ReachesQuiet(c, s, run, t, s.jobs[i].key.path, true) && ServesStale(c, t, s.jobs[i].key.path)
  {
    hide SoundCodec, ServesStale, Writable, ReachesQuiet, WasPut;
    var p := s.jobs[i].key.path;
    var early, s' := Recycle(c, s, p);
    run, t := StaleJob(c, s', i, true);
    JoinQuiet(c, s, early, s', run, t, p, true);
    run := early + run;
  }

  lemma NotFreshServes(c: Config, s: State, p: bytes, clears: bool) returns (run: seq<Action>, t: State)
    requires SoundCodec(c.codec) && !Fresh(c, s, p, clears)
    ensures ReachesQuiet(c, s, run, t, p, clears) && ServesStale(c, t, p)
  {
    hide SoundCodec, Serves, WasPut, Shown, Writable, Current;
    if !MemFresh(s, p) {
      var k :| k in s.mem && k.path == p && !WasPut(s.puts, k, s.mem[k]);
      assert Answers(c, s, k, s.mem[k]);
      run, t := [], s;
    } else if !HeldFresh(s, p) {
      var h :| h in s.holding && h.key.path == p && !WasPut(s.puts, h.key, h.data);
      var i :| 0 <= i < |s.holding| && s.holding[i] == h;
      hide ReachesQuiet, ServesStale;
      run, t := StaleHeld(c, s, i, clears);
    } else if !FilesFresh(c, s, p) {
      hide ReachesQuiet, ServesStale;
      var k: BlockKey, d :| k.path == p && Serves(c.codec, c.hash, s.files, k, d) && Shown(c, s, k)
                            && !WasPut(s.puts, k, d);
      run, t := StaleFile(c, s, k, d, clears);
    } else {
      hide ReachesQuiet, ServesStale;
      run, t := UnwrittenServes(c, s, p, clears);
    }
  }

  lemma UnwrittenServes(c: Config, s: State, p: bytes, clears: bool) returns (run: seq<Action>, t: State)
    requires SoundCodec(c.codec) && !(WritesFresh(c, s, p) && JobsFresh(c, s, p, clears))
    ensures ReachesQuiet(c, s, run, t, p, clears) && ServesStale(c, t, p)
  {
    hide SoundCodec, WasPut, Shown, Writable, Current, ReachesQuiet, ServesStale;
    if !WritesFresh(c, s, p) {
      var w :| w in s.writing && w.key.path == p && Writable(w.key, w.data) && Shown(c, s, w.key)
               && !WasPut(s.puts, w.key, w.data);
      var i :| 0 <= i < |s.writing| && s.writing[i] == w;
      run, t := StaleWrite(c, s, i, clears);
    } else {
      var j :| j in s.jobs && j.key.path == p && Writable(j.key, j.data) && Shown(c, s, j.key)
               && CanPass(j, s.gens, clears) && !WasPut(s.puts, j.key, j.data);
      var i :| 0 <= i < |s.jobs| && s.jobs[i] == j;
      if Current(j, s.gens) {
        run, t := StaleJob(c, s, i, clears);
      } else {
        run, t := RevivedJob(c, s, i);
      }
    }
  }

  /** From any state, no read gets old bytes of a path before its next invalidation if and only if everything
      of the path in memory and in readers' hands was put since the last one, and so was every readable
      block file, every checked write and every queued write that can still pass its check, as far as
      memory does not hide them. */
  lemma StaleExactly(c: Config, s: State, p: bytes, clears: bool)
    requires SoundCodec(c.codec)
    ensures SafeUntilNext(c, s, p, clears) <==> Fresh(c, s, p, clears)
  {
    hide SoundCodec, ReachesQuiet, ServesStale;
    if Fresh(c, s, p, clears) {
      forall more, t | ReachesQuiet(c, s, more, t, p, clears) ensures !ServesStale(c, t, p) {
        FreshRun(c, s, more, t, p, clears);
        FreshServesNothingOld(c, t, p, clears);
      }
    } else {
      var more, t := NotFreshServes(c, s, p, clears);
    }
  }

  // ----- When an invalidation does its work -----

  /** Nothing of the path is in a reader's hands, all its readable blocks are indexed, and no write of it
      has been checked or can pass its check once the generation is bumped. */
  ghost predicate Clean(c: Config, s: State, p: bytes, clears: bool) {
    && (forall h :: h in s.holding ==> h.key.path != p)
    && (!c.directIo ==>
          && AllIndexed(c.codec, c.hash, s.files, s.index.Keys, p)
          && (forall w :: w in s.writing && w.key.path == p ==> !Writable(w.key, w.data))
          && (forall j :: j in s.jobs && j.key.path == p && Writable(j.key, j.data) ==>
                          !CanPass(j, PathGen.Bumped(s.gens, p, c.cap), clears)))
  }

  lemma InvalidatedFresh(c: Config, s: State, p: bytes, clears: bool)
    ensures Fresh(c, Invalidated(c, s, p), p, clears) <==> Clean(c, s, p, clears)
  {
    hide Serves, Writable, CanPass, PathGen.Bumped, FilesOf, BlocksOf;
    var t := Invalidated(c, s, p);
    assert forall k: BlockKey, d :: k.path == p ==> !WasPut(t.puts, k, d);
    assert forall k: BlockKey :: k.path == p ==> (Shown(c, t, k) <==> !c.directIo);
    assert MemFresh(t, p);
    InvalidatedBlocks(c, s, p);
  }

  lemma InvalidatedBlocks(c: Config, s: State, p: bytes)
    ensures FilesFresh(c, Invalidated(c, s, p), p) <==>
            c.directIo || AllIndexed(c.codec, c.hash, s.files, s.index.Keys, p)
  {
    hide Serves, PathGen.Bumped, FilesOf, BlocksOf;
    var t := Invalidated(c, s, p);
    assert forall k: BlockKey, d :: k.path == p ==> !WasPut(t.puts, k, d);
    assert forall k: BlockKey :: k.path == p ==> (Shown(c, t, k) <==> !c.directIo);
    forall k: BlockKey, d | k.path == p
      ensures Serves(c.codec, c.hash, t.files, k, d) <==> Serves(c.codec, c.hash, s.files, k, d) && k !in s.index
    {
      InvalidationExact(c.codec, c.hash, s.files, s.index, k, d);
    }
  }

  /** An uninterrupted invalidation: no read gets bytes put before it until the next one begins, if and only
      if the path was clean. */
  lemma InvalidationSafeExactly(c: Config, s: State, p: bytes, clears: bool)
    requires SoundCodec(c.codec)
    ensures SafeUntilNext(c, Invalidated(c, s, p), p, clears) <==> Clean(c, s, p, clears)
  {
    StaleExactly(c, Invalidated(c, s, p), p, clears);
    InvalidatedFresh(c, s, p, clears);
  }

  /** Nothing of the path is left when the last step of an invalidation comes. */
  ghost predicate NothingLeft(c: Config, s: State, p: bytes, clears: bool) {
    && (forall k :: k in s.mem ==> k.path != p)
    && (forall h :: h in s.holding ==> h.key.path != p)
    && (!c.directIo ==>
          && (forall k: BlockKey, d :: k.path == p ==> !Serves(c.codec, c.hash, s.files, k, d))
          && (forall w :: w in s.writing && w.key.path == p ==> !Writable(w.key, w.data))
          && (forall j :: j in s.jobs && j.key.path == p && Writable(j.key, j.data) ==>
                          !CanPass(j, PathGen.Bumped(s.gens, p, c.cap), clears)))
  }

  /** An invalidation with anything at all between its three steps: no read gets bytes put before its end until
      the next one begins, if and only if nothing of the path is left at its last step. */
  lemma LastStepSafeExactly(c: Config, s: State, i: nat, clears: bool)
    requires SoundCodec(c.codec) && Enabled(c, s, Bump(i))
    ensures var p := s.calls[i].path;
            SafeUntilNext(c, Apply(c, s, Bump(i)), p, clears) <==> NothingLeft(c, s, p, clears)
  {
    StaleExactly(c, Apply(c, s, Bump(i)), s.calls[i].path, clears);
    hide NothingLeft, SafeUntilNext, Fresh, SoundCodec, Apply;
    BumpedFresh(c, s, i, clears);
  }

  lemma BumpedFresh(c: Config, s: State, i: nat, clears: bool)
    requires Enabled(c, s, Bump(i))
    ensures Fresh(c, Apply(c, s, Bump(i)), s.calls[i].path, clears) <==> NothingLeft(c, s, s.calls[i].path, clears)
  {
    hide Serves, Writable, CanPass, PathGen.Bumped;
    var t, p := Apply(c, s, Bump(i)), s.calls[i].path;
    assert forall k: BlockKey, d :: k.path == p ==> !WasPut(t.puts, k, d);
    if forall k :: k in s.mem ==> k.path != p {
      assert forall k: BlockKey :: k.path == p ==> (Shown(c, t, k) <==> !c.directIo);
    }
  }

  // ----- Two runs that serve old bytes -----

  lemma Follow(c: Config, s: State, a: Action, rest: seq<Action>, s': State, t: State) returns (run: seq<Action>)
    requires Enabled(c, s, a) && Apply(c, s, a) == s' && Reaches(c, s', rest, t)
    ensures run == [a] + rest && Reaches(c, s, run, t)
  {
    hide Apply, Enabled;
    run := [a] + rest;
    assert run[1..] == rest;
  }

  lemma CallReaches(c: Config, s: State, p: bytes, rest: seq<Action>, t: State) returns (run: seq<Action>)
    requires Reaches(c, Invalidated(c, s, p), rest, t)
    ensures Reaches(c, s, run, t)
  {
    WholeCall(c, s, p);
    hide Apply, Enabled, Invalidated;
    var n, s1 := |s.calls|, Apply(c, s, ClearMem(p));
    var s2 := Apply(c, s1, RemoveBlocks(n));
    run := Follow(c, s2, Bump(n), rest, Invalidated(c, s, p), t);
    run := Follow(c, s1, RemoveBlocks(n), run, s2, t);
    run := Follow(c, s, ClearMem(p), run, s1, t);
  }

  lemma {:induction false} QuietReaches(c: Config, s: State, run: seq<Action>, t: State, p: bytes, clears: bool)
    requires ReachesQuiet(c, s, run, t, p, clears)
    ensures Reaches(c, s, run, t)
    decreases |run|
  {
    hide Apply, Enabled, Quiet;
    if run != [] {
      QuietReaches(c, Apply(c, s, run[0]), run[1..], t, p, clears);
    }
  }

  /** From a path that is not clean: invalidate it, and serve the old bytes. */
  lemma InvalidatedServes(c: Config, s: State, p: bytes) returns (run: seq<Action>, t: State)
    requires SoundCodec(c.codec) && !Clean(c, s, p, false)
    ensures Reaches(c, s, run, t) && ServesStale(c, t, p)
  {
    InvalidatedFresh(c, s, p, false);
    hide Clean, Fresh, ServesStale, SoundCodec, Invalidated;
    run, t := NotFreshServes(c, Invalidated(c, s, p), p, false);
    QuietReaches(c, Invalidated(c, s, p), run, t, p, false);
    run := CallReaches(c, s, p, run, t);
  }

  /** A block written and indexed, and a read that has missed it in memory. */
  function HalfRead(c: Config, k: BlockKey, d: bytes): State
    requires |k.path| <= MAX_PATH_LEN
  {
    Init().(files := Written(c, map[], k, d), index := map[k := |d|], missed := [k], puts := Putting(map[], k, d))
  }

  lemma HalfReadReached(c: Config, k: BlockKey, d: bytes, rest: seq<Action>, t: State) returns (run: seq<Action>)
    requires !c.directIo && |k.path| <= MAX_PATH_LEN && Reaches(c, HalfRead(c, k, d), rest, t)
    ensures Reaches(c, Init(), run, t)
  {
    hide Written, Putting, Reaches;
    var s3 := HalfRead(c, k, d);
    var s2 := s3.(missed := []);
    var s1 := s2.(index := map[], indexing := [k]);
    assert [] + [k] == [k];
    run := Follow(c, s2, Miss(k), rest, s3, t);
    run := Follow(c, s1, Index(0, |d|), run, s2, t);
    run := Follow(c, Init(), PutFile(k, d), run, s1, t);
  }

  lemma HeldAfterLookup(c: Config, k: BlockKey, d: bytes) returns (s: State)
    requires SoundCodec(c.codec) && !c.directIo && Writable(k, d)
    ensures s == Apply(c, HalfRead(c, k, d), Lookup(0)) && Enabled(c, HalfRead(c, k, d), Lookup(0))
    ensures Held(k, d) in s.holding
  {
    hide Block, ReadBlock, SoundCodec;
    ServesWritten(c.codec, c.hash, map[], k, d, k, d);
    s := Apply(c, HalfRead(c, k, d), Lookup(0));
  }

  /** A read hits on disk, its path is invalidated, and then it backfills memory: the old block is served. */
  lemma BackfillServesStale(c: Config, k: BlockKey, d: bytes) returns (run: seq<Action>, t: State)
    requires SoundCodec(c.codec) && !c.directIo && Writable(k, d)
    ensures Reaches(c, Init(), run, t) && ServesStale(c, t, k.path)
  {
    var s := HeldAfterLookup(c, k, d);
    assert !Clean(c, s, k.path, false);
    hide Clean, ServesStale, SoundCodec, Apply, Reaches, HalfRead, Enabled;
    run, t := InvalidatedServes(c, s, k.path);
    run := Follow(c, HalfRead(c, k, d), Lookup(0), run, s, t);
    run := HalfReadReached(c, k, d, run, t);
  }

  /** A block submitted and indexed, and a worker that has checked its write. */
  function HalfWritten(k: BlockKey, d: bytes): State {
    Init().(writing := [Held(k, d)], index := map[k := |d|], puts := Putting(map[], k, d))
  }

  lemma HalfWrittenReached(c: Config, k: BlockKey, d: bytes, rest: seq<Action>, t: State) returns (run: seq<Action>)
    requires !c.directIo && Reaches(c, HalfWritten(k, d), rest, t)
    ensures Reaches(c, Init(), run, t)
  {
    hide Reaches, Putting;
    var s3 := HalfWritten(k, d);
    var s2 := s3.(writing := [], jobs := [WriteJob(k, d, 0)]);
    var s1 := s2.(index := map[], indexing := [k]);
    assert [] + [k] == [k];
    run := Follow(c, s2, Check(0), rest, s3, t);
    run := Follow(c, s1, Index(0, |d|), run, s2, t);
    run := Follow(c, Init(), Submit(k, d), run, s1, t);
  }

  /** A pool worker checks the generation of a queued write, the path is invalidated, and then the worker
      writes the file: the old block is served. */
  lemma CheckedWriteServesStale(c: Config, k: BlockKey, d: bytes) returns (run: seq<Action>, t: State)
    requires SoundCodec(c.codec) && !c.directIo && Writable(k, d)
    ensures Reaches(c, Init(), run, t) && ServesStale(c, t, k.path)
  {
    var s := HalfWritten(k, d);
    assert Held(k, d) in s.writing && !Clean(c, s, k.path, false);
    hide Clean, ServesStale, SoundCodec, Reaches, HalfWritten;
    run, t := InvalidatedServes(c, s, k.path);
    run := HalfWrittenReached(c, k, d, run, t);
  }
}
