/** The two-level block cache of `src/multi_level_cache.rs`: blocks by inode in memory over block
    files by path on disk. */
module MultiLevel {
  import opened Wrappers
  import opened BlockFormat
  import opened PathGen
  import opened DiskCache
  import opened MemCache
  import CacheRuns

  datatype AdmissionPolicy = All | SingleBlockOnly | L2Only

  function Promotes(admission: AdmissionPolicy, blocks: nat): bool {
    match admission
    case All => true
    case SingleBlockOnly => blocks == 1
    case L2Only => false
  }

  lemma PolicyPromotes(admission: AdmissionPolicy, blocks: nat)
    ensures Promotes(admission, blocks) <==> admission.All? || (admission.SingleBlockOnly? && blocks == 1)
  {
  }

  ghost predicate OneInoPerPath(ino: bytes -> nat) {
    forall p, q :: ino(p) == ino(q) ==> p == q
  }

  /** Every block of the path in memory was put for it since it was invalidated. */
  ghost predicate MemFresh(latest: map<Key, bytes>, puts: Puts, ino: bytes -> nat, path: bytes) {
    forall b :: Key(ino(path), b) in latest ==> WasPut(puts, BlockKey(path, b), latest[Key(ino(path), b)])
  }

  lemma MemFreshPut(latest: map<Key, bytes>, puts: Puts, ino: bytes -> nat, path: bytes, block: nat, data: bytes, q: bytes)
    requires MemFresh(latest, puts, ino, q) && OneInoPerPath(ino)
    requires q == path ==> WasPut(puts, BlockKey(path, block), data)
    ensures MemFresh(latest[Key(ino(path), block) := data], puts, ino, q)
  {
  }

  lemma MemFreshGrow(latest: map<Key, bytes>, puts: Puts, ino: bytes -> nat, k: BlockKey, data: bytes, q: bytes)
    requires MemFresh(latest, puts, ino, q)
    ensures MemFresh(latest, Putting(puts, k, data), ino, q)
  {
  }

  lemma MemFreshInvalidate(latest: map<Key, bytes>, puts: Puts, ino: bytes -> nat, path: bytes, q: bytes)
    requires q != path ==> MemFresh(latest, puts, ino, q)
    ensures MemFresh(WithoutIno(latest, ino(path)), Forgetting(puts, path), ino, q)
  {
  }

  /** Block `k` is one of the blocks of a fetch of `path` that starts at `first`. */
  predicate InFetch(k: BlockKey, path: bytes, first: nat, blocks: seq<bytes>) {
    k.path == path && first <= k.block < first + |blocks|
  }

  ghost predicate PutsOfFetch(was: Puts, puts: Puts, path: bytes, first: nat, blocks: seq<bytes>) {
    forall k, d :: WasPut(puts, k, d) <==>
                   WasPut(was, k, d) || (InFetch(k, path, first, blocks) && d == blocks[k.block - first])
  }

  lemma PutsOfNext(was: Puts, puts: Puts, path: bytes, first: nat, blocks: seq<bytes>, n: nat)
    requires n < |blocks| && PutsOfFetch(was, puts, path, first, blocks[..n])
    ensures PutsOfFetch(was, Putting(puts, BlockKey(path, first + n), blocks[n]), path, first, blocks[..n + 1])
  {
    var puts' := Putting(puts, BlockKey(path, first + n), blocks[n]);
    forall k, d
      ensures WasPut(puts', k, d) <==>
              WasPut(was, k, d) || (InFetch(k, path, first, blocks[..n + 1]) && d == blocks[..n + 1][k.block - first])
    {
      assert WasPut(puts', k, d) <==> WasPut(puts, k, d) || (k == BlockKey(path, first + n) && d == blocks[n]);
    }
  }

  /** Memory after the blocks of a fetch have been put, with nothing evicted. */
  function Fetched(latest: map<Key, bytes>, ino: nat, first: nat, blocks: seq<bytes>): map<Key, bytes> {
    if blocks == [] then latest
    else
      var n := |blocks| - 1;
      Fetched(latest, ino, first, blocks[..n])[Key(ino, first + n) := blocks[n]]
  }

  lemma {:induction false} FetchedAt(latest: map<Key, bytes>, ino: nat, first: nat, blocks: seq<bytes>, k: Key)
    ensures var m := Fetched(latest, ino, first, blocks);
            if k.ino == ino && first <= k.block < first + |blocks| then k in m && m[k] == blocks[k.block - first]
            else (k in m <==> k in latest) && (k in m ==> m[k] == latest[k])
  {
    if blocks != [] {
      FetchedAt(latest, ino, first, blocks[..|blocks| - 1], k);
    }
  }

  predicate HoldsBlock(m: map<Key, bytes>, ino: nat, first: nat, blocks: seq<bytes>, i: nat)
    requires i < |blocks|
  {
    Key(ino, first + i) in m && m[Key(ino, first + i)] == blocks[i]
  }

  /** Memory holds every block of a fetch. */
  ghost predicate HoldsBlocks(m: map<Key, bytes>, ino: nat, first: nat, blocks: seq<bytes>) {
    forall i: nat :: i < |blocks| ==> HoldsBlock(m, ino, first, blocks, i)
  }

  lemma FetchedHolds(latest: map<Key, bytes>, ino: nat, first: nat, blocks: seq<bytes>)
    ensures HoldsBlocks(Fetched(latest, ino, first, blocks), ino, first, blocks)
  {
    forall i: nat | i < |blocks| ensures HoldsBlock(Fetched(latest, ino, first, blocks), ino, first, blocks, i) {
      FetchedAt(latest, ino, first, blocks, Key(ino, first + i));
    }
  }

  /** The block files after a fetch in which the writes with `opens` succeed. */
  function FetchedFiles(c: Codec, hash: bytes -> nat, files: Files, path: bytes, first: nat,
                        blocks: seq<bytes>, opens: seq<bool>): Files
    requires |path| <= MAX_PATH_LEN && |opens| == |blocks|
  {
    if blocks == [] then files
    else
      var n := |blocks| - 1;
      var before := FetchedFiles(c, hash, files, path, first, blocks[..n], opens[..n]);
      if opens[n] then before[FileOf(hash, BlockKey(path, first + n)) := Block(c, path, blocks[n])] else before
  }

  /** Each block that could be written is in its own file, and no other file has changed. */
  lemma {:induction false} FetchedFilesAt(c: Codec, hash: bytes -> nat, files: Files, path: bytes, first: nat,
                                          blocks: seq<bytes>, opens: seq<bool>, f: FileName)
    requires |path| <= MAX_PATH_LEN && |opens| == |blocks|
    ensures var m := FetchedFiles(c, hash, files, path, first, blocks, opens); var i := f.block - first;
            if f.hash == hash(path) && 0 <= i < |blocks| && opens[i] then f in m && m[f] == Block(c, path, blocks[i])
            else (f in m <==> f in files) && (f in m ==> m[f] == files[f])
  {
    hide Block;
    if blocks != [] {
      FetchedFilesAt(c, hash, files, path, first, blocks[..|blocks| - 1], opens[..|blocks| - 1], f);
    }
  }

  class MultiLevelCache {
    const l1: DashMapMemCache
    const l2: DiskBlockCache
    const ino: bytes -> nat

    ghost predicate Valid()
      reads this, l1, l2
    {
      l1.Valid() && l2.Valid() && OneInoPerPath(ino)
    }

    /** What is or will be served under the path was put for it since its last invalidation. */
    ghost predicate SoundFor(path: bytes)
      reads this, l1, l2
    {
      l2.SoundFor(path) && MemFresh(l1.latest, l2.puts, ino, path)
    }

    constructor (l1: DashMapMemCache, l2: DiskBlockCache, ino: bytes -> nat)
      requires l1.Valid() && l2.Valid() && OneInoPerPath(ino) && l1.latest == map[]
      ensures Valid() && this.l1 == l1 && this.l2 == l2 && this.ino == ino
      ensures forall q :: l2.SoundFor(q) ==> SoundFor(q)
    {
      this.l1, this.l2, this.ino := l1, l2, ino;
    }

    /** The cache between two calls, with no read and no checked write under way. */
    ghost predicate Shows(s: CacheRuns.State)
      reads this, l1, l2
    {
      && s.files == l2.files && s.index == l2.index && s.gens == l2.gens && s.jobs == l2.jobs && s.puts == l2.puts
      && s.writing == [] && s.missed == [] && s.holding == []
      && forall k: BlockKey :: var m := Key(ino(k.path), k.block);
                               (k in s.mem <==> m in l1.inner) && (k in s.mem ==> s.mem[k] == l1.inner[m])
    }

    ghost function RunConfig(): CacheRuns.Config {
      CacheRuns.Config(l2.codec, l2.hash, l2.directIo, l1.memLimit > 0, l2.cap)
    }

    /** From a sound path on, with every call split into its steps and run by any number of threads, no
        read gets old bytes of it before its next invalidation, as long as the table is not cleared. */
    lemma SoundIsSafe(s: CacheRuns.State, path: bytes)
      requires Valid() && SoundFor(path) && Shows(s)
      ensures CacheRuns.SafeUntilNext(RunConfig(), s, path, false)
    {
      hide BlockFormat.ReadBlock, SoundCodec, WasPut, CachedBytes, Known;
      assert CacheRuns.MemFresh(s, path) by {
        hide FilesOk, WritesOk;
        forall k | k in s.mem && k.path == path ensures WasPut(s.puts, k, s.mem[k]) {
          assert Key(ino(path), k.block) in l1.latest;
        }
      }
      hide Coherent, MemFresh;
      assert CacheRuns.FilesFresh(RunConfig(), s, path);
      assert CacheRuns.JobsFresh(RunConfig(), s, path, false);
      CacheRuns.StaleExactly(RunConfig(), s, path, false);
    }

    /** A lookup drops the block's file and entry: it is not in memory, and its file has expired. */
    ghost predicate Expires(path: bytes, block: nat, expired: bool)
      reads this, l1, l2
    {
      && Key(ino(path), block) !in l1.inner && !l2.directIo && expired
      && FileOf(l2.hash, BlockKey(path, block)) in l2.files
    }

    /** `read_block`: memory, then disk with a backfill of memory. Whatever the hash, an answer under a
        sound path is bytes put for this path and block since the path was last invalidated; and every
        sound path stays so, except that of an expired block with a current write queued. */
    method ReadBlock(path: bytes, block: nat, expired: bool, patience: nat) returns (r: Option<bytes>)
      requires Valid()
      modifies l1, l2`files, l2`index
      ensures Valid()
      ensures old(SoundFor(path)) && r.Some? ==> WasPut(l2.puts, BlockKey(path, block), r.value)
      ensures var k := BlockKey(path, block); var f := FileOf(l2.hash, k);
              r == if Key(ino(path), block) in old(l1.inner) then Some(old(l1.inner)[Key(ino(path), block)])
                   else if !l2.directIo && !expired && f in old(l2.files)
                           && BlockFormat.ReadBlock(l2.codec, old(l2.files)[f], path).Hit?
                   then Some(BlockFormat.ReadBlock(l2.codec, old(l2.files)[f], path).data)
                   else None
      ensures r.Some? ==> Key(ino(path), block) in l1.latest && l1.latest[Key(ino(path), block)] == r.value
      ensures l2.index == if old(Expires(path, block, expired)) then old(l2.index) - {BlockKey(path, block)} else old(l2.index)
      ensures var k := BlockKey(path, block);
              forall q :: old(SoundFor(q)) ==>
                          (SoundFor(q) <==> !old(Expires(path, block, expired)) || q != path || k in l2.indexing
                                            || Idle(l2.jobs, l2.gens, k))
    {
      hide BlockFormat.ReadBlock, WasPut, Coherent, CachedBytes, FilesOk, WritesOk, Known, SoundCodec, Idle;
      r := l1.Get(ino(path), block);
      if r.Some? {
        return;
      }
      hide MemFresh;
      r := l2.GetBlock(path, block, expired);
      if r.Some? {
        forall q | old(SoundFor(q)) ensures MemFresh(l1.latest[Key(ino(path), block) := r.value], l2.puts, ino, q) {
          MemFreshPut(l1.latest, l2.puts, ino, path, block, r.value, q);
        }
        var popped := l1.Put(ino(path), block, r.value, patience);
      }
    }

    /** `populate`: every block goes to disk, and to memory as the policy says. */
    method Populate(path: bytes, first: nat, blocks: seq<bytes>, admission: AdmissionPolicy,
                    opens: seq<bool>, patience: nat)
      requires Valid() && |opens| == |blocks|
      modifies l1, l2`files, l2`index, l2`puts
      ensures Valid()
      ensures PutsOfFetch(old(l2.puts), l2.puts, path, first, blocks)
      ensures l2.directIo || |path| > MAX_PATH_LEN ==> l2.files == old(l2.files) && l2.index == old(l2.index)
      ensures !l2.directIo && |path| <= MAX_PATH_LEN ==>
                l2.files == FetchedFiles(l2.codec, l2.hash, old(l2.files), path, first, blocks, opens)
      ensures !l2.directIo && |path| <= MAX_PATH_LEN ==>
                forall i :: 0 <= i < |blocks| && opens[i] ==> BlockKey(path, first + i) in l2.index
      ensures l1.latest == if Promotes(admission, |blocks|) then Fetched(old(l1.latest), ino(path), first, blocks)
                           else old(l1.latest)
      ensures admission.L2Only? || (admission.SingleBlockOnly? && |blocks| != 1) ==>
                l1.inner == old(l1.inner) && l1.latest == old(l1.latest)
      ensures admission.All? || (admission.SingleBlockOnly? && |blocks| == 1) ==>
                && HoldsBlocks(l1.latest, ino(path), first, blocks)
                && (l1.memLimit == 0 ==> HoldsBlocks(l1.inner, ino(path), first, blocks))
      ensures forall q :: old(SoundFor(q)) ==> SoundFor(q)
    {
      hide MemFresh, WasPut, Coherent, CachedBytes, FilesOk, WritesOk, Known, SoundCodec, Putting;
      hide HoldsBlocks, PutsOfFetch, Block, OneInoPerPath, Promotes, Fetched, FetchedFiles;
      var promote := Promotes(admission, |blocks|);
      var i := 0;
      NothingFetched(old(l2.puts), path, first, blocks);
      assert blocks[..0] == [] && opens[..0] == [];
      FetchedNone(l1.latest, ino(path), first);
      if |path| <= MAX_PATH_LEN {
        FetchedFilesNone(l2.codec, l2.hash, l2.files, path, first);
      }
      while i < |blocks|
        invariant i <= |blocks| && Valid() && forall q :: old(SoundFor(q)) ==> SoundFor(q)
        invariant PutsOfFetch(old(l2.puts), l2.puts, path, first, blocks[..i])
        invariant !promote ==> l1.inner == old(l1.inner)
        invariant l1.latest == if promote then Fetched(old(l1.latest), ino(path), first, blocks[..i])
                               else old(l1.latest)
        invariant l2.directIo || |path| > MAX_PATH_LEN ==> l2.files == old(l2.files) && l2.index == old(l2.index)
        invariant !l2.directIo && |path| <= MAX_PATH_LEN ==>
                    && l2.files == FetchedFiles(l2.codec, l2.hash, old(l2.files), path, first, blocks[..i], opens[..i])
                    && forall j :: 0 <= j < i && opens[j] ==> BlockKey(path, first + j) in l2.index
      {
        PutsOfNext(old(l2.puts), l2.puts, path, first, blocks, i);
        FetchedNext(old(l1.latest), ino(path), first, blocks, i);
        if |path| <= MAX_PATH_LEN {
          FetchedFilesNext(l2.codec, l2.hash, old(l2.files), path, first, blocks, opens, i);
        }
        PutIsPut(l2.puts, BlockKey(path, first + i), blocks[i]);
        forall q | old(SoundFor(q)) ensures MemFresh(l1.latest, Putting(l2.puts, BlockKey(path, first + i), blocks[i]), ino, q) {
          MemFreshGrow(l1.latest, l2.puts, ino, BlockKey(path, first + i), blocks[i], q);
        }
        var wrote := l2.PutBlock(path, first + i, blocks[i], opens[i]);
        if promote {
          forall q | old(SoundFor(q)) ensures MemFresh(l1.latest[Key(ino(path), first + i) := blocks[i]], l2.puts, ino, q) {
            MemFreshPut(l1.latest, l2.puts, ino, path, first + i, blocks[i], q);
          }
          var popped := l1.Put(ino(path), first + i, blocks[i], patience);
        }
        i := i + 1;
      }
      assert blocks[..i] == blocks && opens[..i] == opens;
      FetchedHolds(old(l1.latest), ino(path), first, blocks);
      PolicyPromotes(admission, |blocks|);
      Unlimited();
    }

    /** Without a limit memory is the plain map. */
    lemma Unlimited()
      requires Valid()
      ensures l1.memLimit == 0 ==> l1.inner == l1.latest
    {
    }

    /** `invalidate`: nothing put for the path before this call is served after it, exactly when all its
        readable blocks were indexed and its queued writes are out of date. */
    method Invalidate(path: bytes)
      requires Valid()
      modifies l1, l2`files, l2`index, l2`gens, l2`puts
      ensures Valid() && l2.puts == Forgetting(old(l2.puts), path)
      ensures l1.latest == WithoutIno(old(l1.latest), ino(path)) && l1.inner == WithoutIno(old(l1.inner), ino(path))
      ensures l2.files == old(l2.files) - FilesOf(l2.hash, BlocksOf(old(l2.index), path))
      ensures l2.index == old(l2.index) - BlocksOf(old(l2.index), path)
      ensures l2.gens == Bumped(old(l2.gens), path, l2.cap)
      ensures SoundFor(path) <==>
              old(AllIndexed(l2.codec, l2.hash, l2.files, l2.index.Keys, path)) && Outdated(l2.jobs, l2.gens, path)
      ensures old(SoundFor(path)) && old(|l2.gens|) < l2.cap && GenOf(old(l2.gens), path) + 1 < WRAP ==>
                Outdated(l2.jobs, l2.gens, path)
      ensures forall q :: q != path && old(SoundFor(q)) ==>
                          (SoundFor(q) <==> old(|l2.gens|) < l2.cap
                                            || UnbumpedWrites(l2.jobs, Known(l2.index, l2.indexing), l2.puts, q))
    {
      hide UnbumpedWrites, MemFresh, Coherent, CachedBytes, FilesOk, WritesOk, SoundCodec, OneInoPerPath, AllIndexed, Outdated;
      hide Forgetting, WithoutIno, FilesOf, BlocksOf, Bumped, Known;
      forall q | q == path || old(SoundFor(q))
        ensures MemFresh(WithoutIno(l1.latest, ino(path)), Forgetting(l2.puts, path), ino, q)
      {
        MemFreshInvalidate(l1.latest, l2.puts, ino, path, q);
      }
      l1.InvalidateIno(ino(path));
      l2.InvalidatePath(path);
    }
  }

  lemma NothingFetched(puts: Puts, path: bytes, first: nat, blocks: seq<bytes>)
    ensures PutsOfFetch(puts, puts, path, first, blocks[..0])
  {
  }

  lemma FetchedNone(latest: map<Key, bytes>, ino: nat, first: nat)
    ensures Fetched(latest, ino, first, []) == latest
  {
  }

  lemma FetchedFilesNone(c: Codec, hash: bytes -> nat, files: Files, path: bytes, first: nat)
    requires |path| <= MAX_PATH_LEN
    ensures FetchedFiles(c, hash, files, path, first, [], []) == files
  {
  }

  lemma {:induction false} FetchedNext(latest: map<Key, bytes>, ino: nat, first: nat, blocks: seq<bytes>, n: nat)
    requires n < |blocks|
    ensures Fetched(latest, ino, first, blocks[..n + 1]) ==
            Fetched(latest, ino, first, blocks[..n])[Key(ino, first + n) := blocks[n]]
  {
    assert blocks[..n + 1][..n] == blocks[..n];
  }

  lemma {:induction false} FetchedFilesNext(c: Codec, hash: bytes -> nat, files: Files, path: bytes, first: nat,
                                            blocks: seq<bytes>, opens: seq<bool>, n: nat)
    requires |path| <= MAX_PATH_LEN && |opens| == |blocks| && n < |blocks|
    ensures var before := FetchedFiles(c, hash, files, path, first, blocks[..n], opens[..n]);
            FetchedFiles(c, hash, files, path, first, blocks[..n + 1], opens[..n + 1]) ==
            if opens[n] then before[FileOf(hash, BlockKey(path, first + n)) := Block(c, path, blocks[n])] else before
  {
    hide Block;
    assert blocks[..n + 1][..n] == blocks[..n] && opens[..n + 1][..n] == opens[..n];
  }

  /** A write is queued, its index entry is dropped, and then the write is performed. */
  method WriteOrphan(l2: DiskBlockCache, path: bytes, data: bytes)
    requires l2.Valid() && l2.jobs == [] && !l2.directIo && |path| <= MAX_PATH_LEN
    modifies l2
    ensures l2.Valid() && BlockKey(path, 0) !in l2.index && l2.jobs == []
    ensures FileOf(l2.hash, BlockKey(path, 0)) in l2.files
    ensures l2.files[FileOf(l2.hash, BlockKey(path, 0))] == Block(l2.codec, path, data)
  {
    hide SoundCodec, FilesOk, WritesOk, Known, Block;
    l2.Submit(path, 0, data);
    l2.Index(path, 0, |data|);
    assert l2.jobs == [WriteJob(BlockKey(path, 0), data, GenOf(l2.gens, path))];
    l2.DropBlock(BlockKey(path, 0));
    l2.Execute(0, true);
  }

  /** When the index entry of a queued write is dropped before the write is performed, the block file
      escapes invalidation: bytes put before the path was invalidated are still served. */
  method OrphanServesStale(c: Codec, hash: bytes -> nat, ino: bytes -> nat, path: bytes, data: bytes)
    returns (r: Option<bytes>, ghost puts: Puts)
    requires SoundCodec(c) && OneInoPerPath(ino) && |path| <= MAX_PATH_LEN && |data| <= CACHE_BLOCK_SIZE
    ensures r == Some(data) && BlockKey(path, 0) !in puts
  {
    hide SoundCodec, OneInoPerPath, Coherent, CachedBytes, FilesOk, WritesOk, Block, BlockFormat.ReadBlock;
    var l1 := new DashMapMemCache(0);
    var l2 := new DiskBlockCache(c, hash, false, PATH_CACHE_GEN_HARD_CAP);
    WriteOrphan(l2, path, data);
    var cache := new MultiLevelCache(l1, l2, ino);
    cache.Invalidate(path);
    puts := l2.puts;
    ReadWrittenBlock(c, path, data, path);
    r := cache.ReadBlock(path, 0, false, 0);
  }

  /** The same when a path is invalidated after its write was performed and before it is indexed. */
  method LateIndexServesStale(c: Codec, hash: bytes -> nat, ino: bytes -> nat, path: bytes, data: bytes)
    returns (r: Option<bytes>, ghost puts: Puts)
    requires SoundCodec(c) && OneInoPerPath(ino) && |path| <= MAX_PATH_LEN && |data| <= CACHE_BLOCK_SIZE
    ensures r == Some(data) && BlockKey(path, 0) !in puts
  {
    hide SoundCodec, OneInoPerPath, Coherent, CachedBytes, FilesOk, WritesOk, Known, Block, BlockFormat.ReadBlock;
    var l1 := new DashMapMemCache(0);
    var l2 := new DiskBlockCache(c, hash, false, PATH_CACHE_GEN_HARD_CAP);
    WriteUnindexed(l2, path, data);
    var cache := new MultiLevelCache(l1, l2, ino);
    cache.Invalidate(path);
    l2.Index(path, 0, |data|);
    puts := l2.puts;
    ReadWrittenBlock(c, path, data, path);
    r := cache.ReadBlock(path, 0, false, 0);
  }

  method WriteUnindexed(l2: DiskBlockCache, path: bytes, data: bytes)
    requires l2.Valid() && l2.jobs == [] && l2.index == map[] && !l2.directIo && |path| <= MAX_PATH_LEN
    modifies l2
    ensures l2.Valid() && l2.index == map[] && BlockKey(path, 0) in l2.indexing
    ensures FileOf(l2.hash, BlockKey(path, 0)) in l2.files
    ensures l2.files[FileOf(l2.hash, BlockKey(path, 0))] == Block(l2.codec, path, data)
  {
    hide SoundCodec, FilesOk, WritesOk, Known, Block;
    l2.Submit(path, 0, data);
    assert l2.jobs == [WriteJob(BlockKey(path, 0), data, GenOf(l2.gens, path))];
    l2.Execute(0, true);
  }
}
