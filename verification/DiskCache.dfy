/** The on-disk block cache of `src/cache_layer.rs` with the block writes of the disk write pool. A
    block file is named by the hash of its path, and any two paths may collide. */
module DiskCache {
  import opened Wrappers
  import opened Crc32c
  import opened BlockFormat
  import opened PathGen

  datatype BlockKey = BlockKey(path: bytes, block: nat)

  datatype FileName = FileName(hash: nat, block: nat)

  /** A block write queued by a read, with the generation its path had then. */
  datatype WriteJob = WriteJob(key: BlockKey, data: bytes, gen: nat)

  type Files = map<FileName, bytes>

  function FileOf(hash: bytes -> nat, k: BlockKey): FileName {
    FileName(hash(k.path), k.block)
  }

  /** A lookup of `k` that finds its file finds `d` in it. */
  ghost predicate Serves(c: Codec, hash: bytes -> nat, files: Files, k: BlockKey, d: bytes) {
    FileOf(hash, k) in files && ReadBlock(c, files[FileOf(hash, k)], k.path) == Hit(d)
  }

  /** What was put under each key since its path was last invalidated. */
  type Puts = map<BlockKey, set<bytes>>

  predicate WasPut(puts: Puts, k: BlockKey, d: bytes) {
    k in puts && d in puts[k]
  }

  function Putting(puts: Puts, k: BlockKey, d: bytes): Puts {
    puts[k := (if k in puts then puts[k] else {}) + {d}]
  }

  function Forgetting(puts: Puts, path: bytes): Puts {
    map k | k in puts && k.path != path :: puts[k]
  }

  /** Every block readable under the path was put since its last invalidation, and is indexed or about to be
      (in `known`). */
  ghost predicate FilesOk(c: Codec, hash: bytes -> nat, files: Files, known: set<BlockKey>, puts: Puts, path: bytes) {
    forall k: BlockKey, d :: k.path == path && Serves(c, hash, files, k, d) ==> k in known && WasPut(puts, k, d)
  }

  predicate Current(j: WriteJob, gens: Table) {
    GenOf(gens, j.key.path) == j.gen
  }

  ghost predicate WriteOk(j: WriteJob, gens: Table, known: set<BlockKey>, puts: Puts) {
    && j.gen <= GenOf(gens, j.key.path)
    && (Current(j, gens) ==> j.key in known && WasPut(puts, j.key, j.data))
  }

  /** The same of every queued write of the path that is still current. */
  ghost predicate WritesOk(jobs: seq<WriteJob>, gens: Table, known: set<BlockKey>, puts: Puts, path: bytes) {
    forall j :: j in jobs && j.key.path == path ==> WriteOk(j, gens, known, puts)
  }

  // ----- Block files -----

  /** After a block is written to its file, the file serves that block alone: a colliding path finds
      nothing in it. */
  lemma ServesWritten(c: Codec, hash: bytes -> nat, files: Files, k0: BlockKey, data: bytes, k: BlockKey, d: bytes)
    requires SoundCodec(c) && |k0.path| <= MAX_PATH_LEN
    ensures Serves(c, hash, files[FileOf(hash, k0) := Block(c, k0.path, data)], k, d) <==>
            (if FileOf(hash, k) == FileOf(hash, k0) then k == k0 && d == data && |data| <= CACHE_BLOCK_SIZE
             else Serves(c, hash, files, k, d))
  {
    hide ReadBlock, Block;
    ReadWrittenBlock(c, k0.path, data, k.path);
  }

  lemma ServesKept(c: Codec, hash: bytes -> nat, files: Files, gone: set<FileName>, k: BlockKey, d: bytes)
    ensures Serves(c, hash, files - gone, k, d) <==> FileOf(hash, k) !in gone && Serves(c, hash, files, k, d)
  {
  }

  lemma WriteKeeps(c: Codec, hash: bytes -> nat, files: Files, known: set<BlockKey>, puts: Puts,
                   k0: BlockKey, data: bytes, path: bytes)
    requires SoundCodec(c) && |k0.path| <= MAX_PATH_LEN && FilesOk(c, hash, files, known, puts, path)
    requires k0.path == path ==> k0 in known && WasPut(puts, k0, data)
    ensures FilesOk(c, hash, files[FileOf(hash, k0) := Block(c, k0.path, data)], known, puts, path)
  {
    var files' := files[FileOf(hash, k0) := Block(c, k0.path, data)];
    hide Serves;
    forall k: BlockKey, d | k.path == path && Serves(c, hash, files', k, d) ensures k in known && WasPut(puts, k, d) {
      ServesWritten(c, hash, files, k0, data, k, d);
    }
  }

  /** Every readable block of the path is indexed. */
  ghost predicate AllIndexed(c: Codec, hash: bytes -> nat, files: Files, index: set<BlockKey>, path: bytes) {
    forall k: BlockKey, d :: k.path == path && Serves(c, hash, files, k, d) ==> k in index
  }

  /** A performed write leaves a readable block outside the index exactly when its key is not in it. */
  lemma OrphanedExactly(c: Codec, hash: bytes -> nat, files: Files, index: set<BlockKey>, j: WriteJob)
    requires SoundCodec(c) && |j.key.path| <= MAX_PATH_LEN && |j.data| <= CACHE_BLOCK_SIZE
    requires AllIndexed(c, hash, files, index, j.key.path)
    ensures AllIndexed(c, hash, files[FileOf(hash, j.key) := Block(c, j.key.path, j.data)], index, j.key.path) <==> j.key in index
  {
    var files' := files[FileOf(hash, j.key) := Block(c, j.key.path, j.data)];
    hide Serves;
    ServesWritten(c, hash, files, j.key, j.data, j.key, j.data);
    forall k: BlockKey, d | k.path == j.key.path && Serves(c, hash, files', k, d) ensures k in index || k == j.key {
      ServesWritten(c, hash, files, j.key, j.data, k, d);
    }
  }

  lemma RemoveKeeps(c: Codec, hash: bytes -> nat, files: Files, known: set<BlockKey>, puts: Puts,
                    gone: set<FileName>, keys: set<BlockKey>, path: bytes)
    requires FilesOk(c, hash, files, known, puts, path)
    requires forall k :: k in keys ==> FileOf(hash, k) in gone
    ensures FilesOk(c, hash, files - gone, known - keys, puts, path)
  {
    hide Serves;
    forall k: BlockKey, d | k.path == path && Serves(c, hash, files - gone, k, d) ensures k in known - keys && WasPut(puts, k, d) {
      ServesKept(c, hash, files, gone, k, d);
    }
  }

  // ----- Invalidation -----

  function BlocksOf(index: map<BlockKey, nat>, path: bytes): set<BlockKey> {
    set k | k in index && k.path == path
  }

  function FilesOf(hash: bytes -> nat, keys: set<BlockKey>): set<FileName> {
    set k | k in keys :: FileOf(hash, k)
  }

  /** Removing the files of a path's indexed blocks leaves of that path exactly the blocks that were
      readable but not indexed. */
  lemma InvalidationExact(c: Codec, hash: bytes -> nat, files: Files, index: map<BlockKey, nat>, k: BlockKey, d: bytes)
    ensures Serves(c, hash, files - FilesOf(hash, BlocksOf(index, k.path)), k, d) <==>
            Serves(c, hash, files, k, d) && k !in index
  {
    var keys := BlocksOf(index, k.path);
    ServesKept(c, hash, files, FilesOf(hash, keys), k, d);
    if FileOf(hash, k) in FilesOf(hash, keys) {
      var k' :| k' in keys && FileOf(hash, k') == FileOf(hash, k);
      assert k' == k;
    }
  }

  /** The keys that are indexed, or submitted and about to be. */
  ghost function Known(index: map<BlockKey, nat>, indexing: multiset<BlockKey>): set<BlockKey> {
    index.Keys + set k | k in indexing
  }

  /** After the invalidation of a path its files are sound exactly when all its readable blocks had been
      indexed, whatever was served before. */
  lemma InvalidatedFiles(c: Codec, hash: bytes -> nat, files: Files, index: map<BlockKey, nat>, known: set<BlockKey>,
                         puts: Puts, path: bytes)
    ensures FilesOk(c, hash, files - FilesOf(hash, BlocksOf(index, path)), known, Forgetting(puts, path), path) <==>
            AllIndexed(c, hash, files, index.Keys, path)
  {
    var files' := files - FilesOf(hash, BlocksOf(index, path));
    hide Serves;
    forall k: BlockKey, d | k.path == path ensures Serves(c, hash, files', k, d) <==> Serves(c, hash, files, k, d) && k !in index {
      InvalidationExact(c, hash, files, index, k, d);
    }
    assert forall k: BlockKey, d :: k.path == path ==> !WasPut(Forgetting(puts, path), k, d);
  }

  lemma OtherFiles(c: Codec, hash: bytes -> nat, files: Files, index: map<BlockKey, nat>, indexing: multiset<BlockKey>,
                   puts: Puts, path: bytes, q: bytes)
    requires q != path && FilesOk(c, hash, files, Known(index, indexing), puts, q)
    ensures var keys := BlocksOf(index, path);
            FilesOk(c, hash, files - FilesOf(hash, keys), Known(index - keys, indexing), Forgetting(puts, path), q)
  {
    hide Serves;
    var keys := BlocksOf(index, path);
    forall k: BlockKey, d | k.path == q && Serves(c, hash, files - FilesOf(hash, keys), k, d)
      ensures k in Known(index - keys, indexing) && WasPut(Forgetting(puts, path), k, d)
    {
      ServesKept(c, hash, files, FilesOf(hash, keys), k, d);
    }
  }

  /** Every queued write of the path is out of date. */
  predicate Outdated(jobs: seq<WriteJob>, gens: Table, path: bytes) {
    forall j :: j in jobs && j.key.path == path ==> j.gen < GenOf(gens, path)
  }

  lemma InvalidatedWrites(jobs: seq<WriteJob>, gens: Table, known: set<BlockKey>, puts: Puts, path: bytes)
    ensures WritesOk(jobs, gens, known, Forgetting(puts, path), path) <==> Outdated(jobs, gens, path)
  {
    forall j | j in jobs && j.key.path == path
      ensures WriteOk(j, gens, known, Forgetting(puts, path)) <==> j.gen < GenOf(gens, path)
    {
    }
  }

  /** A bump that neither wraps nor clears the table puts every queued write of the path out of date, */
  lemma CleanBumpOutdates(jobs: seq<WriteJob>, gens: Table, known: set<BlockKey>, puts: Puts, path: bytes, cap: nat)
    requires WritesOk(jobs, gens, known, puts, path) && |gens| < cap && GenOf(gens, path) + 1 < WRAP
    ensures Outdated(jobs, Bumped(gens, path, cap), path)
  {
    forall j | j in jobs && j.key.path == path ensures j.gen < GenOf(Bumped(gens, path, cap), path) {
      assert WriteOk(j, gens, known, puts);
    }
  }

  /** and one that does not clear it leaves those of other paths alone. */
  lemma OtherWrites(jobs: seq<WriteJob>, gens: Table, index: map<BlockKey, nat>, indexing: multiset<BlockKey>,
                    puts: Puts, path: bytes, cap: nat, q: bytes)
    requires q != path && WritesOk(jobs, gens, Known(index, indexing), puts, q) && |gens| < cap
    ensures WritesOk(jobs, Bumped(gens, path, cap), Known(index - BlocksOf(index, path), indexing), Forgetting(puts, path), q)
  {
    var known' := Known(index - BlocksOf(index, path), indexing);
    forall j | j in jobs && j.key.path == q ensures WriteOk(j, Bumped(gens, path, cap), known', Forgetting(puts, path)) {
      assert WriteOk(j, gens, Known(index, indexing), puts);
    }
  }

  /** Every queued write of the path carries generation zero, and what it writes is known and put since the
      last invalidation. */
  ghost predicate UnbumpedWrites(jobs: seq<WriteJob>, known: set<BlockKey>, puts: Puts, path: bytes) {
    forall j :: j in jobs && j.key.path == path ==> j.gen == 0 && j.key in known && WasPut(puts, j.key, j.data)
  }

  /** A bump that clears the table leaves those of another path sound exactly when they are unbumped: with
      generation zero they become current, and with any other they are ahead of the table. */
  lemma ClearedWrites(jobs: seq<WriteJob>, gens: Table, known: set<BlockKey>, puts: Puts, path: bytes, cap: nat, q: bytes)
    requires q != path && |gens| >= cap
    ensures WritesOk(jobs, Bumped(gens, path, cap), known, puts, q) <==> UnbumpedWrites(jobs, known, puts, q)
  {
    forall j | j in jobs && j.key.path == q
      ensures WriteOk(j, Bumped(gens, path, cap), known, puts) <==>
              j.gen == 0 && j.key in known && WasPut(puts, j.key, j.data)
    {
    }
  }

  // ----- Other changes -----

  lemma JobsGrow(jobs: seq<WriteJob>, gens: Table, known: set<BlockKey>, puts: Puts, k: BlockKey, d: bytes, path: bytes)
    requires WritesOk(jobs, gens, known, puts, path)
    ensures WritesOk(jobs, gens, known, Putting(puts, k, d), path)
    ensures WritesOk(jobs, gens, known + {k}, Putting(puts, k, d), path)
  {
    forall j | j in jobs && j.key.path == path
      ensures WriteOk(j, gens, known, Putting(puts, k, d)) && WriteOk(j, gens, known + {k}, Putting(puts, k, d))
    {
      assert WriteOk(j, gens, known, puts);
    }
  }

  lemma FilesGrow(c: Codec, hash: bytes -> nat, files: Files, known: set<BlockKey>, puts: Puts, k: BlockKey, d: bytes, path: bytes)
    requires FilesOk(c, hash, files, known, puts, path)
    ensures FilesOk(c, hash, files, known, Putting(puts, k, d), path)
    ensures FilesOk(c, hash, files, known + {k}, Putting(puts, k, d), path)
  {
    hide Serves;
  }

  /** Queued writes for `k` are all out of date. */
  predicate Idle(jobs: seq<WriteJob>, gens: Table, k: BlockKey) {
    forall j :: j in jobs && j.key == k ==> !Current(j, gens)
  }

  lemma JobsDrop(jobs: seq<WriteJob>, gens: Table, known: set<BlockKey>, puts: Puts, k: BlockKey, path: bytes)
    requires WritesOk(jobs, gens, known, puts, path)
    ensures WritesOk(jobs, gens, known - {k}, puts, path) <==> k.path != path || Idle(jobs, gens, k)
  {
    forall j | j in jobs && j.key.path == path
      ensures WriteOk(j, gens, known - {k}, puts) <==> j.key != k || !Current(j, gens)
    {
      assert WriteOk(j, gens, known, puts);
    }
  }

  lemma KnownDrop(index: map<BlockKey, nat>, indexing: multiset<BlockKey>, k: BlockKey)
    ensures Known(index - {k}, indexing) == if k in indexing then Known(index, indexing) else Known(index, indexing) - {k}
  {
  }

  lemma KnownMore(index: map<BlockKey, nat>, indexing: multiset<BlockKey>, k: BlockKey, size: nat)
    ensures Known(index[k := size], indexing) == Known(index, indexing) + {k}
    ensures Known(index, indexing + multiset{k}) == Known(index, indexing) + {k}
    ensures k in indexing ==> Known(index[k := size], indexing - multiset{k}) == Known(index, indexing)
  {
    assert forall x :: x in indexing + multiset{k} <==> x in indexing || x == k;
    assert forall x :: x != k ==> (x in indexing - multiset{k} <==> x in indexing);
  }

  lemma PutIsPut(puts: Puts, k: BlockKey, d: bytes)
    ensures WasPut(Putting(puts, k, d), k, d)
  {
  }

  lemma FilesOfMore(hash: bytes -> nat, keys: set<BlockKey>, k: BlockKey)
    ensures FilesOf(hash, keys + {k}) == FilesOf(hash, keys) + {FileOf(hash, k)}
  {
  }

  lemma DamageKeeps(c: Codec, hash: bytes -> nat, files: Files, known: set<BlockKey>, puts: Puts,
                    k0: BlockKey, data: bytes, g: bytes, at: nat, path: bytes)
    requires |k0.path| <= MAX_PATH_LEN && 4 <= at && DiffersInWindow(Block(c, k0.path, data), g, at)
    requires FilesOk(c, hash, files, known, puts, path)
    ensures FilesOk(c, hash, files[FileOf(hash, k0) := g], known, puts, path)
  {
    hide ReadBlock, DiffersInWindow, Block;
    var files' := files[FileOf(hash, k0) := g];
    forall k: BlockKey, d | k.path == path && Serves(c, hash, files', k, d) ensures k in known && WasPut(puts, k, d) {
      BurstRejected(c, k0.path, data, g, at, k.path);
      assert Serves(c, hash, files, k, d);
    }
  }

  /** `indexing`: blocks between their submit and their index entry. `puts` is only recorded. */
  class DiskBlockCache {
    const codec: Codec
    const hash: bytes -> nat
    const directIo: bool
    const cap: nat
    var files: Files
    var index: map<BlockKey, nat>
    var gens: Table
    var jobs: seq<WriteJob>
    ghost var indexing: multiset<BlockKey>
    ghost var puts: Puts

    ghost predicate Valid()
      reads this
    {
      SoundCodec(codec)
    }

    /** What is or will be served under the path was put for it since its last invalidation. */
    ghost predicate SoundFor(path: bytes)
      reads this
    {
      && FilesOk(codec, hash, files, Known(index, indexing), puts, path)
      && WritesOk(jobs, gens, Known(index, indexing), puts, path)
    }

    constructor (codec: Codec, hash: bytes -> nat, directIo: bool, cap: nat)
      requires SoundCodec(codec)
      ensures Valid() && puts == map[] && files == map[] && index == map[] && gens == map[] && jobs == []
      ensures indexing == multiset{} && forall q :: SoundFor(q)
      ensures this.codec == codec && this.hash == hash && this.directIo == directIo && this.cap == cap
    {
      this.codec, this.hash, this.directIo, this.cap := codec, hash, directIo, cap;
      files, index, gens, jobs, puts := map[], map[], map[], [], map[];
      indexing := multiset{};
    }

    /** Drop a block file together with its index entry: LRU eviction, the age sweep and an expired
        lookup all do this. The path stays sound exactly when no current write for the block is queued, or
        the block is about to be indexed again. */
    method DropBlock(k: BlockKey)
      requires Valid()
      modifies this`files, this`index
      ensures Valid() && files == old(files) - {FileOf(hash, k)} && index == old(index) - {k}
      ensures forall q :: old(SoundFor(q)) ==> (SoundFor(q) <==> q != k.path || k in indexing || Idle(jobs, gens, k))
    {
      hide FilesOk, WritesOk, SoundCodec, Known, Idle;
      files := files - {FileOf(hash, k)};
      index := index - {k};
      ghost var known := Known(old(index), indexing);
      KnownDrop(old(index), indexing, k);
      forall q | old(SoundFor(q)) ensures SoundFor(q) <==> q != k.path || k in indexing || Idle(jobs, gens, k) {
        RemoveKeeps(codec, hash, old(files), known, puts, {FileOf(hash, k)}, if k in indexing then {} else {k}, q);
        assert known - {} == known;
        JobsDrop(jobs, gens, known, puts, k, q);
      }
    }

    /** `get_block`: nothing, or bytes put for this very path and block since it was invalidated.
        `expired` is the age test on the file. */
    method GetBlock(path: bytes, block: nat, expired: bool) returns (r: Option<bytes>)
      requires Valid()
      modifies this`files, this`index
      ensures Valid()
      ensures var k := BlockKey(path, block); var f := FileOf(hash, k);
              && (r.Some? <==> !directIo && !expired && f in old(files) && ReadBlock(codec, old(files[f]), path).Hit?)
              && (r.Some? ==> ReadBlock(codec, old(files[f]), path) == Hit(r.value))
              && files == (if r.Some? || directIo then old(files) else old(files) - {f})
              && index == (if !directIo && f in old(files) && expired then old(index) - {k} else old(index))
      ensures var k := BlockKey(path, block); var dropped := !directIo && FileOf(hash, k) in old(files) && expired;
              forall q :: old(SoundFor(q)) ==>
                          (SoundFor(q) <==> !dropped || q != path || k in indexing || Idle(jobs, gens, k))
      ensures old(SoundFor(path)) && r.Some? ==> WasPut(puts, BlockKey(path, block), r.value)
    {
      hide FilesOk, WritesOk, SoundCodec, ReadBlock, Known, Idle;
      var k := BlockKey(path, block);
      var f := FileOf(hash, k);
      if directIo {
        return None;
      }
      if f !in files {
        assert files - {f} == files;
        return None;
      }
      if expired {
        DropBlock(k);
        return None;
      }
      match ReadBlock(codec, files[f], path)
      case Hit(d) =>
        HitWasPut(k, d);
        return Some(d);
      case Reject =>
        files := files - {f};
        forall q | old(SoundFor(q)) ensures SoundFor(q) {
          RemoveKeeps(codec, hash, old(files), Known(index, indexing), puts, {f}, {}, q);
          assert Known(index, indexing) - {} == Known(index, indexing);
        }
        return None;
    }

    lemma HitWasPut(k: BlockKey, d: bytes)
      requires Serves(codec, hash, files, k, d)
      ensures SoundFor(k.path) ==> WasPut(puts, k, d)
    {
    }

    /** The block file itself, when the serializer takes the path and the file can be written. */
    method WriteFile(k: BlockKey, data: bytes, opens: bool) returns (size: Option<nat>)
      requires Valid()
      modifies this`files
      ensures Valid() && (size.Some? <==> opens && |k.path| <= MAX_PATH_LEN)
      ensures size.Some? ==> && files == old(files)[FileOf(hash, k) := Block(codec, k.path, data)]
                             && size.value == |Block(codec, k.path, data)|
      ensures size.None? ==> files == old(files)
      ensures forall q :: old(SoundFor(q)) && (q != k.path || (k in Known(index, indexing) && WasPut(puts, k, data)))
                          ==> SoundFor(q)
    {
      hide FilesOk, WritesOk, SoundCodec, WasPut, Block, Known;
      var buf := SerializeV3Block(codec, k.path, data);
      if buf.None? || !opens {
        return None;
      }
      files := files[FileOf(hash, k) := buf.value];
      forall q | old(SoundFor(q)) && (q != k.path || (k in Known(index, indexing) && WasPut(puts, k, data)))
        ensures SoundFor(q)
      {
        WriteKeeps(codec, hash, old(files), Known(index, indexing), puts, k, data, q);
      }
      return Some(|buf.value|);
    }

    /** Record a put, and that the block is known; the file is not touched. */
    lemma Promised(index': map<BlockKey, nat>, indexing': multiset<BlockKey>, k: BlockKey, d: bytes, q: bytes)
      requires SoundFor(q)
      requires Known(index', indexing') == Known(index, indexing) || Known(index', indexing') == Known(index, indexing) + {k}
      ensures FilesOk(codec, hash, files, Known(index', indexing'), Putting(puts, k, d), q)
      ensures WritesOk(jobs, gens, Known(index', indexing'), Putting(puts, k, d), q)
    {
      hide FilesOk, WritesOk, Putting, Known;
      FilesGrow(codec, hash, files, Known(index, indexing), puts, k, d, q);
      JobsGrow(jobs, gens, Known(index, indexing), puts, k, d, q);
    }

    /** `put_block`. */
    method PutBlock(path: bytes, block: nat, data: bytes, opens: bool) returns (wrote: bool)
      requires Valid()
      modifies this`files, this`index, this`puts
      ensures Valid() && puts == Putting(old(puts), BlockKey(path, block), data)
      ensures wrote <==> !directIo && opens && |path| <= MAX_PATH_LEN
      ensures !wrote ==> files == old(files) && index == old(index)
      ensures var k := BlockKey(path, block);
              wrote ==> && files == old(files)[FileOf(hash, k) := Block(codec, path, data)]
                        && index == old(index)[k := |Block(codec, path, data)|]
      ensures forall q :: old(SoundFor(q)) ==> SoundFor(q)
    {
      hide FilesOk, WritesOk, SoundCodec, Putting, Block, Known, WasPut;
      var k := BlockKey(path, block);
      var buf := SerializeV3Block(codec, path, data);
      wrote := !directIo && buf.Some? && opens;
      if wrote {
        KnownMore(index, indexing, k, |buf.value|);
      }
      ghost var index' := if wrote then index[k := |buf.value|] else index;
      forall q | old(SoundFor(q))
        ensures FilesOk(codec, hash, files, Known(index', indexing), Putting(puts, k, data), q)
        ensures WritesOk(jobs, gens, Known(index', indexing), Putting(puts, k, data), q)
      {
        Promised(index', indexing, k, data, q);
      }
      PutIsPut(puts, k, data);
      puts := Putting(puts, k, data);
      if wrote {
        index := index[k := |buf.value|];
        var size := WriteFile(k, data, true);
      }
    }

    /** A read that fetched a block queues its write, */
    method Submit(path: bytes, block: nat, data: bytes)
      requires Valid()
      modifies this`jobs, this`indexing, this`puts
      ensures Valid()
      ensures var k := BlockKey(path, block);
              if directIo then puts == old(puts) && jobs == old(jobs) && indexing == old(indexing)
              else && puts == Putting(old(puts), k, data) && indexing == old(indexing) + multiset{k}
                   && jobs == old(jobs) + [WriteJob(k, data, GenOf(gens, path))]
      ensures forall q :: old(SoundFor(q)) ==> SoundFor(q)
    {
      hide FilesOk, SoundCodec, Putting, Known, WasPut;
      if directIo {
        return;
      }
      var k := BlockKey(path, block);
      KnownMore(index, indexing, k, 0);
      PutIsPut(puts, k, data);
      ghost var indexing' := indexing + multiset{k};
      forall q | old(SoundFor(q))
        ensures FilesOk(codec, hash, files, Known(index, indexing'), Putting(puts, k, data), q)
        ensures WritesOk(jobs, gens, Known(index, indexing'), Putting(puts, k, data), q)
      {
        Promised(index, indexing', k, data, q);
      }
      jobs := jobs + [WriteJob(k, data, GenOf(gens, path))];
      indexing := indexing + multiset{k};
      puts := Putting(puts, k, data);
    }

    /** and then indexes it. */
    method Index(path: bytes, block: nat, size: nat)
      requires Valid() && BlockKey(path, block) in indexing
      modifies this`index, this`indexing
      ensures Valid() && index == old(index)[BlockKey(path, block) := size + BLOCK_OVERHEAD]
      ensures indexing == old(indexing) - multiset{BlockKey(path, block)}
      ensures forall q :: old(SoundFor(q)) ==> SoundFor(q)
    {
      hide FilesOk, WritesOk, SoundCodec, Known;
      var k := BlockKey(path, block);
      KnownMore(index, indexing, k, size + BLOCK_OVERHEAD);
      index := index[k := size + BLOCK_OVERHEAD];
      indexing := indexing - multiset{k};
    }

    /** A pool worker runs the queued write `i`: it is performed exactly when its path has the
        generation it was queued with. */
    method Execute(i: nat, opens: bool)
      requires Valid() && i < |jobs|
      modifies this`jobs, this`files
      ensures Valid() && jobs == old(jobs)[..i] + old(jobs)[i + 1..]
      ensures var j := old(jobs)[i];
              if Current(j, gens) && opens && |j.key.path| <= MAX_PATH_LEN
              then files == old(files)[FileOf(hash, j.key) := Block(codec, j.key.path, j.data)]
              else files == old(files)
      ensures forall q :: old(SoundFor(q)) ==> SoundFor(q)
    {
      hide FilesOk, SoundCodec, WasPut, Block, Known;
      var j := jobs[i];
      assert old(SoundFor(j.key.path)) ==> WriteOk(j, gens, Known(index, indexing), puts);
      jobs := jobs[..i] + jobs[i + 1..];
      assert forall q :: old(SoundFor(q)) ==> SoundFor(q);
      if GenOf(gens, j.key.path) == j.gen {
        hide WritesOk;
        var size := WriteFile(j.key, j.data, opens);
      }
    }

    /** `invalidate_path`: the files of the path's indexed blocks go, then their entries, and queued
        writes of the path go out of date. Whatever was served before, the path is sound afterwards
        exactly when all its readable blocks were indexed and all its queued writes are out of date; other
        paths stay sound exactly when the table is not cleared or their queued writes are unbumped. */
    method InvalidatePath(path: bytes)
      requires Valid()
      modifies this`files, this`index, this`gens, this`puts
      ensures Valid() && puts == Forgetting(old(puts), path)
      ensures files == old(files) - FilesOf(hash, BlocksOf(old(index), path))
      ensures index == old(index) - BlocksOf(old(index), path)
      ensures gens == Bumped(old(gens), path, cap)
      ensures SoundFor(path) <==> old(AllIndexed(codec, hash, files, index.Keys, path)) && Outdated(jobs, gens, path)
      ensures old(SoundFor(path)) && old(|gens|) < cap && GenOf(old(gens), path) + 1 < WRAP ==> Outdated(jobs, gens, path)
      ensures forall q :: q != path && old(SoundFor(q)) ==>
                          (SoundFor(q) <==> old(|gens|) < cap || UnbumpedWrites(jobs, Known(index, indexing), puts, q))
    {
      hide UnbumpedWrites, FilesOk, WritesOk, SoundCodec, Forgetting, Bumped, FilesOf, BlocksOf, Known, AllIndexed, Outdated;
      var keys := BlocksOf(index, path);
      puts := Forgetting(puts, path);
      RemoveBlocks(keys);
      gens := Bumped(gens, path, cap);
      InvalidatedFiles(codec, hash, old(files), old(index), Known(index, indexing), old(puts), path);
      InvalidatedWrites(jobs, gens, Known(index, indexing), old(puts), path);
      if old(SoundFor(path)) && old(|gens|) < cap && GenOf(old(gens), path) + 1 < WRAP {
        CleanBumpOutdates(jobs, old(gens), Known(old(index), indexing), old(puts), path, cap);
      }
      forall q | q != path && old(SoundFor(q))
        ensures SoundFor(q) <==> old(|gens|) < cap || UnbumpedWrites(jobs, Known(index, indexing), puts, q)
      {
        OtherFiles(codec, hash, old(files), old(index), indexing, old(puts), path, q);
        if old(|gens|) < cap {
          OtherWrites(jobs, old(gens), old(index), indexing, old(puts), path, cap, q);
        } else {
          ClearedWrites(jobs, old(gens), Known(index, indexing), puts, path, cap, q);
        }
      }
    }

    method RemoveBlocks(keys: set<BlockKey>)
      modifies this`files, this`index
      ensures files == old(files) - FilesOf(hash, keys) && index == old(index) - keys
    {
      var rest := keys;
      while rest != {}
        invariant rest <= keys
        invariant files == old(files) - FilesOf(hash, keys - rest) && index == old(index) - (keys - rest)
        decreases |rest|
      {
        var k :| k in rest;
        FilesOfMore(hash, keys - rest, k);
        hide FilesOf;
        files := files - {FileOf(hash, k)};
        index := index - {k};
        assert keys - (rest - {k}) == keys - rest + {k};
        rest := rest - {k};
      }
      assert keys - rest == keys;
    }
  }
}
