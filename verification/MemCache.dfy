/** The in-memory block cache of `src/cache.rs`: a map with a reverse index per inode, a queue of
    eviction candidates and a byte counter, kept beside the plain map it stands for. */
module MemCache {
  import opened Wrappers
  import opened Crc32c
  import opened MapTotal

  datatype Key = Key(ino: nat, block: nat)

  ghost function Sizes(m: map<Key, seq<byte>>): map<Key, nat> {
    map k | k in m :: |m[k]|
  }

  /** The bytes held by a cache. */
  ghost function CachedBytes(m: map<Key, seq<byte>>): nat {
    Total(Sizes(m))
  }

  ghost function Blocks(m: map<Key, seq<byte>>): nat {
    |m|
  }

  function KeysOf(q: seq<Key>): set<Key> {
    set k | k in q
  }

  /** The keys of `q` that do not belong to `ino`, in order. */
  function Retain(q: seq<Key>, ino: nat): (r: seq<Key>)
    ensures forall k :: k in r <==> k in q && k.ino != ino
  {
    if q == [] then []
    else if q[0].ino == ino then Retain(q[1..], ino)
    else [q[0]] + Retain(q[1..], ino)
  }

  lemma {:induction false} RetainAll(q: seq<Key>, ino: nat)
    requires forall k :: k in q ==> k.ino != ino
    ensures Retain(q, ino) == q
  {
    if q != [] {
      RetainAll(q[1..], ino);
      assert q[0] in q;
    }
  }

  function WithoutIno(m: map<Key, seq<byte>>, ino: nat): map<Key, seq<byte>> {
    map k | k in m && k.ino != ino :: m[k]
  }

  lemma BytesRemove(m: map<Key, seq<byte>>, k: Key)
    requires k in m
    ensures CachedBytes(m) == CachedBytes(m - {k}) + |m[k]|
  {
    TotalRemove(Sizes(m), k);
    assert Sizes(m) - {k} == Sizes(m - {k});
  }

  lemma BytesInsert(m: map<Key, seq<byte>>, k: Key, d: seq<byte>)
    requires k !in m
    ensures CachedBytes(m[k := d]) == CachedBytes(m) + |d|
  {
    TotalUpdate(Sizes(m), k, |d|);
    assert Sizes(m[k := d]) == Sizes(m)[k := |d|];
  }

  lemma BytesShrink(m: map<Key, seq<byte>>, k: Key)
    ensures CachedBytes(m - {k}) <= CachedBytes(m)
  {
    if k in m {
      BytesRemove(m, k);
    } else {
      assert m - {k} == m;
    }
  }

  lemma EmptyBytes()
    ensures CachedBytes(map[]) == 0
  {
  }

  /** What is left of `m` once the first `n` queued keys have been evicted. */
  ghost function Evicted(m: map<Key, seq<byte>>, q: seq<Key>, n: nat): map<Key, seq<byte>>
    requires n <= |q|
  {
    m - KeysOf(q[..n])
  }

  lemma EvictNone(m: map<Key, seq<byte>>, q: seq<Key>)
    ensures Evicted(m, q, 0) == m
  {
  }

  /** Each of the first `n` evictions was made while the new block did not fit. */
  ghost predicate EachNeeded(m: map<Key, seq<byte>>, q: seq<Key>, n: nat, size: nat, limit: nat)
    requires n <= |q|
  {
    forall i :: 0 <= i < n ==> CachedBytes(Evicted(m, q, i)) + size > limit
  }

  lemma EvictMore(m: map<Key, seq<byte>>, q: seq<Key>, n: nat)
    requires n < |q|
    ensures Evicted(m, q, n + 1) == Evicted(m, q, n) - {q[n]}
    ensures forall size, limit :: EachNeeded(m, q, n, size, limit) && CachedBytes(Evicted(m, q, n)) + size > limit
                                  ==> EachNeeded(m, q, n + 1, size, limit)
  {
    assert q[..n + 1] == q[..n] + [q[n]];
    assert KeysOf(q[..n + 1]) == KeysOf(q[..n]) + {q[n]};
  }

  /** Every cached key is queued, every queued key is indexed under its inode, and every cached
      block is the latest put; without a limit nothing is ever missing. */
  ghost predicate Coherent(inner: map<Key, seq<byte>>, byIno: map<nat, set<Key>>, order: seq<Key>,
                           latest: map<Key, seq<byte>>, limit: nat)
  {
    && (forall k :: k in inner ==> k in order)
    && (forall k :: k in order ==> k.ino in byIno && k in byIno[k.ino])
    && (forall i, k :: i in byIno && k in byIno[i] ==> k.ino == i)
    && (forall k :: k in inner ==> k in latest && latest[k] == inner[k])
    && (limit == 0 ==> inner == latest)
  }

  lemma CoherentEvict(inner: map<Key, seq<byte>>, byIno: map<nat, set<Key>>, order: seq<Key>,
                      latest: map<Key, seq<byte>>, limit: nat)
    requires Coherent(inner, byIno, order, latest, limit) && order != [] && limit > 0
    ensures Coherent(inner - {order[0]}, byIno, order[1..], latest, limit)
  {
    assert order == [order[0]] + order[1..];
  }

  lemma EvictOne(m: map<Key, seq<byte>>, k: Key)
    ensures Blocks(m - {k}) == Blocks(m) - if k in m then 1 else 0
    ensures CachedBytes(m) == CachedBytes(m - {k}) + if k in m then |m[k]| else 0
  {
    if k in m {
      assert m.Keys == (m - {k}).Keys + {k};
      BytesRemove(m, k);
    } else {
      assert m == m - {k};
    }
  }

  lemma NothingQueued(inner: map<Key, seq<byte>>, byIno: map<nat, set<Key>>,
                      latest: map<Key, seq<byte>>, limit: nat)
    requires Coherent(inner, byIno, [], latest, limit)
    ensures inner == map[]
  {
  }

  lemma CoherentStore(inner: map<Key, seq<byte>>, byIno: map<nat, set<Key>>, order: seq<Key>,
                      latest: map<Key, seq<byte>>, limit: nat, key: Key, d: seq<byte>)
    requires Coherent(inner, byIno, order, latest, limit)
    ensures var keys := (if key.ino in byIno then byIno[key.ino] else {}) + {key};
            Coherent(inner[key := d], byIno[key.ino := keys], order + [key], latest[key := d], limit)
  {
  }

  lemma CoherentInvalidate(inner: map<Key, seq<byte>>, byIno: map<nat, set<Key>>, order: seq<Key>,
                           latest: map<Key, seq<byte>>, limit: nat, ino: nat)
    requires Coherent(inner, byIno, order, latest, limit)
    ensures Coherent(WithoutIno(inner, ino), byIno - {ino}, Retain(order, ino), WithoutIno(latest, ino), limit)
    ensures ino in byIno ==> WithoutIno(inner, ino) == inner - byIno[ino]
    ensures ino !in byIno ==> WithoutIno(inner, ino) == inner && Retain(order, ino) == order && byIno - {ino} == byIno
  {
    if ino !in byIno {
      RetainAll(order, ino);
    }
  }

  class DashMapMemCache {
    const memLimit: nat
    var inner: map<Key, seq<byte>>
    var byIno: map<nat, set<Key>>
    var order: seq<Key>
    var used: nat
    var hits: nat
    var misses: nat
    var inserts: nat
    var evictions: nat
    /** The plain map: every put since the last removal of its key, with nothing ever evicted. */
    ghost var latest: map<Key, seq<byte>>

    ghost predicate Valid()
      reads this
    {
      used == CachedBytes(inner) && Coherent(inner, byIno, order, latest, memLimit)
    }

    constructor (limit: nat)
      ensures Valid() && memLimit == limit && latest == map[] && inner == map[]
      ensures hits == 0 && misses == 0 && inserts == 0 && evictions == 0
    {
      memLimit := limit;
      inner, byIno, order, used := map[], map[], [], 0;
      hits, misses, inserts, evictions := 0, 0, 0, 0;
      latest := map[];
    }

    /** `get`: the latest put of this block, or nothing; without a limit exactly the plain map. */
    method Get(ino: nat, block: nat) returns (r: Option<seq<byte>>)
      requires Valid()
      modifies this`hits, this`misses
      ensures Valid()
      ensures r == if Key(ino, block) in inner then Some(inner[Key(ino, block)]) else None
      ensures r.Some? ==> Key(ino, block) in latest && r.value == latest[Key(ino, block)]
      ensures memLimit == 0 && r.None? ==> Key(ino, block) !in latest
      ensures hits + misses == old(hits + misses) + 1 && (r.Some? <==> hits == old(hits) + 1)
    {
      var key := Key(ino, block);
      if key in inner {
        r := Some(inner[key]);
        hits := hits + 1;
      } else {
        r := None;
        misses := misses + 1;
      }
    }

    /** One turn of the eviction loop: the oldest queued key leaves, with its block if cached. */
    method EvictOldest()
      requires Valid() && order != [] && memLimit > 0
      modifies this`inner, this`order, this`used, this`evictions
      ensures Valid() && order == old(order)[1..] && inner == old(inner) - {old(order)[0]}
      ensures evictions - old(evictions) == Blocks(old(inner)) - Blocks(inner)
    {
      hide CachedBytes, Coherent, Blocks;
      CoherentEvict(inner, byIno, order, latest, memLimit);
      EvictOne(inner, order[0]);
      var victim := order[0];
      order := order[1..];
      if victim in inner {
        used := used - |inner[victim]|;
        evictions := evictions + 1;
      }
      inner := inner - {victim};
    }

    /** The eviction loop of `put`. The deadline passes after `patience` victims (but it is only
        looked at once a victim has been taken). */
    method MakeRoom(size: nat, patience: nat) returns (ghost popped: nat)
      requires Valid() && memLimit > 0
      modifies this`inner, this`order, this`used, this`evictions
      ensures Valid()
      ensures popped <= |old(order)| && order == old(order)[popped..]
      ensures inner == Evicted(old(inner), old(order), popped)
      ensures EachNeeded(old(inner), old(order), popped, size, memLimit)
      ensures used + size <= memLimit || order == [] || popped >= patience
      ensures popped <= patience || popped <= 1
      ensures evictions - old(evictions) == Blocks(old(inner)) - Blocks(inner)
    {
      hide CachedBytes, Evicted, Coherent, Blocks;
      popped := 0;
      var taken := 0;
      EvictNone(inner, order);
      assert EachNeeded(inner, order, 0, size, memLimit);
      while used + size > memLimit
        invariant Valid() && taken == popped <= |old(order)| && order == old(order)[popped..]
        invariant taken == 0 || taken < patience
        invariant inner == Evicted(old(inner), old(order), popped)
        invariant EachNeeded(old(inner), old(order), popped, size, memLimit)
        invariant evictions - old(evictions) == Blocks(old(inner)) - Blocks(inner)
        decreases |order|
      {
        if order == [] {
          break;
        }
        EvictMore(old(inner), old(order), popped);
        EvictOldest();
        popped, taken := popped + 1, taken + 1;
        if taken >= patience {
          break;
        }
      }
    }

    /** `put` once there is room: replace or insert, and queue the key again. */
    method Store(key: Key, data: seq<byte>)
      requires Valid()
      modifies this`inner, this`byIno, this`order, this`used, this`inserts, this`latest
      ensures Valid()
      ensures latest == old(latest)[key := data] && inner == old(inner)[key := data]
      ensures order == old(order) + [key] && inserts == old(inserts) + 1
      ensures used == CachedBytes(old(inner) - {key}) + |data|
    {
      hide CachedBytes, Coherent;
      CoherentStore(inner, byIno, order, latest, memLimit, key, data);
      if key in inner {
        BytesRemove(inner, key);
        used := used - |inner[key]|;
        inner := inner - {key};
      } else {
        assert inner == inner - {key};
      }
      assert inner[key := data] == old(inner)[key := data];
      BytesInsert(inner, key, data);
      inner := inner[key := data];
      byIno := byIno[key.ino := (if key.ino in byIno then byIno[key.ino] else {}) + {key}];
      used := used + |data|;
      inserts := inserts + 1;
      order := order + [key];
      latest := latest[key := data];
    }

    /** `put`. Only the oldest entries go, no more of them than the limit asks for, and unless the
        deadline stopped it the cache ends within its limit or holds this block alone. */
    method Put(ino: nat, block: nat, data: seq<byte>, patience: nat) returns (ghost popped: nat)
      requires Valid()
      modifies this
      ensures Valid()
      ensures latest == old(latest)[Key(ino, block) := data]
      ensures popped <= |old(order)| && order == old(order)[popped..] + [Key(ino, block)]
      ensures inner == Evicted(old(inner), old(order), popped)[Key(ino, block) := data]
      ensures EachNeeded(old(inner), old(order), popped, |data|, memLimit)
      ensures memLimit == 0 ==> popped == 0
      ensures memLimit > 0 && popped < patience ==> used <= memLimit || used == |data|
      ensures inserts == old(inserts) + 1
    {
      hide CachedBytes, Evicted, Coherent;
      popped := 0;
      EvictNone(inner, order);
      if memLimit > 0 {
        popped := MakeRoom(|data|, patience);
      }
      BytesShrink(inner, Key(ino, block));
      if order == [] {
        NothingQueued(inner, byIno, latest, memLimit);
        EmptyBytes();
      }
      Store(Key(ino, block), data);
    }

    /** `invalidate_ino`: no block of the inode is left anywhere, and nothing else changes. */
    method InvalidateIno(ino: nat)
      requires Valid()
      modifies this`inner, this`byIno, this`order, this`used, this`latest
      ensures Valid()
      ensures latest == WithoutIno(old(latest), ino)
      ensures inner == WithoutIno(old(inner), ino)
      ensures byIno == old(byIno) - {ino} && order == Retain(old(order), ino)
    {
      hide CachedBytes, Coherent, Retain, WithoutIno;
      CoherentInvalidate(inner, byIno, order, latest, memLimit, ino);
      latest := WithoutIno(latest, ino);
      if ino !in byIno {
        return;
      }
      var keys := byIno[ino];
      byIno := byIno - {ino};
      var total := 0;
      while keys != {}
        invariant keys <= old(byIno[ino])
        invariant used == old(used) && order == old(order) && byIno == old(byIno) - {ino}
        invariant latest == WithoutIno(old(latest), ino)
        invariant inner == old(inner) - (old(byIno[ino]) - keys)
        invariant CachedBytes(inner) + total == old(used)
        decreases |keys|
      {
        var k :| k in keys;
        if k in inner {
          BytesRemove(inner, k);
          total := total + |inner[k]|;
        } else {
          assert inner == inner - {k};
        }
        inner := inner - {k};
        keys := keys - {k};
      }
      assert old(byIno[ino]) - keys == old(byIno[ino]);
      used := used - total;
      order := Retain(order, ino);
    }

    method Clear()
      requires Valid()
      modifies this`inner, this`byIno, this`order, this`used, this`latest
      ensures Valid() && latest == map[] && inner == map[] && order == [] && byIno == map[] && used == 0
    {
      inner, order, byIno, used := map[], [], map[], 0;
      latest := map[];
    }
  }
}
