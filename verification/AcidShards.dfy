/**
  Sharding in the ACID backend: routing by mask, the layout manifest, and the sharded
  tables as one store.
 */
module AcidShards {
  import opened Types
  import opened Validation
  import opened Sums
  import opened LogSpec
  import opened Effects
  import opened Runs
  import opened Bits
  import opened AcidTables

  // -------------------------------------------------------------- routing

  predicate IsPowerOfTwo(n: nat) {
    n == 1 || (n > 0 && n % 2 == 0 && IsPowerOfTwo(n / 2))
  }

  /** `validate_shard_count`. */
  predicate ValidShardCount(count: nat) {
    1 <= count <= 256 && IsPowerOfTwo(count)
  }

  /** One shard up to 256, in powers of two. */
  lemma ShardCountsAre(count: nat)
    ensures ValidShardCount(count) <==> count in {1, 2, 4, 8, 16, 32, 64, 128, 256}
  {
    if IsPowerOfTwo(count) && count <= 256 {
      var k := PowerOfTwoIs(count);
      if k > 8 { Pow2Grows(9, k); }
      assert Pow2(4) == 16 && Pow2(8) == 256;
    }
  }

  /** `shard_index`; a word of 32 bits first drops the upper half of the hash. */
  function ShardIndex(h: nat, count: nat, wide: bool): nat
    requires count > 0
  {
    And(if wide then h else And(h, TWO32 - 1), count - 1)
  }

  lemma {:induction false} PowerOfTwoIs(n: nat) returns (k: nat)
    requires IsPowerOfTwo(n)
    ensures n == Pow2(k)
  {
    if n == 1 {
      k := 0;
    } else {
      var j := PowerOfTwoIs(n / 2);
      k := j + 1;
    }
  }

  lemma {:induction false} Pow2Grows(j: nat, k: nat)
    requires j <= k
    ensures Pow2(j) <= Pow2(k)
  {
    if j < k { Pow2Grows(j, k - 1); }
  }

  lemma {:induction false} LowOfLow(a: nat, j: nat, k: nat)
    requires k <= j
    ensures Low(Low(a, j), k) == Low(a, k)
  {
    if k > 0 {
      LowOfLow(a / 2, j - 1, k - 1);
      var x := Low(a / 2, j - 1);
      assert (2 * x + a % 2) / 2 == x && (2 * x + a % 2) % 2 == a % 2;
    }
  }

  lemma Pow2At32()
    ensures Pow2(32) == TWO32
  {
    assert Pow2(8) == 256;
    assert Pow2(16) == 65536;
    assert Pow2(24) == 16777216;
  }

  /** Mask routing is the hash modulo the shard count, in range, and the same on 32-bit and 64-bit words. */
  lemma MaskIsModulo(h: nat, count: nat, wide: bool)
    requires ValidShardCount(count)
    ensures ShardIndex(h, count, wide) == h % count < count
  {
    var k := PowerOfTwoIs(count);
    AndMask(h, k);
    if !wide {
      Pow2At32();
      AndMask(h, 32);
      AndMask(h % TWO32, k);
      if k > 8 { Pow2Grows(9, k); }
      LowIsRemainder(h, 32);
      LowIsRemainder(h, k);
      LowIsRemainder(h % TWO32, k);
      LowOfLow(h, 32, k);
    }
  }

  // ------------------------------------------------------------ the manifest

  const LAYOUT_FORMAT_VERSION: nat := 1
  const HASH_POLICY := "seahash-v1"

  datatype Manifest = Manifest(formatVersion: nat, shardCount: nat, hashPolicy: string)

  /** `load_or_create_layout`: the manifest on disk afterwards, or None when the layout does not fit. */
  function OpenLayout(onDisk: Option<Manifest>, count: nat): Option<Manifest> {
    if onDisk.None? then Some(Manifest(LAYOUT_FORMAT_VERSION, count, HASH_POLICY))
    else if onDisk.value.formatVersion != LAYOUT_FORMAT_VERSION then None
    else if onDisk.value.shardCount != count then None
    else if onDisk.value.hashPolicy != HASH_POLICY then None
    else onDisk
  }

  /** A directory opens exactly when it is of version 1, routed by `seahash-v1`, with the count asked for. */
  lemma OpensExactly(m: Manifest, count: nat)
    ensures OpenLayout(Some(m), count) == if m == Manifest(1, count, "seahash-v1") then Some(m) else None
  {}

  /** The manifest after a series of startups; one that is refused changes nothing. */
  function AfterStartups(onDisk: Option<Manifest>, counts: seq<nat>): Option<Manifest> {
    if counts == [] then onDisk
    else
      var before := AfterStartups(onDisk, counts[..|counts| - 1]);
      var opened_ := OpenLayout(before, counts[|counts| - 1]);
      if opened_.Some? then opened_ else before
  }

  /** Whatever startups are attempted, all that succeed after the first use the same shard count. */
  lemma {:induction false} CountFixedByManifest(counts: seq<nat>, first: nat, next: nat)
    requires OpenLayout(AfterStartups(OpenLayout(None, first), counts), next).Some?
    ensures next == first
  {
    ManifestKept(counts, first);
  }

  lemma {:induction false} ManifestKept(counts: seq<nat>, first: nat)
    ensures AfterStartups(OpenLayout(None, first), counts) == OpenLayout(None, first)
  {
    if counts != [] { ManifestKept(counts[..|counts| - 1], first); }
  }

  // ---------------------------------------------------- one store, many shards

  type Shards = seq<Tables>

  function Home(hash: string -> nat, count: nat, name: string): nat
    requires count > 0
  {
    hash(name) % count
  }

  /** The part of the store that lives in shard `i`. */
  function ShardOf(hash: string -> nat, count: nat, s: Store, i: nat): Store
    requires count > 0
  {
    map n | n in s && Home(hash, count, n) == i :: s[n]
  }

  /** Each shard shows exactly its part of the store. */
  ghost predicate Spread(hash: string -> nat, shards: Shards, s: Store) {
    && |shards| > 0
    && forall i {:trigger shards[i]} :: 0 <= i < |shards| ==> Shows(shards[i], ShardOf(hash, |shards|, s, i))
  }

  /** Looking a name up in its own shard is looking it up in the whole store, and no other shard knows it. */
  lemma OwnShardOnly(hash: string -> nat, shards: Shards, s: Store, name: string, i: nat)
    requires Spread(hash, shards, s) && i < |shards|
    ensures Home(hash, |shards|, name) < |shards|
    ensures i == Home(hash, |shards|, name) ==>
              && (name in shards[i].streams <==> name in s)
              && (name in s ==> MetaOf(shards[i].streams[name], s[name]))
              && Holds(shards[i].rows, name, MessagesOf(s, name))
    ensures i != Home(hash, |shards|, name) ==>
              name !in shards[i].streams && forall k :: k in shards[i].rows ==> k.name != name
  {
    assert ShowsAt(name, shards[i], ShardOf(hash, |shards|, s, i));
  }

  /** A store with the entry of one name set or removed. */
  function Put(s: Store, name: string, log: Option<StreamLog>): Store {
    if log.Some? then s[name := log.value] else s - {name}
  }

  /** A transaction changes the entry of its own stream only. */
  lemma TxnPuts(keep: bool, maxStream: nat, s: Store, c: Call, now: int)
    ensures var s' := Txn(keep, maxStream, s, c, now).store; s' == Put(s, c.name, Get(s', c.name))
  {
    var s' := Txn(keep, maxStream, s, c, now).store;
    forall n | n != c.name ensures Get(s', n) == Get(s, n) {
      TxnFrame(keep, maxStream, n, s, c, now);
    }
    forall n ensures Get(Put(s, c.name, Get(s', c.name)), n) == Get(s', n) {}
    SameGets(Put(s, c.name, Get(s', c.name)), s');
  }

  lemma SameGets(a: Store, b: Store)
    requires forall n :: Get(a, n) == Get(b, n)
    ensures a == b
  {
    assert forall n :: n in a <==> Get(a, n).Some?;
    assert forall n :: n in b <==> Get(b, n).Some?;
  }

  /** What a transaction does depends on the entry of its own stream only. */
  lemma TxnDepends(keep: bool, maxStream: nat, a: Store, b: Store, c: Call, now: int)
    requires Get(a, c.name) == Get(b, c.name)
    ensures var x, y := Txn(keep, maxStream, a, c, now), Txn(keep, maxStream, b, c, now);
            x.reply == y.reply && Get(x.store, c.name) == Get(y.store, c.name)
  {}

  lemma PutInShard(hash: string -> nat, count: nat, s: Store, name: string, log: Option<StreamLog>, i: nat)
    requires count > 0
    ensures ShardOf(hash, count, Put(s, name, log), i) ==
            if i == Home(hash, count, name) then Put(ShardOf(hash, count, s, i), name, log)
            else ShardOf(hash, count, s, i)
  {}

  /** Running a transaction in the home shard of its stream is running it on the whole store. */
  lemma ShardTxn(keep: bool, maxStream: nat, hash: string -> nat, count: nat, s: Store, c: Call, now: int, i: nat)
    requires count > 0
    ensures var out := Txn(keep, maxStream, s, c, now);
            if i == Home(hash, count, c.name)
            then Outcome(ShardOf(hash, count, out.store, i), out.reply) ==
                 Txn(keep, maxStream, ShardOf(hash, count, s, i), c, now)
            else ShardOf(hash, count, out.store, i) == ShardOf(hash, count, s, i)
  {
    var part := ShardOf(hash, count, s, i);
    TxnPuts(keep, maxStream, s, c, now);
    PutInShard(hash, count, s, c.name, Get(Txn(keep, maxStream, s, c, now).store, c.name), i);
    if i == Home(hash, count, c.name) {
      TxnPuts(keep, maxStream, part, c, now);
      TxnDepends(keep, maxStream, s, part, c, now);
    }
  }

  /** A write transaction in the home shard refines the abstract transaction on the whole store. */
  lemma ShardedTxnRefines(maxStream: nat, hash: string -> nat, shards: Shards, s: Store, c: Call, now: int,
                          reserved: bool)
    requires Spread(hash, shards, s) && !c.Read?
    requires c.CreateWithData? && !Occupied(s, c.name, now) && SumLen(c.messages) > 0 ==> reserved
    ensures var home := Home(hash, |shards|, c.name);
            var out := Txn(false, maxStream, s, Effective(Acid, c), now);
            && home < |shards|
            && var r := TableTxn(maxStream, shards[home], c, now, reserved);
               Spread(hash, shards[home := r.tables], out.store) && r.reply == out.reply
  {
    var count := |shards|;
    var home := Home(hash, count, c.name);
    var out := Txn(false, maxStream, s, Effective(Acid, c), now);
    var part := ShardOf(hash, count, s, home);
    TableTxnRefines(maxStream, shards[home], part, c, now, reserved);
    ShardTxn(false, maxStream, hash, count, s, Effective(Acid, c), now, home);
    var shards' := shards[home := TableTxn(maxStream, shards[home], c, now, reserved).tables];
    forall i {:trigger shards'[i]} | 0 <= i < count ensures Shows(shards'[i], ShardOf(hash, count, out.store, i)) {
      ShardTxn(false, maxStream, hash, count, s, Effective(Acid, c), now, i);
    }
  }

  // --------------------------------------------------------------- restart

  /** `rebuild_shard`: expired streams go, with their rows. */
  function Purge(t: Tables, now: int): Tables {
    Tables(map n | n in t.streams && !Expired(t.streams[n].config, now) :: t.streams[n],
           map k | k in t.rows && !(k.name in t.streams && Expired(t.streams[k.name].config, now)) :: t.rows[k])
  }

  function Sizes(t: Tables): map<string, nat> {
    map n | n in t.streams :: t.streams[n].totalBytes
  }

  /** The counter a restart computes from the metadata rows of the first `k` shards. */
  ghost function Recount(shards: Shards, k: nat): nat
    requires k <= |shards|
  {
    if k == 0 then 0 else Recount(shards, k - 1) + MapSum(Sizes(shards[k - 1]))
  }

  lemma PurgeShows(t: Tables, s: Store, now: int)
    requires Shows(t, s)
    ensures Shows(Purge(t, now), Unexpired(s, now))
  {
    var t', s' := Purge(t, now), Unexpired(s, now);
    forall n ensures ShowsAt(n, t', s') {
      assert ShowsAt(n, t, s);
      assert n in t'.streams ==> t'.streams[n] == t.streams[n];
      forall k | k in t'.rows && k.name == n ensures k in t.rows && n in s && !Expired(s[n].config, now) {}
      forall k | k in t.rows && k.name == n && n in s' ensures k in t'.rows && t'.rows[k] == t.rows[k] {}
    }
  }

  /** After a restart the shards show exactly the streams that have not expired. */
  lemma PurgeSpread(hash: string -> nat, shards: Shards, shards': Shards, s: Store, now: int)
    requires Spread(hash, shards, s) && |shards'| == |shards|
    requires forall i :: 0 <= i < |shards| ==> shards'[i] == Purge(shards[i], now)
    ensures Spread(hash, shards', Unexpired(s, now))
  {
    var count := |shards|;
    forall i {:trigger shards'[i]} | 0 <= i < count
      ensures Shows(shards'[i], ShardOf(hash, count, Unexpired(s, now), i))
    {
      assert ShardOf(hash, count, Unexpired(s, now), i) == Unexpired(ShardOf(hash, count, s, i), now);
      PurgeShows(shards[i], ShardOf(hash, count, s, i), now);
    }
  }

  /** The part of the store that lives in the first `k` shards. */
  function FirstShards(hash: string -> nat, count: nat, s: Store, k: nat): Store
    requires count > 0
  {
    map n | n in s && Home(hash, count, n) < k :: s[n]
  }

  lemma ShardSizes(t: Tables, s: Store)
    requires Shows(t, s)
    ensures Sizes(t) == ByteSizes(s)
  {
    forall n ensures n in Sizes(t) <==> n in ByteSizes(s) {
      assert ShowsAt(n, t, s);
    }
    forall n | n in Sizes(t) ensures Sizes(t)[n] == ByteSizes(s)[n] {
      assert ShowsAt(n, t, s);
    }
  }

  lemma {:induction false} RecountPart(hash: string -> nat, shards: Shards, s: Store, k: nat)
    requires Spread(hash, shards, s) && k <= |shards|
    ensures Recount(shards, k) == Total(FirstShards(hash, |shards|, s, k))
  {
    var count := |shards|;
    if k == 0 {
      assert ByteSizes(FirstShards(hash, count, s, 0)) == map[];
    } else {
      RecountPart(hash, shards, s, k - 1);
      var a, b := FirstShards(hash, count, s, k - 1), ShardOf(hash, count, s, k - 1);
      ShardSizes(shards[k - 1], b);
      MapSumUnion(ByteSizes(a), ByteSizes(b));
      NextShard(hash, count, s, k);
    }
  }

  lemma NextShard(hash: string -> nat, count: nat, s: Store, k: nat)
    requires count > 0 && k > 0
    ensures var a, b := FirstShards(hash, count, s, k - 1), ShardOf(hash, count, s, k - 1);
            ByteSizes(FirstShards(hash, count, s, k)) == ByteSizes(a) + ByteSizes(b)
  {}

  /** The counter rebuilt from disk is the byte total of the store. */
  lemma RecountIsTotal(hash: string -> nat, shards: Shards, s: Store)
    requires Spread(hash, shards, s)
    ensures Recount(shards, |shards|) == Total(s)
  {
    RecountPart(hash, shards, s, |shards|);
    assert FirstShards(hash, |shards|, s, |shards|) == s;
  }
}
