/** Properties of the write-through protocol: one call at a time, over sequences of
    calls, and across a restart. */
module WriteThroughLemmas {
  import opened Base
  import opened MemoryHashMaps
  import opened WriteThrough

  // ---------------------------------------------------------------- one call

  /** With the latch down a mutation touches only the memory map. */
  lemma LatchDownSkipsBackend<V>(s: State<V>, m: Mutation<V>, env: Backend, encode: V -> Option<Bytes>)
    requires !s.avail
    ensures Apply(s, m, env, encode) == State(Memory(s.mem, m), false, s.disk)
  {
  }

  /** While the latch is up, a failing folder check, open, bucket creation or
      Put/Delete transaction drops it and leaves the bucket as it was; an encoding
      failure alone does not. */
  lemma BackendFailureDropsLatch<V>(s: State<V>, m: Mutation<V>, env: Backend, encode: V -> Option<Bytes>)
    requires s.avail && env != Available
    ensures var r := Apply(s, m, env, encode);
      && r.disk == s.disk
      && (!r.avail <==> !ReachesBucket(env) || !(m.AddUpdate? && encode(m.value).None?))
  {
  }

  /** An encoding failure aborts only this call's write: the latch stays up, the
      bucket keeps its old entry, and so the bucket no longer mirrors memory. */
  lemma EncodeFailureLeavesBucketStale<V>(s: State<V>, key: Key, value: V, env: Backend, encode: V -> Option<Bytes>)
    requires s.avail && ReachesBucket(env) && encode(value).None?
    ensures var r := Apply(s, AddUpdate(key, value), env, encode);
      r.avail && r.disk == s.disk && !Mirrored(r, encode)
  {
    var r := Apply(s, AddUpdate(key, value), env, encode);
    assert Find(r.mem, key) == Some(value);
  }

  /** A fully successful AddUpdateObject leaves the key holding the value's encoding
      in the bucket, the other keys untouched, and the latch up. */
  lemma AddUpdateWritesThrough<V>(s: State<V>, key: Key, value: V, bytes: Bytes, encode: V -> Option<Bytes>)
    requires s.avail && encode(value) == Some(bytes) && PutAccepts(key)
    ensures var r := Apply(s, AddUpdate(key, value), Available, encode);
      && r.avail
      && Find(r.disk, key) == Some(bytes)
      && forall k :: k != key ==> Find(r.disk, k) == Find(s.disk, k)
  {
  }

  /** Upserting under the empty key with the latch up and an encodable value drops
      the latch even when every backend step is healthy, because Bolt's Put rejects
      the key; the bucket is unchanged. */
  lemma EmptyKeyDropsLatch<V>(s: State<V>, value: V, encode: V -> Option<Bytes>)
    requires s.avail && encode(value).Some?
    ensures var r := Apply(s, AddUpdate("", value), Available, encode);
      !r.avail && r.disk == s.disk
  {
  }

  /** A key deleted while the latch is up is absent from the bucket afterwards unless
      the latch dropped in the same call; when it stays up, other keys are untouched. */
  lemma DeleteWritesThrough<V>(s: State<V>, key: Key, env: Backend, encode: V -> Option<Bytes>)
    requires s.avail
    ensures var r := Apply(s, Delete(key), env, encode);
      && (r.avail <==> env == Available)
      && (r.avail ==> key !in r.disk && forall k :: k != key ==> Find(r.disk, k) == Find(s.disk, k))
  {
  }

  /** Upserting the same pair twice gives the same memory map as once, whatever the
      backend does; with a healthy backend the whole state is the same as once. */
  lemma AddUpdateIdempotent<V>(s: State<V>, key: Key, value: V, env1: Backend, env2: Backend, encode: V -> Option<Bytes>)
    ensures var once := Apply(s, AddUpdate(key, value), env1, encode);
      && Apply(once, AddUpdate(key, value), env2, encode).mem == once.mem
      && (env1 == env2 == Available ==> Apply(once, AddUpdate(key, value), env2, encode) == once)
  {
    UpsertTwice(s.mem, key, value);
  }

  /** A successful call keeps the bucket a mirror of memory. */
  lemma HealthyCallKeepsMirror<V>(s: State<V>, m: Mutation<V>, encode: V -> Option<Bytes>)
    requires s.avail && Mirrored(s, encode)
    requires m.AddUpdate? ==> encode(m.value).Some? && PutAccepts(m.key)
    ensures Apply(s, m, Available, encode).avail
    ensures Mirrored(Apply(s, m, Available, encode), encode)
  {
    var r := Apply(s, m, Available, encode);
    forall k | k in r.mem
      ensures k in r.disk && encode(r.mem[k]) == Some(r.disk[k])
    {
      assert Find(r.mem, k) == Find(s.mem, k) || k == m.key;
    }
  }

  // ---------------------------------------------------------- many calls

  /** One call with the backend outcome it meets. */
  datatype Call<V> = Call(mutation: Mutation<V>, env: Backend)

  /** The state after a sequence of calls on one instance. */
  function Run<V>(s: State<V>, calls: seq<Call<V>>, encode: V -> Option<Bytes>): State<V>
    decreases |calls|
  {
    if calls == [] then s
    else Run(Apply(s, calls[0].mutation, calls[0].env, encode), calls[1..], encode)
  }

  /** The memory map after the same calls, looking at nothing but the mutations. */
  function MemoryAfter<V>(mem: map<Key, V>, calls: seq<Call<V>>): map<Key, V>
    decreases |calls|
  {
    if calls == [] then mem
    else MemoryAfter(Memory(mem, calls[0].mutation), calls[1..])
  }

  /** Every call meets a working backend, and every put has a value that encodes and
      a key Bolt accepts. */
  ghost predicate Healthy<V>(calls: seq<Call<V>>, encode: V -> Option<Bytes>)
  {
    forall i :: 0 <= i < |calls| ==>
      && calls[i].env == Available
      && (calls[i].mutation.AddUpdate? ==>
            encode(calls[i].mutation.value).Some? && PutAccepts(calls[i].mutation.key))
  }

  /** The memory map is authoritative: whatever the backend does and whatever the
      latch is, memory reflects every mutation and nothing is ever rolled back. */
  lemma {:induction false} MemoryIgnoresBackend<V>(s: State<V>, calls: seq<Call<V>>, encode: V -> Option<Bytes>)
    ensures Run(s, calls, encode).mem == MemoryAfter(s.mem, calls)
    decreases |calls|
  {
    if calls != [] {
      MemoryIgnoresBackend(Apply(s, calls[0].mutation, calls[0].env, encode), calls[1..], encode);
    }
  }

  /** The latch never rises again once it is down, and after that the bucket is never
      touched. */
  lemma {:induction false} LatchNeverRises<V>(s: State<V>, calls: seq<Call<V>>, encode: V -> Option<Bytes>)
    ensures Run(s, calls, encode).avail ==> s.avail
    ensures !s.avail ==> Run(s, calls, encode).disk == s.disk
    decreases |calls|
  {
    if calls != [] {
      LatchNeverRises(Apply(s, calls[0].mutation, calls[0].env, encode), calls[1..], encode);
    }
  }

  /** Once a call drops the latch, whichever backend step failed, the latch is down
      after every later call. */
  lemma FailureIsPermanent<V>(s: State<V>, calls: seq<Call<V>>, i: nat, encode: V -> Option<Bytes>)
    requires i < |calls| && Run(s, calls[..i], encode).avail
    requires !Apply(Run(s, calls[..i], encode), calls[i].mutation, calls[i].env, encode).avail
    ensures forall j :: i < j <= |calls| ==> !Run(s, calls[..j], encode).avail
  {
    forall j | i < j <= |calls|
      ensures !Run(s, calls[..j], encode).avail
    {
      RunSplit(s, calls[..j], i, encode);
      assert calls[..j][..i] == calls[..i];
      var t := Run(s, calls[..i], encode);
      assert calls[..j][i..][0] == calls[i];
      assert calls[..j][i..][1..] == calls[..j][i + 1..];
      LatchNeverRises(Apply(t, calls[i].mutation, calls[i].env, encode), calls[..j][i + 1..], encode);
    }
  }

  /** Running a prefix and then the rest is running the whole sequence. */
  lemma {:induction false} RunSplit<V>(s: State<V>, calls: seq<Call<V>>, i: nat, encode: V -> Option<Bytes>)
    requires i <= |calls|
    ensures Run(s, calls, encode) == Run(Run(s, calls[..i], encode), calls[i..], encode)
    decreases i
  {
    if i > 0 {
      assert calls[..i][0] == calls[0];
      assert calls[..i][1..] == calls[1..][..i - 1];
      assert calls[i..] == calls[1..][i - 1..];
      RunSplit(Apply(s, calls[0].mutation, calls[0].env, encode), calls[1..], i - 1, encode);
    }
  }

  /** With a healthy backend the bucket stays a mirror of memory and the latch stays up. */
  lemma {:induction false} HealthyRunKeepsMirror<V>(s: State<V>, calls: seq<Call<V>>, encode: V -> Option<Bytes>)
    requires s.avail && Mirrored(s, encode) && Healthy(calls, encode)
    ensures Run(s, calls, encode).avail && Mirrored(Run(s, calls, encode), encode)
    decreases |calls|
  {
    if calls != [] {
      assert calls[0].env == Available;
      HealthyCallKeepsMirror(s, calls[0].mutation, encode);
      assert Healthy(calls[1..], encode) by {
        forall i | 0 <= i < |calls| - 1 ensures calls[1..][i] == calls[i + 1] { }
      }
      HealthyRunKeepsMirror(Apply(s, calls[0].mutation, Available, encode), calls[1..], encode);
    }
  }

  // ------------------------------------------------------------- startup

  /** When every visited record decodes, the replay loads exactly the visited keys on
      top of `acc`, each with its decoded value. */
  lemma {:induction false} ReplayAllDecoded<V>(acc: map<Key, V>, order: seq<Key>, stored: map<Key, Bytes>, decode: Bytes -> Decoded<V>)
    requires InBucket(order, stored)
    requires forall k :: k in order ==> decode(stored[k]).Succeeded()
    ensures var r := Replay(acc, order, stored, decode);
      && (forall k :: k in r <==> k in acc || k in order)
      && (forall k :: k in order ==> k in r && r[k] == decode(stored[k]).value)
      && (forall k :: k in acc && k !in order ==> k in r && r[k] == acc[k])
    decreases |order|
  {
    if order != [] {
      var d := decode(stored[order[0]]);
      assert order == [order[0]] + order[1..];
      ReplayAllDecoded(acc[order[0] := d.value], order[1..], stored, decode);
    }
  }

  /** The replay loads exactly the records before the first one that fails to decode. */
  lemma {:induction false} ReplayStopsAtFirstFailure<V>(acc: map<Key, V>, order: seq<Key>, stored: map<Key, Bytes>, decode: Bytes -> Decoded<V>)
    requires InBucket(order, stored)
    ensures var n := FirstFailure(order, stored, decode);
      Replay(acc, order, stored, decode) == Replay(acc, order[..n], stored, decode)
    decreases |order|
  {
    var n := FirstFailure(order, stored, decode);
    if order != [] && decode(stored[order[0]]).Succeeded() {
      var d := decode(stored[order[0]]);
      assert order[..n][0] == order[0];
      assert order[..n][1..] == order[1..][..n - 1];
      ReplayStopsAtFirstFailure(acc[order[0] := d.value], order[1..], stored, decode);
    }
  }

  /** A successful startup loads exactly the records visited before the first
      decoding failure, with their decoded values. */
  lemma StartupLoadsPrefix<V>(order: seq<Key>, stored: map<Key, Bytes>, decode: Bytes -> Decoded<V>)
    requires InBucket(order, stored)
    ensures var mem := Startup(Available, order, stored, decode).state.mem;
      var n := FirstFailure(order, stored, decode);
      && (forall k :: k in mem <==> k in order[..n])
      && (forall k :: k in mem ==> mem[k] == decode(stored[k]).value)
  {
    var n := FirstFailure(order, stored, decode);
    ReplayStopsAtFirstFailure(map[], order, stored, decode);
    forall k | k in order[..n] ensures decode(stored[k]).Succeeded() {
      var i :| 0 <= i < n && order[..n][i] == k;
      assert order[i] == k;
    }
    ReplayAllDecoded(map[], order[..n], stored, decode);
  }

  /** A record that fails to decode stops the load, yet the constructor still reports
      no error and raises the latch: the instance then writes through to a bucket that
      holds a record its memory lacks. */
  lemma PartialLoadKeepsLatchUp<V>(order: seq<Key>, stored: map<Key, Bytes>, decode: Bytes -> Decoded<V>)
    requires Enumerates(order, stored)
    requires FirstFailure(order, stored, decode) < |order|
    ensures var r := Startup(Available, order, stored, decode);
      var missing := order[FirstFailure(order, stored, decode)];
      && r.err.None? && r.state.avail
      && missing in r.state.disk && missing !in r.state.mem
  {
    var n := FirstFailure(order, stored, decode);
    StartupLoadsPrefix(order, stored, decode);
  }

  /** Restarting over a bucket that mirrors a memory map reproduces that map, provided
      the codec gives back what it encodes. */
  lemma StartupRecoversMirror<V(!new)>(s: State<V>, order: seq<Key>, codec: Codec<V>)
    requires Enumerates(order, s.disk)
    requires Mirrored(s, codec.encode)
    requires DecodesWhatItEncodes(codec)
    ensures Startup(Available, order, s.disk, codec.decode).state == s.(avail := true)
  {
    forall k | k in order ensures codec.decode(s.disk[k]).Succeeded() {
      assert codec.encode(s.mem[k]) == Some(s.disk[k]);
    }
    ReplayAllDecoded(map[], order, s.disk, codec.decode);
    var mem := Startup(Available, order, s.disk, codec.decode).state.mem;
    forall k | k in mem ensures k in s.mem && mem[k] == s.mem[k] {
      assert codec.encode(s.mem[k]) == Some(s.disk[k]);
    }
    assert mem == s.mem;
  }

  /** The round trip: start over an empty bucket, run calls that all meet a healthy
      backend, then restart over what the bucket holds; the new instance has the same
      keys and values as the old one had in memory. */
  lemma RestartReproducesMap<V(!new)>(codec: Codec<V>, calls: seq<Call<V>>, before: State<V>, order: seq<Key>)
    requires DecodesWhatItEncodes(codec)
    requires Healthy(calls, codec.encode)
    requires before == Run(Startup(Available, [], map[], codec.decode).state, calls, codec.encode)
    requires Enumerates(order, before.disk)
    ensures Startup(Available, order, before.disk, codec.decode).state.mem == before.mem
  {
    var first := Startup(Available, [], map[], codec.decode).state;
    assert first == State(map[], true, map[]);
    HealthyRunKeepsMirror(first, calls, codec.encode);
    StartupRecoversMirror(before, order, codec);
  }
}
