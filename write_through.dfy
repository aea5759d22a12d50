/** The write-through protocol of PersistentMemoryHashMap as pure functions over
    its three pieces of state: the in-memory map, the "persistence available"
    latch, and the contents of bucket "default" on disk. */
module WriteThrough {
  import opened Base
  import opened MemoryHashMaps

  /** Which backend step, if any, fails during one call. The steps run in this
      order, and each later one is reached only when the earlier ones succeed. */
  datatype Backend =
    | FolderMissing  // os.Stat says the database folder does not exist
    | OpenFails      // bolt.Open fails (for instance the file lock is not obtained in time)
    | BucketFails    // the transaction creating bucket "default" if absent fails
    | TxFails        // the transaction doing the real work fails: Put or Delete, or at startup the read
    | Available      // every step succeeds

  /** The folder check, the open and the bucket creation all succeed. */
  predicate ReachesBucket(env: Backend)
  {
    env == TxFails || env == Available
  }

  /** Bolt's Put rejects a zero-length key (ErrKeyRequired), so a put of "" fails
      even when every backend step is otherwise healthy. */
  predicate PutAccepts(key: Key)
  {
    key != ""
  }

  /** A mutating call of the map. */
  datatype Mutation<V> = AddUpdate(key: Key, value: V) | Delete(key: Key)

  /** What one instance consists of, for this model: its in-memory map, its latch,
      and the bucket's contents as this instance writes them. */
  datatype State<V> = State(mem: map<Key, V>, avail: bool, disk: map<Key, Bytes>)

  /** The in-memory half of a mutation. */
  function Memory<V>(mem: map<Key, V>, m: Mutation<V>): map<Key, V>
  {
    match m
    case AddUpdate(k, v) => Upsert(mem, k, v)
    case Delete(k) => Erase(mem, k)
  }

  /** One call of AddUpdateObject or DeleteObject: the memory map changes first and
      unconditionally; then, only while the latch is up, the backend chain runs, and
      a failure at any backend step drops the latch, and so does Bolt rejecting the
      key of a put. An encoding failure only skips this call's write. */
  function Apply<V>(s: State<V>, m: Mutation<V>, env: Backend, encode: V -> Option<Bytes>): (r: State<V>)
    ensures r.mem == Memory(s.mem, m)
    ensures r.avail ==> s.avail
    ensures r.disk != s.disk ==> s.avail && r.avail && env == Available
    ensures s.avail && !ReachesBucket(env) ==> !r.avail
  {
    var mem := Memory(s.mem, m);
    if !s.avail || !ReachesBucket(env) then
      State(mem, false, s.disk)
    else
      match m
      case AddUpdate(k, v) =>
        (match encode(v)
         case None => State(mem, true, s.disk)
         case Some(bytes) =>
           if env == Available && PutAccepts(k) then State(mem, true, s.disk[k := bytes]) else State(mem, false, s.disk))
      case Delete(k) =>
        if env == Available then State(mem, true, s.disk - {k}) else State(mem, false, s.disk)
  }

  /** Every key the bucket iteration visits is in the bucket. */
  ghost predicate InBucket(order: seq<Key>, stored: map<Key, Bytes>)
  {
    forall k :: k in order ==> k in stored
  }

  /** `order` is an order in which the bucket's ForEach can visit `stored`: every key
      exactly once. */
  ghost predicate Enumerates(order: seq<Key>, stored: map<Key, Bytes>)
  {
    && InBucket(order, stored)
    && (forall k :: k in stored ==> k in order)
    && (forall i, j :: 0 <= i < j < |order| ==> order[i] != order[j])
  }

  /** The ForEach replay at startup: the records are decoded in visit order and
      inserted into `acc`; the first record whose decoding reports a message stops
      the iteration, and the records after it are not loaded. */
  function Replay<V>(acc: map<Key, V>, order: seq<Key>, stored: map<Key, Bytes>, decode: Bytes -> Decoded<V>): (r: map<Key, V>)
    requires InBucket(order, stored)
    ensures acc.Keys <= r.Keys
    decreases |order|
  {
    if order == [] then acc
    else
      var d := decode(stored[order[0]]);
      if !d.Succeeded() then acc
      else Replay(acc[order[0] := d.value], order[1..], stored, decode)
  }

  /** The number of records the replay loads: the position of the first record whose
      decoding fails, or all of them. */
  function FirstFailure<V>(order: seq<Key>, stored: map<Key, Bytes>, decode: Bytes -> Decoded<V>): (n: nat)
    requires InBucket(order, stored)
    ensures n <= |order|
    ensures forall i :: 0 <= i < n ==> decode(stored[order[i]]).Succeeded()
    ensures n < |order| ==> !decode(stored[order[n]]).Succeeded()
  {
    if order == [] || !decode(stored[order[0]]).Succeeded() then 0
    else 1 + FirstFailure(order[1..], stored, decode)
  }

  /** Which step of the constructor failed. */
  datatype StartupError = DirectoryMissing | OpenError | BucketError | ReadError

  /** What CreatePersistentMemoryHashMap returns: the instance's state and its
      diagnostic error. */
  datatype Started<V> = Started(state: State<V>, err: Option<StartupError>)

  /** The constructor's state machine over the bucket contents `stored`, visited in
      `order`: a failed folder check, open, bucket creation or read transaction leaves
      an empty, memory-only instance and reports the step; otherwise the records are
      replayed and the latch is raised, even when the replay stopped early. */
  function Startup<V>(env: Backend, order: seq<Key>, stored: map<Key, Bytes>, decode: Bytes -> Decoded<V>): (r: Started<V>)
    requires InBucket(order, stored)
    ensures r.err.None? <==> r.state.avail
    ensures !r.state.avail ==> r.state.mem == map[]
    ensures r.state.avail <==> env == Available
    ensures r.state.disk == stored
  {
    match env
    case FolderMissing => Started(State(map[], false, stored), Some(DirectoryMissing))
    case OpenFails => Started(State(map[], false, stored), Some(OpenError))
    case BucketFails => Started(State(map[], false, stored), Some(BucketError))
    case TxFails => Started(State(map[], false, stored), Some(ReadError))
    case Available => Started(State(Replay(map[], order, stored, decode), true, stored), None)
  }

  /** The bucket mirrors the memory map: the same keys, each holding the encoding of
      its in-memory value. */
  ghost predicate Mirrored<V>(s: State<V>, encode: V -> Option<Bytes>)
  {
    && (forall k :: k in s.disk ==> k in s.mem)
    && (forall k :: k in s.mem ==> k in s.disk && encode(s.mem[k]) == Some(s.disk[k]))
  }
}
