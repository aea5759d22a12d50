# memoryhashmap in Dafny

A model of the Go package `memoryhashmap`: a string-keyed in-memory map
(`MemoryHashMap`) and its persistent variant (`PersistentMemoryHashMap`). The
persistent variant writes every mutation through to bucket `"default"` of a Bolt
database. The write happens only while the latch `is_persistence_available` is up.
A failing backend step drops that latch for good, and from then on the instance is
an in-memory map only. On construction the instance loads the bucket's records into
memory.

Layout:

- `base.dfy` (module `Base`): keys, bytes, `Option`, and `Codec`. `Codec` is the
  stored type's JSON encoding (`json.Marshal`) together with its decoder
  `UnmarshalBaseObjectJSON` (baseobject.go), which returns a message, empty on success.
- `memory_hash_map.dfy` (module `MemoryHashMaps`): the class `MemoryHashMap`, whose
  `list` field is a `map` that the mutators reassign. Beside it are the
  specification functions `Find`, `Upsert` and `Erase`.
- `write_through.dfy` (module `WriteThrough`): the protocol as pure functions
  over `State(mem, avail, disk)`. `mem` is the memory map, `avail` the latch and
  `disk` the bucket's contents. `Apply` is one mutating call and `Startup` is the
  constructor's state machine.
- `write_through_lemmas.dfy` (module `WriteThroughLemmas`): properties of single
  calls, of call sequences, and of a restart.
- `persistent_memory_hash_map.dfy` (module `PersistentMemoryHashMaps`): the class
  `PersistentMemoryHashMap`, with early-return mutators, and
  `CreatePersistentMemoryHashMap`, whose loop replays the records. Each method is
  proved equal to its `WriteThrough` specification.

Backend calls are not modelled. Each mutating call takes instead a `Backend` value
saying which step fails: the folder check (`os.Stat`), `bolt.Open`, the creation of
bucket `"default"`, or the Put/Delete transaction (`TxFails`). `Available` means
every step succeeds. At construction `TxFails` stands for the read transaction
reporting an error (lines 239-243 and 260-263 of persistent_memory_hash_map.go).
The bucket's contents are passed to the constructor as a map. The order in which
`ForEach` visits them is passed as a sequence of keys that lists each key exactly
once.

Three behaviours of the code deserve a note:

- A record that fails to decode at load time stops the replay. The error that
  `ForEach` returns is discarded, so the latch is still raised and the constructor
  reports no error (persistent_memory_hash_map.go:244-266). `PartialLoadKeepsLatchUp`
  shows the result: the instance's memory then lacks a record that the bucket holds.
- An encoding failure on write skips that call's write and leaves the latch up
  (persistent_memory_hash_map.go:106-109). `EncodeFailureLeavesBucketStale` shows
  that the bucket then stops mirroring memory.
- Bolt's Put rejects an empty key, so `AddUpdateObject("", v)` drops the latch even
  when every backend step is otherwise healthy (persistent_memory_hash_map.go:116,
  125-128). `EmptyKeyDropsLatch` states it.

## Model

| member | source | states |
|---|---|---|
| `MemoryHashMaps.Find` | memory_hash_map.go:40-49 | lookup gives None (nil) exactly when the key is absent, and otherwise the stored value |
| `MemoryHashMaps.Upsert` | memory_hash_map.go:56-61 | after an upsert the key finds the new value and every other key finds what it found before; the count grows by one for a new key and is unchanged for an existing one |
| `MemoryHashMaps.Erase` | memory_hash_map.go:65-70 | after a delete the key finds None and every other key is untouched; the count drops by one if the key was present; deleting an absent key leaves the map unchanged |
| `MemoryHashMaps.UpsertTwice` | memory_hash_map.go:60 | upserting the same pair twice equals upserting it once |
| `MemoryHashMaps.EraseTwice` | memory_hash_map.go:69 | deleting a key twice equals deleting it once |
| `MemoryHashMaps.MemoryHashMap.constructor` | memory_hash_map.go:74-76 | `CreateMemoryHashMap` gives an empty map (so its count is 0) |
| `MemoryHashMaps.MemoryHashMap.Count` | memory_hash_map.go:22-27 | returns the number of stored keys and changes nothing |
| `MemoryHashMaps.MemoryHashMap.GetList` | memory_hash_map.go:30-35 | returns the stored mapping and changes nothing |
| `MemoryHashMaps.MemoryHashMap.FindByKey` | memory_hash_map.go:40-49 | returns None exactly when the key is absent, and otherwise the stored value; changes nothing |
| `MemoryHashMaps.MemoryHashMap.AddUpdateObject` | memory_hash_map.go:56-61 | the new map is `Upsert` of the old one |
| `MemoryHashMaps.MemoryHashMap.DeleteObject` | memory_hash_map.go:65-70 | the new map is `Erase` of the old one |
| `WriteThrough.Apply` | persistent_memory_hash_map.go:70-186 | the memory map always takes the mutation; the latch never rises; the bucket changes only when the latch was up and stays up and every backend step succeeds (Bolt's Put rejects an empty key); with the latch up, a failed folder check, open or bucket creation drops it |
| `WriteThrough.Replay` | persistent_memory_hash_map.go:244-256 | replaying records only adds keys to what is already loaded |
| `WriteThrough.FirstFailure` | persistent_memory_hash_map.go:250-253 | the replay loads a prefix of the visited records: every record in the prefix decodes with an empty message, and the record right after it (if any) does not |
| `WriteThrough.Startup` | persistent_memory_hash_map.go:196-267 | an error is reported exactly when the latch stays down; the latch is raised exactly when folder, open, bucket and read all succeed; a memory-only instance starts empty |
| `WriteThroughLemmas.LatchDownSkipsBackend` | persistent_memory_hash_map.go:74-75 | with the latch down a mutation changes only the memory map: the latch stays down and the bucket is unchanged |
| `WriteThroughLemmas.BackendFailureDropsLatch` | persistent_memory_hash_map.go:78-128 | with the latch up and a failing backend, the bucket is unchanged; the latch drops unless the only problem is that the value could not be encoded |
| `WriteThroughLemmas.EncodeFailureLeavesBucketStale` | persistent_memory_hash_map.go:106-109 | an encoding failure keeps the latch up and the bucket unchanged, so the bucket no longer mirrors memory |
| `WriteThroughLemmas.AddUpdateWritesThrough` | persistent_memory_hash_map.go:110-128 | a successful upsert stores the value's encoding under the key, leaves the other keys and keeps the latch up |
| `WriteThroughLemmas.DeleteWritesThrough` | persistent_memory_hash_map.go:139-184 | a delete with the latch up keeps the latch up exactly when every backend step succeeds; then the key is absent from the bucket and the other keys are untouched |
| `WriteThroughLemmas.AddUpdateIdempotent` | persistent_memory_hash_map.go:74-128 | a repeated upsert leaves the memory map as one upsert did, whatever the backend does; with a healthy backend it leaves the whole state unchanged |
| `WriteThroughLemmas.HealthyCallKeepsMirror` | persistent_memory_hash_map.go:74-184 | a fully successful call keeps the bucket a mirror of memory and the latch up |
| `WriteThroughLemmas.MemoryIgnoresBackend` | persistent_memory_hash_map.go:74 | over any sequence of calls the memory map depends only on the mutations, not on backend outcomes or the latch; nothing is rolled back |
| `WriteThroughLemmas.LatchNeverRises` | persistent_memory_hash_map.go:81-183 | after any sequence of calls the latch is up only if it was up at the start; once it is down the bucket is never touched |
| `WriteThroughLemmas.FailureIsPermanent` | persistent_memory_hash_map.go:78-128 | once a call drops the latch, at whichever backend step, the latch is down after every later call |
| `WriteThroughLemmas.EmptyKeyDropsLatch` | persistent_memory_hash_map.go:116-128 | an upsert under the empty key with the latch up drops the latch and leaves the bucket unchanged even with a healthy backend, because Bolt's Put rejects the key |
| `WriteThroughLemmas.RunSplit` | persistent_memory_hash_map.go:70-186 | running a prefix of calls and then the rest equals running all of them |
| `WriteThroughLemmas.HealthyRunKeepsMirror` | persistent_memory_hash_map.go:110-128 | calls that all meet a healthy backend, with encodable values and non-empty keys, keep the latch up and the bucket a mirror of memory |
| `WriteThroughLemmas.ReplayAllDecoded` | persistent_memory_hash_map.go:244-256 | when every visited record decodes, the replay loads exactly the visited keys, each with its decoded value, and keeps the other keys it started with |
| `WriteThroughLemmas.ReplayStopsAtFirstFailure` | persistent_memory_hash_map.go:251-253 | replaying all records equals replaying only those before the first decoding failure |
| `WriteThroughLemmas.StartupLoadsPrefix` | persistent_memory_hash_map.go:239-266 | a successful startup holds exactly the keys visited before the first decoding failure, each with its decoded value |
| `WriteThroughLemmas.PartialLoadKeepsLatchUp` | persistent_memory_hash_map.go:244-266 | when a record fails to decode, the constructor still reports no error and raises the latch, and the failing record's key is in the bucket but not in memory |
| `WriteThroughLemmas.StartupRecoversMirror` | persistent_memory_hash_map.go:239-266 | starting over a bucket that mirrors a memory map reproduces that map, in any visit order, when decoding gives back what encoding wrote |
| `WriteThroughLemmas.RestartReproducesMap` | persistent_memory_hash_map.go:70-267 | start over an empty bucket, run only healthy calls, then restart over the bucket: the new memory map equals the old one |
| `PersistentMemoryHashMaps.PersistentMemoryHashMap.constructor` | persistent_memory_hash_map.go:197-201 | a new instance keeps its type, folder and file, has an empty memory map, and has the latch down |
| `PersistentMemoryHashMaps.PersistentMemoryHashMap.Count` | persistent_memory_hash_map.go:43-48 | returns the memory map's size; touches neither the backend nor the latch |
| `PersistentMemoryHashMaps.PersistentMemoryHashMap.GetList` | persistent_memory_hash_map.go:51-56 | returns the memory map; touches neither the backend nor the latch |
| `PersistentMemoryHashMaps.PersistentMemoryHashMap.FindByKey` | persistent_memory_hash_map.go:61-63 | answers from the memory map alone, with None exactly for an absent key |
| `PersistentMemoryHashMaps.PersistentMemoryHashMap.AddUpdateObject` | persistent_memory_hash_map.go:70-130 | memory becomes `Upsert` of the old memory; the new state is `Apply` of the old state for this upsert and backend outcome |
| `PersistentMemoryHashMaps.PersistentMemoryHashMap.DeleteObject` | persistent_memory_hash_map.go:134-186 | memory becomes `Erase` of the old memory; the new state is `Apply` of the old state for this delete and backend outcome |
| `PersistentMemoryHashMaps.CreatePersistentMemoryHashMap` | persistent_memory_hash_map.go:196-267 | always returns a fresh instance; its state and error are `Startup` of the backend outcome and the bucket's records |

## Left out

- Bolt and the filesystem (`os.Stat`, `filepath.Join`, `bolt.Open` with its 1-second timeout, `db.Update`, `db.View`, `db.Close`). Each call's `Backend` value stands for their outcome, and the ghost field `disk` stands for bucket `"default"`. The bucket name is fixed and is not modelled as data.
- The deferred `db.Close()` in both mutators is registered before the open error is checked (persistent_memory_hash_map.go:87, 150). When `bolt.Open` fails it returns a nil handle, so in Go the open-failure path ends in a nil-pointer panic after the latch has been set false. The model's `OpenFails` path returns normally.
- Bolt's other data-dependent rejections in Put: a key or value over Bolt's size limits. The `Backend` outcome does not depend on the key or the value, so these rejections are folded into `TxFails`. `Available` with such a key or value is a state the source cannot reach. Only the empty key is modelled (`PutAccepts`).
- `encoding/json` and the reflection-based decode (`reflect.New`, `MethodByName`, `Call`). They appear as the two functions of `Codec`.
- `sync.RWMutex`: every call allocates a fresh lock, so the locks exclude nothing. The model is sequential.
- Go's nil interface values: the model's values are never nil, so `FindByKey` returning None always means the key is absent. In Go, a stored nil value is also reported as nil.
- `GetList` returns Go's live map, which aliases the internal one. The model returns the map value and says nothing about aliasing.
- At construction, the case where the bucket is missing inside the read transaction (lines 241-243) is merged with a failing read transaction (`TxFails`). Both end in the same state.
- The bucket's records in key-byte order: `CreatePersistentMemoryHashMap` accepts any order that visits each stored key exactly once.
- persistent_memory_hash_map_test.go: its calls do not match the package's signatures, so nothing is drawn from it.
