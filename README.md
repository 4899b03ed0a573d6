# Fluence node core: record store, particle plumber, code storage

This project models three parts of a Fluence node in Dafny and proves
properties of the models.

- **The Kademlia record store** (`janus/server/src/kademlia/memory_store.rs`), module `RecordStore`.
  - It keeps value records per key, bounded by a record count and a value size.
  - It keeps per-key provider lists, sorted by distance to the key and cut to `K_VALUE` (20) entries.
  - It keeps the set of records the local node itself provides.
  - The list logic lives in module `Providers`.
  - `RecordStore.MemoryStore` is a class whose methods update its three tables in place, as the Rust methods do.
- **The particle plumber** (`aquamarine/src/plumber.rs`), module `Plumbing`.
  - It admits incoming particles: an expired particle is rejected, a particle with a bad signature is rejected, and a particle for an inactive worker is dropped silently.
  - It keeps one actor per particle signature for the host and for each worker.
  - It splits the next peers of a finished actor into remote peers and local scopes.
  - It removes expired, idle actors, at most 1024 cleanup keys per round.
  - It queues events in a FIFO that `poll` drains first.
  - `Plumbing.Plumber` is a class over the event queue, the actor tables, the VM-pool table and the pending cleanup.
- **The code storage helpers of the CLI** (`cli/src/storage.rs`), module `Storage`.
  - The storage-kind byte encoding.
  - The dispatch of an upload to Swarm or IPFS, and the error for an unknown kind.
  - Dropping the 2-byte multihash header from an IPFS hash.

Module `Base` holds `Option`, `Result` and the byte type `u8`.

## Model

| member | source | states |
|---|---|---|
| RecordStore.MemoryStore.New | janus/server/src/kademlia/memory_store.rs:87-103 | The store starts empty with the default configuration: 1024 records, 65 KiB values, `K_VALUE` = 20 providers per key and 1024 provided keys. |
| RecordStore.MemoryStore.WithConfig | janus/server/src/kademlia/memory_store.rs:105-113 | The store starts empty with the given configuration, and its invariant holds. |
| RecordStore.MemoryStore.Retain | janus/server/src/kademlia/memory_store.rs:115-125 | Every key keeps exactly the records the predicate accepts, and no key is added or removed. |
| RecordStore.MemoryStore.Insert | janus/server/src/kademlia/memory_store.rs:131-146 | Adding a record fails with `MaxRecords` exactly when its expansion is malformed. Otherwise the set gains exactly the expanded records. |
| RecordStore.MemoryStore.Put | janus/server/src/kademlia/memory_store.rs:166-186 | Fails with `ValueTooLarge` when the value has `max_value_bytes` bytes or more. Fails with `MaxRecords` when a new key would exceed `max_records` or the expansion is malformed. A failure leaves the records unchanged. On success the key's set gains the expanded records, `get` returns the reduction of the key's old records together with the new ones, and every other key reads as before. |
| RecordStore.MemoryStore.PutGetRemove | janus/server/src/kademlia/memory_store.rs:350-363 | Put, get, remove in a row. On an empty store, a record whose value fits and that expands to itself is accepted, and `get` returns the reduction of that one record. In general, after a successful put `get` returns the reduction of the key's old records plus the new ones, and after a failed put it returns what it returned before. After `remove`, `get` finds nothing and the key is gone. |
| RecordStore.MemoryStore.Remove | janus/server/src/kademlia/memory_store.rs:188-190 | The key is gone afterwards, so `get` finds nothing, and every other key reads as before. |
| RecordStore.MemoryStore.Records | janus/server/src/kademlia/memory_store.rs:192-202 | Lists exactly the stored keys, each with the record `get` returns for it. |
| RecordStore.MemoryStore.AddProvider | janus/server/src/kademlia/memory_store.rs:204-252 | Fails with `MaxProvidedKeys` exactly when the key is new and `max_provided_keys` keys are already held, and then changes nothing. Otherwise the key's list becomes `AddToList` of the old list, and `provided` follows the corrected update. The invariant (sorted, distinct, bounded lists, `provided` in sync) is kept. |
| RecordStore.MemoryStore.OfferToList | janus/server/src/kademlia/memory_store.rs:215-250 | The in-place steps give exactly the list `AddToList` describes: replace in place, insert before the first farther record, or append while there is room. `provided` changes as `ProvidedAfterAdd` describes. |
| RecordStore.MemoryStore.ProvidersFor | janus/server/src/kademlia/memory_store.rs:254-258 | An unknown key has no providers. Under the store invariant, a key's list is sorted by distance, has distinct providers and holds at most `max_providers_per_key` records. |
| RecordStore.MemoryStore.Provided | janus/server/src/kademlia/memory_store.rs:260-262 | Holds exactly the local node's records that appear in the provider lists, in both directions. |
| RecordStore.MemoryStore.RemoveProvider | janus/server/src/kademlia/memory_store.rs:264-275 | The provider leaves the key's list, and a list left empty removes the key. `provided` loses exactly that key and provider's record. The invariant is kept. |
| RecordStore.AddProviderKeepsSync | janus/server/src/kademlia/memory_store.rs:215-250 | With the corrected replace, `add_provider` keeps `provided` equal to the local node's records in the lists. |
| RecordStore.RemoveProviderKeepsSync | janus/server/src/kademlia/memory_store.rs:264-275 | `remove_provider` keeps `provided` in sync and removes exactly the matching record from it. |
| RecordStore.AddKeepsProvidersInvariant | janus/server/src/kademlia/memory_store.rs:204-252 | When the key limit admits the record, adding a provider keeps every list sorted, distinct and bounded. It also keeps the key count within `max_provided_keys` and `provided` in sync. |
| RecordStore.RemoveKeepsProvidersInvariant | janus/server/src/kademlia/memory_store.rs:264-275 | Removing a provider keeps the same store invariant. |
| RecordStore.AsWrittenLosesSync | janus/server/src/kademlia/memory_store.rs:219-221 | As written, the local node re-adding its record with a new expiry leaves the stale record in `provided` and loses the sync. |
| RecordStore.AsWrittenBreaksSync | janus/server/src/kademlia/memory_store.rs:219-221 | For any list and `provided` in sync: when the local node re-offers a listed key with a different record, the in-place replacement puts the new record in the list, but the source's `provided` no longer matches the list. |
| Providers.ProviderIndex | janus/server/src/kademlia/memory_store.rs:219 | `position` finds the first record of the provider, and finds none exactly when the provider is absent. |
| Providers.FirstFartherIndex | janus/server/src/kademlia/memory_store.rs:227-231 | Finds the first record strictly farther from the key than the new one; every earlier record is no farther. |
| Providers.InsertAtFirstFarther | janus/server/src/kademlia/memory_store.rs:227-249 | The insertion `add_provider` performs is the record spliced in at the first farther index, or appended when there is none. |
| Providers.InsertAddsRecord | janus/server/src/kademlia/memory_store.rs:227-249 | Inserting by distance adds exactly the new record, as a multiset. |
| Providers.InsertKeepsSorted | janus/server/src/kademlia/memory_store.rs:227-249 | Inserting by distance keeps a sorted list sorted. |
| Providers.ReplaceKeepsInvariant | janus/server/src/kademlia/memory_store.rs:219-221 | Replacing a provider's record in place keeps the list sorted, distinct and bounded. |
| Providers.InsertKeepsInvariant | janus/server/src/kademlia/memory_store.rs:222-250 | Inserting a new provider and cutting the list to `max` keeps it sorted, distinct and bounded. |
| Providers.AddToListKeepsInvariant | janus/server/src/kademlia/memory_store.rs:215-250 | Offering any record keeps the list invariant. |
| Providers.TruncateInsertTruncate | janus/server/src/kademlia/memory_store.rs:236-248 | Cutting the list before an insertion does not change the first `max` records after it, so the bound never drops a provider that would come back. |
| Providers.SortByDistance | janus/server/src/kademlia/memory_store.rs:393 | The reference order of the test is a sorted permutation of the offered records. |
| Providers.AddAllIsSortedPrefix | janus/server/src/kademlia/memory_store.rs:378-401 | Offering records of distinct providers one by one to an empty list yields them sorted by distance and cut to `max`. |
| Providers.FullListDropsFarther | janus/server/src/kademlia/memory_store.rs:236-249 | A full list is unchanged by a new provider that is no closer than any listed one. |
| Providers.ReplaceKeepsLength | janus/server/src/kademlia/memory_store.rs:219-221 | Re-offering a listed provider keeps the list length and stores the new record. |
| Providers.RemoveFromList | janus/server/src/kademlia/memory_store.rs:264-270 | Removing a provider drops exactly its record from a list of distinct providers, and the length falls by one exactly when the provider was listed. |
| Providers.RemoveAtKeepsInvariant | janus/server/src/kademlia/memory_store.rs:267-270 | Removing one entry keeps the list sorted, distinct and bounded. |
| Providers.RemoveKeepsInvariant | janus/server/src/kademlia/memory_store.rs:264-275 | Removing a provider keeps the list invariant. |
| Providers.AddThenRemove | janus/server/src/kademlia/memory_store.rs:365-376 | A record offered to a list with room is listed, and after removing its provider it is listed no more. |
| Plumbing.Admission | aquamarine/src/plumber.rs:125-155 | Rejects with `ParticleExpired` exactly when the particle is expired. Rejects with `SignatureVerificationFailed` exactly when it is live but fails verification. Drops it exactly when it is live, verified, and aimed at an inactive worker by a peer that is neither a manager nor the host. |
| Plumbing.CreateActor | aquamarine/src/plumber.rs:252-296 | An existing key returns the table unchanged. A new actor is created exactly when a key pair and a token are available; nothing has been delivered to it yet, and it has the requested scope, and every other actor is kept. |
| Plumbing.GetOrCreate | aquamarine/src/plumber.rs:197-250 | Only the requested scope's table changes. It keeps every actor it had, unchanged, and gains at most the requested key. A worker scope always gets a table entry, even when the lookup then fails. It fails with `NoDeal` when the worker has no deal, then with `NoRuntimeHandle` when it has no runtime handle. Otherwise it succeeds exactly when the actor exists or a key pair and a particle token are available. A newly created actor has the particle's id, the requested scope, that scope's peer and deal, no delivered particle and no service function. |
| Plumbing.Plumber.GetOrCreateActor | aquamarine/src/plumber.rs:197-250 | The class's tables change exactly as `GetOrCreate` describes. |
| Plumbing.IngestTouchesOneActor | aquamarine/src/plumber.rs:157-175 | An admitted particle touches at most the actor of its signature in its own scope. Every other scope's table is unchanged. Every other actor of its own scope stays present and unchanged. When the lookup succeeds, an existing actor's delivered particles gain this one at the end. A newly created actor has been delivered just this particle. |
| Plumbing.IngestKeepsScopes | aquamarine/src/plumber.rs:157-175 | Ingesting keeps every actor in the table of its own scope. |
| Plumbing.Plumber.Ingest | aquamarine/src/plumber.rs:119-180 | An expired or unverifiable particle pushes exactly one error event and creates no actor. A dropped one changes nothing. An admitted one pushes no event and updates the actors as `IngestTables` describes. |
| Plumbing.CleanupActors | aquamarine/src/plumber.rs:551-567 | Removes only expired, non-executing actors and keeps the rest unchanged. The ghost result lists each removed actor exactly once. The keys appended are exactly the cleanup keys of those actors, in the order listed, and never go beyond 1024. Below 1024 keys no removable actor is left. From 1024 keys on it changes nothing. |
| Plumbing.CleanupWorkerActors | aquamarine/src/plumber.rs:536-549 | Changes nothing when 1024 keys are already gathered. Otherwise each surviving worker's table is cleaned as `CleanupActors` cleans one, and a surviving worker still has actors or a VM pool. A dropped worker had no VM pool and only removable actors. The ghost result lists each removed (worker, actor) pair exactly once. The keys appended are exactly their cleanup keys, in that order. Below 1024 keys no removable actor is left in any worker. |
| Plumbing.CleanupTables | aquamarine/src/plumber.rs:513-518 | The host pass followed by the worker pass is one cleanup round (`CleanupRound`), and every actor stays in its own scope's table. The gathered keys are the host actors' keys followed by the worker actors' keys, at most 1024. Below 1024, no removable actor is left anywhere. Fewer than 1024 host keys leaves no removable host actor, even when the worker pass fills the batch. |
| Plumbing.RoundOfPasses | aquamarine/src/plumber.rs:513-518 | What the two passes promise makes up one `CleanupRound`, and it keeps every actor in its own scope's table. The host pass comes first: fewer than 1024 host keys means no removable host actor is left, whatever the worker pass gathers. |
| Plumbing.RoundSummary | aquamarine/src/plumber.rs:506-526 | After a round only removable host actors are gone and the rest are unchanged. A round that gathered no key changed no host actor. The batch scheduled holds between 1 and 1024 keys. |
| Plumbing.RoundOutcomeFacts | aquamarine/src/plumber.rs:506-526 | Without a round nothing changes. After a round the host table and every surviving worker table are cleaned, no worker gains an entry, and a dropped worker has no VM pool. The new batch holds at most 1024 keys. When there is no batch, or it is not full, no removable actor is left anywhere. A removable host actor survives only when the host pass alone filled the batch of 1024 keys, and then the worker tables are untouched. |
| Plumbing.Plumber.Cleanup | aquamarine/src/plumber.rs:506-526 | While an unfinished cleanup is pending nothing changes. Otherwise one round runs (`RoundOutcome`): the host table is cleaned, then the worker tables, as above. The gathered keys are exactly the cleanup keys of the removed actors. No removable actor is left when fewer than 1024 keys were gathered. The pending cleanup becomes the gathered batch, or none when no key was gathered. |
| Plumbing.SplitNextPeers | aquamarine/src/plumber.rs:444-455 | The loop yields exactly the order-preserving list of remote peers and the list of local scopes. |
| Plumbing.SplitCounts | aquamarine/src/plumber.rs:444-455 | Every next peer goes to exactly one side of the partition. |
| Plumbing.RemotePeersMembers | aquamarine/src/plumber.rs:444-455 | The remote side holds exactly the peers with no local scope. |
| Plumbing.LocalScopesMembers | aquamarine/src/plumber.rs:444-455 | The local side holds exactly the scopes of the peers that have one. |
| Plumbing.SplitAppend | aquamarine/src/plumber.rs:444-455 | The partition preserves order: splitting a concatenation concatenates the splits. |
| Plumbing.PollActors | aquamarine/src/plumber.rs:425-468 | The loop over finished actors yields exactly the remote and local effect lists of the specification functions. |
| Plumbing.RemoteEffectsAreRemote | aquamarine/src/plumber.rs:457-462 | Every remote effect is non-empty and names only peers with no local scope. |
| Plumbing.LocalEffectsAreNonEmpty | aquamarine/src/plumber.rs:464-469 | A local effect is produced only with a non-empty list of scopes. |
| Plumbing.Routed | aquamarine/src/plumber.rs:368 | Remote effects become `Ok` events one for one, in order. |
| Plumbing.Plumber.New | aquamarine/src/plumber.rs:86-117 | A new plumber has no events, no actors, no VM pools and no pending cleanup. |
| Plumbing.Plumber.CreateWorkerPool | aquamarine/src/plumber.rs:182-191 | The worker gets a pool and nothing else changes. |
| Plumbing.Plumber.RemoveWorkerPool | aquamarine/src/plumber.rs:193-195 | The worker's pool is removed and nothing else changes. |
| Plumbing.Plumber.IngestPair | aquamarine/src/plumber.rs:363 | Ingesting one (particle, scope) pair with no service function changes the tables by one `IngestStep` and queues exactly its `RejectionOf`. |
| Plumbing.Plumber.IngestTargets | aquamarine/src/plumber.rs:360-364 | The inner loop ingests the particle once per local scope, in order. The tables become `IngestAll` of those pairs and the queue gains exactly their rejections, in order. |
| Plumbing.Plumber.Reingest | aquamarine/src/plumber.rs:359-365 | The outer loop ingests every local effect's pairs, in order. The tables become `IngestAll` of `LocalDeliveries` and the queue gains exactly their rejections, in order. |
| Plumbing.IngestAllAppend | aquamarine/src/plumber.rs:359-365 | Ingesting two runs of pairs one after the other is ingesting their concatenation, and the error events concatenate the same way. |
| Plumbing.RejectionsCount | aquamarine/src/plumber.rs:359-365 | Re-ingestion queues one error event per pair that `Admission` rejects, and nothing but error events. |
| Plumbing.IngestAllKeepsScopes | aquamarine/src/plumber.rs:359-365 | Re-ingestion keeps every actor in the table of its own scope. |
| Plumbing.Plumber.Poll | aquamarine/src/plumber.rs:325-371 | A queued event is returned first, in FIFO order, and nothing else changes. With an empty queue the result is pending. The tables are those a cleanup round (as `Cleanup` states) leaves, followed by re-ingesting each local effect's particle for each of its scopes, in polling order. The queue becomes exactly the error events of the rejected re-ingestions, in order, followed by the routed remote effects. |
| Storage.FromByte | cli/src/storage.rs:40-46 | Code 0 gives `SWARM` and code 1 gives `IPFS`; every other code gives `UNKNOWN` carrying that code. |
| Storage.ToByte | cli/src/storage.rs:48-54 | `UNKNOWN(u)` encodes as `u`, and a code below 2 comes from `SWARM`, `IPFS` or a low `UNKNOWN`. |
| Storage.ByteRoundTrip | cli/src/storage.rs:40-54 | Decoding then encoding returns every byte unchanged. |
| Storage.StorageRoundTrip | cli/src/storage.rs:40-54 | Encoding then decoding returns the storage kind exactly when it is not `UNKNOWN(0)` or `UNKNOWN(1)`. |
| Storage.UnknownLowCodesCollide | cli/src/storage.rs:40-54 | `UNKNOWN(0)` and `UNKNOWN(1)` come back as `SWARM` and `IPFS`. |
| Storage.UploadToStorage | cli/src/storage.rs:68-88 | `SWARM` and `IPFS` go to their backend and return its result. `UNKNOWN(u)` contacts no backend and fails with an error naming `u`. |
| Storage.StripMultihashPrefix | cli/src/storage.rs:147-148 | The IPFS hash is the decoded bytes minus their first 2 bytes. There is none when fewer than 2 bytes were decoded. |
| Storage.StripAfterPrefix | cli/src/storage.rs:147-148 | Any 2-byte header followed by a digest strips back to that digest. |

## Left out

- The XOR distance between SHA-256 hashed keys is left out. Distance is a parameter, a function from peer and key to a number; only its order matters to the store.
- `reduce_record_set` and `expand_record_set` are parameters of the store. An expansion is one record, several records, or malformed.
- Keys, peer ids and instants are numbers. Record bodies other than the value length are not interpreted.
- RecordStore.MemoryStore.AddProvider: when the local node replaces its own record in place, `provided` follows the corrected update (old record out, new record in), not the source's, which leaves `provided` unchanged (see Findings).
- RecordStore.MemoryStore.OfferToList: the replace branch follows the corrected `provided` update (see Findings). `RecordStore.ProvidedAfterAddAsWritten` keeps the source's version.
- RecordStore.MemoryStore.Records: the source yields borrowed records lazily. The model returns a map, so iteration order is not modelled.
- `Retain`, `CleanupActors` and `CleanupWorkerActors` visit hash-map entries in an arbitrary order; the model picks any remaining entry. The predicate of `retain` is a pure function, not a stateful closure.
- The futures, wakers, tokio tasks, VM pools (`poll_pools`) and metrics of the plumber are left out. The actors that finished during a poll are an input to `Poll`, in polling order. Whether the pending cleanup finished is an input too.
- The clock: one `now` stands for every `now_ms()` reading of a call. The source reads the clock again for the cleanup round (aquamarine/src/plumber.rs:516) and for each re-ingested particle (aquamarine/src/plumber.rs:126). In `Poll` the model evaluates all of them at the same instant.
- Expiry checks (`Deadline`, `now_ms`), signature verification, worker activity, management and host checks, peer scopes, deals, runtime handles, key pairs and particle tokens are fixed answers in `Env`.
- Actor internals: `Actor::ingest` is taken to append the particle to the actor's delivery history (`Actor.delivered`), and `set_function` to replace the service function; actor.rs is not part of this model. Actor expiry, the executing flag and cleanup keys are fixed answers in `Env`.
- Plumbing.Plumber.Ingest: `ingest` has a `debug_assert!` that the actor lookup succeeded (aquamarine/src/plumber.rs:163). The model follows the release build, which logs a warning and drops the particle; the panic of a debug build is not modelled.
- `poll_next_host_messages` and `poll_next_worker_messages` (aquamarine/src/plumber.rs:345-347) take the next messages from each actor's mailbox and start VM executions; they are left out. The model keeps no mailbox queue: `Actor.delivered` is the history of every particle delivered to an actor, which those executions never shrink, so the draining is not modelled.
- `add_service` and `remove_service` forward to the service registry, which is not part of this model.
- Storage.UploadToStorage: the HTTP calls to Swarm and IPFS, the JSON and base58 decoding, and the hex parse of the Swarm hash are left out; each backend's result is a parameter.
- Storage.StripMultihashPrefix: the source panics on fewer than 2 bytes; the model returns no hash. The conversion into a 32-byte `H256` is not modelled.
- The peer-scope router, the deal status types, the core-manager types and the chain listener are not part of this model.
- The randomised test generators and `generate_publisher` are left out.

## Findings

| source | as written | input that shows it | evidently intended | confidence | as-written member | corrected member |
|---|---|---|---|---|---|---|
| janus/server/src/kademlia/memory_store.rs:219-221 | Replacing a provider's record in place does not update `provided` | The local node provides key 7 and calls `add_provider` again for key 7 with a new expiry. The list holds the new record, while `provided` still holds only the old one. | When the local node's record is replaced, `provided` drops the old record and gains the new one | not executed | RecordStore.AsWrittenLosesSync | RecordStore.AddProviderKeepsSync |
