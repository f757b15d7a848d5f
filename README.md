# Chat-rules persistence with a read-through / write-through cache

A model of the chat-rules accessor of the Alita bot's persistence layer
(`alita/db/rules_db.go`). Each chat has one rules record (`Rules`: chat id,
rules text, private flag, rules-button payload) kept in a durable document
store and mirrored in a shared object cache.

- Reading goes through `checkRulesSetting`. It tries the cache first. On a
  miss it queries the store. When the store has no document, it builds a
  default record and upserts it on a best-effort basis. When the store
  errs, it uses the same default and writes nothing. Every miss writes the
  resolved record back into the cache.
- The three mutators (`SetChatRules`, `SetChatRulesButton`,
  `SetPrivateRules`) reload the record through the accessor and replace one
  field. They then upsert the whole record and overwrite the cache entry,
  even when the upsert failed.
- `LoadRulesStats` counts the stored records with non-empty rules and the
  ones whose private flag is set.

Layout:

- `rules_model.dfy` (module `RulesModel`): the record, the store and the
  cache as maps, and the answers of the backend calls (`findOne`, the
  upsert, the cache read). It also holds the invariants `WellFormed` (every
  record sits under its own chat id) and `Coherent` (every cached record
  equals the stored one).
- `rules_access.dfy` (module `RulesAccess`): the accessor (`Check`) and the
  mutators (`Mutate`) as functions from one state of the two backends to
  the next, with the lemmas about them.
- `rules_db.dfy` (module `RulesDb`): class `Db` holding the `store` and
  `cache` maps. Its methods update them step by step, as the Go functions
  do. Each method is proved equal to its function in `RulesAccess`.
- `rules_stats.dfy` (module `RulesStats`): `LoadRulesStats` as filter
  counts over the store, and how each operation moves the counts.
- `rules_trace.dfy` (module `RulesTrace`): runs of many calls, and what
  holds over a whole run.

Backend outcomes are not visible to the accessor's code, so they enter as
parameters. A `Faults` value says whether the cache read errs, whether the
store query errs, and whether the default record's upsert fails. Each
mutator also takes a flag saying whether its own upsert fails. The Go record
is a pointer that the mutators change in place. It is a value here because
the object cache stores serialized bytes: the field write only touches the
caller's decoded copy.

## Model

| member | source | states |
|---|---|---|
| RulesAccess.Check | alita/db/rules_db.go:22-44 | the cache entry of the chat becomes the returned record; the store is queried exactly on a miss; the store changes at most by gaining the default record for a chat it lacked; no other chat changes; well-keyed backends stay well-keyed and the record carries the requested chat id |
| RulesAccess.CacheHit | alita/db/rules_db.go:24-26 | a hit returns the cached record, queries nothing and leaves both backends unchanged |
| RulesAccess.DefaultOnAbsence | alita/db/rules_db.go:27-34 | a miss whose query reports no document returns `{chatId, "", false, ""}`; the store gets that record unless the upsert fails, and the result is the same either way |
| RulesAccess.StoreErrorFallsBack | alita/db/rules_db.go:35-38 | a miss whose query errs returns the default record and leaves the store unchanged |
| RulesAccess.StoreHit | alita/db/rules_db.go:28 | a miss whose query returns the stored document yields that document and leaves the store unchanged |
| RulesAccess.CheckKeepsCoherence | alita/db/rules_db.go:28-42 | when the store calls succeed, the accessor keeps every cached record equal to the stored one |
| RulesAccess.CachedReadsAreStable | alita/db/rules_db.go:24-26 | once a chat is cached, any number of reads whose cache read succeeds return that record and change nothing |
| RulesAccess.RepeatedReadsAgree | alita/db/rules_db.go:24-26 | N consecutive reads with no mutation between them, whose cache reads after the first succeed, return the same record, and only the first can query the store |
| RulesAccess.ReadTwice | alita/db/rules_db.go:40-42 | a read right after a read, whose cache read succeeds, is a cache hit that returns the same record and changes nothing |
| RulesAccess.Mutate | alita/db/rules_db.go:50-81 | the cache entry becomes the reloaded record with one field replaced; a successful upsert stores the same record; a failed one leaves the store as the reload left it; no other chat changes |
| RulesAccess.WriteThrough | alita/db/rules_db.go:50-81 | after a mutator both the cache, and the store when the upsert succeeded, hold the reloaded record with the one field replaced |
| RulesAccess.ApplyChangesOneField | alita/db/rules_db.go:52 | a mutator changes exactly its own field (rules text, button or private flag) of the loaded record |
| RulesAccess.WriteThenRead | alita/db/rules_db.go:50-59 | a read right after `SetChatRules(k, text)`, whose cache read succeeds, is served from the cache and carries `text` |
| RulesAccess.MutateKeepsCoherence | alita/db/rules_db.go:50-81 | mutators keep the cache and the store coherent when no store call fails |
| RulesAccess.CoherentReloadSeesStore | alita/db/rules_db.go:22-44 | on coherent backends whose query succeeds, the reload returns the stored record, or the default for a new chat |
| RulesAccess.FailedUpsertDiverges | alita/db/rules_db.go:50-81 | on coherent backends whose reload succeeds, a mutator whose upsert fails and whose field change is a real change leaves the cache holding the changed record and the store the old one, so they are no longer coherent |
| RulesAccess.FailedReloadOverwritesStore | alita/db/rules_db.go:35-38 | when the reload misses the cache and its query errs, a mutator whose upsert succeeds stores the default record with only its own field replaced, whatever the store held before |
| RulesAccess.FailedReloadClearsPrivateFlag | alita/db/rules_db.go:50-59 | an instance: a stored private flag and button are cleared by a `SetChatRules` whose reload query failed |
| RulesDb.Db.CheckRulesSetting | alita/db/rules_db.go:22-44 | the step-by-step accessor returns the record and leaves the backends exactly as `Check` says; the cache holds the result; a hit or a failing query leaves the store unchanged |
| RulesDb.Db.GetChatRulesInfo | alita/db/rules_db.go:46-48 | the getter returns `checkRulesSetting`'s record for the chat and leaves it cached |
| RulesDb.Db.SetChatRules | alita/db/rules_db.go:50-59 | the new state is `Mutate` with the rules text; the cache holds the reloaded record with `rules` replaced, and so does the store when the upsert succeeds |
| RulesDb.Db.SetChatRulesButton | alita/db/rules_db.go:61-70 | the same with the rules-button payload |
| RulesDb.Db.SetPrivateRules | alita/db/rules_db.go:72-81 | the same with the private flag |
| RulesDb.DefaultThenSetThenGet | alita/db/rules_db.go:46-59 | a caller's run on a new chat with no failures: the store then holds the default record with the new text, the cache holds it too, and the last read returns it; other chats keep their stored and cached records |
| RulesStats.LoadRulesStats | alita/db/rules_db.go:83-105 | both counts are at most the number of stored records, and each is zero exactly when no stored record sets rules (resp. the private flag) |
| RulesStats.MatchingBounds | alita/db/rules_db.go:84-99 | a field-filter count is at most the number of documents and is zero exactly when no document matches |
| RulesStats.MatchingAfterPut | alita/db/rules_db.go:84-99 | replacing one document moves a filter count by the new document's match minus the old one's |
| RulesStats.StatsAfterPut | alita/db/rules_db.go:84-99 | the same for both statistics at once |
| RulesStats.CheckKeepsStats | alita/db/rules_db.go:27-31 | the read-through accessor never changes either statistic |
| RulesStats.SetChatRulesStats | alita/db/rules_db.go:50-59 | on coherent backends whose reload query and upsert succeed, `SetChatRules` leaves the private count alone and moves the rules count only by the change at that chat |
| RulesStats.SetChatRulesButtonStats | alita/db/rules_db.go:61-70 | on coherent backends whose reload query and upsert succeed, `SetChatRulesButton` changes neither count |
| RulesStats.SetPrivateRulesStats | alita/db/rules_db.go:72-81 | on coherent backends whose reload query and upsert succeed, `SetPrivateRules` leaves the rules count alone and moves the private count only by the change at that chat |
| RulesTrace.RunWellFormed | alita/db/rules_db.go:22-81 | every record stays under its own chat id through any sequence of reads and mutations |
| RulesTrace.FaultFreeRunCoherent | alita/db/rules_db.go:22-81 | a run in which no store call fails keeps every cached record equal to the stored one |
| RulesTrace.RunFrame | alita/db/rules_db.go:28-58 | a run leaves the stored and the cached record of every chat it does not name unchanged |

## Left out

- `alita/modules/devs.go` is not part of this model. Its command handlers
  are messaging and file I/O around database calls, and the sudo/dev
  writes run as detached goroutines.
- `alita/utils/cache/cache.go` is not part of this model. `InitCache` only
  wires the Redis tier, the Ristretto tier and the marshaler together, and
  their behaviour lives in libraries. `AdminCache` has no operations in that
  file; what it adds is a reader/writer lock, which is concurrency.
- The cache is one key-to-record map that never expires. The 10-minute TTL
  and the local tier's eviction are not modelled. A cache read that errs is
  a miss, like an absent key. `CachedReadsAreStable`, whose reads are all
  hits and write nothing, rests on this assumption alone.
- A cache write is assumed always to take effect. The Go code ignores the
  error of `Set` (rules_db.go:41, 58, 69, 80), and a write that failed would
  leave the old entry in place; the model does not cover that case.
  `WriteThenRead`, `ReadTwice` and `RepeatedReadsAgree` rely on this
  assumption.
- Keys of different record kinds sharing the cache, and decode errors from
  a type mismatch, are not modelled. Every cache entry here is a rules record.
- `updateOne` is defined outside `alita/db/rules_db.go`. It is assumed to
  replace the whole document of the chat and to insert it when absent
  (upsert). A `$set` of the encoded fields would differ: `rules_button`
  is `omitempty` (rules_db.go:18), so `SetChatRulesButton(k, "")` would
  leave a stored button in place. `Upsert`, `WriteThrough` and every store
  equality after a mutator rest on the whole-document assumption.
- A failed upsert is taken to have written nothing.
- `findOne` either returns the stored document or fails; a document that
  fails to decode is one of its failures. Query semantics beyond the
  `_id`, `rules` and `privrules` filters are not modelled.
- LoadRulesStats: the counts are unbounded `nat`s rather than `int64`, and
  the error return of `countDocs`, with the log line that reports the wrong
  error variable, is not modelled.
- Log output is not modelled.
- Concurrent mutators on one chat, and the updates they can lose, are not
  modelled: the model is single-threaded.
