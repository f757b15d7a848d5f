/** The read-through accessor and the write-through mutators of the rules
    collection, as functions from one backend state to the next, and what
    they guarantee. */
module RulesAccess {
  import opened RulesModel

  /** What one accessor call resolved, the backends after it, and whether it
      had to query the store (a cache miss). */
  datatype Access = Access(record: Rules, after: State, queried: bool)

  /** The read-through accessor: the cache first; on a miss the store; a
      default record when the store has none (persisted, best effort) or
      when the store errs (not persisted); the result written back into the
      cache in every miss branch. */
  function Check(s: State, k: ChatId, f: Faults): (a: Access)
    ensures a.after.cache == s.cache[k := a.record]
    ensures a.queried <==> (f.cacheGetFails || k !in s.cache)
    ensures !a.queried ==> a.record == s.cache[k] && a.after == s
    ensures a.after.store == s.store
         || (k !in s.store && a.after.store == s.store[k := DefaultRules(k)])
    ensures OnlyKeyChanged(s, a.after, k)
    ensures WellFormed(s) ==> a.record.chatId == k && WellFormed(a.after)
  {
    match CacheGet(s.cache, k, f.cacheGetFails)
    case Some(cached) => Access(cached, s, false)
    case None =>
      var def := DefaultRules(k);
      match FindOne(s.store, k, f.findFails)
      case NotFound => Access(def, State(Upsert(s.store, k, def, f.upsertFails), s.cache[k := def]), true)
      case Failed => Access(def, State(s.store, s.cache[k := def]), true)
      case Found(doc) => Access(doc, State(s.store, s.cache[k := doc]), true)
  }

  /** A write-through mutator: reload the record through the accessor,
      replace one field, upsert the whole record, and overwrite the cache
      entry whether or not the upsert succeeded. */
  function Mutate(s: State, k: ChatId, field: Field, load: Faults, upsertFails: bool): (s': State)
    ensures var r := Apply(Check(s, k, load).record, field);
            && s'.cache == s.cache[k := r]
            && (upsertFails ==> s'.store == Check(s, k, load).after.store)
            && (!upsertFails ==> s'.store == s.store[k := r])
    ensures OnlyKeyChanged(s, s', k)
    ensures WellFormed(s) ==> WellFormed(s')
  {
    var a := Check(s, k, load);
    var r := Apply(a.record, field);
    State(Upsert(a.after.store, k, r, upsertFails), a.after.cache[k := r])
  }

  /** A cache hit returns the cached record and touches neither backend. */
  lemma CacheHit(s: State, k: ChatId, f: Faults)
    requires !f.cacheGetFails && k in s.cache
    ensures Check(s, k, f) == Access(s.cache[k], s, false)
  {
  }

  /** A miss on a chat the store does not hold yields the default record;
      the store receives exactly that record unless the upsert fails, and
      the result is the same either way. */
  lemma DefaultOnAbsence(s: State, k: ChatId, f: Faults)
    requires f.cacheGetFails || k !in s.cache
    requires !f.findFails && k !in s.store
    ensures Check(s, k, f).record == Rules(k, "", false, "")
    ensures Check(s, k, f).after.store
         == if f.upsertFails then s.store else s.store[k := Rules(k, "", false, "")]
  {
  }

  /** A miss with a failing store query yields the same default record and
      writes nothing to the store. */
  lemma StoreErrorFallsBack(s: State, k: ChatId, f: Faults)
    requires f.cacheGetFails || k !in s.cache
    requires f.findFails
    ensures Check(s, k, f).record == DefaultRules(k)
    ensures Check(s, k, f).after.store == s.store
  {
  }

  /** A miss on a chat the store holds yields the stored document. */
  lemma StoreHit(s: State, k: ChatId, f: Faults)
    requires f.cacheGetFails || k !in s.cache
    requires !f.findFails && k in s.store
    ensures Check(s, k, f).record == s.store[k]
    ensures Check(s, k, f).after.store == s.store
  {
  }

  /** The accessor keeps the backends coherent when they were coherent and
      nothing fails along the way. */
  lemma CheckKeepsCoherence(s: State, k: ChatId, f: Faults)
    requires Coherent(s)
    requires !f.findFails && !f.upsertFails
    ensures Coherent(Check(s, k, f).after)
  {
  }

  /** The accessor called once per element of `fs`, each call on the state
      the previous one left. */
  function Reads(s: State, k: ChatId, fs: seq<Faults>): (rs: seq<Access>)
    ensures |rs| == |fs|
    decreases |fs|
  {
    if fs == [] then []
    else
      var a := Check(s, k, fs[0]);
      [a] + Reads(a.after, k, fs[1..])
  }

  /** Once a chat is cached, reads whose cache does not err all return the
      cached record, query nothing and change nothing. */
  lemma {:induction false} CachedReadsAreStable(s: State, k: ChatId, fs: seq<Faults>)
    requires k in s.cache
    requires forall i :: 0 <= i < |fs| ==> !fs[i].cacheGetFails
    ensures forall i :: 0 <= i < |fs| ==> Reads(s, k, fs)[i] == Access(s.cache[k], s, false)
    decreases |fs|
  {
    if fs != [] {
      CachedReadsAreStable(s, k, fs[1..]);
      var rest := Reads(s, k, fs[1..]);
      assert Reads(s, k, fs) == [Access(s.cache[k], s, false)] + rest;
    }
  }

  /** Read-through idempotence: N consecutive reads with no mutation in
      between, none of whose cache reads after the first one errs, all
      return the first read's record, and only the first one can query the
      store. */
  lemma {:induction false} RepeatedReadsAgree(s: State, k: ChatId, fs: seq<Faults>)
    requires forall i :: 1 <= i < |fs| ==> !fs[i].cacheGetFails
    ensures var rs := Reads(s, k, fs);
            forall i :: 0 <= i < |rs| ==> rs[i].record == rs[0].record
    ensures var rs := Reads(s, k, fs);
            forall i :: 1 <= i < |rs| ==> !rs[i].queried && rs[i].after == rs[0].after
  {
    if fs != [] {
      var a := Check(s, k, fs[0]);
      CachedReadsAreStable(a.after, k, fs[1..]);
      assert Reads(s, k, fs) == [a] + Reads(a.after, k, fs[1..]);
    }
  }

  /** The two-call form: a second read right after the first is a cache hit
      with the same record and no change to either backend. */
  lemma ReadTwice(s: State, k: ChatId, f1: Faults, f2: Faults)
    requires !f2.cacheGetFails
    ensures var a1 := Check(s, k, f1);
            Check(a1.after, k, f2) == Access(a1.record, a1.after, false)
  {
  }

  /** After a mutator the cache holds the reloaded record with only the
      chosen field replaced, and so does the store when the upsert
      succeeded; when it failed, the store is as the reload left it. */
  lemma WriteThrough(s: State, k: ChatId, field: Field, load: Faults, upsertFails: bool)
    ensures var loaded := Check(s, k, load).record;
            var s' := Mutate(s, k, field, load, upsertFails);
            && k in s'.cache && s'.cache[k] == Apply(loaded, field)
            && (!upsertFails ==> k in s'.store && s'.store[k] == Apply(loaded, field))
  {
  }

  /** The change of each mutator is exactly one field of the loaded record. */
  lemma ApplyChangesOneField(r: Rules, field: Field)
    ensures Apply(r, field).chatId == r.chatId
    ensures Apply(r, field).rules == (if field.RulesText? then field.text else r.rules)
    ensures Apply(r, field).rulesButton == (if field.RulesButton? then field.button else r.rulesButton)
    ensures Apply(r, field).isPrivate == (if field.PrivateFlag? then field.pref else r.isPrivate)
  {
  }

  /** Write-through visibility: a read right after `SetChatRules(k, text)`
      is served from the cache and carries the new text. */
  lemma WriteThenRead(s: State, k: ChatId, text: string, load: Faults, upsertFails: bool, f: Faults)
    requires !f.cacheGetFails
    ensures var a := Check(Mutate(s, k, RulesText(text), load, upsertFails), k, f);
            a.record.rules == text && !a.queried
  {
  }

  /** Mutators keep the backends coherent when nothing fails. */
  lemma MutateKeepsCoherence(s: State, k: ChatId, field: Field, load: Faults)
    requires Coherent(s)
    requires !load.findFails && !load.upsertFails
    ensures Coherent(Mutate(s, k, field, load, false))
  {
    CheckKeepsCoherence(s, k, load);
  }

  /** With coherent backends and a store that answers, a mutator reloads
      the stored record (or the default for a new chat). */
  lemma CoherentReloadSeesStore(s: State, k: ChatId, load: Faults)
    requires Coherent(s)
    requires !load.findFails
    ensures Check(s, k, load).record == if k in s.store then s.store[k] else DefaultRules(k)
  {
  }

  /** The cost of writing the cache when the upsert fails: on coherent
      backends whose reload succeeds, a mutator whose upsert fails and whose
      field change is a real change leaves the cache and the store
      disagreeing about the chat. */
  lemma FailedUpsertDiverges(s: State, k: ChatId, field: Field, load: Faults)
    requires Coherent(s)
    requires !load.findFails && !load.upsertFails
    requires Apply(Check(s, k, load).record, field) != Check(s, k, load).record
    ensures var s' := Mutate(s, k, field, load, true);
            && k in s'.cache && k in s'.store
            && s'.cache[k] == Apply(Check(s, k, load).record, field)
            && s'.store[k] == Check(s, k, load).record
            && !Coherent(s')
  {
    CheckKeepsCoherence(s, k, load);
  }

  /** The cost of the in-memory fallback: when the reload misses the cache
      and its query fails, a mutator whose upsert succeeds persists the
      default record with only its own field replaced, whatever the store
      held for the chat before. */
  lemma FailedReloadOverwritesStore(s: State, k: ChatId, field: Field, load: Faults)
    requires load.cacheGetFails || k !in s.cache
    requires load.findFails
    ensures var s' := Mutate(s, k, field, load, false);
            k in s'.store && s'.store[k] == Apply(DefaultRules(k), field)
  {
  }

  /** One instance of the above: a stored private flag and button are
      cleared by a `SetChatRules` whose reload query failed. */
  lemma FailedReloadClearsPrivateFlag(k: ChatId)
    ensures var s := State(map[k := Rules(k, "old", true, "btn")], map[]);
            var s' := Mutate(s, k, RulesText("new"), Faults(false, true, false), false);
            s.store[k].isPrivate && s'.store[k] == Rules(k, "new", false, "")
  {
    FailedReloadOverwritesStore(State(map[k := Rules(k, "old", true, "btn")], map[]),
                                k, RulesText("new"), Faults(false, true, false));
  }
}
