/** The rules accessor as the program runs it: one object holding the
    process-wide store and cache handles, whose methods update them step by
    step. Each method is proved against its function in `RulesAccess`. */
module RulesDb {
  import opened RulesModel
  import opened RulesAccess

  class Db {
    /** The rules collection of the durable store. */
    var store: Store
    /** The shared object cache, seen as one key-to-record map that does not expire. */
    var cache: Cache

    ghost function Snapshot(): State
      reads this
    {
      State(store, cache)
    }

    /** Every record, stored or cached, sits under its own chat id. */
    ghost predicate Valid()
      reads this
    {
      WellFormed(Snapshot())
    }

    constructor (store0: Store, cache0: Cache)
      requires WellFormed(State(store0, cache0))
      ensures Valid() && store == store0 && cache == cache0
    {
      store := store0;
      cache := cache0;
    }

    /** The read-through accessor (`checkRulesSetting`). */
    method CheckRulesSetting(chatId: ChatId, f: Faults) returns (r: Rules)
      requires Valid()
      modifies this
      ensures Valid() && r.chatId == chatId
      ensures var a := Check(old(Snapshot()), chatId, f);
              r == a.record && Snapshot() == a.after
      ensures cache == old(cache)[chatId := r]
      ensures !f.cacheGetFails && chatId in old(cache) ==> r == old(cache)[chatId] && store == old(store)
      ensures f.findFails ==> store == old(store)
    {
      var cached := CacheGet(cache, chatId, f.cacheGetFails);
      if cached.Some? {
        return cached.value;
      }
      var defRulesSrc := DefaultRules(chatId);
      var found := FindOne(store, chatId, f.findFails);
      match found {
        case NotFound =>
          r := defRulesSrc;
          store := Upsert(store, chatId, r, f.upsertFails);
        case Failed =>
          r := defRulesSrc;
        case Found(doc) =>
          r := doc;
      }
      cache := cache[chatId := r];
    }

    /** The exported getter (`GetChatRulesInfo`). */
    method GetChatRulesInfo(chatId: ChatId, f: Faults) returns (r: Rules)
      requires Valid()
      modifies this
      ensures Valid() && r.chatId == chatId
      ensures var a := Check(old(Snapshot()), chatId, f);
              r == a.record && Snapshot() == a.after
      ensures chatId in cache && cache[chatId] == r
    {
      r := CheckRulesSetting(chatId, f);
    }

    /** `SetChatRules`: reload, replace the rules text, upsert, cache. */
    method SetChatRules(chatId: ChatId, rules: string, load: Faults, upsertFails: bool)
      requires Valid()
      modifies this
      ensures Valid()
      ensures Snapshot() == Mutate(old(Snapshot()), chatId, RulesText(rules), load, upsertFails)
      ensures var loaded := Check(old(Snapshot()), chatId, load).record;
              && cache == old(cache)[chatId := loaded.(rules := rules)]
              && (!upsertFails ==> store == old(store)[chatId := loaded.(rules := rules)])
    {
      var rulesUpdate := CheckRulesSetting(chatId, load);
      rulesUpdate := rulesUpdate.(rules := rules);
      store := Upsert(store, chatId, rulesUpdate, upsertFails);
      cache := cache[chatId := rulesUpdate];
    }

    /** `SetChatRulesButton`: reload, replace the button payload, upsert, cache. */
    method SetChatRulesButton(chatId: ChatId, rulesButton: string, load: Faults, upsertFails: bool)
      requires Valid()
      modifies this
      ensures Valid()
      ensures Snapshot() == Mutate(old(Snapshot()), chatId, RulesButton(rulesButton), load, upsertFails)
      ensures var loaded := Check(old(Snapshot()), chatId, load).record;
              && cache == old(cache)[chatId := loaded.(rulesButton := rulesButton)]
              && (!upsertFails ==> store == old(store)[chatId := loaded.(rulesButton := rulesButton)])
    {
      var rulesUpdate := CheckRulesSetting(chatId, load);
      rulesUpdate := rulesUpdate.(rulesButton := rulesButton);
      store := Upsert(store, chatId, rulesUpdate, upsertFails);
      cache := cache[chatId := rulesUpdate];
    }

    /** `SetPrivateRules`: reload, replace the private flag, upsert, cache. */
    method SetPrivateRules(chatId: ChatId, pref: bool, load: Faults, upsertFails: bool)
      requires Valid()
      modifies this
      ensures Valid()
      ensures Snapshot() == Mutate(old(Snapshot()), chatId, PrivateFlag(pref), load, upsertFails)
      ensures var loaded := Check(old(Snapshot()), chatId, load).record;
              && cache == old(cache)[chatId := loaded.(isPrivate := pref)]
              && (!upsertFails ==> store == old(store)[chatId := loaded.(isPrivate := pref)])
    {
      var rulesUpdate := CheckRulesSetting(chatId, load);
      rulesUpdate := rulesUpdate.(isPrivate := pref);
      store := Upsert(store, chatId, rulesUpdate, upsertFails);
      cache := cache[chatId := rulesUpdate];
    }
  }

  /** A caller's view of the contracts above: a fresh chat reads as the
      default, `SetChatRules` is visible to the next read without a store
      round trip, and other chats are untouched. */
  method DefaultThenSetThenGet(db: Db, k: ChatId, other: ChatId) returns (again: Rules)
    requires db.Valid() && k != other
    requires k !in db.store && k !in db.cache
    modifies db
    ensures db.Valid()
    ensures k in db.store && db.store[k] == Rules(k, "be nice", false, "")
    ensures k in db.cache && db.cache[k] == db.store[k] && again == db.store[k]
    ensures (other in db.store <==> other in old(db.store))
         && (other in old(db.store) ==> db.store[other] == old(db.store[other]))
    ensures (other in db.cache <==> other in old(db.cache))
         && (other in old(db.cache) ==> db.cache[other] == old(db.cache[other]))
  {
    var r := db.GetChatRulesInfo(k, NoFaults);
    assert r == DefaultRules(k);
    assert db.store[k] == r;
    db.SetChatRules(k, "be nice", NoFaults, false);
    assert db.store[k] == Rules(k, "be nice", false, "");
    again := db.GetChatRulesInfo(k, NoFaults);
    assert again.rules == "be nice";
  }
}
