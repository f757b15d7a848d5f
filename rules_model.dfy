/** The chat-rules record and the two backends it lives in: the durable
    document store (the rules collection) and the shared object cache.

    Both backends are plain maps from chat id to record. What the network
    does during one call (a cache read that errors, a query that fails, an
    upsert that is rejected) is not visible to the accessor's code: it is
    passed in as a `Faults` value, and the collaborators below say what the
    store or the cache answers under it. */
module RulesModel {

  /** A signed 64-bit chat identifier: the store's `_id` and the cache key. */
  newtype ChatId = x: int | -0x8000_0000_0000_0000 <= x < 0x8000_0000_0000_0000

  /** One rules document: the chat it belongs to, the rules text, whether
      the rules are sent privately, and the payload of the rules button. */
  datatype Rules = Rules(chatId: ChatId, rules: string, isPrivate: bool, rulesButton: string)

  datatype Option<T> = None | Some(value: T)

  /** The record built when the store holds none for the chat: the key and
      every other field at its zero value. */
  function DefaultRules(chatId: ChatId): Rules {
    Rules(chatId, "", false, "")
  }

  /** The one field a write-through mutator overwrites, with its new value. */
  datatype Field =
    | RulesText(text: string)
    | RulesButton(button: string)
    | PrivateFlag(pref: bool)

  /** The loaded record with exactly the field named by `f` replaced. */
  function Apply(r: Rules, f: Field): Rules {
    match f
    case RulesText(text) => r.(rules := text)
    case RulesButton(button) => r.(rulesButton := button)
    case PrivateFlag(pref) => r.(isPrivate := pref)
  }

  type Store = map<ChatId, Rules>
  type Cache = map<ChatId, Rules>

  /** The answer of the store's `findOne` on `{_id: k}`. */
  datatype FindResult = Found(doc: Rules) | NotFound | Failed

  /** The backend outcomes of one accessor call: whether the cache read
      errors, whether the store query errors (connectivity, a document that
      does not decode), and whether the upsert of a default record fails. */
  datatype Faults = Faults(cacheGetFails: bool, findFails: bool, upsertFails: bool)

  const NoFaults: Faults := Faults(false, false, false)

  /** The object cache's `Get`: an error and an absent key both read as a miss. */
  function CacheGet(cache: Cache, k: ChatId, fails: bool): Option<Rules> {
    if !fails && k in cache then Some(cache[k]) else None
  }

  function FindOne(store: Store, k: ChatId, fails: bool): FindResult {
    if fails then Failed
    else if k in store then Found(store[k])
    else NotFound
  }

  /** The store's `updateOne` with upsert semantics: the whole document of
      key `k` is replaced, or nothing is written when the call fails. */
  function Upsert(store: Store, k: ChatId, r: Rules, fails: bool): Store {
    if fails then store else store[k := r]
  }

  /** Both backends at one moment. */
  datatype State = State(store: Store, cache: Cache)

  /** Every record sits under its own chat id. */
  ghost predicate WellKeyed(m: map<ChatId, Rules>) {
    forall k :: k in m ==> m[k].chatId == k
  }

  ghost predicate WellFormed(s: State) {
    WellKeyed(s.store) && WellKeyed(s.cache)
  }

  /** Every cached record is exactly the stored record of its chat. */
  ghost predicate Coherent(s: State) {
    forall k :: k in s.cache ==> k in s.store && s.store[k] == s.cache[k]
  }

  /** `s'` differs from `s` at most at key `k`, in either backend. */
  ghost predicate OnlyKeyChanged(s: State, s': State, k: ChatId) {
    && (forall j :: j != k ==> (j in s'.store <==> j in s.store))
    && (forall j :: j != k && j in s.store ==> s'.store[j] == s.store[j])
    && (forall j :: j != k ==> (j in s'.cache <==> j in s.cache))
    && (forall j :: j != k && j in s.cache ==> s'.cache[j] == s.cache[j])
  }
}
