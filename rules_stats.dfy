/** The statistics query over the rules collection: how many chats have
    rules set and how many send their rules privately. */
module RulesStats {
  import opened RulesModel
  import opened RulesAccess

  datatype Stats = Stats(setRules: nat, pvtRules: nat)

  /** The stored chats whose record satisfies `p`: the documents a
      `countDocuments` with a field filter matches. */
  function Matching(store: Store, p: Rules -> bool): set<ChatId> {
    set k | k in store && p(store[k])
  }

  function HasRulesText(r: Rules): bool { r.rules != "" }

  function HasPrivateFlag(r: Rules): bool { r.isPrivate }

  /** The two document counts of `{rules: {$ne: ""}}` and `{privrules: true}`. */
  function LoadRulesStats(store: Store): (st: Stats)
    ensures st.setRules <= |store| && st.pvtRules <= |store|
    ensures st.setRules == 0 <==> forall k :: k in store ==> store[k].rules == ""
    ensures st.pvtRules == 0 <==> forall k :: k in store ==> !store[k].isPrivate
  {
    MatchingBounds(store, HasRulesText);
    MatchingBounds(store, HasPrivateFlag);
    Stats(|Matching(store, HasRulesText)|, |Matching(store, HasPrivateFlag)|)
  }

  /** A filter count is at most the number of documents, and zero exactly
      when no document matches. */
  lemma MatchingBounds(store: Store, p: Rules -> bool)
    ensures |Matching(store, p)| <= |store|
    ensures |Matching(store, p)| == 0 <==> forall k :: k in store ==> !p(store[k])
  {
    var m := Matching(store, p);
    assert m <= store.Keys;
    SubsetCard(m, store.Keys);
    if k :| k in store && p(store[k]) {
      assert k in m;
    }
  }

  lemma {:induction false} SubsetCard(a: set<ChatId>, b: set<ChatId>)
    requires a <= b
    ensures |a| <= |b|
    decreases |b|
  {
    if b != {} {
      var x :| x in b;
      SubsetCard(a - {x}, b - {x});
      CardWithout(a, x);
      CardWithout(b, x);
    }
  }

  /** 1 for a record the filter matches, 0 otherwise. */
  function Counts(r: Rules, p: Rules -> bool): nat {
    if p(r) then 1 else 0
  }

  lemma CardWithout(s: set<ChatId>, k: ChatId)
    ensures |s| == |s - {k}| + (if k in s then 1 else 0)
  {
    if k in s {
      assert s == (s - {k}) + {k};
    } else {
      assert s - {k} == s;
    }
  }

  /** Replacing one record moves a filter count by the difference between
      the new record's contribution and the old record's. */
  lemma MatchingAfterPut(store: Store, k: ChatId, r: Rules, p: Rules -> bool)
    ensures |Matching(store[k := r], p)| + (if k in store then Counts(store[k], p) else 0)
         == |Matching(store, p)| + Counts(r, p)
  {
    var a, a' := Matching(store, p), Matching(store[k := r], p);
    assert a' - {k} == a - {k};
    assert k in a' <==> p(r);
    assert k in a <==> k in store && p(store[k]);
    CardWithout(a, k);
    CardWithout(a', k);
  }

  /** Both counts after replacing one record. */
  lemma StatsAfterPut(store: Store, k: ChatId, r: Rules)
    ensures var before := LoadRulesStats(store);
            var after := LoadRulesStats(store[k := r]);
            && after.setRules + (if k in store then Counts(store[k], HasRulesText) else 0)
               == before.setRules + Counts(r, HasRulesText)
            && after.pvtRules + (if k in store then Counts(store[k], HasPrivateFlag) else 0)
               == before.pvtRules + Counts(r, HasPrivateFlag)
  {
    MatchingAfterPut(store, k, r, HasRulesText);
    MatchingAfterPut(store, k, r, HasPrivateFlag);
  }

  /** The read-through accessor never changes the statistics: the only
      record it may persist is the default one, which counts in neither. */
  lemma CheckKeepsStats(s: State, k: ChatId, f: Faults)
    ensures LoadRulesStats(Check(s, k, f).after.store) == LoadRulesStats(s.store)
  {
    var a := Check(s, k, f);
    if a.after.store != s.store {
      StatsAfterPut(s.store, k, DefaultRules(k));
    }
  }

  /** `SetChatRules` with coherent backends and a store that answers moves
      the rules count by the change at this chat and leaves the private
      count alone. */
  lemma SetChatRulesStats(s: State, k: ChatId, text: string, load: Faults)
    requires Coherent(s)
    requires !load.findFails
    ensures var before := LoadRulesStats(s.store);
            var after := LoadRulesStats(Mutate(s, k, RulesText(text), load, false).store);
            && after.pvtRules == before.pvtRules
            && after.setRules + (if k in s.store then Counts(s.store[k], HasRulesText) else 0)
               == before.setRules + (if text != "" then 1 else 0)
  {
    CoherentReloadSeesStore(s, k, load);
    var loaded := Check(s, k, load).record;
    StatsAfterPut(s.store, k, Apply(loaded, RulesText(text)));
  }

  /** `SetPrivateRules` likewise moves only the private count. */
  lemma SetPrivateRulesStats(s: State, k: ChatId, pref: bool, load: Faults)
    requires Coherent(s)
    requires !load.findFails
    ensures var before := LoadRulesStats(s.store);
            var after := LoadRulesStats(Mutate(s, k, PrivateFlag(pref), load, false).store);
            && after.setRules == before.setRules
            && after.pvtRules + (if k in s.store then Counts(s.store[k], HasPrivateFlag) else 0)
               == before.pvtRules + (if pref then 1 else 0)
  {
    CoherentReloadSeesStore(s, k, load);
    var loaded := Check(s, k, load).record;
    StatsAfterPut(s.store, k, Apply(loaded, PrivateFlag(pref)));
  }

  /** `SetChatRulesButton` touches neither count. */
  lemma SetChatRulesButtonStats(s: State, k: ChatId, button: string, load: Faults)
    requires Coherent(s)
    requires !load.findFails
    ensures LoadRulesStats(Mutate(s, k, RulesButton(button), load, false).store)
         == LoadRulesStats(s.store)
  {
    CoherentReloadSeesStore(s, k, load);
    var loaded := Check(s, k, load).record;
    StatsAfterPut(s.store, k, Apply(loaded, RulesButton(button)));
  }
}
