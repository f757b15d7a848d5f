/** Sequences of accessor and mutator calls, in the order a single-threaded
    caller issues them, and what holds over a whole run. */
module RulesTrace {
  import opened RulesModel
  import opened RulesAccess

  /** One call into the rules accessor layer with its backend outcomes. */
  datatype Op =
    | GetInfo(chatId: ChatId, f: Faults)
    | SetField(chatId: ChatId, field: Field, load: Faults, upsertFails: bool)

  function Step(s: State, op: Op): State {
    match op
    case GetInfo(k, f) => Check(s, k, f).after
    case SetField(k, field, load, upsertFails) => Mutate(s, k, field, load, upsertFails)
  }

  function Run(s: State, ops: seq<Op>): State
    decreases |ops|
  {
    if ops == [] then s else Run(Step(s, ops[0]), ops[1..])
  }

  /** No store or cache call of `op` fails. */
  predicate FaultFree(op: Op) {
    match op
    case GetInfo(_, f) => !f.findFails && !f.upsertFails
    case SetField(_, _, load, upsertFails) => !load.findFails && !load.upsertFails && !upsertFails
  }

  function Keys(ops: seq<Op>): set<ChatId> {
    set i | 0 <= i < |ops| :: ops[i].chatId
  }

  /** Every record stays under its own chat id through any run. */
  lemma {:induction false} RunWellFormed(s: State, ops: seq<Op>)
    requires WellFormed(s)
    ensures WellFormed(Run(s, ops))
    decreases |ops|
  {
    if ops != [] {
      RunWellFormed(Step(s, ops[0]), ops[1..]);
    }
  }

  /** A run in which no store call fails keeps the cache a faithful copy
      of the store, whatever the cache reads do. */
  lemma {:induction false} FaultFreeRunCoherent(s: State, ops: seq<Op>)
    requires Coherent(s)
    requires forall i :: 0 <= i < |ops| ==> FaultFree(ops[i])
    ensures Coherent(Run(s, ops))
    decreases |ops|
  {
    if ops != [] {
      match ops[0] {
        case GetInfo(k, f) => CheckKeepsCoherence(s, k, f);
        case SetField(k, field, load, _) => MutateKeepsCoherence(s, k, field, load);
      }
      FaultFreeRunCoherent(Step(s, ops[0]), ops[1..]);
    }
  }

  /** A run touches only the chats it names: every other chat keeps its
      stored and its cached record. */
  lemma {:induction false} RunFrame(s: State, ops: seq<Op>, j: ChatId)
    requires j !in Keys(ops)
    ensures (j in Run(s, ops).store <==> j in s.store)
         && (j in s.store ==> Run(s, ops).store[j] == s.store[j])
    ensures (j in Run(s, ops).cache <==> j in s.cache)
         && (j in s.cache ==> Run(s, ops).cache[j] == s.cache[j])
    decreases |ops|
  {
    if ops != [] {
      assert ops[0].chatId in Keys(ops);
      assert Keys(ops[1..]) <= Keys(ops) by {
        forall x | x in Keys(ops[1..]) ensures x in Keys(ops) {
          var i :| 0 <= i < |ops[1..]| && ops[1..][i].chatId == x;
          assert ops[i + 1].chatId == x;
        }
      }
      RunFrame(Step(s, ops[0]), ops[1..], j);
    }
  }
}
