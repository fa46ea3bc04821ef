/** The write-ahead tool journal and the gate a resumption passes
    (raw_runtime.rs, lines 448-540; agent_runtime.rs, lines 1182-1223). */
module ToolJournal {
  import opened Wrappers
  import opened ToolCalls

  datatype Intent = Intent(callId: string, capability: CapabilityId, effect: SideEffect)

  datatype JournalResult = Succeeded(resultHash: string) | Failed(detail: string)

  /** How storage answers while one call is served. Only a durable journal depends on it. */
  datatype Storage = Works | Unopened(detail: string) | IntentFails | ResultFails

  /** What a journal holds. A durable one is a pair of tables in which a call id is unique;
      the other one, the reference, is a list and a map in the memory of the process. */
  datatype Journal = Journal(durable: bool, intents: seq<Intent>, results: map<string, JournalResult>) {

    function WithIntent(intent: Intent): Journal {
      this.(intents := intents + [intent])
    }

    function WithResult(callId: string, result: JournalResult): Journal {
      this.(results := results[callId := result])
    }

    predicate HasIntent(callId: string) {
      exists intent | intent in intents :: intent.callId == callId
    }

    predicate HasResult(callId: string) {
      callId in results
    }

    predicate TakesIntent(callId: string, storage: Storage) {
      durable ==> (storage == Works || storage == ResultFails) && !HasIntent(callId)
    }

    predicate TakesResult(callId: string, storage: Storage) {
      durable ==> storage == Works && !HasResult(callId)
    }

    /** The result a call is answered with instead of being executed. A durable journal that
        could not be opened answers every call with a failure. */
    function Prior(callId: string, storage: Storage): (prior: Option<JournalResult>)
      ensures HasResult(callId) ==> prior.Some?
    {
      if durable && storage.Unopened? then Some(JournalResult.Failed(storage.detail))
      else if HasResult(callId) then Some(results[callId])
      else None
    }
  }

  const EMPTY_JOURNAL := Journal(false, [], map[])

  const EMPTY_DURABLE := Journal(true, [], map[])

  /** The intents with no recorded result, oldest first. */
  function Unanswered(journal: Journal, n: nat): (pending: seq<Intent>)
    requires n <= |journal.intents|
    ensures forall intent :: intent in pending <==> intent in journal.intents[..n] && !journal.HasResult(intent.callId)
  {
    if n == 0 then []
    else
      var last := journal.intents[n - 1];
      assert journal.intents[..n] == journal.intents[..n - 1] + [last];
      Unanswered(journal, n - 1) + (if journal.HasResult(last.callId) then [] else [last])
  }

  datatype ResumeDecision = ReplayAllowed | AlreadyDone | FailClosed

  function ResumeDecisionFor(effect: SideEffect, hasResult: bool): ResumeDecision {
    if hasResult then AlreadyDone
    else if effect == Destructive then FailClosed
    else ReplayAllowed
  }

  datatype Readiness = Ready | Blocked(callId: string, capability: CapabilityId)

  /** An intent whose effect may or may not have happened and must not be guessed. */
  predicate InDoubt(journal: Journal, intent: Intent) {
    !journal.HasResult(intent.callId) && intent.effect == Destructive
  }

  /** No destructive call is in doubt. */
  ghost predicate Settled(journal: Journal) {
    forall intent | intent in journal.intents :: !InDoubt(journal, intent)
  }

  ghost predicate IsOldestInDoubt(journal: Journal, pending: seq<Intent>, k: nat) {
    k < |pending| && pending[k] in journal.intents && InDoubt(journal, pending[k])
    && forall j :: 0 <= j < k ==> !InDoubt(journal, pending[j])
  }

  /** The journal behind the loop: the in-memory one, an append-only list of intents and a
      result per call id, or the durable one, which refuses what its tables refuse. */
  class JournalStore {
    const durable: bool
    var intents: seq<Intent>
    var results: map<string, JournalResult>

    function Value(): Journal
      reads this
    {
      Journal(durable, intents, results)
    }

    constructor (initial: Journal)
      ensures Value() == initial
    {
      durable, intents, results := initial.durable, initial.intents, initial.results;
    }

    method RecordIntent(intent: Intent, storage: Storage) returns (stored: bool)
      modifies this
      ensures stored == old(Value()).TakesIntent(intent.callId, storage)
      ensures Value() == if stored then old(Value()).WithIntent(intent) else old(Value())
    {
      stored := !durable || storage == Works || storage == ResultFails;
      if durable {
        for i := 0 to |intents|
          invariant forall k :: 0 <= k < i ==> intents[k].callId != intent.callId
        {
          if intents[i].callId == intent.callId {
            return false;
          }
        }
      }
      if stored {
        intents := intents + [intent];
      }
    }

    method RecordResult(callId: string, result: JournalResult, storage: Storage) returns (stored: bool)
      modifies this
      ensures stored == old(Value()).TakesResult(callId, storage)
      ensures Value() == if stored then old(Value()).WithResult(callId, result) else old(Value())
    {
      stored := !durable || (storage == Works && callId !in results);
      if stored {
        results := results[callId := result];
      }
    }

    method ResultFor(callId: string, storage: Storage) returns (result: Option<JournalResult>)
      ensures result == Value().Prior(callId, storage)
    {
      if durable && storage.Unopened? {
        return Some(JournalResult.Failed(storage.detail));
      }
      result := if callId in results then Some(results[callId]) else None;
    }

    /** The intents with no recorded result, oldest first. */
    method PendingIntents() returns (pending: seq<Intent>)
      ensures pending == Unanswered(Value(), |intents|)
      ensures forall intent :: intent in pending <==> intent in intents && !Value().HasResult(intent.callId)
    {
      pending := [];
      ghost var journal := Value();
      for i := 0 to |intents|
        invariant pending == Unanswered(journal, i)
      {
        if intents[i].callId !in results {
          pending := pending + [intents[i]];
        }
      }
      assert journal.intents[..|intents|] == intents;
    }

    /** Ready exactly when no destructive call is in doubt; otherwise names the oldest that is. */
    method ResumeReadiness() returns (readiness: Readiness)
      ensures readiness == Ready <==> Settled(Value())
      ensures readiness.Blocked? ==>
                exists k :: 0 <= k < |Unanswered(Value(), |intents|)|
                            && IsOldestInDoubt(Value(), Unanswered(Value(), |intents|), k)
                            && readiness == Blocked(Unanswered(Value(), |intents|)[k].callId,
                                                    Unanswered(Value(), |intents|)[k].capability)
    {
      var pending := PendingIntents();
      for i := 0 to |pending|
        invariant forall k :: 0 <= k < i ==> !InDoubt(Value(), pending[k])
      {
        if ResumeDecisionFor(pending[i].effect, false) == FailClosed {
          assert pending[i] in pending && IsOldestInDoubt(Value(), pending, i);
          return Blocked(pending[i].callId, pending[i].capability);
        }
      }
      return Ready;
    }
  }
}
