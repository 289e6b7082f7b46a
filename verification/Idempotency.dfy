/** The in-memory idempotency repository: a key is used for one action, and later uses answer with what that action did. */
module Idempotency {
  import opened Wrappers

  datatype Status<R, E> = InFlight | Resolved(result: R) | Rejected(error: E)

  datatype Record<F, R, E> = Record(fingerprint: F, status: Status<R, E>)

  /** What `execute` answers: a thrown conflict, the pending, stored or rejected outcome of the first use, or a new start. */
  datatype Answer<R, E> = Conflicts | Awaits | Returns(result: R) | Rejects(error: E) | Starts

  function Answered<F(==), R, E>(existing: Option<Record<F, R, E>>, fingerprint: F): (a: Answer<R, E>) {
    if existing.None? then Starts
    else if existing.value.fingerprint != fingerprint then Conflicts
    else
      match existing.value.status
      case InFlight => Awaits
      case Resolved(r) => Returns(r)
      case Rejected(e) => Rejects(e)
  }

  class InMemoryIdempotencyRepository<F(==), R, E> {
    var entries: map<(string, string), Record<F, R, E>>

    constructor ()
      ensures entries == map[]
    {
      entries := map[];
    }

    function Lookup(scope: string, key: string): Option<Record<F, R, E>>
      reads this
    {
      if (scope, key) in entries then Some(entries[(scope, key)]) else None
    }

    /** A first use marks the key as in flight; any other use changes nothing. */
    method Execute(scope: string, key: string, fingerprint: F) returns (a: Answer<R, E>)
      modifies this
      ensures a == Answered(old(Lookup(scope, key)), fingerprint)
      ensures entries == if a.Starts? then old(entries)[(scope, key) := Record(fingerprint, InFlight)] else old(entries)
    {
      if (scope, key) in entries {
        var existing := entries[(scope, key)];
        if existing.fingerprint != fingerprint { return Conflicts; }
        if existing.status.Rejected? { return Rejects(existing.status.error); }
        if existing.status.Resolved? { return Returns(existing.status.result); }
        return Awaits;
      }
      entries := entries[(scope, key) := Record(fingerprint, InFlight)];
      return Starts;
    }

    /** The action of an in-flight key has finished; its outcome is what later uses will see. */
    method Finish(scope: string, key: string, outcome: Result<R, E>)
      requires (scope, key) in entries && entries[(scope, key)].status.InFlight?
      modifies this
      ensures var f := old(entries)[(scope, key)].fingerprint;
              && entries == old(entries)[(scope, key) := Record(f, if outcome.Success? then Resolved(outcome.value) else Rejected(outcome.error))]
              && Answered(Lookup(scope, key), f) == (if outcome.Success? then Returns(outcome.value) else Rejects(outcome.error))
    {
      var f := entries[(scope, key)].fingerprint;
      match outcome {
        case Success(r) => entries := entries[(scope, key) := Record(f, Resolved(r))];
        case Failure(e) => entries := entries[(scope, key) := Record(f, Rejected(e))];
      }
    }
  }
}
