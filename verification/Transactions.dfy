/** The transaction wrapper and its serializable retry loop, over whatever the database answers. */
module Transactions {
  import opened Sequences

  /** What a rejected promise carries. */
  datatype Failure = Failure(code: Option<string>) | Exhausted

  /** What the driver answers during one call of `withTransaction`: an error where something is Some. */
  datatype Answers<T> = Answers(connect: Option<Failure>, begin: Option<Failure>, operation: Result<T, Failure>,
                                commit: Option<Failure>, rollback: Option<Failure>)

  datatype Isolation = ReadCommitted | Serializable

  /** What reaches the driver. */
  datatype Event = Connect | Begin(isolation: Isolation) | Operate | Commit(accepted: bool) | Rollback | Release

  /** The error inside the transaction, if any. */
  function Inner<T>(a: Answers<T>): Option<Failure> {
    if a.begin.Some? then a.begin
    else if a.operation.Err? then Some(a.operation.error)
    else a.commit
  }

  function Outcome<T>(a: Answers<T>): Result<T, Failure> {
    if a.connect.Some? then Err(a.connect.value)
    else match Inner(a)
      case None => Ok(a.operation.value)
      case Some(error) => Err(if a.rollback.Some? then a.rollback.value else error)
  }

  function Trace<T>(a: Answers<T>, isolation: Isolation): seq<Event> {
    if a.connect.Some? then [Connect]
    else if a.begin.Some? then [Connect, Begin(isolation), Rollback, Release]
    else if a.operation.Err? then [Connect, Begin(isolation), Operate, Rollback, Release]
    else if a.commit.Some? then [Connect, Begin(isolation), Operate, Commit(false), Rollback, Release]
    else [Connect, Begin(isolation), Operate, Commit(true), Release]
  }

  function Count(trace: seq<Event>, e: Event): nat {
    multiset(trace)[e]
  }

  /** One call commits exactly when it succeeds. */
  lemma CommitsIffSuccessful<T>(a: Answers<T>, isolation: Isolation)
    ensures Count(Trace(a, isolation), Commit(true)) == if Outcome(a).Ok? then 1 else 0
  {
    var counts := multiset(Trace(a, isolation));
    if a.connect.Some? {
      assert counts == multiset{Connect};
    } else if a.begin.Some? {
      assert counts == multiset{Connect, Begin(isolation), Rollback, Release};
    } else if a.operation.Err? {
      assert counts == multiset{Connect, Begin(isolation), Operate, Rollback, Release};
    } else if a.commit.Some? {
      assert counts == multiset{Connect, Begin(isolation), Operate, Commit(false), Rollback, Release};
    } else {
      assert counts == multiset{Connect, Begin(isolation), Operate, Commit(true), Release};
    }
  }

  /** Otherwise what was begun is rolled back, and a client that was obtained is always given back, last of all. */
  lemma RollsBackOtherwise<T>(a: Answers<T>, isolation: Isolation)
    ensures var trace := Trace(a, isolation);
            && (Rollback in trace <==> Begin(isolation) in trace && Outcome(a).Err?)
            && (Begin(isolation) in trace <==> a.connect.None?)
            && (a.connect.None? ==> trace[|trace| - 1] == Release && Release !in trace[..|trace| - 1])
  {
    var trace := Trace(a, isolation);
    if a.connect.None? {
      assert trace[1] == Begin(isolation);
      if Outcome(a).Err? { assert trace[|trace| - 2] == Rollback; }
    }
  }

  const SERIALIZATION_FAILURE := "40001"

  predicate Retryable<T>(outcome: Result<T, Failure>) {
    outcome.Err? && outcome.error.Failure? && outcome.error.code == Some(SERIALIZATION_FAILURE)
  }

  datatype Retried<T> = Retried(outcome: Result<T, Failure>, calls: nat, trace: seq<Event>)

  /** The retry loop with `left` attempts to go, the next one being call number n of the driver. */
  function Retry<T>(answers: nat -> Answers<T>, n: nat, left: nat): Retried<T>
    decreases left
  {
    if left == 0 then Retried(Err(Exhausted), 0, [])
    else if Retryable(Outcome(answers(n))) && left > 1 then
      var later := Retry(answers, n + 1, left - 1);
      Retried(later.outcome, later.calls + 1, Trace(answers(n), Serializable) + later.trace)
    else Retried(Outcome(answers(n)), 1, Trace(answers(n), Serializable))
  }

  /** The driver reported SQLSTATE 40001. */
  predicate FailedToSerialize<T>(outcome: Result<T, Failure>) {
    match outcome
    case Err(Failure(Some(code))) => code == "40001"
    case _ => false
  }

  /** The loop makes at least one and at most `left` attempts, gives up only what is not a serialization failure
      or the last attempt, and answers with its last attempt; its own closing error is unreachable. */
  lemma {:induction false} RetryMeans<T>(answers: nat -> Answers<T>, n: nat, left: nat)
    requires left > 0
    ensures var r := Retry(answers, n, left);
            && 1 <= r.calls <= left
            && r.outcome == Outcome(answers(n + r.calls - 1))
            && (forall k :: n <= k < n + r.calls - 1 ==> FailedToSerialize(Outcome(answers(k))))
            && (r.calls == left || !FailedToSerialize(r.outcome))
    decreases left
  {
    if Retryable(Outcome(answers(n))) && left > 1 { RetryMeans(answers, n + 1, left - 1); }
  }

  /** However often an operation is retried, it is committed once if the caller is told so and never otherwise. */
  lemma {:induction false} CommitsOnce<T>(answers: nat -> Answers<T>, n: nat, left: nat)
    ensures var r := Retry(answers, n, left);
            Count(r.trace, Commit(true)) == if r.outcome.Ok? then 1 else 0
    decreases left
  {
    if left > 0 {
      CommitsIffSuccessful(answers(n), Serializable);
      if Retryable(Outcome(answers(n))) && left > 1 {
        CountConcat(Trace(answers(n), Serializable), Retry(answers, n + 1, left - 1).trace, Commit(true));
        CommitsOnce(answers, n + 1, left - 1);
      }
    }
  }

  lemma CountConcat(s: seq<Event>, t: seq<Event>, e: Event)
    ensures Count(s + t, e) == Count(s, e) + Count(t, e)
  {
    assert multiset(s + t) == multiset(s) + multiset(t);
  }

  /** A pool whose every call is answered by an oracle and recorded. */
  class Pool<T> {
    const answers: nat -> Answers<T>
    var calls: nat
    var log: seq<Event>

    constructor (answers: nat -> Answers<T>)
      ensures calls == 0 && log == [] && this.answers == answers
    {
      this.answers, calls, log := answers, 0, [];
    }

    method WithTransaction(isolation: Isolation) returns (outcome: Result<T, Failure>)
      modifies this
      ensures calls == old(calls) + 1
      ensures outcome == Outcome(answers(old(calls)))
      ensures log == old(log) + Trace(answers(old(calls)), isolation)
    {
      var a := answers(calls);
      ghost var before := log;
      calls := calls + 1;
      log := log + [Connect];
      if a.connect.Some? { return Err(a.connect.value); }
      log := log + [Begin(isolation)];
      var error := a.begin;
      if error.None? {
        log := log + [Operate];
        if a.operation.Err? { error := Some(a.operation.error); }
      }
      if error.None? {
        log := log + [Commit(a.commit.None?)];
        error := a.commit;
      }
      if error.None? {
        outcome := Ok(a.operation.value);
      } else {
        log := log + [Rollback];
        outcome := Err(if a.rollback.Some? then a.rollback.value else error.value);
      }
      log := log + [Release];
      ghost var trace := Trace(a, isolation);
      if a.begin.Some? {
        assert trace == [Connect, Begin(isolation), Rollback, Release];
      } else if a.operation.Err? {
        assert trace == [Connect, Begin(isolation), Operate, Rollback, Release];
      } else if a.commit.Some? {
        assert trace == [Connect, Begin(isolation), Operate, Commit(false), Rollback, Release];
      } else {
        assert trace == [Connect, Begin(isolation), Operate, Commit(true), Release];
      }
      assert log == before + trace;
    }

    method WithSerializableRetry(maximumAttempts: int) returns (outcome: Result<T, Failure>)
      modifies this
      ensures var r := Retry(answers, old(calls), if maximumAttempts < 0 then 0 else maximumAttempts);
              outcome == r.outcome && calls == old(calls) + r.calls && log == old(log) + r.trace
    {
      ghost var total: nat := if maximumAttempts < 0 then 0 else maximumAttempts;
      ghost var whole := Retry(answers, calls, total);
      var attempt := 1;
      while attempt <= maximumAttempts
        invariant 1 <= attempt <= total + 1
        invariant attempt == 1 || attempt <= maximumAttempts
        invariant calls == old(calls) + attempt - 1
        invariant var rest := Retry(answers, calls, total + 1 - attempt);
                  && whole.outcome == rest.outcome && whole.calls == rest.calls + attempt - 1
                  && log + rest.trace == old(log) + whole.trace
      {
        ghost var before := log;
        ghost var step := Trace(answers(calls), Serializable);
        ghost var rest, later := Retry(answers, calls, total + 1 - attempt), Retry(answers, calls + 1, total - attempt);
        outcome := WithTransaction(Serializable);
        assert log == before + step;
        Reassociate(before, step, later.trace);
        if !Retryable(outcome) || attempt == maximumAttempts { return; }
        attempt := attempt + 1;
      }
      return Err(Exhausted);
    }
  }

  lemma Reassociate(a: seq<Event>, b: seq<Event>, c: seq<Event>)
    ensures a + (b + c) == (a + b) + c
  {
  }
}
