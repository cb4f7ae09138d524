/** db.WithRetry: a query is called again after a retryable error, with growing pauses, until
    the attempt counter reaches its limit. */
module Retry {

  const MAX_ATTEMPT_COUNT := 3

  /** What one call of the query reports. */
  datatype Attempt<+T> = Succeeded(value: T) | Failed(retryable: bool)

  /** The two error wrappings of WithRetry are kept apart. */
  datatype Final<+T> = Returned(value: T) | GaveUp | Refused(attempt: nat)

  datatype Trace<+T> = Trace(final: Final<T>, attempts: nat, slept: nat)

  /** The recursion itself. `query(i)` is the report of the call made while the counter is i. */
  function WithRetry<T>(query: nat -> Attempt<T>, counter: nat): Trace<T>
    decreases MAX_ATTEMPT_COUNT - counter
  {
    match query(counter)
    case Succeeded(v) => Trace(Returned(v), 1, 0)
    case Failed(retryable) =>
      if counter >= MAX_ATTEMPT_COUNT then Trace(GaveUp, 1, 0)
      else if retryable then
        var rest := WithRetry(query, counter + 1);
        Trace(rest.final, rest.attempts + 1, rest.slept + (counter * 2 + 1))
      else Trace(Refused(counter), 1, 0)
  }

  /** Attempt number k after the start is the one that ends the loop. */
  predicate Stops<T>(query: nat -> Attempt<T>, counter: nat) {
    query(counter).Succeeded? || counter >= MAX_ATTEMPT_COUNT || !query(counter).retryable
  }

  ghost predicate FirstStop<T>(query: nat -> Attempt<T>, counter: nat, k: nat) {
    Stops(query, counter + k) && forall i :: counter <= i < counter + k ==> !Stops(query, i)
  }

  /** Which attempt decides, how many there are, how long the pauses last. */
  lemma {:induction false} WithRetryIsFirstStop<T>(query: nat -> Attempt<T>, counter: nat, k: nat)
    requires FirstStop(query, counter, k)
    ensures
      var t := WithRetry(query, counter);
      && t.attempts == k + 1
      && (counter <= MAX_ATTEMPT_COUNT ==> t.attempts <= 4 - counter)
      && t.slept == (counter + k) * (counter + k) - counter * counter
      && t.final == (match query(counter + k)
                     case Succeeded(v) => Returned(v)
                     case Failed(_) => if counter + k >= MAX_ATTEMPT_COUNT then GaveUp else Refused(counter + k))
    decreases k
  {
    if k > 0 {
      assert !Stops(query, counter);
      WithRetryIsFirstStop(query, counter + 1, k - 1);
    }
  }

  /** In numbers: from counter c up to 3, attempts that all fail in a retryable way are four less c, with
      pauses of 9 - c * c seconds in all, and the value of the one with counter 3 still counts. */
  lemma FourAttempts<T>(query: nat -> Attempt<T>, c: nat)
    requires c <= 3 && forall i :: c <= i < 3 ==> query(i) == Failed(true)
    ensures
      var t := WithRetry(query, c);
      && t.attempts == 4 - c && t.slept == 9 - c * c
      && t.final == (if query(3).Succeeded? then Returned(query(3).value) else GaveUp)
  {
    assert FirstStop(query, c, 3 - c);
    WithRetryIsFirstStop(query, c, 3 - c);
  }

  /** There always is such an attempt, and only one. */
  lemma {:induction false} FirstStopExists<T>(query: nat -> Attempt<T>, counter: nat) returns (k: nat)
    ensures FirstStop(query, counter, k)
    ensures forall j: nat :: FirstStop(query, counter, j) ==> j == k
    decreases MAX_ATTEMPT_COUNT - counter
  {
    if Stops(query, counter) {
      k := 0;
    } else {
      var j := FirstStopExists(query, counter + 1);
      k := j + 1;
    }
  }

  // ---- Retried statements ----

  /** What the network makes of one attempt: whether the statement took effect, and what the
      caller hears. Only an acknowledged attempt is known to have taken effect. */
  datatype Reply = Ack | RetryableError | OtherError
  datatype Fate = Fate(applied: bool, reply: Reply)
  type Network = f: nat -> Fate | forall i :: f(i).reply == Ack ==> f(i).applied witness i => Fate(true, Ack)

  /** A statement under WithRetry on the state it changes. */
  function Retried<S>(statement: S -> S, s: S, net: Network, counter: nat): (S, bool)
    decreases MAX_ATTEMPT_COUNT - counter
  {
    var fate := net(counter);
    var s' := if fate.applied then statement(s) else s;
    if fate.reply == Ack then (s', true)
    else if counter >= MAX_ATTEMPT_COUNT || fate.reply == OtherError then (s', false)
    else Retried(statement, s', net, counter + 1)
  }

  ghost predicate Idempotent<S(!new)>(statement: S -> S) {
    forall s :: statement(statement(s)) == statement(s)
  }

  /** However often an idempotent statement is repeated, the state is that of at most one
      application; success means exactly one. */
  lemma {:induction false} RetriedIsAtMostOnce<S(!new)>(statement: S -> S, s: S, net: Network, counter: nat)
    requires Idempotent(statement)
    ensures
      var (s', ok) := Retried(statement, s, net, counter);
      && (ok ==> s' == statement(s))
      && (s' == statement(s) || s' == s)
    decreases MAX_ATTEMPT_COUNT - counter
  {
    var fate := net(counter);
    if fate.reply == RetryableError && counter < MAX_ATTEMPT_COUNT {
      RetriedIsAtMostOnce(statement, if fate.applied then statement(s) else s, net, counter + 1);
    }
  }

  /** The report a retried statement's attempts give to WithRetry. */
  function Reports(net: Network): nat -> Attempt<()> {
    (i: nat) =>
         match net(i).reply
         case Ack => Succeeded(())
         case RetryableError => Failed(true)
         case OtherError => Failed(false)
  }

  /** A retried statement succeeds exactly when WithRetry returns a value. */
  lemma {:induction false} RetriedFollowsWithRetry<S>(statement: S -> S, s: S, net: Network, counter: nat)
    ensures Retried(statement, s, net, counter).1 <==> WithRetry(Reports(net), counter).final.Returned?
    decreases MAX_ATTEMPT_COUNT - counter
  {
    var fate := net(counter);
    if fate.reply == RetryableError && counter < MAX_ATTEMPT_COUNT {
      RetriedFollowsWithRetry(statement, if fate.applied then statement(s) else s, net, counter + 1);
    }
  }

  /** Whether any attempt up to the deciding one took effect. */
  predicate TookEffect(net: Network, counter: nat)
    decreases MAX_ATTEMPT_COUNT - counter
  {
    net(counter).applied
    || (net(counter).reply == RetryableError && counter < MAX_ATTEMPT_COUNT && TookEffect(net, counter + 1))
  }

  /** The exact state an idempotent statement leaves, whatever the caller hears. */
  lemma {:induction false} RetriedEffect<S(!new)>(statement: S -> S, s: S, net: Network, counter: nat)
    requires Idempotent(statement)
    ensures Retried(statement, s, net, counter).0 == if TookEffect(net, counter) then statement(s) else s
    ensures Retried(statement, s, net, counter).1 ==> TookEffect(net, counter)
    decreases MAX_ATTEMPT_COUNT - counter
  {
    var fate := net(counter);
    if fate.reply == RetryableError && counter < MAX_ATTEMPT_COUNT {
      var s' := if fate.applied then statement(s) else s;
      RetriedEffect(statement, s', net, counter + 1);
    }
  }

  /** State behind a connection, changed in place by retried statements. */
  class Connection<S(!new)> {
    var state: S

    constructor (s: S)
      ensures state == s
    {
      state := s;
    }

    /** It succeeds when WithRetry returns, and an idempotent statement has been applied once if
        any attempt took effect, which a success implies, and not at all otherwise. */
    method Execute(statement: S -> S, net: Network, counter: nat) returns (ok: bool)
      modifies this
      ensures (state, ok) == Retried(statement, old(state), net, counter)
      ensures ok <==> WithRetry(Reports(net), counter).final.Returned?
      ensures Idempotent(statement) ==>
        && state == (if TookEffect(net, counter) then statement(old(state)) else old(state))
        && (ok ==> state == statement(old(state)))
      decreases MAX_ATTEMPT_COUNT - counter
    {
      RetriedFollowsWithRetry(statement, state, net, counter);
      if Idempotent(statement) {
        RetriedEffect(statement, state, net, counter);
      }
      var fate := net(counter);
      if fate.applied {
        state := statement(state);
      }
      if fate.reply == Ack {
        return true;
      }
      if counter >= MAX_ATTEMPT_COUNT || fate.reply == OtherError {
        return false;
      }
      ok := Execute(statement, net, counter + 1);
    }
  }
}
