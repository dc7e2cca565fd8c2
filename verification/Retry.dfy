/** Running a function on a remote runner: attempts, and when one may be repeated. */
module Retry {
  import opened Prelude

  datatype UdfType = Query | Mutation | Action | HttpAction

  datatype Code = Unavailable | Cancelled | Unknown | OtherCode

  datatype Status = Status(code: Code, rejectedBeforeExecution: bool)

  datatype Failure = NoEndpoints | TimedOut | Rpc(status: Status) | Internal

  datatype Part = LogLine(line: nat) | UnreadableLogLine | Result(value: nat) | NoPart

  datatype Opening = Opened | OpenTimedOut | OpenFailed(status: Status)

  /** Everything that one attempt meets: whether there is an endpoint, how the stream opens,
      the parts it sends, how it ends, and after how many parts the deadline strikes, if it
      does. */
  datatype Attempt = Attempt(
    endpoints: bool,
    opening: Opening,
    parts: seq<Part>,
    broken: Option<Status>,
    deadline: Option<nat>)

  datatype Outcome = Ok(value: nat) | Failed(failure: Failure)

  /** How an attempt ended, what it logged, and whether it had received anything. */
  datatype AttemptEnd = AttemptEnd(outcome: Outcome, logs: seq<nat>, partsReceived: bool)

  predicate HasDeadline(udf: UdfType) {
    udf.Query? || udf.Mutation?
  }

  predicate DeadlineAt(udf: UdfType, a: Attempt, i: nat) {
    HasDeadline(udf) && a.deadline == Some(i)
  }

  /** The response stream from its i-th part on. */
  function StreamEnd(udf: UdfType, a: Attempt, i: nat, result: Option<nat>): (Outcome, seq<nat>)
    requires i <= |a.parts|
    decreases |a.parts| - i
  {
    if DeadlineAt(udf, a, i) then (Failed(TimedOut), [])
    else if i == |a.parts| then
      (if a.broken.Some? then Failed(Rpc(a.broken.value))
       else if result.Some? then Ok(result.value) else Failed(Internal), [])
    else
      match a.parts[i]
      case LogLine(line) =>
        var (outcome, logs) := StreamEnd(udf, a, i + 1, result);
        (outcome, [line] + logs)
      case Result(value) => if result.Some? then (Failed(Internal), []) else StreamEnd(udf, a, i + 1, Some(value))
      case _ => (Failed(Internal), [])
  }

  function EndOf(udf: UdfType, a: Attempt): AttemptEnd {
    if !a.endpoints then AttemptEnd(Failed(NoEndpoints), [], false)
    else if DeadlineAt(udf, a, 0) then AttemptEnd(Failed(TimedOut), [], false)
    else
      match a.opening
      case OpenTimedOut => AttemptEnd(Failed(TimedOut), [], false)
      case OpenFailed(status) => AttemptEnd(Failed(Rpc(status)), [], false)
      case Opened =>
        var (outcome, logs) := StreamEnd(udf, a, 0, None);
        AttemptEnd(outcome, logs, a.parts != [])
  }

  // ---- When an attempt may be repeated

  predicate IsRetryableRpc(udf: UdfType, status: Status) {
    match udf
    case Query => status.code != OtherCode || status.rejectedBeforeExecution
    case Mutation => status.code != OtherCode || status.rejectedBeforeExecution
    case Action => status.rejectedBeforeExecution
    case HttpAction => false
  }

  predicate IsRetryable(udf: UdfType, failure: Failure) {
    match failure
    case NoEndpoints => true
    case TimedOut => HasDeadline(udf)
    case Rpc(status) => IsRetryableRpc(udf, status)
    case Internal => false
  }

  predicate Repeats(udf: UdfType, end: AttemptEnd) {
    end.outcome.Failed? && IsRetryable(udf, end.outcome.failure) && !end.partsReceived
  }

  /** How many attempts are made in all, once the first `made` have been repeated. */
  function AttemptsMade(udf: UdfType, env: nat -> Attempt, retries: nat, made: nat): (n: nat)
    requires made <= retries
    ensures made < n <= retries + 1
    decreases retries - made
  {
    if made == retries || !Repeats(udf, EndOf(udf, env(made))) then made + 1
    else AttemptsMade(udf, env, retries, made + 1)
  }

  // ---- The loops

  /** Reads the response stream; the log lines go out as they come in. */
  method ReceiveParts(udf: UdfType, a: Attempt) returns (outcome: Outcome, logs: seq<nat>, partsReceived: bool)
    requires !DeadlineAt(udf, a, 0)
    ensures (outcome, logs) == StreamEnd(udf, a, 0, None)
    ensures partsReceived <==> a.parts != []
  {
    var result: Option<nat> := None;
    logs, partsReceived := [], false;
    var i := 0;
    while i < |a.parts| && !DeadlineAt(udf, a, i)
      invariant i <= |a.parts| && partsReceived == (i > 0)
      invariant StreamEnd(udf, a, 0, None).0 == StreamEnd(udf, a, i, result).0
      invariant StreamEnd(udf, a, 0, None).1 == logs + StreamEnd(udf, a, i, result).1
    {
      partsReceived := true;
      match a.parts[i] {
        case LogLine(line) =>
          assert logs + StreamEnd(udf, a, i, result).1 == logs + [line] + StreamEnd(udf, a, i + 1, result).1;
          logs := logs + [line];
        case Result(value) =>
          if result.Some? {
            assert logs + [] == logs;
            return Failed(Internal), logs, true;
          }
          result := Some(value);
        case _ =>
          assert logs + [] == logs;
          return Failed(Internal), logs, true;
      }
      i := i + 1;
    }
    assert logs + [] == logs;
    outcome := if DeadlineAt(udf, a, i) then Failed(TimedOut)
               else if a.broken.Some? then Failed(Rpc(a.broken.value))
               else if result.Some? then Ok(result.value) else Failed(Internal);
  }

  method RunFunctionAttempt(udf: UdfType, a: Attempt) returns (end: AttemptEnd)
    ensures end == EndOf(udf, a)
  {
    if !a.endpoints {
      return AttemptEnd(Failed(NoEndpoints), [], false);
    }
    if DeadlineAt(udf, a, 0) {
      return AttemptEnd(Failed(TimedOut), [], false);
    }
    match a.opening {
      case OpenTimedOut => return AttemptEnd(Failed(TimedOut), [], false);
      case OpenFailed(status) => return AttemptEnd(Failed(Rpc(status)), [], false);
      case Opened =>
    }
    var outcome, logs, partsReceived := ReceiveParts(udf, a);
    end := AttemptEnd(outcome, logs, partsReceived);
  }

  /** The retry loop: the caller gets the outcome of the last attempt and, whatever the type of
      the function, the log lines of the last attempt only. */
  method RunFunctionRemote(udf: UdfType, env: nat -> Attempt, retries: nat)
    returns (outcome: Outcome, logs: seq<nat>, made: nat)
    ensures made == AttemptsMade(udf, env, retries, 0)
    ensures outcome == EndOf(udf, env(made - 1)).outcome
    ensures logs == EndOf(udf, env(made - 1)).logs
  {
    logs := [];
    var attempt := 0;
    while true
      invariant attempt <= retries && logs == []
      invariant AttemptsMade(udf, env, retries, 0) == AttemptsMade(udf, env, retries, attempt)
      decreases retries - attempt
    {
      var lastAttempt := attempt + 1 >= retries + 1;
      var end := RunFunctionAttempt(udf, env(attempt));
      logs := logs + end.logs;
      if end.outcome.Ok? {
        return end.outcome, logs, attempt + 1;
      }
      var retry := IsRetryable(udf, end.outcome.failure);
      if retry && !lastAttempt && !end.partsReceived {
        NothingReceivedNothingLogged(udf, env(attempt));
        attempt := attempt + 1;
        continue;
      }
      return end.outcome, logs, attempt + 1;
    }
  }

  lemma NothingReceivedNothingLogged(udf: UdfType, a: Attempt)
    requires !EndOf(udf, a).partsReceived
    ensures EndOf(udf, a).logs == []
  {}

  // ---- What the caller can rely on

  /** The runner may have executed the function: the attempt was not turned away before. */
  predicate MayHaveExecuted(end: AttemptEnd) {
    end.outcome.Ok? || (end.outcome.failure != NoEndpoints
                        && (end.outcome.failure.Rpc? ==> !end.outcome.failure.status.rejectedBeforeExecution))
  }

  /** Every attempt but the last failed in a way that may be repeated, with nothing received. */
  lemma {:induction false} EarlierAttemptsRepeat(udf: UdfType, env: nat -> Attempt, retries: nat, made: nat, i: nat)
    requires made <= retries && made <= i < AttemptsMade(udf, env, retries, made) - 1
    ensures Repeats(udf, EndOf(udf, env(i)))
    decreases retries - made
  {
    if made < i {
      EarlierAttemptsRepeat(udf, env, retries, made + 1, i);
    }
  }

  /** The last attempt is the first one that may not be repeated, or the one after all the
      retries. */
  lemma AttemptsAreExact(udf: UdfType, env: nat -> Attempt, retries: nat, n: nat)
    ensures n == AttemptsMade(udf, env, retries, 0) <==>
            && 1 <= n <= retries + 1
            && (forall i: nat | i < n - 1 :: Repeats(udf, EndOf(udf, env(i))))
            && (n == retries + 1 || !Repeats(udf, EndOf(udf, env(n - 1))))
  {
    var m := AttemptsMade(udf, env, retries, 0);
    forall i: nat | i < m - 1 ensures Repeats(udf, EndOf(udf, env(i))) {
      EarlierAttemptsRepeat(udf, env, retries, 0, i);
    }
    LastAttemptStops(udf, env, retries, 0);
  }

  lemma {:induction false} LastAttemptStops(udf: UdfType, env: nat -> Attempt, retries: nat, made: nat)
    requires made <= retries
    ensures var m := AttemptsMade(udf, env, retries, made);
            m == retries + 1 || !Repeats(udf, EndOf(udf, env(m - 1)))
    decreases retries - made
  {
    if made < retries && Repeats(udf, EndOf(udf, env(made))) {
      LastAttemptStops(udf, env, retries, made + 1);
    }
  }

  /** The errors of an RPC that may be met again: a rejection before execution, for all but HTTP
      actions, and a lost connection for queries and mutations. */
  predicate MayMeetAgain(udf: UdfType, status: Status) {
    match udf
    case HttpAction => false
    case Action => status.rejectedBeforeExecution
    case _ => status.rejectedBeforeExecution || status.code in {Unavailable, Cancelled, Unknown}
  }

  /** The attempt came to nothing in a way that may be met again: there was no endpoint; or the
      stream did not open in time, which only queries and mutations wait out; or it did not
      open, or broke before its first part. */
  predicate CameToNothing(udf: UdfType, a: Attempt) {
    var timed := udf == Query || udf == Mutation;
    || !a.endpoints
    || (timed && a.deadline == Some(0))
    || (timed && a.opening == OpenTimedOut)
    || (a.opening.OpenFailed? && MayMeetAgain(udf, a.opening.status))
    || (a.opening == Opened && a.parts == [] && a.broken.Some? && MayMeetAgain(udf, a.broken.value))
  }

  lemma RepeatsIfNothing(udf: UdfType, a: Attempt)
    ensures Repeats(udf, EndOf(udf, a)) <==> CameToNothing(udf, a)
  {}

  /** An attempt is followed by another exactly if it came to nothing in a way that may be met
      again, and so did all before it, and a retry is left. */
  lemma FollowedExactly(udf: UdfType, env: nat -> Attempt, retries: nat, i: nat)
    ensures i + 1 < AttemptsMade(udf, env, retries, 0) <==>
            i < retries && forall k: nat | k <= i :: CameToNothing(udf, env(k))
  {
    var n := AttemptsMade(udf, env, retries, 0);
    AttemptsAreExact(udf, env, retries, n);
    forall k: nat ensures Repeats(udf, EndOf(udf, env(k))) <==> CameToNothing(udf, env(k)) {
      RepeatsIfNothing(udf, env(k));
    }
  }

  /** Whatever the attempts meet, an action is attempted at most once without being turned away
      before execution: only the last attempt can have run it. */
  lemma ActionsRunAtMostOnce(udf: UdfType, env: nat -> Attempt, retries: nat, i: nat)
    requires !HasDeadline(udf) && i < AttemptsMade(udf, env, retries, 0) && MayHaveExecuted(EndOf(udf, env(i)))
    ensures i == AttemptsMade(udf, env, retries, 0) - 1
  {
    if i < AttemptsMade(udf, env, retries, 0) - 1 {
      EarlierAttemptsRepeat(udf, env, retries, 0, i);
    }
  }

  /** An HTTP action is repeated only if there was no endpoint to send it to. */
  lemma HttpActionsAreSentOnce(env: nat -> Attempt, retries: nat, i: nat)
    requires i < AttemptsMade(HttpAction, env, retries, 0) - 1
    ensures !env(i).endpoints
  {
    EarlierAttemptsRepeat(HttpAction, env, retries, 0, i);
    NoEndpointsMeans(HttpAction, env(i));
  }

  lemma NoEndpointsMeans(udf: UdfType, a: Attempt)
    ensures EndOf(udf, a).outcome == Failed(NoEndpoints) <==> !a.endpoints
  {
    StreamNeverLacksEndpoints(udf, a, 0, None);
  }

  lemma {:induction false} StreamNeverLacksEndpoints(udf: UdfType, a: Attempt, i: nat, result: Option<nat>)
    requires i <= |a.parts|
    ensures StreamEnd(udf, a, i, result).0 != Failed(NoEndpoints)
    decreases |a.parts| - i
  {
    if i < |a.parts| {
      StreamNeverLacksEndpoints(udf, a, i + 1, result);
      if a.parts[i].Result? {
        StreamNeverLacksEndpoints(udf, a, i + 1, Some(a.parts[i].value));
      }
    }
  }

  /** Queries and mutations have no such guarantee: a connection lost before the first part is
      retried although the runner may have executed the function. */
  lemma MutationsMayRunTwice(udf: UdfType)
    requires HasDeadline(udf)
    ensures var lost := Attempt(true, Opened, [], Some(Status(Unavailable, false)), None);
            && AttemptsMade(udf, (i: nat) => lost, 1, 0) == 2
            && MayHaveExecuted(EndOf(udf, lost))
  {
    var lost := Attempt(true, Opened, [], Some(Status(Unavailable, false)), None);
    assert StreamEnd(udf, lost, 0, None).0 == Failed(Rpc(Status(Unavailable, false)));
    var env: nat -> Attempt := (i: nat) => lost;
    assert env(0) == env(1) == lost && Repeats(udf, EndOf(udf, env(0)));
    assert AttemptsMade(udf, env, 1, 1) == 2;
  }

  // ---- The log lines

  /** The first parts, while they are log lines and the deadline does not strike, are forwarded
      in order. */
  lemma {:induction false} LogsForwarded(udf: UdfType, a: Attempt, i: nat, result: Option<nat>, k: nat)
    requires i + k <= |a.parts| && forall j: nat | i <= j < i + k :: a.parts[j].LogLine? && !DeadlineAt(udf, a, j)
    ensures var logs := StreamEnd(udf, a, i, result).1;
            |logs| >= k && forall j: nat | j < k :: logs[j] == a.parts[i + j].line
    decreases k
  {
    if k > 0 {
      LogsForwarded(udf, a, i + 1, result, k - 1);
      var logs, rest := StreamEnd(udf, a, i, result).1, StreamEnd(udf, a, i + 1, result).1;
      assert logs == [a.parts[i].line] + rest;
      forall j: nat | j < k ensures logs[j] == a.parts[i + j].line {
        if j > 0 {
          assert logs[j] == rest[j - 1] && rest[j - 1] == a.parts[i + 1 + (j - 1)].line;
        }
      }
    }
  }

  /** A stream of log lines only, cut off by nothing, logs exactly them. */
  lemma {:induction false} LogsExactly(udf: UdfType, a: Attempt, i: nat, result: Option<nat>)
    requires i <= |a.parts|
    requires forall j: nat | i <= j < |a.parts| :: a.parts[j].LogLine? || (a.parts[j].Result? && result.None?)
    requires forall j: nat, k: nat | i <= j < k < |a.parts| :: a.parts[j].LogLine? || a.parts[k].LogLine?
    requires forall j: nat | i <= j <= |a.parts| :: !DeadlineAt(udf, a, j)
    ensures StreamEnd(udf, a, i, result).1 == Lines(a.parts[i..])
    decreases |a.parts| - i
  {
    if i < |a.parts| {
      assert a.parts[i..][1..] == a.parts[i + 1..];
      LogsExactly(udf, a, i + 1, if a.parts[i].Result? then Some(a.parts[i].value) else result);
    }
  }

  function Lines(parts: seq<Part>): seq<nat> {
    if parts == [] then [] else (if parts[0].LogLine? then [parts[0].line] else []) + Lines(parts[1..])
  }

  /** An attempt that succeeds has forwarded all its log lines, before and after the result, in
      order, and nothing else. */
  lemma SuccessForwardsAllLines(udf: UdfType, a: Attempt, value: nat)
    requires EndOf(udf, a).outcome == Ok(value)
    ensures EndOf(udf, a).logs == Lines(a.parts)
  {
    AttemptSucceedsExactly(udf, a, value);
    assert a.parts[0..] == a.parts;
    LogsExactly(udf, a, 0, None);
  }

  // ---- The stream protocol

  /** An attempt succeeds exactly if it reaches an endpoint and its stream opens, carries
      nothing but readable log lines and one result, and ends before the deadline; the value
      is that of the result. */
  predicate WellFormed(a: Attempt, value: nat) {
    && (exists r | 0 <= r < |a.parts| :: a.parts[r] == Result(value)
          && forall i | 0 <= i < |a.parts| && i != r :: a.parts[i].LogLine?)
    && a.endpoints && a.opening.Opened? && a.broken.None?
  }

  lemma {:induction false} StreamSucceeds(udf: UdfType, a: Attempt, i: nat, result: Option<nat>, value: nat)
    requires i <= |a.parts|
    ensures StreamEnd(udf, a, i, result).0 == Ok(value) <==>
            && a.broken.None? && (forall k: nat | i <= k <= |a.parts| :: !DeadlineAt(udf, a, k))
            && (if result.Some? then result.value == value && forall k | i <= k < |a.parts| :: a.parts[k].LogLine?
                else exists r | i <= r < |a.parts| :: a.parts[r] == Result(value)
                       && forall k | i <= k < |a.parts| && k != r :: a.parts[k].LogLine?)
    decreases |a.parts| - i
  {
    if i < |a.parts| && !DeadlineAt(udf, a, i) {
      match a.parts[i]
      case LogLine(_) => StreamSucceeds(udf, a, i + 1, result, value);
      case Result(v) =>
        if result.None? {
          StreamSucceeds(udf, a, i + 1, Some(v), value);
        }
      case _ =>
    }
  }

  lemma AttemptSucceedsExactly(udf: UdfType, a: Attempt, value: nat)
    ensures EndOf(udf, a).outcome == Ok(value) <==>
            WellFormed(a, value) && forall k: nat | k <= |a.parts| :: !DeadlineAt(udf, a, k)
  {
    StreamSucceeds(udf, a, 0, None, value);
  }
}
