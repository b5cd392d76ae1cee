/**
 * Running the plan against the warehouse's asynchronous statement service
 * (app.py, lines 115-148). Each step is submitted, then its status is polled
 * until it is FINISHED (go on to the next step) or FAILED/ABORTED (raise
 * "<step> Failed: <error>", where a missing error text reads "Unknown
 * Error"). An exception from the service itself is re-raised unchanged. No
 * step is submitted before the previous one finished, and the first failure
 * ends the run.
 *
 * The service is an oracle: for the k-th submitted statement, `replies[k]`
 * is either the exception `execute_statement` raised or the sequence of
 * answers its `describe_statement` polls return. The real polling loop has
 * no bound; a finite script that runs out before a terminal status stands
 * for a statement that never terminates, and the run is then `Hung`.
 */
module Executor {
  import opened Wrappers
  import opened StatementPlan

  /** Statement states reported by `describe_statement`. */
  datatype Status = Submitted | Picked | Started | Finished | Failed | Aborted

  /** One `describe_statement` call: its answer, or the exception it raised. */
  datatype Poll =
    | Described(status: Status, error: Option<string>)
    | DescribeFailed(exception: string)

  /** One `execute_statement` call: accepted, with the polls that follow, or the exception it raised. */
  datatype Reply =
    | Accepted(polls: seq<Poll>)
    | Rejected(exception: string)

  /** The client's region and what the job passes to every `execute_statement` call besides the SQL. */
  datatype Connection = Connection(region: string, workgroup: string, secretArn: string)

  /** The database name is fixed (`db_name = 'dev'`). */
  const Database: string := "dev"

  /** One `execute_statement` call, sent to the service in `region`. */
  datatype Submission = Submission(region: string, workgroup: string, database: string, secretArn: string, sql: string)

  /** How polling one statement ends. */
  datatype StepResult = StepFinished | StepRaised(message: string) | NoTerminalStatus

  /** How the whole run ends: every step finished, an exception naming the step, or waiting forever. */
  datatype Outcome = Completed | Raised(step: string, message: string) | Hung(step: string)

  datatype Execution = Execution(outcome: Outcome, submitted: seq<Submission>)

  /** `f"{name} Failed: {status_resp.get('Error', 'Unknown Error')}"` */
  function FailureMessage(name: string, error: Option<string>): string
  {
    name + " Failed: " + error.GetOr("Unknown Error")
  }

  function SubmissionOf(conn: Connection, step: Step): Submission
  {
    Submission(conn.region, conn.workgroup, Database, conn.secretArn, step.sql)
  }

  /** Polls the statement of step `name` until a terminal status, from the first poll on. */
  function Await(name: string, polls: seq<Poll>): (r: StepResult)
    ensures r.NoTerminalStatus? <==> forall t :: 0 <= t < |polls| ==> Pending(polls[t])
  {
    if |polls| == 0 then NoTerminalStatus
    else
      match polls[0]
      case DescribeFailed(e) => StepRaised(e)
      case Described(status, error) =>
        if status == Failed || status == Aborted then StepRaised(FailureMessage(name, error))
        else if status == Finished then StepFinished
        else
          assert forall t :: 1 <= t < |polls| ==> polls[t] == polls[1..][t - 1];
          Await(name, polls[1..])
  }

  /** What the run does with a step: submit it, then act on its reply. */
  function StepOutcome(name: string, reply: Reply): StepResult
  {
    match reply
    case Rejected(e) => StepRaised(e)
    case Accepted(polls) => Await(name, polls)
  }

  /** The run of a plan against the replies, step by step. */
  function Run(plan: seq<Step>, replies: seq<Reply>, conn: Connection): (e: Execution)
    requires |replies| == |plan|
    ensures |e.submitted| <= |plan|
    ensures |e.submitted| == 0 <==> |plan| == 0
    ensures e.outcome.Completed? ==> |e.submitted| == |plan|
    decreases |plan|
  {
    if |plan| == 0 then Execution(Completed, [])
    else
      var sub := SubmissionOf(conn, plan[0]);
      match StepOutcome(plan[0].name, replies[0])
      case StepFinished =>
        var rest := Run(plan[1..], replies[1..], conn);
        Execution(rest.outcome, [sub] + rest.submitted)
      case StepRaised(m) => Execution(Raised(plan[0].name, m), [sub])
      case NoTerminalStatus => Execution(Hung(plan[0].name), [sub])
  }

  /** The polling loop of one statement, app.py lines 131-144. */
  method PollStatement(name: string, polls: seq<Poll>) returns (r: StepResult)
    ensures r == Await(name, polls)
  {
    var j := 0;
    while true
      invariant 0 <= j <= |polls|
      invariant Await(name, polls) == Await(name, polls[j..])
      decreases |polls| - j
    {
      if j == |polls| {
        return NoTerminalStatus;
      }
      assert polls[j..][1..] == polls[j + 1..];
      match polls[j]
      case DescribeFailed(e) =>
        return StepRaised(e);
      case Described(status, error) =>
        if status == Failed || status == Aborted {
          return StepRaised(FailureMessage(name, error));
        } else if status == Finished {
          return StepFinished;
        }
      j := j + 1;
    }
  }

  /** The for-loop over the statements, app.py lines 115-148. */
  method Execute(plan: seq<Step>, replies: seq<Reply>, conn: Connection)
    returns (outcome: Outcome, submitted: seq<Submission>)
    requires |replies| == |plan|
    ensures Execution(outcome, submitted) == Run(plan, replies, conn)
  {
    submitted := [];
    for i := 0 to |plan|
      invariant |submitted| == i
      invariant Run(plan, replies, conn)
        == var rest := Run(plan[i..], replies[i..], conn); Execution(rest.outcome, submitted + rest.submitted)
    {
      var name := plan[i].name;
      var sub := SubmissionOf(conn, plan[i]);
      assert plan[i..][1..] == plan[i + 1..] && replies[i..][1..] == replies[i + 1..];
      ghost var tail := Run(plan[i + 1..], replies[i + 1..], conn);
      ghost var before := submitted;
      submitted := submitted + [sub];
      match replies[i]
      case Rejected(e) =>
        outcome := Raised(name, e);
        return;
      case Accepted(polls) =>
        var r := PollStatement(name, polls);
        match r
        case StepRaised(m) =>
          outcome := Raised(name, m);
          return;
        case NoTerminalStatus =>
          outcome := Hung(name);
          return;
        case StepFinished =>
          assert Run(plan[i..], replies[i..], conn) == Execution(tail.outcome, [sub] + tail.submitted);
          assert submitted + tail.submitted == before + ([sub] + tail.submitted);
    }
    outcome := Completed;
  }

  /** A status that is not terminal: polling goes on. */
  predicate Pending(p: Poll)
  {
    p.Described? && p.status in {Submitted, Picked, Started}
  }

  /** Polls answering a non-terminal status are skipped: only the first terminal answer decides. */
  lemma {:induction false} AwaitSkipsPending(name: string, polls: seq<Poll>, t: nat)
    requires t <= |polls|
    requires forall j :: 0 <= j < t ==> Pending(polls[j])
    ensures Await(name, polls) == Await(name, polls[t..])
  {
    if t > 0 {
      assert Pending(polls[0]);
      assert polls[1..][t - 1..] == polls[t..];
      AwaitSkipsPending(name, polls[1..], t - 1);
    }
  }

  /**
   * A statement whose first terminal status is FAILED or ABORTED raises
   * "<name> Failed: <error>", with "Unknown Error" when no error text came.
   */
  lemma StatementFailure(name: string, polls: seq<Poll>, t: nat, status: Status, error: Option<string>)
    requires t < |polls| && polls[t] == Described(status, error) && (status == Failed || status == Aborted)
    requires forall j :: 0 <= j < t ==> Pending(polls[j])
    ensures Await(name, polls) == StepRaised(name + " Failed: " + (if error.Some? then error.value else "Unknown Error"))
  {
    AwaitSkipsPending(name, polls, t);
  }

  /** The k-th call to `execute_statement` carries the k-th step's SQL; there are never more calls than steps. */
  lemma {:induction false} SubmissionsFollowPlan(plan: seq<Step>, replies: seq<Reply>, conn: Connection)
    requires |replies| == |plan|
    ensures var e := Run(plan, replies, conn);
      && |e.submitted| <= |plan|
      && forall k :: 0 <= k < |e.submitted| ==>
           e.submitted[k] == Submission(conn.region, conn.workgroup, "dev", conn.secretArn, plan[k].sql)
  {
    if |plan| > 0 {
      SubmissionsFollowPlan(plan[1..], replies[1..], conn);
    }
  }

  /** Step k+1 is submitted only after step k finished. */
  lemma {:induction false} SubmittedOnlyAfterFinished(plan: seq<Step>, replies: seq<Reply>, conn: Connection)
    requires |replies| == |plan|
    ensures var e := Run(plan, replies, conn);
      forall k :: 0 <= k < |e.submitted| - 1 && k < |plan| ==> StepOutcome(plan[k].name, replies[k]) == StepFinished
  {
    if |plan| > 0 {
      SubmittedOnlyAfterFinished(plan[1..], replies[1..], conn);
      SubmissionsFollowPlan(plan[1..], replies[1..], conn);
    }
  }

  /** The run completes if and only if every step finishes, and then every step was submitted. */
  lemma {:induction false} CompletesIffAllFinish(plan: seq<Step>, replies: seq<Reply>, conn: Connection)
    requires |replies| == |plan|
    ensures var e := Run(plan, replies, conn);
      e.outcome == Completed <==> forall k :: 0 <= k < |plan| ==> StepOutcome(plan[k].name, replies[k]) == StepFinished
    ensures var e := Run(plan, replies, conn);
      e.outcome == Completed ==> |e.submitted| == |plan|
  {
    if |plan| > 0 {
      CompletesIffAllFinish(plan[1..], replies[1..], conn);
      var e := Run(plan, replies, conn);
      if e.outcome == Completed {
        forall k | 0 <= k < |plan| ensures StepOutcome(plan[k].name, replies[k]) == StepFinished {
          if k > 0 {
            assert plan[k] == plan[1..][k - 1] && replies[k] == replies[1..][k - 1];
          }
        }
      }
      if forall k :: 0 <= k < |plan| ==> StepOutcome(plan[k].name, replies[k]) == StepFinished {
        assert StepOutcome(plan[0].name, replies[0]) == StepFinished;
        forall k | 0 <= k < |plan| - 1 ensures StepOutcome(plan[1..][k].name, replies[1..][k]) == StepFinished {
          assert plan[1..][k] == plan[k + 1] && replies[1..][k] == replies[k + 1];
        }
      }
    }
  }

  /**
   * A run that does not complete stops at the last step it submitted: the
   * exception or the endless wait belongs to that step, and it carries the
   * step's own failure message.
   */
  lemma {:induction false} StopsAtLastSubmitted(plan: seq<Step>, replies: seq<Reply>, conn: Connection)
    requires |replies| == |plan|
    ensures var e := Run(plan, replies, conn);
      var n := |e.submitted|;
      e.outcome != Completed ==>
        && 1 <= n <= |plan|
        && e.outcome.step == plan[n - 1].name
        && (e.outcome.Raised? ==> StepOutcome(plan[n - 1].name, replies[n - 1]) == StepRaised(e.outcome.message))
        && (e.outcome.Hung? ==> StepOutcome(plan[n - 1].name, replies[n - 1]) == NoTerminalStatus)
  {
    if |plan| > 0 {
      StopsAtLastSubmitted(plan[1..], replies[1..], conn);
      SubmissionsFollowPlan(plan[1..], replies[1..], conn);
    }
  }
}
