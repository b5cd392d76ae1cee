/**
 * The whole load job, app.py lines 19-150: read the endpoint's workgroup and
 * region, choose the load source, build the four statements against it and
 * run them. The configuration stands for the arguments the job runner
 * resolves; the object store, the parser, the serialiser and the statement
 * service's replies are parameters.
 */
module Job {
  import opened Wrappers
  import opened JsonValue
  import opened Endpoint
  import opened Normaliser
  import opened StatementPlan
  import opened Executor

  datatype Config = Config(
    bucket: string,
    endpoint: string,
    roleArn: string,
    secretArn: string,
    sourceKey: string,
    stagingTable: string,
    finalTable: string)

  /**
   * How the job ends. `Succeeded`, or an exception that stops the process,
   * except `StatementsFailed(Hung(_))`: a job polling forever.
   */
  datatype JobResult =
    | Succeeded
    | BadEndpoint(endpointError: EndpointError)
    | ReadFailed(readError: ReadError)
    | StatementsFailed(outcome: Outcome)

  /**
   * Runs the job. The endpoint is split first, so a malformed endpoint stops
   * the job before the store is read; a missing source object stops it
   * before any statement is submitted. Otherwise the four steps are built
   * against the chosen load source and run in order.
   */
  method RunJob(cfg: Config, store: ObjectStore, parse: Parser, dumps: Serialiser, replies: seq<Reply>)
    returns (result: JobResult, after: ObjectStore, submitted: seq<Submission>)
    requires |replies| == 4
    ensures ParseEndpoint(cfg.endpoint).Failure? ==>
      result == BadEndpoint(ParseEndpoint(cfg.endpoint).error) && after == store && submitted == []
    ensures ParseEndpoint(cfg.endpoint).Success? && ObjectRef(cfg.bucket, cfg.sourceKey) !in store ==>
      result == ReadFailed(NoSuchObject(ObjectRef(cfg.bucket, cfg.sourceKey))) && after == store && submitted == []
    ensures ParseEndpoint(cfg.endpoint).Success? && ObjectRef(cfg.bucket, cfg.sourceKey) in store ==>
      var target := ParseEndpoint(cfg.endpoint).value;
      var n := Normalise(store, ObjectRef(cfg.bucket, cfg.sourceKey), parse, dumps).value;
      var plan := BuildPlan(cfg.stagingTable, cfg.finalTable, S3Uri(n.loadFrom), cfg.roleArn);
      var run := Run(plan, replies, Connection(target.region, target.workgroup, cfg.secretArn));
      && after == ApplyPuts(store, n.puts)
      && submitted == run.submitted
      && result == (if run.outcome == Completed then Succeeded else StatementsFailed(run.outcome))
  {
    var parsed := ParseEndpoint(cfg.endpoint);
    if parsed.Failure? {
      return BadEndpoint(parsed.error), store, [];
    }
    var target := parsed.value;
    var source := ObjectRef(cfg.bucket, cfg.sourceKey);
    var normalised := Normalise(store, source, parse, dumps);
    if normalised.Failure? {
      return ReadFailed(normalised.error), store, [];
    }
    var n := normalised.value;
    after := ApplyPuts(store, n.puts);
    var plan := BuildPlan(cfg.stagingTable, cfg.finalTable, S3Uri(n.loadFrom), cfg.roleArn);
    var outcome;
    outcome, submitted := Execute(plan, replies, Connection(target.region, target.workgroup, cfg.secretArn));
    result := if outcome == Completed then Succeeded else StatementsFailed(outcome);
  }

  /**
   * The copy step reads the object the normaliser chose: the processed copy
   * for a JSON array, the original object otherwise.
   */
  lemma CopyReadsChosenSource(cfg: Config, store: ObjectStore, parse: Parser, dumps: Serialiser)
    requires ObjectRef(cfg.bucket, cfg.sourceKey) in store
    ensures var source := ObjectRef(cfg.bucket, cfg.sourceKey);
      var n := Normalise(store, source, parse, dumps).value;
      var arrayInput := parse(store[source]).Success? && parse(store[source]).value.JArray?;
      && Text.Contains(BuildPlan(cfg.stagingTable, cfg.finalTable, S3Uri(n.loadFrom), cfg.roleArn)[1].sql,
                       "FROM '" + S3Uri(n.loadFrom) + "'")
      && n.loadFrom == (if arrayInput then ProcessedRef(source) else source)
  {
    var source := ObjectRef(cfg.bucket, cfg.sourceKey);
    var n := Normalise(store, source, parse, dumps).value;
    CopyEmbedsSourceAndRole(cfg.stagingTable, S3Uri(n.loadFrom), cfg.roleArn);
  }

  /** `f"s3://{s3_bucket}/{processed_key}"` with `processed_key = f"processed/{source_file_key}"`. */
  lemma ProcessedUri(source: ObjectRef)
    ensures S3Uri(ProcessedRef(source)) == "s3://" + source.bucket + "/processed/" + source.key
  {
    var head := "s3://" + source.bucket;
    assert "/" + ("processed/" + source.key) == "/processed/" + source.key;
    assert head + "/" + ("processed/" + source.key) == head + ("/" + ("processed/" + source.key));
  }

  /** A run where every statement is reported FINISHED after some non-terminal polls. */
  function AllFinish(): seq<Reply>
  {
    [
      Accepted([Described(Submitted, None), Described(Finished, None)]),
      Accepted([Described(Started, None), Described(Started, None), Described(Finished, None)]),
      Accepted([Described(Finished, None)]),
      Accepted([Described(Picked, None), Described(Finished, None)])
    ]
  }

  /** The same run, except that the copy is reported FAILED with "invalid column". */
  function CopyFails(): seq<Reply>
  {
    AllFinish()[1 := Accepted([Described(Started, None), Described(Failed, Some("invalid column"))])]
  }

  /** All four statements finish: the run completes after exactly four submissions, in plan order. */
  lemma ScenarioAllFinish(uri: string, role: string)
    ensures var plan := BuildPlan("stg.x", "fin.x", uri, role);
      var e := Run(plan, AllFinish(), Connection("us-east-1", "wg", "secret"));
      && e.outcome == Completed
      && |e.submitted| == 4
      && forall k :: 0 <= k < 4 ==> e.submitted[k].sql == plan[k].sql
  {
    var plan := BuildPlan("stg.x", "fin.x", uri, role);
    var replies := AllFinish();
    var conn := Connection("us-east-1", "wg", "secret");
    forall k | 0 <= k < 4 ensures StepOutcome(plan[k].name, replies[k]) == StepFinished {
      assert replies[1].polls[1..] == [Described(Started, None), Described(Finished, None)];
    }
    CompletesIffAllFinish(plan, replies, conn);
    SubmissionsFollowPlan(plan, replies, conn);
  }

  /**
   * The copy fails with "invalid column": the run raises
   * "Copy to Staging Failed: invalid column" for the copy step, after
   * submitting only the truncate and the copy.
   */
  lemma ScenarioCopyFails(uri: string, role: string)
    ensures var plan := BuildPlan("stg.x", "fin.x", uri, role);
      var e := Run(plan, CopyFails(), Connection("us-east-1", "wg", "secret"));
      && e.outcome == Raised("Copy to Staging", "Copy to Staging" + " Failed: " + "invalid column")
      && |e.submitted| == 2
  {
    var plan := BuildPlan("stg.x", "fin.x", uri, role);
    var replies := CopyFails();
    var conn := Connection("us-east-1", "wg", "secret");
    var message := CopyName + " Failed: " + "invalid column";
    StatementFailure(CopyName, replies[1].polls, 1, Failed, Some("invalid column"));
    assert StepOutcome(plan[1].name, replies[1]) == StepRaised(message);
    assert plan[1..][0] == plan[1] && replies[1..][0] == replies[1];
    assert Run(plan[1..], replies[1..], conn).outcome == Raised(CopyName, message);
    assert StepOutcome(plan[0].name, replies[0]) == StepFinished;
  }
}
