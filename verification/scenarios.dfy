/** Example invocations of the tool, each
    stated as the object printed and the exit status. */
module Scenarios {
  import opened Wrappers
  import opened Strings
  import opened CloudFormation
  import opened Locator
  import opened Diagnosis
  import opened Output
  import opened DiagnosisProperties

  /** An API where every stack reports `status`, the histories in `history`
      are answered and every other history query fails. */
  function FixedApi(status: string, history: map<string, seq<StackEvent>>): Api {
    Api(
      (n: string) => Success(StackDescription(status, None)),
      (n: string) => if n in history then Success(history[n]) else Failure("Stack does not exist"))
  }

  lemma RollbackCompleteIsRollback()
    ensures HasSubstring("ROLLBACK_COMPLETE", RollbackMarker)
  {
    assert OccursAt("ROLLBACK_COMPLETE", RollbackMarker, 0);
  }

  /** A healthy stack prints only its name and status. */
  lemma HealthyStack()
    ensures var run := Main(["cf.py", "web-app"], FixedApi("CREATE_COMPLETE", map[]));
      && Render(run.outcome) == map["StackName" := JString("web-app"), "StackStatus" := JString("CREATE_COMPLETE")]
      && ExitCode(run.outcome) == 0
  {
    MissingCharacter("CREATE_COMPLETE", RollbackMarker, 7);
    var api := FixedApi("CREATE_COMPLETE", map[]);
    HealthyStackReport(["cf.py", "web-app"], api, api);
  }

  /** A rolled back stack prints its failed bucket as the trigger. */
  lemma FailedBucket()
    ensures var api := FixedApi("ROLLBACK_COMPLETE",
              map["web-app" := [StackEvent("Bucket1", "AWS::S3::Bucket", "CREATE_FAILED", Some("Bucket already exists"))]]);
      var obj := Render(Main(["cf.py", "web-app"], api).outcome);
      && "RollbackTrigger" in obj
      && obj["RollbackTrigger"] == JObject(map["ResourceId" := "Bucket1",
                                               "ErrorMessage" := "Bucket already exists",
                                               "ResourceType" := "AWS::S3::Bucket"])
  {
    RollbackCompleteIsRollback();
    var events := [StackEvent("Bucket1", "AWS::S3::Bucket", "CREATE_FAILED", Some("Bucket already exists"))];
    var api := FixedApi("ROLLBACK_COMPLETE", map["web-app" := events]);
    assert IsFirstSignal(events, 0);
    IdentifiedTriggerReport(["cf.py", "web-app"], api, 0);
  }

  /** A failed nested stack is followed one level into its own history. */
  lemma FailedNestedStack()
    ensures var api := FixedApi("ROLLBACK_COMPLETE",
              map["web-app" := [StackEvent("NestedStack1", "AWS::CloudFormation::Stack", "CREATE_FAILED", None)],
                  "NestedStack1" := [StackEvent("Role1", "AWS::IAM::Role", "CREATE_FAILED", Some("Insufficient permissions"))]]);
      var obj := Render(Main(["cf.py", "web-app"], api).outcome);
      && "NestedRollbackTrigger" in obj
      && obj["NestedRollbackTrigger"] == JObject(map["ResourceId" := "Role1", "ErrorMessage" := "Insufficient permissions"])
  {
    RollbackCompleteIsRollback();
    var events := [StackEvent("NestedStack1", "AWS::CloudFormation::Stack", "CREATE_FAILED", None)];
    var nestedEvents := [StackEvent("Role1", "AWS::IAM::Role", "CREATE_FAILED", Some("Insufficient permissions"))];
    var api := FixedApi("ROLLBACK_COMPLETE", map["web-app" := events, "NestedStack1" := nestedEvents]);
    assert api.describeStackEvents("web-app") == Success(events);
    assert api.describeStackEvents("NestedStack1") == Success(nestedEvents);
    assert IsFirstSignal(events, 0);
    assert IsFirstSignal(nestedEvents, 0);
    NestedTriggerReport(["cf.py", "web-app"], api, 0, "NestedStack1", 0);
  }

  /** A rollback with an unreadable history names no resource. */
  lemma UnreadableHistory()
    ensures var obj := Render(Main(["cf.py", "web-app"], FixedApi("ROLLBACK_COMPLETE", map[])).outcome);
      "RollbackTrigger" in obj && obj["RollbackTrigger"] == JString(NoSpecificResource)
  {
    RollbackCompleteIsRollback();
    UnidentifiedTriggerReport(["cf.py", "web-app"], FixedApi("ROLLBACK_COMPLETE", map[]));
  }

  /** Calling with no stack name is a usage error with exit status 1. */
  lemma MissingArgument()
    ensures var run := Main(["cf.py"], FixedApi("CREATE_COMPLETE", map[]));
      Render(run.outcome) == map["error" := JString(UsageMessage)] && ExitCode(run.outcome) == 1
  {
  }
}
