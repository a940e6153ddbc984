/** Properties of a whole invocation that relate the inputs, the printed
    object and the remote reads issued. */
module DiagnosisProperties {
  import opened Wrappers
  import opened Strings
  import opened CloudFormation
  import opened Locator
  import opened NestedResolver
  import opened Diagnosis
  import opened Output

  /** A failed or empty status lookup prints only "error" and "reason",
      exits with 1, and issues no further read. */
  lemma StatusFailureReport(argv: seq<string>, api: Api)
    requires |argv| == 2 && !StatusObtained(api, argv[1])
    ensures var run := Main(argv, api);
      && Render(run.outcome).Keys == {"error", "reason"}
      && Render(run.outcome)["error"] == JString(StatusFailureMessage)
      && Render(run.outcome)["reason"] == JString(match api.describeStacks(argv[1])
                                                  case Failure(m) => m
                                                  case Success(d) => d.stackStatusReason.GetOr(""))
      && ExitCode(run.outcome) == 1
      && run.calls == [DescribeStacks(argv[1])]
  {
  }

  /** A status without the rollback marker prints exactly the stack name and
      status, reads only the status, and does not depend on any history. */
  lemma HealthyStackReport(argv: seq<string>, api: Api, other: Api)
    requires |argv| == 2 && StatusObtained(api, argv[1])
    requires !HasSubstring(api.describeStacks(argv[1]).value.stackStatus, RollbackMarker)
    requires other.describeStacks(argv[1]) == api.describeStacks(argv[1])
    ensures var run := Main(argv, api);
      && Render(run.outcome) == map["StackName" := JString(argv[1]),
                                    "StackStatus" := JString(api.describeStacks(argv[1]).value.stackStatus)]
      && ExitCode(run.outcome) == 0
      && run.calls == [DescribeStacks(argv[1])]
      && Main(argv, other) == run
  {
  }

  /** A rollback whose history holds no signal, or whose first signal has an
      empty id, prints the fixed text and no nested trigger; a failed history
      query counts as an empty history. */
  lemma UnidentifiedTriggerReport(argv: seq<string>, api: Api)
    requires |argv| == 2 && StatusObtained(api, argv[1])
    requires HasSubstring(api.describeStacks(argv[1]).value.stackStatus, RollbackMarker)
    requires var q := api.describeStackEvents(argv[1]);
      q.Failure? || NoSignal(q.value) || exists i :: IsFirstSignal(q.value, i) && q.value[i].logicalResourceId == ""
    ensures var obj := Render(Main(argv, api).outcome);
      && "RollbackTrigger" in obj && obj["RollbackTrigger"] == JString(NoSpecificResource)
      && "NestedRollbackTrigger" !in obj
  {
  }

  /** A failed primary history query and an empty history give the same run. */
  lemma HistoryFailureLikeEmpty(argv: seq<string>, failing: Api, empty: Api, msg: string)
    requires |argv| == 2
    requires failing.describeStacks(argv[1]) == empty.describeStacks(argv[1])
    requires failing.describeStackEvents(argv[1]) == Failure(msg)
    requires empty.describeStackEvents(argv[1]) == Success([])
    ensures Main(argv, failing) == Main(argv, empty)
  {
    assert GetStackEvents(failing, argv[1]) == GetStackEvents(empty, argv[1]);
  }

  /** A located trigger with a non-empty id is printed with the first signal
      event's id, reason and type. */
  lemma IdentifiedTriggerReport(argv: seq<string>, api: Api, i: int)
    requires |argv| == 2 && StatusObtained(api, argv[1])
    requires HasSubstring(api.describeStacks(argv[1]).value.stackStatus, RollbackMarker)
    requires api.describeStackEvents(argv[1]).Success?
    requires var events := api.describeStackEvents(argv[1]).value;
      IsFirstSignal(events, i) && events[i].logicalResourceId != ""
    ensures var e := api.describeStackEvents(argv[1]).value[i];
      var obj := Render(Main(argv, api).outcome);
      && "RollbackTrigger" in obj
      && obj["RollbackTrigger"] == JObject(map["ResourceId" := e.logicalResourceId,
                                               "ErrorMessage" := ReasonOf(e),
                                               "ResourceType" := e.resourceType])
  {
    LocatedTrigger(api, argv[1], i);
  }

  /** When the primary trigger is a nested stack, the nested stack named by
      the trigger's id is read and its first signal event, whatever its own
      type, is printed as the nested trigger; no deeper stack is read. */
  lemma NestedTriggerReport(argv: seq<string>, api: Api, i: int, nestedName: string, j: int)
    requires |argv| == 2 && StatusObtained(api, argv[1])
    requires HasSubstring(api.describeStacks(argv[1]).value.stackStatus, RollbackMarker)
    requires api.describeStackEvents(argv[1]).Success?
    requires var events := api.describeStackEvents(argv[1]).value;
      IsFirstSignal(events, i) && nestedName != "" &&
      events[i].logicalResourceId == nestedName && events[i].resourceType == NestedStackType
    requires api.describeStackEvents(nestedName).Success?
    requires var nestedEvents := api.describeStackEvents(nestedName).value;
      IsFirstSignal(nestedEvents, j) && nestedEvents[j].logicalResourceId != ""
    ensures var e := api.describeStackEvents(nestedName).value[j];
      var run := Main(argv, api);
      var obj := Render(run.outcome);
      && "NestedRollbackTrigger" in obj
      && obj["NestedRollbackTrigger"] == JObject(map["ResourceId" := e.logicalResourceId,
                                                     "ErrorMessage" := ReasonOf(e)])
      && run.calls == [DescribeStacks(argv[1]), DescribeStackEvents(argv[1]), DescribeStackEvents(nestedName)]
  {
    LocatedTrigger(api, argv[1], i);
    var f := FindRollbackFindings(api, argv[1]);
    var nestedEvents := api.describeStackEvents(nestedName).value;
    var k :| IsFirstSignal(nestedEvents, k) &&
      f.nested.value == NestedTriggerField(nestedEvents[k].logicalResourceId, ReasonOf(nestedEvents[k]));
    FirstSignalUnique(nestedEvents, j, k);
  }

  /** A failed nested query is read but leaves no trace in the printed
      object: its message has no id and is dropped (cf.py:37, 71). */
  lemma NestedFailureDropped(argv: seq<string>, api: Api, i: int, nestedName: string, msg: string)
    requires |argv| == 2 && StatusObtained(api, argv[1])
    requires HasSubstring(api.describeStacks(argv[1]).value.stackStatus, RollbackMarker)
    requires api.describeStackEvents(argv[1]).Success?
    requires var events := api.describeStackEvents(argv[1]).value;
      IsFirstSignal(events, i) && nestedName != "" &&
      events[i].logicalResourceId == nestedName && events[i].resourceType == NestedStackType
    requires api.describeStackEvents(nestedName) == Failure(msg)
    ensures var run := Main(argv, api);
      && "NestedRollbackTrigger" !in Render(run.outcome)
      && run.calls == [DescribeStacks(argv[1]), DescribeStackEvents(argv[1]), DescribeStackEvents(nestedName)]
      && GetNestedStackDetails(api, nestedName) == NestedDetails(None, Some(NestedFailurePrefix + msg))
  {
    LocatedTrigger(api, argv[1], i);
  }

  /** A first signal at `i` with a non-empty id is the trigger the
      rollback findings report. */
  lemma LocatedTrigger(api: Api, stackName: string, i: int)
    requires api.describeStackEvents(stackName).Success?
    requires var events := api.describeStackEvents(stackName).value;
      IsFirstSignal(events, i) && events[i].logicalResourceId != ""
    ensures var e := api.describeStackEvents(stackName).value[i];
      FindRollbackFindings(api, stackName).trigger == Identified(e.logicalResourceId, ReasonOf(e), e.resourceType)
  {
    var events := api.describeStackEvents(stackName).value;
    var f := FindRollbackFindings(api, stackName);
    assert f.trigger.Identified? by {
      if f.trigger.Unidentified? {
        var k :| IsFirstSignal(events, k) && events[k].logicalResourceId == "";
        FirstSignalUnique(events, i, k);
      }
    }
    var k :| IsFirstSignal(events, k) &&
      f.trigger == Identified(events[k].logicalResourceId, ReasonOf(events[k]), events[k].resourceType);
    FirstSignalUnique(events, i, k);
  }

  /** A nested trigger is printed only under a primary trigger whose type is
      the nested stack type. */
  lemma NestedOnlyUnderNestedStack(argv: seq<string>, api: Api)
    requires |argv| == 2
    ensures var obj := Render(Main(argv, api).outcome);
      "NestedRollbackTrigger" in obj ==>
        && "RollbackTrigger" in obj && obj["RollbackTrigger"].JObject?
        && "ResourceType" in obj["RollbackTrigger"].members
        && obj["RollbackTrigger"].members["ResourceType"] == NestedStackType
  {
  }
}
