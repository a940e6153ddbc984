/** The orchestrator and report assembler (`main`, cf.py:40-80): the status
    guard, the rollback guard, the primary trigger, one level of nested
    resolution, and the object that is finally printed. */
module Diagnosis {
  import opened Wrappers
  import opened Strings
  import opened CloudFormation
  import opened Locator
  import opened NestedResolver

  const UsageMessage: string := "Usage: python cloudformation_status_checker.py <stack_name>"
  const StatusFailureMessage: string := "Failed to retrieve stack status"
  /** Substring whose presence in the status marks a rollback. */
  const RollbackMarker: string := "ROLLBACK"
  /** Resource type of a nested stack. */
  const NestedStackType: string := "AWS::CloudFormation::Stack"
  const NoSpecificResource: string := "No specific resource identified"

  /** Python truthiness of an optional string: neither `None` nor `""`. */
  predicate Truthy(s: Option<string>) {
    s.Some? && s.value != ""
  }

  /** The value under "RollbackTrigger": a record, or the fixed text when no
      resource with a truthy id was located. */
  datatype RollbackTriggerField =
    | Unidentified
    | Identified(resourceId: string, errorMessage: string, resourceType: string)

  /** The value under "NestedRollbackTrigger". */
  datatype NestedTriggerField = NestedTriggerField(resourceId: string, errorMessage: string)

  datatype Report = Report(
    stackName: string,
    stackStatus: string,
    rollbackTrigger: Option<RollbackTriggerField>,
    nestedTrigger: Option<NestedTriggerField>)

  /** The three ways an invocation ends. */
  datatype Outcome =
    | UsageError
    | StatusUnavailable(reason: string)
    | Diagnosed(report: Report)

  /** A remote read, recorded with the stack name it was issued for. */
  datatype Call = DescribeStacks(stackName: string) | DescribeStackEvents(stackName: string)

  datatype Run = Run(outcome: Outcome, calls: seq<Call>)

  /** The process exit status of an outcome. */
  function ExitCode(o: Outcome): int {
    if o.Diagnosed? then 0 else 1
  }

  /** The status query answered with a non-empty status. */
  ghost predicate StatusObtained(api: Api, stackName: string) {
    api.describeStacks(stackName).Success? && api.describeStacks(stackName).value.stackStatus != ""
  }

  /** The primary history as the locator sees it: empty when the query failed. */
  ghost function PrimaryHistory(api: Api, stackName: string): seq<StackEvent> {
    if api.describeStackEvents(stackName).Success? then api.describeStackEvents(stackName).value else []
  }

  /** The rollback part of the report (cf.py:58-77) together with the name of
      the nested stack queried, if any. */
  datatype RollbackFindings = RollbackFindings(
    trigger: RollbackTriggerField,
    nested: Option<NestedTriggerField>,
    nestedLookup: Option<string>)

  /** Locates the primary trigger in the history of `stackName` and, when it
      is a nested stack, resolves one level further.
      - No signal in the (possibly failed, hence empty) history, or a first
        signal with an empty id, gives the fixed text and nothing nested.
      - Otherwise the trigger is the first signal event's id, reason and type.
      - The nested stack is queried exactly when that type is the nested stack
        type, under the trigger's id, and a nested trigger is reported exactly
        when that query succeeds and its first signal has a non-empty id. */
  function FindRollbackFindings(api: Api, stackName: string): (f: RollbackFindings)
    ensures var events := PrimaryHistory(api, stackName);
      && (f.trigger.Unidentified? <==>
            (NoSignal(events) || exists i :: IsFirstSignal(events, i) && events[i].logicalResourceId == ""))
      && (f.trigger.Identified? ==>
            f.trigger.resourceId != "" &&
            exists i :: IsFirstSignal(events, i) &&
              f.trigger == Identified(events[i].logicalResourceId, ReasonOf(events[i]), events[i].resourceType))
    ensures f.nestedLookup.Some? <==> f.trigger.Identified? && f.trigger.resourceType == NestedStackType
    ensures f.nestedLookup.Some? ==> f.nestedLookup.value == f.trigger.resourceId
    ensures f.nested.Some? <==>
              f.nestedLookup.Some? &&
              var q := api.describeStackEvents(f.nestedLookup.value);
              q.Success? && exists j :: IsFirstSignal(q.value, j) && q.value[j].logicalResourceId != ""
    ensures f.nested.Some? ==>
              var nestedEvents := api.describeStackEvents(f.nestedLookup.value).value;
              exists j :: IsFirstSignal(nestedEvents, j) &&
                f.nested.value == NestedTriggerField(nestedEvents[j].logicalResourceId, ReasonOf(nestedEvents[j]))
  {
    var events := GetStackEvents(api, stackName);
    assert events == PrimaryHistory(api, stackName);
    match FindRollbackTrigger(events)
    case None =>
      RollbackFindings(Unidentified, None, None)
    case Some(t) =>
      assert forall k :: IsFirstSignal(events, k) ==> t == TriggerOf(events[k]) by {
        forall k | IsFirstSignal(events, k) {
          FirstSignalWins(events, k);
        }
      }
      if t.resourceId == "" then
        RollbackFindings(Unidentified, None, None)
      else
        var trigger := Identified(t.resourceId, t.reason, t.resourceType);
        if t.resourceType == NestedStackType then
          var details := GetNestedStackDetails(api, t.resourceId);
          var q := api.describeStackEvents(t.resourceId);
          assert q.Success? && !NoSignal(q.value) ==> exists j :: IsFirstSignal(q.value, j) by {
            if q.Success? && !NoSignal(q.value) {
              FirstSignalExists(q.value);
            }
          }
          RollbackFindings(trigger, NestedField(details), Some(t.resourceId))
        else
          RollbackFindings(trigger, None, None)
  }

  /** The nested record added to the report: only for a truthy nested id
      (cf.py:71); a failure message with no id is dropped. */
  function NestedField(details: NestedDetails): Option<NestedTriggerField>
    requires details.resourceId.Some? ==> details.errorMessage.Some?
  {
    if Truthy(details.resourceId) then
      Some(NestedTriggerField(details.resourceId.value, details.errorMessage.value))
    else
      None
  }

  /** The whole invocation on arguments `argv` (the program name first)
      against the remote API `api`. */
  function Main(argv: seq<string>, api: Api): (run: Run)
    ensures run.outcome.UsageError? <==> |argv| != 2
    ensures |argv| != 2 ==> run.calls == []
    ensures |argv| == 2 ==> |run.calls| >= 1 && run.calls[0] == DescribeStacks(argv[1])
    ensures ExitCode(run.outcome) == 1 <==> |argv| != 2 || !StatusObtained(api, argv[1])
    ensures run.outcome.StatusUnavailable? ==>
              run.calls == [DescribeStacks(argv[1])] &&
              run.outcome.reason == match api.describeStacks(argv[1])
                                    case Failure(msg) => msg
                                    case Success(d) => d.stackStatusReason.GetOr("")
    ensures run.outcome.Diagnosed? ==>
              var report := run.outcome.report;
              var status := api.describeStacks(argv[1]).value.stackStatus;
              && report.stackName == argv[1]
              && report.stackStatus == status
              && (report.rollbackTrigger.Some? <==> HasSubstring(status, RollbackMarker))
              && (|run.calls| >= 2 <==> HasSubstring(status, RollbackMarker))
              && (report.nestedTrigger.Some? ==> report.rollbackTrigger.Some?)
    ensures |run.calls| <= 3
    ensures forall k :: 1 <= k < |run.calls| ==> run.calls[k].DescribeStackEvents?
  {
    if |argv| != 2 then
      Run(UsageError, [])
    else
      var stackName := argv[1];
      var reply := GetStackStatus(api, stackName);
      if !Truthy(reply.status) then
        Run(StatusUnavailable(reply.reason), [DescribeStacks(stackName)])
      else
        var status := reply.status.value;
        if !Contains(status, RollbackMarker) then
          Run(Diagnosed(Report(stackName, status, None, None)), [DescribeStacks(stackName)])
        else
          var f := FindRollbackFindings(api, stackName);
          var calls := [DescribeStacks(stackName), DescribeStackEvents(stackName)]
            + (if f.nestedLookup.Some? then [DescribeStackEvents(f.nestedLookup.value)] else []);
          Run(Diagnosed(Report(stackName, status, Some(f.trigger), f.nested)), calls)
  }
}
