/** The nested stack resolver (`get_nested_stack_details`, cf.py:29-38): the
    same first-match scan, run over the history of the nested stack and
    projected to id and reason; a failed query becomes a message. */
module NestedResolver {
  import opened Wrappers
  import opened CloudFormation
  import opened Locator

  /** Prefix of the message recorded when the nested history query fails. */
  const NestedFailurePrefix: string := "Failed to get nested stack details: "

  /** The `(id, message)` pair the resolver returns; either half may be
      `None`, as in the source. */
  datatype NestedDetails = NestedDetails(resourceId: Option<string>, errorMessage: Option<string>)

  /** The scan loop of the resolver, written out on its own as the source
      does (cf.py:33-35). */
  function ScanNested(events: seq<StackEvent>): NestedDetails {
    if |events| == 0 then
      NestedDetails(None, None)
    else if IsRollbackSignal(events[0]) then
      NestedDetails(Some(events[0].logicalResourceId), Some(ReasonOf(events[0])))
    else
      ScanNested(events[1..])
  }

  /** What the locator's result looks like once the resource type is dropped. */
  function ProjectTrigger(t: Option<Trigger>): NestedDetails {
    match t
    case Some(tr) => NestedDetails(Some(tr.resourceId), Some(tr.reason))
    case None => NestedDetails(None, None)
  }

  /** The nested scan uses the same signal and the same reason fallback as
      the locator: on every history it is the locator's result without the
      resource type. */
  lemma {:induction false} ScanNestedIsProjectedLocator(events: seq<StackEvent>)
    ensures ScanNested(events) == ProjectTrigger(FindRollbackTrigger(events))
    decreases |events|
  {
    if |events| > 0 && !IsRollbackSignal(events[0]) {
      ScanNestedIsProjectedLocator(events[1..]);
    }
  }

  /** The resolver for the nested stack `stackName`. A failed query gives no
      id and the prefixed failure message; a successful one gives the first
      signal event's id and reason, or nothing at all when there is none. */
  function GetNestedStackDetails(api: Api, stackName: string): (r: NestedDetails)
    ensures api.describeStackEvents(stackName).Failure? ==>
              r == NestedDetails(None, Some(NestedFailurePrefix + api.describeStackEvents(stackName).error))
    ensures api.describeStackEvents(stackName).Success? ==>
              var events := api.describeStackEvents(stackName).value;
              && (r.resourceId.None? <==> NoSignal(events))
              && (r.resourceId.None? ==> r.errorMessage.None?)
              && (forall i :: IsFirstSignal(events, i) ==>
                    r == NestedDetails(Some(events[i].logicalResourceId), Some(ReasonOf(events[i]))))
    ensures r.resourceId.Some? ==> r.errorMessage.Some?
  {
    match api.describeStackEvents(stackName)
    case Success(events) =>
      ScanNestedIsProjectedLocator(events);
      assert forall i :: IsFirstSignal(events, i) ==> FindRollbackTrigger(events) == Some(TriggerOf(events[i])) by {
        forall i | IsFirstSignal(events, i) {
          FirstSignalWins(events, i);
        }
      }
      ScanNested(events)
    case Failure(msg) =>
      NestedDetails(None, Some(NestedFailurePrefix + msg))
  }

  /** A nested signal event without a reason is reported with the same
      fallback text as in the primary scan. */
  lemma NestedMissingReasonFallback(api: Api, stackName: string, i: int)
    requires api.describeStackEvents(stackName).Success?
    requires IsFirstSignal(api.describeStackEvents(stackName).value, i)
    requires api.describeStackEvents(stackName).value[i].resourceStatusReason.None?
    ensures GetNestedStackDetails(api, stackName).errorMessage == Some(NoReasonProvided)
  {
  }
}
