/** The rollback trigger locator (`find_rollback_trigger`, cf.py:23-27): the
    first event in iteration order whose status is a rollback signal. */
module Locator {
  import opened Wrappers
  import opened CloudFormation

  const CreateFailed: string := "CREATE_FAILED"
  const RollbackInProgress: string := "ROLLBACK_IN_PROGRESS"

  /** Reason reported for a matching event that carries none. */
  const NoReasonProvided: string := "No reason provided"

  /** The failure signature both scans look for. */
  predicate IsRollbackSignal(e: StackEvent) {
    e.resourceStatus == CreateFailed || e.resourceStatus == RollbackInProgress
  }

  /** The event's status reason, or the fallback text when it has none. */
  function ReasonOf(e: StackEvent): string {
    e.resourceStatusReason.GetOr(NoReasonProvided)
  }

  /** The `(id, reason, type)` triple the locator returns; `None` stands for
      the source's all-`None` triple. */
  datatype Trigger = Trigger(resourceId: string, reason: string, resourceType: string)

  function TriggerOf(e: StackEvent): Trigger {
    Trigger(e.logicalResourceId, ReasonOf(e), e.resourceType)
  }

  /** No event of `events` is a rollback signal. */
  ghost predicate NoSignal(events: seq<StackEvent>) {
    forall j :: 0 <= j < |events| ==> !IsRollbackSignal(events[j])
  }

  /** `i` is the position of the first rollback signal in `events`. */
  ghost predicate IsFirstSignal(events: seq<StackEvent>, i: int) {
    0 <= i < |events| && IsRollbackSignal(events[i]) && NoSignal(events[..i])
  }

  /** The locator: no result exactly when no event is a signal; otherwise the
      projection of the first signal event. */
  function FindRollbackTrigger(events: seq<StackEvent>): (r: Option<Trigger>)
    ensures r.None? <==> NoSignal(events)
    ensures r.Some? ==> exists i :: IsFirstSignal(events, i) && r.value == TriggerOf(events[i])
  {
    if |events| == 0 then
      None
    else if IsRollbackSignal(events[0]) then
      assert IsFirstSignal(events, 0);
      Some(TriggerOf(events[0]))
    else
      var rest := FindRollbackTrigger(events[1..]);
      assert NoSignal(events[1..]) ==> NoSignal(events) by {
        assert forall k :: 1 <= k < |events| ==> events[k] == events[1..][k - 1];
      }
      assert forall i :: IsFirstSignal(events[1..], i) ==> IsFirstSignal(events, i + 1) by {
        forall i | IsFirstSignal(events[1..], i) {
          ShiftFirstSignal(events, i);
        }
      }
      rest
  }

  /** A first signal of the tail, behind a head that is no signal, is the
      first signal of the whole history. */
  lemma ShiftFirstSignal(events: seq<StackEvent>, i: int)
    requires |events| > 0 && !IsRollbackSignal(events[0])
    requires IsFirstSignal(events[1..], i)
    ensures IsFirstSignal(events, i + 1)
  {
    assert events[..i + 1] == [events[0]] + events[1..][..i];
  }

  /** A history with some signal has a first one. */
  lemma FirstSignalExists(events: seq<StackEvent>)
    requires !NoSignal(events)
    ensures exists i :: IsFirstSignal(events, i)
  {
    var r := FindRollbackTrigger(events);
  }

  /** The first signal is unique. */
  lemma FirstSignalUnique(events: seq<StackEvent>, i: int, j: int)
    requires IsFirstSignal(events, i) && IsFirstSignal(events, j)
    ensures i == j
  {
  }

  /** Converse of the locator's contract: whenever position `i` holds the
      first signal, the locator returns exactly that event's projection. */
  lemma FirstSignalWins(events: seq<StackEvent>, i: int)
    requires IsFirstSignal(events, i)
    ensures FindRollbackTrigger(events) == Some(TriggerOf(events[i]))
  {
    assert !NoSignal(events);
    var j :| IsFirstSignal(events, j) && FindRollbackTrigger(events).value == TriggerOf(events[j]);
    FirstSignalUnique(events, i, j);
  }

  /** A matching event without a reason is reported with the fallback text. */
  lemma MissingReasonFallback(events: seq<StackEvent>, i: int)
    requires IsFirstSignal(events, i) && events[i].resourceStatusReason.None?
    ensures FindRollbackTrigger(events)
         == Some(Trigger(events[i].logicalResourceId, NoReasonProvided, events[i].resourceType))
  {
    FirstSignalWins(events, i);
  }

  /** Scanning a concatenation: the first part decides if it holds a signal,
      otherwise the second part does. */
  lemma {:induction false} FindConcat(a: seq<StackEvent>, b: seq<StackEvent>)
    ensures FindRollbackTrigger(a + b)
         == (if FindRollbackTrigger(a).Some? then FindRollbackTrigger(a) else FindRollbackTrigger(b))
    decreases |a|
  {
    if |a| == 0 {
      assert a + b == b;
    } else {
      assert (a + b)[0] == a[0];
      assert (a + b)[1..] == a[1..] + b;
      if !IsRollbackSignal(a[0]) {
        FindConcat(a[1..], b);
      }
    }
  }

  /** Events after the first match never change the result: the history cut
      just after the match, followed by anything at all, gives the same
      trigger as the original history. */
  lemma SuffixIrrelevant(events: seq<StackEvent>, i: int, suffix: seq<StackEvent>)
    requires IsFirstSignal(events, i)
    ensures FindRollbackTrigger(events[..i + 1] + suffix) == FindRollbackTrigger(events)
  {
    assert events[..i + 1][..i] == events[..i];
    assert IsFirstSignal(events[..i + 1], i);
    FirstSignalWins(events[..i + 1], i);
    FindConcat(events[..i + 1], suffix);
    FirstSignalWins(events, i);
  }

  /** Events without a signal placed in front of a history change nothing. */
  lemma NonSignalPrefixIrrelevant(prefix: seq<StackEvent>, events: seq<StackEvent>)
    requires NoSignal(prefix)
    ensures FindRollbackTrigger(prefix + events) == FindRollbackTrigger(events)
  {
    FindConcat(prefix, events);
  }
}
