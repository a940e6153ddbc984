# cfstack-status in Dafny

A model of `cf.py`, a command-line tool that explains why a CloudFormation
stack rolled back. Given a stack name it reads the stack's status; when the
status contains `ROLLBACK` it reads the stack's event history, picks the first
event whose resource status is `CREATE_FAILED` or `ROLLBACK_IN_PROGRESS` as the
rollback trigger and, when that resource is itself a nested stack
(`AWS::CloudFormation::Stack`), reads the nested stack's history and picks its
first such event as well. The result is printed as one JSON object.

The remote CloudFormation API is an input (`CloudFormation.Api`): two total
functions from a stack name to an answer or to the text of the exception the
call raised. `Diagnosis.Main` is then a pure function of the argument vector
and that API; it returns the outcome together with the list of remote reads it
issued, so that "no history is read for a healthy stack" and "at most one
nested level is read" are statements about its result.

Files, leaves first:

- `wrappers.dfy` — `Option` (Python's `None`) and `Result` (a call that raised).
- `strings.dfy` — substring containment, the `'ROLLBACK' in status` test, proved
  equal to "occurs at some position".
- `cloudformation.dfy` — stack events, stack descriptions, the API, and the two
  adapters `GetStackStatus` (cf.py:6-13: failure becomes no status plus the
  message; a missing status reason becomes `""`) and `GetStackEvents`
  (cf.py:15-21: failure becomes the empty history).
- `locator.dfy` — `find_rollback_trigger` and its first-match laws.
- `nested.dfy` — `get_nested_stack_details`: its own copy of the scan, proved
  equal to the locator without the resource type, and the failure message.
- `diagnosis.dfy` — `main`: arity check, status guard (Python truthiness: a
  missing or empty status fails), rollback guard, trigger and nested trigger,
  exit status.
- `output.dfy` — the printed object as a map of keys, with a read-back that
  recovers every outcome from it.
- `properties.dfy` — whole-invocation properties relating inputs, printed keys
  and remote reads.
- `scenarios.dfy` — example invocations as concrete lemmas.

Two behaviours of the source that are easy to miss are stated as lemmas.
`get_nested_stack_details` builds its failure message with a `None` id
(cf.py:37), and `main` keeps a nested record only for a truthy id (cf.py:71),
so the message never reaches the output; `DiagnosisProperties.NestedFailureDropped`
states this. And a first matching event with an empty `LogicalResourceId` stops
the scan (cf.py:24-26) and makes the report say "No specific resource
identified" (cf.py:61, 76-77), even when a later event would have matched with a
non-empty id.

## Model

| member | source | states |
|---|---|---|
| Strings.Contains | cf.py:57 | the rollback guard is true exactly when the marker occurs at some position of the status |
| Locator.FindRollbackTrigger | cf.py:23-27 | no trigger exactly when no event has a rollback signal; otherwise the id, reason (with fallback) and type of the first signal event |
| Locator.FirstSignalWins | cf.py:24-26 | whenever position i holds the first signal, the locator returns that event's projection |
| Locator.MissingReasonFallback | cf.py:26 | a first signal event without a reason is reported with reason exactly "No reason provided" |
| Locator.FindConcat | cf.py:24-27 | scanning a + b gives a's trigger if a has one, else b's |
| Locator.SuffixIrrelevant | cf.py:24-26 | replacing everything after the first match by any events leaves the trigger unchanged |
| Locator.NonSignalPrefixIrrelevant | cf.py:24-25 | events without a signal placed before a history do not change the trigger |
| NestedResolver.ScanNestedIsProjectedLocator | cf.py:33-35 | the nested scan uses the same signal and reason fallback: it is the locator's result without the resource type |
| NestedResolver.GetNestedStackDetails | cf.py:29-38 | a failed nested query gives no id and "Failed to get nested stack details: " plus the message; otherwise the first signal's id and reason, or nothing when no event matches |
| NestedResolver.NestedMissingReasonFallback | cf.py:35 | a nested signal event without a reason is reported with "No reason provided" |
| Diagnosis.FindRollbackFindings | cf.py:58-77 | the fixed text exactly when the (failed-as-empty) history has no signal or its first signal has an empty id; otherwise the first signal's fields; the nested stack is queried exactly for a nested-stack type, under the trigger's id, and reported exactly when its first signal has a non-empty id |
| Diagnosis.Main | cf.py:40-80 | usage error exactly for the wrong arity with no remote read; exit status 1 exactly on wrong arity or a missing or empty status; report names the stack and status; trigger key and history read exactly when the status contains ROLLBACK; at most three reads, all after the first being history reads |
| Output.Render | cf.py:41-80 | failure objects carry "error" and no stack keys, only the lookup failure a "reason"; a report carries StackName and StackStatus and the trigger keys exactly when present |
| Output.RenderReadBack | cf.py:54-77 | the printed object determines the outcome: reading it back gives the outcome that was printed |
| DiagnosisProperties.StatusFailureReport | cf.py:48-52 | a failed or empty status prints exactly "error" and "reason", exits 1 and reads nothing more; the reason is the exception text of a failed query, else the stack's status reason or "" (as `get_stack_status` builds it, cf.py:6-13) |
| DiagnosisProperties.HealthyStackReport | cf.py:54-57 | a status without ROLLBACK prints exactly StackName and StackStatus, exits 0, reads only the status and does not depend on any history |
| DiagnosisProperties.UnidentifiedTriggerReport | cf.py:58-61 | a rollback with a failed or signal-free history, or a first signal with empty id, prints "No specific resource identified" and no nested trigger |
| DiagnosisProperties.HistoryFailureLikeEmpty | cf.py:15-21 | a failed history query and an empty history give the same run |
| DiagnosisProperties.IdentifiedTriggerReport | cf.py:61-66 | a first signal with non-empty id is printed as ResourceId, ErrorMessage, ResourceType of that event |
| DiagnosisProperties.NestedTriggerReport | cf.py:69-75 | a nested-stack trigger leads to a read of the stack named by its id, whose first signal (any type) is printed as the nested trigger; exactly three reads |
| DiagnosisProperties.NestedFailureDropped | cf.py:36-38 | a failed nested query is read, produces the failure message, and leaves no nested key in the output |
| DiagnosisProperties.NestedOnlyUnderNestedStack | cf.py:68-72 | a nested trigger is printed only under a trigger whose type is AWS::CloudFormation::Stack |
| DiagnosisProperties.LocatedTrigger | cf.py:59-66 | a first signal with non-empty id is the trigger the rollback findings report |
| Scenarios.RollbackCompleteIsRollback | cf.py:57 | the status ROLLBACK_COMPLETE passes the rollback guard |
| Scenarios.HealthyStack | cf.py:54-57 | CREATE_COMPLETE for web-app prints only name and status, exit 0 |
| Scenarios.FailedBucket | cf.py:58-66 | a CREATE_FAILED bucket is printed as the rollback trigger |
| Scenarios.FailedNestedStack | cf.py:69-75 | a failed nested stack's own failed role is printed as the nested trigger |
| Scenarios.UnreadableHistory | cf.py:76-77 | ROLLBACK_COMPLETE with an unreadable history prints "No specific resource identified" |
| Scenarios.MissingArgument | cf.py:41-43 | a missing stack name prints the usage error with exit 1 |

## Left out

- boto3 client construction and the `describe_stacks` / `describe_stack_events` requests (cf.py:8-9, 17-18, 30-32): replaced by the `Api` input; a client construction that raises in `get_nested_stack_details` (cf.py:30, outside the `try`) is not modelled.
- JSON serialisation, key order and indentation, `print`, reading `sys.argv` and `sys.exit` (cf.py:41-45, 80): the argument vector is an input and the exit status is `Diagnosis.ExitCode`.
- Events missing `ResourceStatus`, `LogicalResourceId` or `ResourceType`: the source raises `KeyError` (uncaught in the primary scan, caught in the nested one); events here always have these fields and only the reason is optional.
- `Stacks` being empty and other malformed answers to the status query: they raise inside the `try` at cf.py:10 and so are one more cause of `Failure` in `Api.describeStacks`.
