/** The data the tool reads from the CloudFormation control plane, and the two
    read-through adapters around it (cf.py:6-21). The remote API itself is an
    input: a pair of total functions from a stack name to either an answer or
    the message of the exception the call raised. */
module CloudFormation {
  import opened Wrappers

  /** One entry of a stack's event history. The status reason is the only
      key the source reads with a default; the others it indexes directly. */
  datatype StackEvent = StackEvent(
    logicalResourceId: string,
    resourceType: string,
    resourceStatus: string,
    resourceStatusReason: Option<string>)

  /** The first stack of a `describe_stacks` answer. */
  datatype StackDescription = StackDescription(
    stackStatus: string,
    stackStatusReason: Option<string>)

  /** The remote API as one invocation sees it. Every way a query can fail
      (unknown stack, missing permission, network error, an empty `Stacks`
      list) collapses into `Failure` with the exception's text. */
  datatype Api = Api(
    describeStacks: string -> Result<StackDescription, string>,
    describeStackEvents: string -> Result<seq<StackEvent>, string>)

  /** What `get_stack_status` hands back: a status, or `None` together with
      the error text. */
  datatype StatusReply = StatusReply(status: Option<string>, reason: string)

  /** Status lookup: a failed query yields no status and the failure message;
      a successful one yields the status and its reason, `""` when absent. */
  function GetStackStatus(api: Api, stackName: string): StatusReply {
    match api.describeStacks(stackName)
    case Success(d) => StatusReply(Some(d.stackStatus), d.stackStatusReason.GetOr(""))
    case Failure(msg) => StatusReply(None, msg)
  }

  /** History lookup: a failed query degrades to the empty history. */
  function GetStackEvents(api: Api, stackName: string): seq<StackEvent> {
    match api.describeStackEvents(stackName)
    case Success(events) => events
    case Failure(_) => []
  }
}
