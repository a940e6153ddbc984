/** The object `main` prints (cf.py:42, 51, 54-77), as a map from key to
    value; field order and indentation are not modelled. */
module Output {
  import opened Wrappers
  import opened Diagnosis

  /** A printed value: a plain string or a flat object of strings. */
  datatype Json = JString(text: string) | JObject(members: map<string, string>)

  function TriggerJson(t: RollbackTriggerField): Json {
    match t
    case Unidentified => JString(NoSpecificResource)
    case Identified(id, msg, ty) => JObject(map["ResourceId" := id, "ErrorMessage" := msg, "ResourceType" := ty])
  }

  function NestedJson(n: NestedTriggerField): Json {
    JObject(map["ResourceId" := n.resourceId, "ErrorMessage" := n.errorMessage])
  }

  /** The printed object. The two failure outcomes carry an "error" key and
      no stack keys; only a lookup failure carries a "reason"; a report always
      names the stack and its status and carries the trigger keys only when
      the report holds them. */
  function Render(o: Outcome): (obj: map<string, Json>)
    ensures ("error" in obj) <==> !o.Diagnosed?
    ensures ("reason" in obj) <==> o.StatusUnavailable?
    ensures o.UsageError? ==> obj.Keys == {"error"} && obj["error"] == JString(UsageMessage)
    ensures o.StatusUnavailable? ==>
              obj.Keys == {"error", "reason"} &&
              obj["error"] == JString(StatusFailureMessage) && obj["reason"] == JString(o.reason)
    ensures o.Diagnosed? ==>
              && "StackName" in obj && obj["StackName"] == JString(o.report.stackName)
              && "StackStatus" in obj && obj["StackStatus"] == JString(o.report.stackStatus)
              && (("RollbackTrigger" in obj) <==> o.report.rollbackTrigger.Some?)
              && (("NestedRollbackTrigger" in obj) <==> o.report.nestedTrigger.Some?)
              && obj.Keys <= {"StackName", "StackStatus", "RollbackTrigger", "NestedRollbackTrigger"}
  {
    match o
    case UsageError =>
      map["error" := JString(UsageMessage)]
    case StatusUnavailable(reason) =>
      map["error" := JString(StatusFailureMessage), "reason" := JString(reason)]
    case Diagnosed(r) =>
      var base := map["StackName" := JString(r.stackName), "StackStatus" := JString(r.stackStatus)];
      var withTrigger := if r.rollbackTrigger.Some? then base["RollbackTrigger" := TriggerJson(r.rollbackTrigger.value)] else base;
      if r.nestedTrigger.Some? then withTrigger["NestedRollbackTrigger" := NestedJson(r.nestedTrigger.value)] else withTrigger
  }

  function ReadTrigger(j: Json): Option<RollbackTriggerField> {
    match j
    case JString(s) => if s == NoSpecificResource then Some(Unidentified) else None
    case JObject(m) =>
      if "ResourceId" in m && "ErrorMessage" in m && "ResourceType" in m then
        Some(Identified(m["ResourceId"], m["ErrorMessage"], m["ResourceType"]))
      else
        None
  }

  function ReadNested(j: Json): Option<NestedTriggerField> {
    match j
    case JString(_) => None
    case JObject(m) =>
      if "ResourceId" in m && "ErrorMessage" in m then Some(NestedTriggerField(m["ResourceId"], m["ErrorMessage"])) else None
  }

  function ReadString(j: Json): Option<string> {
    if j.JString? then Some(j.text) else None
  }

  /** Reads a printed object back into an outcome; `None` for objects no
      outcome prints. */
  function ReadBack(obj: map<string, Json>): Option<Outcome> {
    if "StackName" in obj && "StackStatus" in obj then
      var name := ReadString(obj["StackName"]);
      var status := ReadString(obj["StackStatus"]);
      var trigger := if "RollbackTrigger" in obj then ReadTrigger(obj["RollbackTrigger"]) else None;
      var nested := if "NestedRollbackTrigger" in obj then ReadNested(obj["NestedRollbackTrigger"]) else None;
      if name.None? || status.None? then None
      else if "RollbackTrigger" in obj && trigger.None? then None
      else if "NestedRollbackTrigger" in obj && nested.None? then None
      else Some(Diagnosed(Report(name.value, status.value, trigger, nested)))
    else if "reason" in obj then
      var reason := ReadString(obj["reason"]);
      if reason.Some? then Some(StatusUnavailable(reason.value)) else None
    else if "error" in obj && obj["error"] == JString(UsageMessage) then
      Some(UsageError)
    else
      None
  }

  /** The printed object loses nothing: every outcome is read back from it. */
  lemma RenderReadBack(o: Outcome)
    ensures ReadBack(Render(o)) == Some(o)
  {
    match o
    case UsageError =>
    case StatusUnavailable(_) =>
    case Diagnosed(r) =>
      var obj := Render(o);
      if r.rollbackTrigger.Some? {
        match r.rollbackTrigger.value
        case Unidentified =>
        case Identified(id, msg, ty) =>
          var m := map["ResourceId" := id, "ErrorMessage" := msg, "ResourceType" := ty];
          assert ReadTrigger(JObject(m)) == Some(Identified(id, msg, ty));
      }
  }
}
