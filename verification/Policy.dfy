/** The policy engine: fixed rules that decide whether an action may run without a human. */
module Policy {
  import opened Actions

  datatype Rule = EmptyPayload | ExplicitApproval | HighRisk | BannedTarget | ReplicaLimit
  datatype PolicyVerdict = Passed | Refused(rule: Rule) | Raises

  const SQL_BANNED: set<Service> := {PostgresOrders, PostgresPayments, PostgresAgents}
  const RESTART_BANNED: set<Service> := {PostgresAgents}

  predicate Banned(kind: Kind, target: Service) {
    match kind
    case SqlExecute => target in SQL_BANNED
    case ContainerRestart => target in RESTART_BANNED
    case _ => false
  }

  function ReadInt(p: IntParam, default: int): Option<int> {
    match p
    case Absent => Some(default)
    case Parsed(n) => Some(n)
    case Unparsable => None
  }

  function Evaluate(action: Action): PolicyVerdict {
    if action.EmptyAction? then Refused(EmptyPayload)
    else if action.approvalRequired then Refused(ExplicitApproval)
    else if action.declared == Some(High) then Refused(HighRisk)
    else if action.kind.Some? && action.Target().Some? && Banned(action.kind.value, action.Target().value) then
      Refused(BannedTarget)
    else if action.kind == Some(ContainerScale) then
      match (ReadInt(action.replicas, 0), ReadInt(action.maxReplicas, 5))
      case (Some(wanted), Some(limit)) => if wanted > limit then Refused(ReplicaLimit) else Passed
      case _ => Raises
    else Passed
  }

  // --- The rules one by one ----------------------------------------------------------------------

  ghost predicate Objects(rule: Rule, action: Action) {
    match rule
    case EmptyPayload => action.EmptyAction?
    case ExplicitApproval => action.Action? && action.approvalRequired
    case HighRisk => action.Action? && action.declared == Some(High)
    case BannedTarget =>
      action.Action? &&
      ((action.kind == Some(SqlExecute) &&
        (action.IsAbout(PostgresOrders) || action.IsAbout(PostgresPayments) || action.IsAbout(PostgresAgents)))
       || (action.kind == Some(ContainerRestart) && action.IsAbout(PostgresAgents)))
    case ReplicaLimit =>
      && action.Action? && action.kind == Some(ContainerScale)
      && action.replicas != Unparsable && action.maxReplicas != Unparsable
      && (if action.replicas.Parsed? then action.replicas.n else 0)
         > (if action.maxReplicas.Parsed? then action.maxReplicas.n else 5)
  }

  /** The number of replicas, or their limit, is no number. */
  ghost predicate Unreadable(action: Action) {
    && action.Action? && action.kind == Some(ContainerScale)
    && (action.replicas == Unparsable || action.maxReplicas == Unparsable)
  }

  /** No rule objects, and all of them can be tried. */
  ghost predicate Permitted(action: Action) {
    && !Objects(EmptyPayload, action) && !Objects(ExplicitApproval, action) && !Objects(HighRisk, action)
    && !Objects(BannedTarget, action) && !Objects(ReplicaLimit, action) && !Unreadable(action)
  }

  ghost predicate ObjectsFirst(rule: Rule, action: Action) {
    && Objects(rule, action)
    && (rule != EmptyPayload ==> !Objects(EmptyPayload, action))
    && (rule in {HighRisk, BannedTarget, ReplicaLimit} ==> !Objects(ExplicitApproval, action))
    && (rule in {BannedTarget, ReplicaLimit} ==> !Objects(HighRisk, action))
    && (rule == ReplicaLimit ==> !Objects(BannedTarget, action))
  }

  lemma {:induction false} BannedIff(action: Action)
    requires action.Action?
    ensures Objects(BannedTarget, action)
       <==> action.kind.Some? && action.Target().Some? && Banned(action.kind.value, action.Target().value)
  {}

  lemma {:induction false} ReplicaLimitIff(action: Action)
    requires action.Action? && action.kind == Some(ContainerScale)
    ensures
      var wanted, limit := ReadInt(action.replicas, 0), ReadInt(action.maxReplicas, 5);
      && (Unreadable(action) <==> wanted == None || limit == None)
      && (Objects(ReplicaLimit, action) <==> wanted.Some? && limit.Some? && wanted.value > limit.value)
  {}

  /** A refusal names the first rule that objects. */
  lemma {:induction false} RefusedByTheFirst(action: Action, rule: Rule)
    ensures Evaluate(action) == Refused(rule) <==> ObjectsFirst(rule, action)
  {
    if action.Action? {
      BannedIff(action);
      if action.kind == Some(ContainerScale) {
        ReplicaLimitIff(action);
      }
    }
  }

  /** What passes is permitted, whatever order the rules are tried in. */
  lemma {:induction false} PassesExactlyPermitted(action: Action)
    ensures Evaluate(action) == Passed <==> Permitted(action)
  {
    if action.Action? {
      BannedIff(action);
      if action.kind == Some(ContainerScale) {
        ReplicaLimitIff(action);
      }
    }
  }
}
