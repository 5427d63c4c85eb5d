/** The remediation actions that travel between the remediator and the safety agent.
    The strings the agents compare are enumerated; every other string is an `Other...` value. */
module Actions {
  datatype Option<+T> = None | Some(value: T)

  datatype Service =
    | ApiGateway | UserSvc | AuthSvc | OrderSvc | PaymentSvc | ProductSvc | SearchSvc
    | NotificationWorker | InventoryWorker | AnalyticsWorker
    | Redis | PostgresOrders | PostgresPayments | Nats | Elasticsearch
    | PostgresAgents
    | OtherService(name: string)

  datatype Kind = ContainerRestart | CircuitBreaker | SqlExecute | ContainerScale | OtherKind(name: string)

  datatype Risk = Unknown | Low | Medium | High | Critical | OtherRisk(name: string)

  /** A parameter read with `int(...)`: missing, an integer, or text that makes the conversion raise. */
  datatype IntParam = Absent | Parsed(n: int) | Unparsable

  /** `kind` and `declared` are `None` if the key is missing. A missing and an empty target are both falsy where the
      agents look, so both are `None`. */
  datatype Action =
    | EmptyAction
    | Action(kind: Option<Kind>, declared: Option<Risk>, approvalRequired: bool,
             target: Option<Service>, targetDb: Option<Service>,
             replicas: IntParam, maxReplicas: IntParam, rollback: Option<Action>)
  {
    /** The service that the action is about: its target, or the database if it names no target. */
    ghost predicate IsAbout(service: Service) {
      Action? && (target == Some(service) || (target == None && targetDb == Some(service)))
    }

    function Kind(): Option<Kind> {
      if EmptyAction? then None else kind
    }

    function DeclaredRisk(): Option<Risk> {
      if EmptyAction? then None else declared
    }

    /** `params.get("target") or params.get("target_db")` */
    function Target(): Option<Service> {
      if EmptyAction? then None else if target.Some? then target else targetDb
    }

    /** What is executed to take the action back; an empty definition counts as none. */
    function Undo(): Option<Action> {
      if EmptyAction? || rollback == Some(EmptyAction) then None else rollback
    }
  }
}
