/** Blast radius of an action: how much of the service dependency graph lies upstream of its target. */
module BlastRadius {
  import opened Actions

  /** An edge `(a, b)` says that `a` relies on `b`. */
  datatype Graph = Graph(nodes: set<Service>, edges: set<(Service, Service)>) {
    predicate WellFormed() {
      forall e :: e in edges ==> e.0 in nodes && e.1 in nodes
    }
  }

  datatype BlastInfo = BlastInfo(level: Risk, affected: set<Service>, score: real)

  const OVERRIDES: set<Service> := {PostgresOrders, Nats, Redis}

  /** A directed path with at least one edge. */
  ghost predicate IsPath(g: Graph, p: seq<Service>) {
    |p| >= 2 && forall i :: 0 <= i < |p| - 1 ==> (p[i], p[i + 1]) in g.edges
  }

  ghost predicate Reaches(g: Graph, x: Service, y: Service) {
    exists p :: IsPath(g, p) && p[0] == x && p[|p| - 1] == y
  }

  ghost predicate Acyclic(g: Graph) {
    forall x :: x in g.nodes ==> !Reaches(g, x, x)
  }

  /** Every node other than `x` from which `x` can be reached. */
  ghost function Ancestors(g: Graph, x: Service): set<Service> {
    set n | n in g.nodes && n != x && Reaches(g, n, x)
  }

  /** The impact score before the override for core infrastructure. */
  ghost function ImpactScore(g: Graph, x: Service): real {
    |Ancestors(g, x)| as real / (if |g.nodes| > 1 then |g.nodes| else 1) as real
  }

  ghost function RiskLevel(g: Graph, x: Service): Risk {
    if x in OVERRIDES then Critical
    else if ImpactScore(g, x) > 0.5 then High
    else if ImpactScore(g, x) > 0.2 then Medium
    else Low
  }

  ghost function Blast(g: Graph, action: Action): BlastInfo {
    match action.Target()
    case None => BlastInfo(Unknown, {}, 0.0)
    case Some(x) =>
      if x !in g.nodes then BlastInfo(Unknown, {}, 0.0)
      else BlastInfo(RiskLevel(g, x), Ancestors(g, x), if x in OVERRIDES then 1.0 else ImpactScore(g, x))
  }

  // --- Reachability -----------------------------------------------------------------------------

  lemma {:induction false} EdgeReaches(g: Graph, a: Service, b: Service)
    requires (a, b) in g.edges
    ensures Reaches(g, a, b)
  {
    assert IsPath(g, [a, b]);
  }

  lemma {:induction false} ReachesTransitive(g: Graph, x: Service, y: Service, z: Service)
    requires Reaches(g, x, y) && Reaches(g, y, z)
    ensures Reaches(g, x, z)
  {
    var p :| IsPath(g, p) && p[0] == x && p[|p| - 1] == y;
    var q :| IsPath(g, q) && q[0] == y && q[|q| - 1] == z;
    var joined := p + q[1..];
    assert forall i :: |p| - 1 <= i < |joined| ==> joined[i] == q[i - |p| + 1];
    assert IsPath(g, joined);
  }

  /** A set closed under predecessors holds everything that reaches one of its members. */
  lemma {:induction false} ClosedHoldsAncestors(g: Graph, s: set<Service>, x: Service, y: Service)
    requires forall e :: e in g.edges && e.1 in s ==> e.0 in s
    requires y in s && Reaches(g, x, y)
    ensures x in s
  {
    var p :| IsPath(g, p) && p[0] == x && p[|p| - 1] == y;
    var i := |p| - 1;
    while i > 0
      invariant 0 <= i < |p| && p[i] in s
    {
      assert (p[i - 1], p[i]) in g.edges;
      i := i - 1;
    }
  }

  // --- What the calculation reports --------------------------------------------------------------

  /** Core infrastructure is critical; elsewhere the risk is high if more than half of the services are affected, else
      medium if more than a fifth are, and the score is the share that is affected. */
  ghost predicate IsReport(g: Graph, x: Service, b: BlastInfo) {
    var hit, all := |b.affected|, |g.nodes|;
    && (forall y :: y in b.affected <==> y in g.nodes && y != x && Reaches(g, y, x))
    && (x in {PostgresOrders, Nats, Redis} ==> b.level == Critical && b.score == 1.0)
    && (x !in {PostgresOrders, Nats, Redis} ==>
          && (b.level == High <==> 2 * hit > all)
          && (b.level == Medium <==> 5 * hit > all >= 2 * hit)
          && (b.level == Low <==> all >= 5 * hit)
          && b.score * all as real == hit as real)
  }

  /** Without a target in the graph nothing is known. */
  lemma {:induction false} BlastByCount(g: Graph, action: Action)
    ensures (forall x :: x in g.nodes ==> !action.IsAbout(x)) ==> Blast(g, action) == BlastInfo(Unknown, {}, 0.0)
    ensures forall x :: x in g.nodes && action.IsAbout(x) ==> IsReport(g, x, Blast(g, action))
  {
    forall x | x in g.nodes && action.IsAbout(x)
      ensures IsReport(g, x, Blast(g, action))
    {
      assert action.Target() == Some(x);
      SubsetIsSmaller({x}, g.nodes);
      SharesCompare(|Ancestors(g, x)|, |g.nodes|);
    }
  }

  lemma {:induction false} SharesCompare(hit: nat, all: nat)
    requires all > 0
    ensures
      var share := hit as real / all as real;
      share * all as real == hit as real && (share > 0.5 <==> 2 * hit > all) && (share > 0.2 <==> 5 * hit > all)
  {
    var share := hit as real / all as real;
    ShareIsPart(hit as real, all as real);
    PartExceeds(share, 2.0, hit as real, all as real);
    PartExceeds(share, 5.0, hit as real, all as real);
    CountExceeds(hit, all);
  }

  lemma {:induction false} ShareIsPart(h: real, n: real)
    requires n > 0.0
    ensures h / n * n == h
  {}

  /** A share is more than one `k`-th exactly when `k` times the part is more than the whole. */
  lemma {:induction false} PartExceeds(share: real, k: real, h: real, n: real)
    requires n > 0.0 && share * n == h
    ensures k * share > 1.0 <==> k * h > n
  {
    var d := k * share - 1.0;
    assert d * n == k * (share * n) - n;
    assert d > 0.0 ==> d * n > 0.0;
    assert d <= 0.0 ==> d * n <= 0.0;
  }

  lemma {:induction false} CountExceeds(hit: nat, all: nat)
    ensures 2.0 * hit as real > all as real <==> 2 * hit > all
    ensures 5.0 * hit as real > all as real <==> 5 * hit > all
  {
    assert (2 * hit) as real == 2.0 * hit as real && (5 * hit) as real == 5.0 * hit as real;
  }

  // --- Scores along dependencies ----------------------------------------------------------------

  /** In an acyclic graph a dependency hands its whole upstream, and itself, on to what it relies on. */
  lemma {:induction false} UpstreamGrowsAlongEdges(g: Graph, a: Service, b: Service)
    requires g.WellFormed() && Acyclic(g) && (a, b) in g.edges
    ensures Ancestors(g, a) + {a} <= Ancestors(g, b)
    ensures b !in Ancestors(g, a) + {a}
  {
    EdgeReaches(g, a, b);
    forall n | n in Ancestors(g, a) + {a}
      ensures n in Ancestors(g, b)
    {
      if n != a {
        ReachesTransitive(g, n, a, b);
      }
      assert !Reaches(g, b, b);
    }
  }

  lemma {:induction false} SubsetIsSmaller<T>(s: set<T>, t: set<T>)
    requires s <= t
    ensures |s| <= |t|
  {
    assert |t| == |s| + |t - s| by {
      assert t == s + (t - s);
    }
  }

  lemma {:induction false} ScoreGrowsAlongEdges(g: Graph, a: Service, b: Service)
    requires g.WellFormed() && Acyclic(g) && (a, b) in g.edges
    ensures ImpactScore(g, a) < ImpactScore(g, b) < 1.0
  {
    UpstreamGrowsAlongEdges(g, a, b);
    assert |Ancestors(g, a) + {a}| == |Ancestors(g, a)| + 1;
    SubsetIsSmaller(Ancestors(g, a) + {a}, Ancestors(g, b));
    assert |Ancestors(g, b) + {b}| == |Ancestors(g, b)| + 1;
    SubsetIsSmaller(Ancestors(g, b) + {b}, g.nodes);
    QuotientsCompare(|Ancestors(g, a)|, |Ancestors(g, b)|, |g.nodes|);
  }

  lemma {:induction false} QuotientsCompare(small: nat, large: nat, n: nat)
    requires small < large < n
    ensures small as real / n as real < large as real / n as real < 1.0
  {}

  function Severity(r: Risk): int {
    match r
    case Low => 1
    case Medium => 2
    case High => 3
    case Critical => 4
    case _ => 0
  }

  /** The level is monotone along dependencies exactly when overridden services rely only on overridden ones. */
  lemma {:induction false} LevelMonotoneIff(g: Graph)
    requires g.WellFormed() && Acyclic(g)
    ensures (forall a, b :: (a, b) in g.edges ==> Severity(RiskLevel(g, a)) <= Severity(RiskLevel(g, b)))
       <==> (forall a, b :: (a, b) in g.edges && a in OVERRIDES ==> b in OVERRIDES)
  {
    forall a, b | (a, b) in g.edges
      ensures Severity(RiskLevel(g, a)) <= Severity(RiskLevel(g, b)) <==> (a in OVERRIDES ==> b in OVERRIDES)
    {
      ScoreGrowsAlongEdges(g, a, b);
    }
  }

  // --- The calculator ---------------------------------------------------------------------------

  const SERVICES: set<Service> := {
    ApiGateway, UserSvc, AuthSvc, OrderSvc, PaymentSvc, ProductSvc, SearchSvc,
    NotificationWorker, InventoryWorker, AnalyticsWorker,
    Redis, PostgresOrders, PostgresPayments, Nats, Elasticsearch
  }

  const EDGES: set<(Service, Service)> := {
    (ApiGateway, UserSvc), (ApiGateway, OrderSvc), (ApiGateway, ProductSvc), (ApiGateway, AuthSvc),
    (UserSvc, Redis), (AuthSvc, Redis), (AuthSvc, UserSvc),
    (OrderSvc, PostgresOrders), (OrderSvc, Nats), (OrderSvc, PaymentSvc), (OrderSvc, InventoryWorker),
    (PaymentSvc, PostgresPayments), (PaymentSvc, Nats),
    (ProductSvc, Elasticsearch), (SearchSvc, Elasticsearch),
    (NotificationWorker, Nats), (InventoryWorker, Nats), (InventoryWorker, PostgresOrders),
    (AnalyticsWorker, Nats)
  }

  const STATIC_GRAPH := Graph(SERVICES, EDGES)

  class BlastRadiusCalculator {
    var graph: Graph

    constructor ()
      ensures graph == STATIC_GRAPH
    {
      graph := Graph(SERVICES, EDGES);
    }

    method Calculate(action: Action) returns (info: BlastInfo)
      requires graph.WellFormed()
      ensures info == Blast(graph, action)
    {
      var target := action.Target();
      if target == None || target.value !in graph.nodes {
        return BlastInfo(Unknown, {}, 0.0);
      }
      var affected := Upstream(graph, target.value);
      var size := if |graph.nodes| > 1 then |graph.nodes| else 1;
      var score := |affected| as real / size as real;
      var level := Low;
      if score > 0.5 {
        level := High;
      } else if score > 0.2 {
        level := Medium;
      }
      if target.value in OVERRIDES {
        level := Critical;
        score := 1.0;
      }
      info := BlastInfo(level, affected, score);
    }
  }

  lemma {:induction false} PredecessorsReach(g: Graph, x: Service, y: Service)
    requires g.WellFormed() && (y == x || Reaches(g, y, x))
    ensures forall e :: e in g.edges && e.1 == y ==> Reaches(g, e.0, x) && e.0 in g.nodes
  {
    forall e | e in g.edges && e.1 == y
      ensures Reaches(g, e.0, x)
    {
      EdgeReaches(g, e.0, y);
      if y != x {
        ReachesTransitive(g, e.0, y, x);
      }
    }
  }

  ghost predicate AllReach(g: Graph, found: set<Service>, x: Service) {
    forall n :: n in found ==> n == x || Reaches(g, n, x)
  }

  /** The predecessors of everything found but the frontier are found. */
  ghost predicate ClosedBut(g: Graph, found: set<Service>, frontier: set<Service>) {
    forall e :: e in g.edges && e.1 in found && e.1 !in frontier ==> e.0 in found
  }

  lemma {:induction false} SearchStep(g: Graph, x: Service, found: set<Service>, frontier: set<Service>,
                                      y: Service, added: set<Service>)
    requires g.WellFormed() && AllReach(g, found, x) && ClosedBut(g, found, frontier) && y in found
    requires added == set e | e in g.edges && e.1 == y && e.0 !in found :: e.0
    ensures added !! found && added <= g.nodes && AllReach(g, found + added, x)
    ensures ClosedBut(g, found + added, frontier - {y} + added)
  {
    PredecessorsReach(g, x, y);
    forall e | e in g.edges && e.1 == y
      ensures e.0 in found + added
    {
      assert e.0 in found || e.0 in added;
    }
  }

  lemma {:induction false} ClosedHoldsAll(g: Graph, found: set<Service>, x: Service)
    requires forall e :: e in g.edges && e.1 in found ==> e.0 in found
    requires x in found
    ensures forall n :: Reaches(g, n, x) ==> n in found
  {
    forall n | Reaches(g, n, x)
      ensures n in found
    {
      ClosedHoldsAncestors(g, found, n, x);
    }
  }

  /** Backward search from `x`, as the graph library does it. */
  method Upstream(g: Graph, x: Service) returns (affected: set<Service>)
    requires g.WellFormed() && x in g.nodes
    ensures affected == Ancestors(g, x)
  {
    var found, frontier := {x}, {x};
    while frontier != {}
      invariant x in found && frontier <= found <= g.nodes
      invariant AllReach(g, found, x) && ClosedBut(g, found, frontier)
      decreases g.nodes - found, frontier
    {
      var y :| y in frontier;
      var added := set e | e in g.edges && e.1 == y && e.0 !in found :: e.0;
      SearchStep(g, x, found, frontier, y, added);
      if added == {} {
        assert found + added == found && frontier - {y} + added == frontier - {y};
        frontier := frontier - {y};
      } else {
        var n :| n in added;
        assert n in g.nodes - found;
        found, frontier := found + added, frontier - {y} + added;
      }
    }
    ClosedHoldsAll(g, found, x);
    affected := found - {x};
  }

  // --- The graph that is built ------------------------------------------------------------------

  /** Everything upstream of a service in the built graph. */
  function KnownUpstream(x: Service): set<Service> {
    match x
    case UserSvc => {ApiGateway, AuthSvc}
    case AuthSvc => {ApiGateway}
    case OrderSvc => {ApiGateway}
    case ProductSvc => {ApiGateway}
    case PaymentSvc => {ApiGateway, OrderSvc}
    case InventoryWorker => {ApiGateway, OrderSvc}
    case PostgresPayments => {ApiGateway, OrderSvc, PaymentSvc}
    case Elasticsearch => {ApiGateway, ProductSvc, SearchSvc}
    case Redis => {ApiGateway, AuthSvc, UserSvc}
    case PostgresOrders => {ApiGateway, OrderSvc, InventoryWorker}
    case Nats => {ApiGateway, OrderSvc, PaymentSvc, InventoryWorker, NotificationWorker, AnalyticsWorker}
    case _ => {}
  }

  lemma {:induction false} KnownUpstreamIsClosed()
    ensures forall e :: e in EDGES ==> e.0 in KnownUpstream(e.1) && KnownUpstream(e.0) <= KnownUpstream(e.1)
  {}

  /** A labelling closed under dependencies bounds what reaches each node. */
  lemma {:induction false} LabelsBoundReach(g: Graph, up: Service -> set<Service>, n: Service, x: Service)
    requires forall e :: e in g.edges ==> e.0 in up(e.1) && up(e.0) <= up(e.1)
    requires Reaches(g, n, x)
    ensures n in up(x)
  {
    var p :| IsPath(g, p) && p[0] == n && p[|p| - 1] == x;
    assert (p[|p| - 2], x) in g.edges;
    var i := |p| - 2;
    while i > 0
      invariant 0 <= i <= |p| - 2 && p[i] in up(x) && up(p[i]) <= up(x)
    {
      assert (p[i - 1], p[i]) in g.edges;
      i := i - 1;
    }
  }

  lemma {:induction false} KnownUpstreamIsIrreflexive(x: Service)
    ensures x !in KnownUpstream(x)
  {}

  /** What is upstream of a service relies on it, or is upstream of what does. */
  lemma {:induction false} KnownUpstreamHasCause(n: Service, x: Service) returns (a: Service)
    requires n in KnownUpstream(x)
    ensures (a, x) in EDGES && (n == a || n in KnownUpstream(a))
  {
    a := if (n, x) in EDGES then n else Between(n, x);
  }

  /** A service through which `n` relies on `x`. */
  function Between(n: Service, x: Service): Service {
    match x
    case UserSvc => AuthSvc
    case Redis => UserSvc
    case Nats => OrderSvc
    case PostgresOrders => OrderSvc
    case Elasticsearch => ProductSvc
    case PostgresPayments => PaymentSvc
    case _ => OrderSvc
  }

  ghost predicate HasCause(g: Graph, up: Service -> set<Service>, n: Service, x: Service) {
    exists a :: (a, x) in g.edges && (n == a || n in up(a))
  }

  /** A labelling in which every label has a cause is no larger than what reaches each node. */
  lemma {:induction false} LabelsReach(g: Graph, up: Service -> set<Service>, n: Service, x: Service)
    requires forall e :: e in g.edges ==> e.0 in up(e.1) && up(e.0) <= up(e.1)
    requires forall y :: y !in up(y)
    requires forall m, y :: m in up(y) ==> HasCause(g, up, m, y)
    requires n in up(x)
    ensures Reaches(g, n, x)
    decreases |up(x)|
  {
    assert HasCause(g, up, n, x);
    var a :| (a, x) in g.edges && (n == a || n in up(a));
    EdgeReaches(g, a, x);
    if n != a {
      assert (a, x).0 in up(x) && up(a) <= up(x);
      SubsetIsSmaller(up(a) + {a}, up(x));
      LabelsReach(g, up, n, a);
      ReachesTransitive(g, n, a, x);
    }
  }

  lemma {:induction false} KnownUpstreamIsCaused(n: Service, x: Service)
    requires n in KnownUpstream(x)
    ensures HasCause(STATIC_GRAPH, KnownUpstream, n, x)
  {
    var a := KnownUpstreamHasCause(n, x);
  }

  lemma {:induction false} StaticUpstreamIsKnown(x: Service)
    ensures Ancestors(STATIC_GRAPH, x) <= KnownUpstream(x)
    ensures !Reaches(STATIC_GRAPH, x, x)
  {
    var g := STATIC_GRAPH;
    KnownUpstreamIsClosed();
    forall n | Reaches(g, n, x)
      ensures n in KnownUpstream(x)
    {
      LabelsBoundReach(g, KnownUpstream, n, x);
    }
    KnownUpstreamIsIrreflexive(x);
  }

  lemma {:induction false} KnownUpstreamIsStatic(x: Service)
    ensures KnownUpstream(x) <= Ancestors(STATIC_GRAPH, x)
  {
    KnownUpstreamIsClosed();
    forall y
      ensures y !in KnownUpstream(y)
    {
      KnownUpstreamIsIrreflexive(y);
    }
    forall m, y | m in KnownUpstream(y)
      ensures HasCause(STATIC_GRAPH, KnownUpstream, m, y)
    {
      KnownUpstreamIsCaused(m, y);
    }
    forall n | n in KnownUpstream(x)
      ensures n in Ancestors(STATIC_GRAPH, x)
    {
      KnownUpstreamIsServices(x);
      LabelsReach(STATIC_GRAPH, KnownUpstream, n, x);
    }
  }

  lemma {:induction false} KnownUpstreamIsServices(x: Service)
    ensures KnownUpstream(x) <= SERVICES
  {}

  /** What an action on each service of the built graph affects. */
  lemma {:induction false} StaticAncestors(x: Service)
    ensures Ancestors(STATIC_GRAPH, x) == KnownUpstream(x)
    ensures !Reaches(STATIC_GRAPH, x, x)
  {
    StaticUpstreamIsKnown(x);
    KnownUpstreamIsStatic(x);
  }

  lemma {:induction false} StaticGraphIsAcyclic()
    ensures STATIC_GRAPH.WellFormed() && Acyclic(STATIC_GRAPH)
    ensures forall a, b :: (a, b) in EDGES ==> a !in OVERRIDES
  {
    forall x | x in SERVICES
      ensures !Reaches(STATIC_GRAPH, x, x)
    {
      StaticAncestors(x);
    }
  }

  lemma {:induction false} KnownUpstreamIsSmall(x: Service)
    requires x !in OVERRIDES
    ensures |KnownUpstream(x)| <= 3
  {}

  lemma {:induction false} ServiceCount()
    ensures |SERVICES| == 15
  {}

  lemma {:induction false} StaticScore(x: Service)
    ensures ImpactScore(STATIC_GRAPH, x) == |Ancestors(STATIC_GRAPH, x)| as real / 15.0
  {
    ServiceCount();
  }

  lemma {:induction false} StaticScoreIsLow(x: Service)
    requires x !in OVERRIDES
    ensures ImpactScore(STATIC_GRAPH, x) <= 0.2
  {
    StaticAncestors(x);
    SubsetIsSmaller(Ancestors(STATIC_GRAPH, x), KnownUpstream(x));
    KnownUpstreamIsSmall(x);
    StaticScore(x);
    LowShare(|Ancestors(STATIC_GRAPH, x)|);
  }

  lemma {:induction false} LowShare(n: nat)
    requires n <= 3
    ensures n as real / 15.0 <= 0.2
  {}

  /** On the built graph the blast radius is never medium or high: only low, critical or unknown. */
  lemma {:induction false} StaticBlastNeverMediumOrHigh(action: Action)
    ensures Blast(STATIC_GRAPH, action).level in {Unknown, Low, Critical}
  {
    if action.Target().Some? && action.Target().value !in OVERRIDES {
      StaticScoreIsLow(action.Target().value);
    }
  }
}
