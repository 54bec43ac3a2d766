/**
 The graph projector: how a mutation event becomes one of three Cypher statements, and what those
 statements do to a graph. MERGE finds or creates by key, SET += overwrites property by property,
 and a null value removes the property. A node's tenant and stable id are its key.
 */
module GraphModel {
  import opened Outcomes
  import opened PythonText

  datatype Json = NullValue | Json(text: string)

  /** Property names: the ones the repository's services write, and any other. */
  datatype Prop =
    | TenantId | StableId | TakedownStatus
    | ObservedAt | CreatedAt | UpdatedAt | ExtractionModel | ExtractionVersion | Status | Confidence
    | CanonicalUrl | Title | CleanTextObjectUri | DocumentId | PublishedAt | Language | Topics | Embedding
    | DisplayName | NormalizedName | StartOffset | EndOffset | SpanHash | Kind | MentionId | EvidenceId
    | Proposition | NormalizedProposition | ClusterId | ValidFrom
    | OtherProp(name: string)

  type Props = map<Prop, Json>

  datatype EntityType = Company | Organization | GovernmentAgency | Person | Location | OtherEntity(name: string)

  datatype Mutation =
    | MarkSourceTakedown
    | UpsertDocument | UpsertArticle | UpsertSource | UpsertEvidence | UpsertClaim | UpsertEntity
    | LinkPublished | LinkArticleDocument | LinkMentions | LinkEvidenceEntity | LinkEvidenceClaim | LinkArticleClaim
    | LinkPartneredWith | LinkAcquired | LinkInvestedIn | LinkCompetesWith | LinkRegulates | LinkAffects | LinkRelatedTo
    | OtherMutation(name: string)

  /** A field of the event as JSON has it. */
  datatype Field<+T> = Absent | NotAString | Text(value: T)

  datatype PropsField = NoProps | NotAnObject | Object(props: Props)

  datatype Payload =
    | NotObject
    | Payload(mutation: Field<Mutation>, stableId: Field<string>, entityType: Field<EntityType>,
              fromId: Field<string>, toId: Field<string>, properties: PropsField)

  datatype Event = Event(tenant: Field<string>, payload: Payload)

  datatype Rel =
    | PUBLISHED | DERIVED_FROM | MENTIONS | EVIDENCE_FOR | MAKES_CLAIM | PARTNERED_WITH | ACQUIRED
    | INVESTED_IN | COMPETES_WITH | REGULATES | AFFECTS | RELATED_TO

  datatype Label =
    | Document | Article | Source | Evidence | Claim | Entity | TypeLabel(entity: EntityType)

  /** Why an event is refused for good. */
  datatype Refusal =
    | PayloadNotObject | NotNonEmptyString(field: string) | PropertiesNotObject
    | UnsupportedEntityType | UnsupportedMutation

  datatype Statement =
    | Takedown(tenant: string, id: string, props: Props)
    | Upsert(tenant: string, id: string, labels: set<Label>, props: Props)
    | Link(tenant: string, id: string, rel: Rel, source: string, target: string, props: Props)

  // ----- build_statement -----

  function RequiredString(f: Field<string>, name: string): Result<string, Refusal> {
    if f.Text? && !Blank(f.value) then Ok(f.value) else Err(NotNonEmptyString(name))
  }

  function RequiredMutation(f: Field<Mutation>): Result<Mutation, Refusal> {
    if f.Text? && (f.value.OtherMutation? ==> !Blank(f.value.name)) then Ok(f.value) else Err(NotNonEmptyString("mutation_type"))
  }

  function RequiredEntityType(f: Field<EntityType>): Result<EntityType, Refusal> {
    if f.Text? && (f.value.OtherEntity? ==> !Blank(f.value.name)) then Ok(f.value) else Err(NotNonEmptyString("entity_type"))
  }

  function Properties(f: PropsField): Result<Props, Refusal> {
    match f
    case NoProps => Ok(map[])
    case NotAnObject => Err(PropertiesNotObject)
    case Object(props) => Ok(props)
  }

  function NodeLabels(m: Mutation): Option<set<Label>> {
    match m
    case UpsertDocument => Some({Document})
    case UpsertArticle => Some({Article})
    case UpsertSource => Some({Source})
    case UpsertEvidence => Some({Evidence})
    case UpsertClaim => Some({Claim})
    case _ => None
  }

  function RelationshipType(m: Mutation): Option<Rel> {
    match m
    case LinkPublished => Some(PUBLISHED)
    case LinkArticleDocument => Some(DERIVED_FROM)
    case LinkMentions => Some(MENTIONS)
    case LinkEvidenceEntity | LinkEvidenceClaim => Some(EVIDENCE_FOR)
    case LinkArticleClaim => Some(MAKES_CLAIM)
    case LinkPartneredWith => Some(PARTNERED_WITH)
    case LinkAcquired => Some(ACQUIRED)
    case LinkInvestedIn => Some(INVESTED_IN)
    case LinkCompetesWith => Some(COMPETES_WITH)
    case LinkRegulates => Some(REGULATES)
    case LinkAffects => Some(AFFECTS)
    case LinkRelatedTo => Some(RELATED_TO)
    case _ => None
  }

  function BuildStatement(event: Event): Result<Statement, Refusal> {
    if event.payload.NotObject? then Err(PayloadNotObject)
    else
      var payload := event.payload;
      var mutation :- RequiredMutation(payload.mutation);
      var id :- RequiredString(payload.stableId, "stable_id");
      var given :- Properties(payload.properties);
      var tenant :- RequiredString(event.tenant, "tenant_id");
      var props := given[TenantId := Json(tenant)];
      if mutation == MarkSourceTakedown then Ok(Takedown(tenant, id, props))
      else if mutation == UpsertEntity then
        var entity :- RequiredEntityType(payload.entityType);
        if entity.OtherEntity? then Err(UnsupportedEntityType)
        else Ok(Upsert(tenant, id, {Entity, TypeLabel(entity)}, props))
      else if NodeLabels(mutation).Some? then Ok(Upsert(tenant, id, NodeLabels(mutation).value, props))
      else if RelationshipType(mutation).None? then Err(UnsupportedMutation)
      else
        var source :- RequiredString(payload.fromId, "from_id");
        var target :- RequiredString(payload.toId, "to_id");
        Ok(Link(tenant, id, RelationshipType(mutation).value, source, target, props))
  }

  // ----- the graph -----

  datatype NodeKey = NodeKey(tenant: string, id: string)

  datatype Node = Node(labels: set<Label>, props: Props)

  /** MERGE (a)-[r:TYPE {stable_id}]->(b): the two nodes, the type and the stable id identify the edge. */
  datatype EdgeKey = EdgeKey(source: NodeKey, rel: Rel, target: NodeKey, id: string)

  datatype Graph = Graph(nodes: map<NodeKey, Node>, edges: map<EdgeKey, Props>)

  const EMPTY: Graph := Graph(map[], map[])

  /** SET +=: property by property, null removes. */
  function AddProps(before: Props, more: Props): (r: Props)
    ensures forall p :: p in r <==> if p in more then more[p] != NullValue else p in before
    ensures forall p :: p in r ==> r[p] == if p in more then more[p] else before[p]
  {
    map p | p in before.Keys + more.Keys && (if p in more then more[p] != NullValue else true) ::
      if p in more then more[p] else before[p]
  }

  /** On a node, the identifying properties live in the key. */
  function Stored(props: Props): (r: Props)
    ensures forall p :: p in r <==> p in props && p != TenantId && p != StableId
    ensures forall p :: p in r ==> r[p] == props[p]
  {
    map p | p in props && p != TenantId && p != StableId :: props[p]
  }

  function MergeNode(nodes: map<NodeKey, Node>, k: NodeKey): map<NodeKey, Node> {
    if k in nodes then nodes else nodes[k := Node({}, map[])]
  }

  function EdgeOf(s: Statement): EdgeKey
    requires s.Link?
  {
    EdgeKey(NodeKey(s.tenant, s.source), s.rel, NodeKey(s.tenant, s.target), s.id)
  }

  /** The nodes the takedown's OPTIONAL MATCH finds. */
  function PublishedTo(g: Graph, source: NodeKey): set<NodeKey> {
    set e | e in g.edges && e.rel == PUBLISHED && e.target == source :: e.source
  }

  function Mark(node: Node, status: string): Node {
    node.(props := node.props[TakedownStatus := Json(status)])
  }

  function Apply(g: Graph, s: Statement): Graph {
    match s
    case Upsert(tenant, id, labels, props) =>
      var k := NodeKey(tenant, id);
      var node := MergeNode(g.nodes, k)[k];
      g.(nodes := g.nodes[k := Node(node.labels + labels, AddProps(node.props, Stored(props)))])
    case Link(tenant, id, rel, source, target, props) =>
      var nodes := MergeNode(MergeNode(g.nodes, NodeKey(tenant, source)), NodeKey(tenant, target));
      var e := EdgeOf(s);
      Graph(nodes, g.edges[e := AddProps(if e in g.edges then g.edges[e] else map[], props)])
    case Takedown(tenant, id, props) =>
      var k := NodeKey(tenant, id);
      if k !in g.nodes then g
      else
        var requested := Mark(g.nodes[k], "requested");
        var source := requested.(props := AddProps(requested.props, Stored(props)));
        var nodes := g.nodes[k := source];
        var marked := PublishedTo(g, k);
        g.(nodes := map n | n in nodes :: if n in marked then Mark(nodes[n], "source_requested") else nodes[n])
  }

  /** The effect of one event: its statement, or nothing when the event is refused (and sent to the dead letters). */
  function Project(g: Graph, event: Event): Graph {
    match BuildStatement(event)
    case Ok(s) => Apply(g, s)
    case Err(_) => g
  }

  function ProjectAll(g: Graph, events: seq<Event>): Graph {
    if events == [] then g else Project(ProjectAll(g, events[..|events| - 1]), events[|events| - 1])
  }

  // ----- tenants -----

  /** Every edge joins two existing nodes of one tenant. */
  predicate TenantClosed(g: Graph) {
    forall e :: e in g.edges ==> e.source in g.nodes && e.target in g.nodes && e.source.tenant == e.target.tenant
  }

  lemma ProjectKeepsTenantClosed(g: Graph, event: Event)
    requires TenantClosed(g)
    ensures TenantClosed(Project(g, event))
  {
    hide BuildStatement, AddProps, Stored;
  }

  lemma {:induction false} ReachableIsTenantClosed(events: seq<Event>)
    ensures TenantClosed(ProjectAll(EMPTY, events))
    decreases |events|
  {
    hide Project;
    if events != [] {
      ReachableIsTenantClosed(events[..|events| - 1]);
      ProjectKeepsTenantClosed(ProjectAll(EMPTY, events[..|events| - 1]), events[|events| - 1]);
    }
  }

  function StatusOf(g: Graph, n: NodeKey): Option<Json> {
    if n in g.nodes && TakedownStatus in g.nodes[n].props then Some(g.nodes[n].props[TakedownStatus]) else None
  }

  /**
   A takedown marks exactly the nodes PUBLISHED to the source at that moment, if the source is there
   (no edge leads to a node that is not). It touches nothing outside the source's tenant, and adds or
   removes no node and no edge.
   */
  lemma TakedownMarksExactly(g: Graph, s: Statement)
    requires TenantClosed(g) && s.Takedown?
    ensures var k := NodeKey(s.tenant, s.id);
            var g' := Apply(g, s);
            && g'.edges == g.edges && g'.nodes.Keys == g.nodes.Keys
            && (forall n :: n in PublishedTo(g, k) ==> n in g'.nodes && n.tenant == s.tenant)
            && (forall n :: n in PublishedTo(g, k) ==> StatusOf(g', n) == Some(Json("source_requested")))
            && (forall n :: n in g.nodes && n !in PublishedTo(g, k) && n != k ==> g'.nodes[n] == g.nodes[n])
            && (forall n :: n in PublishedTo(g, k) && n != k ==> OnlyMarked(g.nodes[n], g'.nodes[n]))
            && (k in g.nodes ==> TakenDown(g.nodes[k], g'.nodes[k], s.props, k in PublishedTo(g, k)))
            && (k !in g.nodes ==> PublishedTo(g, k) == {} && g' == g)
  {
    hide TakenDown, OnlyMarked;
    var k := NodeKey(s.tenant, s.id);
    if k in g.nodes {
      SourceTakenDown(g.nodes[k], s.props);
      forall n: NodeKey | n in g.nodes
        ensures OnlyMarked(g.nodes[n], Mark(g.nodes[n], "source_requested"))
      {
        MarkOnlyMarks(g.nodes[n], "source_requested");
      }
    }
    hide AddProps, Stored;
  }

  lemma SourceTakenDown(node: Node, props: Props)
    ensures var requested := Mark(node, "requested");
            var source := requested.(props := AddProps(requested.props, Stored(props)));
            TakenDown(node, source, props, false) && TakenDown(node, Mark(source, "source_requested"), props, true)
  {
    var requested := Mark(node, "requested");
    var source := requested.(props := AddProps(requested.props, Stored(props)));
    assert TakenDown(node, source, props, false);
    hide AddProps, Stored;
    OwnSourceTakenDown(node, source, props);
  }

  lemma OwnSourceTakenDown(node: Node, source: Node, props: Props)
    requires TakenDown(node, source, props, false)
    ensures TakenDown(node, Mark(source, "source_requested"), props, true)
  {
    forall p | p != TakedownStatus
      ensures PropOf(Mark(source, "source_requested"), p) == PropOf(source, p)
    {
    }
  }

  lemma MarkOnlyMarks(node: Node, status: string)
    ensures OnlyMarked(node, Mark(node, status))
  {
  }

  /** A property of a node, if it has it. */
  function PropOf(node: Node, p: Prop): Option<Json> {
    if p in node.props then Some(node.props[p]) else None
  }

  /** Nothing but the takedown status differs. */
  ghost predicate OnlyMarked(before: Node, after: Node) {
    after.labels == before.labels && forall p :: p != TakedownStatus ==> PropOf(after, p) == PropOf(before, p)
  }

  /**
   The source itself: it gets the takedown's properties, null removing one, but neither tenant nor stable id;
   its status is "requested" unless those properties name another, or it is published to itself.
   */
  ghost predicate TakenDown(before: Node, after: Node, props: Props, own: bool) {
    && after.labels == before.labels
    && (forall p :: p != TakedownStatus && p in props && p != TenantId && p != StableId ==>
          PropOf(after, p) == if props[p] == NullValue then None else Some(props[p]))
    && (forall p :: p != TakedownStatus && (p !in props || p == TenantId || p == StableId) ==> PropOf(after, p) == PropOf(before, p))
    && PropOf(after, TakedownStatus) ==
       if own then Some(Json("source_requested"))
       else if TakedownStatus !in props then Some(Json("requested"))
       else if props[TakedownStatus] == NullValue then None
       else Some(props[TakedownStatus])
  }

  predicate NodeUnchanged(g: Graph, h: Graph, n: NodeKey) {
    (n in g.nodes <==> n in h.nodes) && (n in g.nodes && n in h.nodes ==> g.nodes[n] == h.nodes[n])
  }

  predicate EdgeUnchanged(g: Graph, h: Graph, e: EdgeKey) {
    (e in g.edges <==> e in h.edges) && (e in g.edges && e in h.edges ==> g.edges[e] == h.edges[e])
  }

  /**
   Whatever an event's payload says, takedowns included, its effect stays within the tenant of its
   envelope, and what it writes carries that tenant; without a usable tenant it has no effect.
   */
  lemma ProjectStaysInTenant(g: Graph, event: Event)
    requires TenantClosed(g)
    ensures !event.tenant.Text? || Blank(event.tenant.value) ==> Project(g, event) == g
    ensures event.tenant.Text? ==>
      && (forall n: NodeKey :: n.tenant != event.tenant.value ==> NodeUnchanged(g, Project(g, event), n))
      && (forall e: EdgeKey :: e.source.tenant != event.tenant.value ==> EdgeUnchanged(g, Project(g, event), e))
    ensures BuildStatement(event).Ok? ==>
      event.tenant.Text? && TenantId in BuildStatement(event).value.props &&
      BuildStatement(event).value.props[TenantId] == Json(event.tenant.value)
  {
    hide AddProps, Stored, Mark, Blank;
    StatementTenant(event);
    hide BuildStatement, Apply, NodeUnchanged, EdgeUnchanged;
    NothingChanges(g);
    if BuildStatement(event).Ok? {
      ApplyStaysInTenant(g, BuildStatement(event).value);
    }
  }

  lemma NothingChanges(g: Graph)
    ensures (forall n :: NodeUnchanged(g, g, n)) && forall e :: EdgeUnchanged(g, g, e)
  {
  }

  lemma ApplyStaysInTenant(g: Graph, s: Statement)
    requires TenantClosed(g)
    ensures forall n: NodeKey :: n.tenant != s.tenant ==> NodeUnchanged(g, Apply(g, s), n)
    ensures forall e: EdgeKey :: e.source.tenant != s.tenant ==> EdgeUnchanged(g, Apply(g, s), e)
  {
    hide AddProps, Stored, Mark;
  }

  lemma StatementTenant(event: Event)
    ensures BuildStatement(event).Ok? ==>
      event.tenant.Text? && !Blank(event.tenant.value) && BuildStatement(event).value.tenant == event.tenant.value &&
      TenantId in BuildStatement(event).value.props && BuildStatement(event).value.props[TenantId] == Json(event.tenant.value)
  {
    hide Blank;
  }

  /** A statement that names no takedown status leaves every mark as it was. */
  lemma MarksSurvive(g: Graph, s: Statement, n: NodeKey)
    requires !s.Takedown? && TakedownStatus !in s.props && n in g.nodes
    ensures n in Apply(g, s).nodes && StatusOf(Apply(g, s), n) == StatusOf(g, n)
  {
  }

  /** The event is refused, or builds a statement that is no takedown and names no takedown status. */
  predicate Unmarking(event: Event) {
    match BuildStatement(event)
    case Ok(s) => !s.Takedown? && TakedownStatus !in s.props
    case Err(_) => true
  }

  /** No later run of such events clears, changes or adds a mark on a node that was there. */
  lemma {:induction false} MarksSurviveRuns(g: Graph, events: seq<Event>, n: NodeKey)
    requires n in g.nodes && forall k :: 0 <= k < |events| ==> Unmarking(events[k])
    ensures n in ProjectAll(g, events).nodes && StatusOf(ProjectAll(g, events), n) == StatusOf(g, n)
    decreases |events|
  {
    hide BuildStatement, Apply, StatusOf;
    if events != [] {
      var k := |events| - 1;
      MarksSurviveRuns(g, events[..k], n);
      assert Unmarking(events[k]);
      if BuildStatement(events[k]).Ok? {
        MarksSurvive(ProjectAll(g, events[..k]), BuildStatement(events[k]).value, n);
      }
    }
  }
}
