/**
 The pipeline as a whole: two messages that write the same node property or the same edge property
 carry the same key, so every mix of mutations converges however it is delivered, and what a delivered
 job leaves in the graph can be traced.
 */
module GraphPipeline {
  import opened Outcomes
  import opened PythonText
  import opened GraphModel
  import opened GraphDelivery
  import opened GraphBuilders

  // ----- the pipeline converges -----

  ghost predicate FromPipeline(published: seq<Message>) {
    forall m :: m in published ==> exists job :: m in Emit(job)
  }

  lemma PipelineIsProper(published: seq<Message>)
    requires FromPipeline(published)
    ensures forall m :: m in published ==> Proper(m)
  {
    hide Proper, Emit;
    forall m | m in published
      ensures Proper(m)
    {
      var job :| m in Emit(job);
      EmitsProper(job);
    }
  }

  lemma WritersShareTheirKey(a: Message, b: Message, c: Cell)
    requires Proper(a) && Proper(b) && Writes(a, c) && Writes(b, c)
    ensures a.key == b.key
  {
    hide BuildStatement;
    var s, t := BuildStatement(a.event).value, BuildStatement(b.event).value;
    assert s.Upsert? == t.Upsert? && s.id == t.id;
  }

  lemma ProperSharesKeys(published: seq<Message>)
    requires forall m :: m in published ==> Proper(m)
    ensures SharesKeys(published) && AllMergeable(published)
  {
    hide Write;
    forall i, j, c | 0 <= i < |published| && 0 <= j < |published| && Writes(published[i], c) && Writes(published[j], c)
      ensures published[i].key == published[j].key
    {
      assert Proper(published[i]) && Proper(published[j]);
      WritersShareTheirKey(published[i], published[j], c);
    }
    forall k | 0 <= k < |published|
      ensures Mergeable(published[k].event)
    {
      assert Proper(published[k]);
    }
  }

  /**
   Any mix of the pipeline's mutations, hashed to partitions by key and delivered at least once in
   partition order, ends in the graph of one in-order pass.
   */
  lemma PipelineConverges(published: seq<Message>, part: Partitioner, partitions: nat, steps: seq<Step>)
    requires FromPipeline(published)
    requires forall m :: m in published ==> part(m.key) < partitions
    requires var logs := Logs(published, part, partitions);
             forall p :: 0 <= p < partitions ==> Execute(logs, steps).position[p] == |logs[p]|
    ensures Execute(Logs(published, part, partitions), steps).graph == CleanPass(published)
  {
    hide Proper, Emit, SharesKeys, AllMergeable;
    PipelineIsProper(published);
    ProperSharesKeys(published);
    DeliveryConverges(published, part, partitions, steps);
  }

  /** Whatever the pipeline publishes after a takedown, no node loses or gains a mark. */
  lemma PipelineKeepsMarks(g: Graph, published: seq<Message>, n: NodeKey)
    requires FromPipeline(published) && n in g.nodes
    ensures n in ProjectAll(g, EventsOf(published)).nodes
    ensures StatusOf(ProjectAll(g, EventsOf(published)), n) == StatusOf(g, n)
  {
    hide Emit, StatusOf;
    PipelineIsProper(published);
    forall k | 0 <= k < |published|
      ensures Unmarking(EventsOf(published)[k])
    {
      assert Proper(published[k]);
    }
    MarksSurviveRuns(g, EventsOf(published), n);
  }

  // ----- what a delivered job leaves in the graph -----

  ghost predicate Linked(g: Graph, tenant: string, source: string, rel: Rel, target: string) {
    exists id :: EdgeKey(NodeKey(tenant, source), rel, NodeKey(tenant, target), id) in g.edges
  }

  predicate Labelled(g: Graph, tenant: string, id: string, name: Label) {
    NodeKey(tenant, id) in g.nodes && name in g.nodes[NodeKey(tenant, id)].labels
  }

  ghost predicate TracedMention(g: Graph, tenant: string, r: Resolution) {
    && Labelled(g, tenant, r.entityId, Entity) && Labelled(g, tenant, r.entityId, TypeLabel(r.entityType))
    && Labelled(g, tenant, r.evidence.evidenceId, Label.Evidence)
    && Linked(g, tenant, ArticleId(r.documentId), MENTIONS, r.entityId)
    && Linked(g, tenant, r.evidence.evidenceId, EVIDENCE_FOR, r.entityId)
  }

  /** The relationship a predicate's own name calls for. */
  function RelNamed(name: string): Rel {
    match name
    case "PARTNERED_WITH" => PARTNERED_WITH
    case "ACQUIRED" => ACQUIRED
    case "INVESTED_IN" => INVESTED_IN
    case "COMPETES_WITH" => COMPETES_WITH
    case "REGULATES" => REGULATES
    case "AFFECTS" => AFFECTS
    case _ => RELATED_TO
  }

  /**
   Every article leads to its source and document, every entity and claim to its article and its
   evidence, and all of them carry their labels.
   */
  ghost predicate Traced(g: Graph, job: Job)
    requires job.source.tenant.Text?
  {
    var tenant := job.source.tenant.value;
    match job
    case NlpJob(_, nlp) =>
      && Labelled(g, tenant, nlp.documentId, Document) && Labelled(g, tenant, ArticleId(nlp.documentId), Article)
      && Labelled(g, tenant, SourceId(nlp), Label.Source)
      && Linked(g, tenant, ArticleId(nlp.documentId), PUBLISHED, SourceId(nlp))
      && Linked(g, tenant, ArticleId(nlp.documentId), DERIVED_FROM, nlp.documentId)
    case MentionJob(_, r) => TracedMention(g, tenant, r)
    case RelationJob(_, relation) =>
      && TracedMention(g, tenant, relation.subject) && TracedMention(g, tenant, relation.object_)
      && Linked(g, tenant, relation.subject.entityId, RelNamed(relation.predicateName), relation.object_.entityId)
    case ClaimJob(_, claim, _, _) =>
      && Labelled(g, tenant, claim.claimId, Claim) && Labelled(g, tenant, claim.evidence.evidenceId, Label.Evidence)
      && Linked(g, tenant, ArticleId(claim.documentId), MAKES_CLAIM, claim.claimId)
      && Linked(g, tenant, claim.evidence.evidenceId, EVIDENCE_FOR, claim.claimId)
  }

  lemma DeliveredLink(published: seq<Message>, source: Source, key: string, m: Mutation, id: string, a: string, b: string, props: Props)
    requires FromPipeline(published) && RelationshipType(m).Some?
    requires Sent(source, (key, LinkOf(m, id, a, b, props))) in published
    requires Accepted(Sent(source, (key, LinkOf(m, id, a, b, props))))
    ensures source.tenant.Text? && Linked(CleanPass(published), source.tenant.value, a, RelationshipType(m).value, b)
  {
    hide Proper, Emit, Blank, CleanPass, Mergeable, FromPipeline;
    var message := Sent(source, (key, LinkOf(m, id, a, b, props)));
    PipelineIsProper(published);
    ProperSharesKeys(published);
    var e := EdgeOf(BuildStatement(message.event).value);
    assert Establishes(message.event, HasEdge(e));
    assert Mentions(published, HasEdge(e));
    CleanPassMeans(published, NodeCell(NodeKey("", ""), TenantId), HasEdge(e));
  }

  lemma DeliveredNode(published: seq<Message>, message: Message, name: Label)
    requires FromPipeline(published) && message in published && Accepted(message)
    requires BuildStatement(message.event).value.Upsert? && name in BuildStatement(message.event).value.labels
    ensures var s := BuildStatement(message.event).value; Labelled(CleanPass(published), s.tenant, s.id, name)
  {
    hide Proper, Emit, Blank, CleanPass, Mergeable, FromPipeline, BuildStatement;
    PipelineIsProper(published);
    ProperSharesKeys(published);
    var s := BuildStatement(message.event).value;
    var f := HasLabel(NodeKey(s.tenant, s.id), name);
    assert Establishes(message.event, f);
    assert Mentions(published, f);
    CleanPassMeans(published, NodeCell(NodeKey("", ""), TenantId), f);
  }

  lemma DeliveredUpsert(published: seq<Message>, source: Source, key: string, m: Mutation, id: string, props: Props, name: Label)
    requires FromPipeline(published) && NodeLabels(m) == Some({name})
    requires Sent(source, (key, UpsertOf(m, id, props))) in published
    requires Accepted(Sent(source, (key, UpsertOf(m, id, props))))
    ensures source.tenant.Text? && Labelled(CleanPass(published), source.tenant.value, id, name)
  {
    hide FromPipeline, CleanPass, Blank, Labelled;
    DeliveredNode(published, Sent(source, (key, UpsertOf(m, id, props))), name);
  }

  lemma DeliveredEntity(published: seq<Message>, source: Source, r: Resolution)
    requires FromPipeline(published) && Accepted(Sent(source, GraphEvents(source, r)[0]))
    requires Sent(source, GraphEvents(source, r)[0]) in published
    ensures source.tenant.Text? && Labelled(CleanPass(published), source.tenant.value, r.entityId, Entity)
    ensures source.tenant.Text? && Labelled(CleanPass(published), source.tenant.value, r.entityId, TypeLabel(r.entityType))
  {
    hide FromPipeline, CleanPass, Blank, Labelled, CommonProperties, EvidenceProperties, EntityProperties, MentionProperties;
    DeliveredNode(published, Sent(source, GraphEvents(source, r)[0]), Entity);
    DeliveredNode(published, Sent(source, GraphEvents(source, r)[0]), TypeLabel(r.entityType));
  }

  lemma DeliveredMention(published: seq<Message>, source: Source, r: Resolution)
    requires FromPipeline(published) && AllAccepted(source, GraphEvents(source, r))
    requires forall k :: 0 <= k < 4 ==> Sent(source, GraphEvents(source, r)[k]) in published
    ensures source.tenant.Text? && TracedMention(CleanPass(published), source.tenant.value, r)
  {
    hide FromPipeline, Accepted, CleanPass, Linked, Labelled, CommonProperties, EvidenceProperties, EntityProperties, MentionProperties;
    var e := GraphEvents(source, r);
    DeliveredEntity(published, source, r);
    DeliveredUpsert(published, source, e[1].0, UpsertEvidence, r.evidence.evidenceId, e[1].1.properties.props, Label.Evidence);
    DeliveredLink(published, source, e[2].0, LinkMentions, e[2].1.stableId.value, ArticleId(r.documentId), r.entityId,
                  e[2].1.properties.props);
    DeliveredLink(published, source, e[3].0, LinkEvidenceEntity, e[3].0, r.evidence.evidenceId, r.entityId, e[3].1.properties.props);
  }

  lemma DeliveredRelation(published: seq<Message>, source: Source, payload: RelationPayload)
    requires FromPipeline(published) && AllAccepted(source, RelationGraphEvents(source, payload))
    requires forall k :: 0 <= k < 9 ==> Sent(source, RelationGraphEvents(source, payload)[k]) in published
    ensures source.tenant.Text? && Traced(CleanPass(published), RelationJob(source, payload))
  {
    hide FromPipeline, Accepted, CleanPass, Linked, RelationProperties, TracedMention;
    var all := RelationGraphEvents(source, payload);
    var a, b := GraphEvents(source, payload.subject), GraphEvents(source, payload.object_);
    forall k | 0 <= k < 4
      ensures a[k] == all[k] && b[k] == all[k + 4]
      ensures Accepted(Sent(source, a[k])) && Accepted(Sent(source, b[k]))
      ensures Sent(source, a[k]) in published && Sent(source, b[k]) in published
    {
    }
    DeliveredMention(published, source, payload.subject);
    DeliveredMention(published, source, payload.object_);
    assert all[8] == RelationMutation(source, payload);
    DeliveredLink(published, source, all[8].0, PredicateMutation(payload.predicateName), payload.relationshipId,
                  payload.subject.entityId, payload.object_.entityId, all[8].1.properties.props);
  }

  lemma DeliveredBase(published: seq<Message>, source: Source, nlp: NlpPayload)
    requires FromPipeline(published) && AllAccepted(source, GraphBaseMutations(source, nlp))
    requires forall k :: 0 <= k < 5 ==> Sent(source, GraphBaseMutations(source, nlp)[k]) in published
    ensures source.tenant.Text? && Traced(CleanPass(published), NlpJob(source, nlp))
  {
    hide FromPipeline, Accepted, CleanPass, Linked, Labelled, NlpProperties, DocumentProperties, ArticleProperties, SourceId;
    var e := GraphBaseMutations(source, nlp);
    DeliveredUpsert(published, source, e[0].0, UpsertDocument, nlp.documentId, e[0].1.properties.props, Document);
    DeliveredUpsert(published, source, e[1].0, UpsertArticle, ArticleId(nlp.documentId), e[1].1.properties.props, Article);
    DeliveredUpsert(published, source, e[2].0, UpsertSource, SourceId(nlp), e[2].1.properties.props, Label.Source);
    DeliveredLink(published, source, e[3].0, LinkPublished, e[3].0, ArticleId(nlp.documentId), SourceId(nlp), e[3].1.properties.props);
    DeliveredLink(published, source, e[4].0, LinkArticleDocument, e[4].0, ArticleId(nlp.documentId), nlp.documentId, e[4].1.properties.props);
  }

  lemma DeliveredClaim(published: seq<Message>, source: Source, claim: ClaimPayload, clusterId: Json, normalized: Json)
    requires FromPipeline(published) && AllAccepted(source, GraphMutations(source, claim, clusterId, normalized))
    requires forall k :: 0 <= k < 4 ==> Sent(source, GraphMutations(source, claim, clusterId, normalized)[k]) in published
    ensures source.tenant.Text? && Traced(CleanPass(published), ClaimJob(source, claim, clusterId, normalized))
  {
    hide FromPipeline, Accepted, CleanPass, Linked, Labelled, CommonProperties, EvidenceProperties, ClaimProperties;
    var e := GraphMutations(source, claim, clusterId, normalized);
    DeliveredUpsert(published, source, e[0].0, UpsertClaim, claim.claimId, e[0].1.properties.props, Claim);
    DeliveredUpsert(published, source, e[1].0, UpsertEvidence, claim.evidence.evidenceId, e[1].1.properties.props, Label.Evidence);
    DeliveredLink(published, source, e[2].0, LinkArticleClaim, e[2].0, ArticleId(claim.documentId), claim.claimId, e[2].1.properties.props);
    DeliveredLink(published, source, e[3].0, LinkEvidenceClaim, e[3].0, claim.evidence.evidenceId, claim.claimId, e[3].1.properties.props);
  }

  /** One clean pass over messages that include all of a job's leaves the job's provenance in the graph. */
  lemma CleanPassTraces(published: seq<Message>, job: Job)
    requires FromPipeline(published) && Identified(job)
    requires forall m :: m in Emit(job) ==> m in published
    ensures Traced(CleanPass(published), job)
  {
    hide FromPipeline, Accepted, CleanPass, Traced, Identified, GraphBaseMutations, GraphEvents, RelationGraphEvents, GraphMutations;
    AcceptedExactlyWhenIdentified(job);
    var all := Mutations(job);
    forall k | 0 <= k < |all|
      ensures Sent(job.source, all[k]) in published && Accepted(Sent(job.source, all[k]))
    {
      assert Emit(job)[k] in Emit(job);
    }
    MutationCounts(job);
    match job {
      case NlpJob(source, nlp) => DeliveredBase(published, source, nlp);
      case MentionJob(source, r) => DeliveredMention(published, source, r); TracedMentionIsTraced(CleanPass(published), job);
      case RelationJob(source, relation) => DeliveredRelation(published, source, relation);
      case ClaimJob(source, claim, clusterId, normalized) => DeliveredClaim(published, source, claim, clusterId, normalized);
    }
  }

  lemma TracedMentionIsTraced(g: Graph, job: Job)
    requires job.MentionJob? && job.source.tenant.Text?
    ensures Traced(g, job) == TracedMention(g, job.source.tenant.value, job.resolution)
  {
  }

  lemma MutationCounts(job: Job)
    ensures |Mutations(job)| == match job
                                case NlpJob(_, _) => 5
                                case MentionJob(_, _) => 4
                                case RelationJob(_, _) => 9
                                case ClaimJob(_, _, _, _) => 4
  {
    hide NlpProperties, DocumentProperties, ArticleProperties, CommonProperties, EvidenceProperties, EntityProperties,
      MentionProperties, ClaimProperties, RelationProperties;
  }

  /**
   End to end: once all is delivered, however often and in whatever interleaving, the source of an
   article that was published can be taken down, and the takedown marks that article.
   */
  lemma TakedownReachesEveryArticle(published: seq<Message>, part: Partitioner, partitions: nat, steps: seq<Step>, job: Job, props: Props)
    requires FromPipeline(published) && job.NlpJob? && Identified(job)
    requires forall m :: m in Emit(job) ==> m in published
    requires forall m :: m in published ==> part(m.key) < partitions
    requires var logs := Logs(published, part, partitions);
             forall p :: 0 <= p < partitions ==> Execute(logs, steps).position[p] == |logs[p]|
    ensures var g := Execute(Logs(published, part, partitions), steps).graph;
            var tenant := job.source.tenant.value;
            StatusOf(Apply(g, Takedown(tenant, SourceId(job.nlp), props)), NodeKey(tenant, ArticleId(job.nlp.documentId)))
              == Some(Json("source_requested"))
  {
    hide FromPipeline, Emit, SourceId, ArticleId, Apply, ProjectAll, Execute, AddProps;
    PipelineConverges(published, part, partitions, steps);
    var g := CleanPass(published);
    CleanPassTraces(published, job);
    ReachableIsTenantClosed(EventsOf(published));
    var tenant := job.source.tenant.value;
    var k, article := NodeKey(tenant, SourceId(job.nlp)), NodeKey(tenant, ArticleId(job.nlp.documentId));
    var id :| EdgeKey(article, PUBLISHED, k, id) in g.edges;
    assert EdgeKey(article, PUBLISHED, k, id) in g.edges;
    assert article in PublishedTo(g, k);
    TakedownMarksExactly(g, Takedown(tenant, SourceId(job.nlp), props));
  }
}
