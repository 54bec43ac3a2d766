/**
 The graph mutations the pipeline's workers publish, each under its message key: the NLP pipeline's
 base mutations, entity resolution's mentions and relations, claim intelligence's claims. The key
 is determined by what the mutation writes.
 */
module GraphBuilders {
  import opened Outcomes
  import opened PythonText
  import opened GraphModel
  import opened GraphDelivery

  /** The consumed event: its tenant, its time, and the clock of the worker. */
  datatype Source = Source(tenant: Field<string>, occurredAt: Json, now: Json)

  datatype NlpPayload = NlpPayload(
    documentId: string, sourceId: Option<string>, canonicalUrl: Json, title: Json, cleanTextObjectUri: Json,
    publishedAt: Json, language: Json, topics: Json, embedding: Json, extractionModel: Json, extractionVersion: Json)

  datatype SpanEvidence = SpanEvidence(evidenceId: string, startOffset: Json, endOffset: Json, spanHash: Json)

  datatype Resolution = Resolution(
    mentionId: string, documentId: string, entityId: string, entityType: EntityType, displayName: string,
    normalizedName: Json, confidence: Json, status: Json, evidence: SpanEvidence,
    extractionModel: Json, extractionVersion: Json)

  datatype RelationPayload = RelationPayload(
    relationshipId: string, predicateName: string, subject: Resolution, object_: Resolution, confidence: Json,
    evidenceId: string, extractionModel: Json, extractionVersion: Json)

  datatype ClaimPayload = ClaimPayload(
    claimId: string, documentId: string, evidence: SpanEvidence, proposition: Json, confidence: Json,
    extractionModel: Json, extractionVersion: Json)

  datatype Job =
    | NlpJob(source: Source, nlp: NlpPayload)
    | MentionJob(source: Source, resolution: Resolution)
    | RelationJob(source: Source, relation: RelationPayload)
    | ClaimJob(source: Source, claim: ClaimPayload, clusterId: Json, normalized: Json)

  // ----- the builders -----

  /** Neither the takedown status nor the identifying id is among the properties. */
  predicate Innocent(props: Props) {
    TakedownStatus !in props && StableId !in props
  }

  function CommonProperties(source: Source): (r: Props)
    ensures Innocent(r)
  {
    map[
      TenantId := if source.tenant.Text? then Json(source.tenant.value) else NullValue,
      ObservedAt := source.occurredAt, CreatedAt := source.now, UpdatedAt := source.now]
  }

  function UpsertOf(m: Mutation, id: string, props: Props): Payload {
    Payload(Text(m), Text(id), Absent, Absent, Absent, Object(props))
  }

  function LinkOf(m: Mutation, id: string, source: string, target: string, props: Props): Payload {
    Payload(Text(m), Text(id), Absent, Text(source), Text(target), Object(props))
  }

  function ArticleId(documentId: string): string {
    "article:" + documentId
  }

  function SourceId(payload: NlpPayload): string {
    if payload.sourceId.Some? then payload.sourceId.value else "source:unknown"
  }

  function NlpProperties(source: Source, payload: NlpPayload): (r: Props)
    ensures Innocent(r)
  {
    CommonProperties(source) + map[ExtractionModel := payload.extractionModel, ExtractionVersion := payload.extractionVersion]
  }

  function DocumentProperties(source: Source, payload: NlpPayload): (r: Props)
    ensures Innocent(r)
  {
    hide CommonProperties, NlpProperties;
    NlpProperties(source, payload) + map[
      Status := Json("model_verified"), Confidence := Json("1.0"), CanonicalUrl := payload.canonicalUrl,
      Title := payload.title, CleanTextObjectUri := payload.cleanTextObjectUri]
  }

  function ArticleProperties(source: Source, payload: NlpPayload): (r: Props)
    ensures Innocent(r)
  {
    hide CommonProperties, NlpProperties;
    NlpProperties(source, payload) + map[
      DocumentId := Json(payload.documentId), Title := payload.title, CanonicalUrl := payload.canonicalUrl,
      PublishedAt := payload.publishedAt, Language := payload.language, Topics := payload.topics,
      Embedding := payload.embedding, Status := Json("model_verified")]
  }

  function GraphBaseMutations(source: Source, payload: NlpPayload): seq<(string, Payload)> {
    var documentId := payload.documentId;
    var articleId := ArticleId(documentId);
    var sourceId := SourceId(payload);
    var common := NlpProperties(source, payload);
    var published := "published:" + articleId + ":" + sourceId;
    var derived := "article-document:" + articleId + ":" + documentId;
    [ (documentId, UpsertOf(UpsertDocument, documentId, DocumentProperties(source, payload))),
      (articleId, UpsertOf(UpsertArticle, articleId, ArticleProperties(source, payload))),
      (sourceId, UpsertOf(UpsertSource, sourceId, common[Status := Json("active")])),
      (published, LinkOf(LinkPublished, published, articleId, sourceId, common)),
      (derived, LinkOf(LinkArticleDocument, derived, articleId, documentId, common)) ]
  }

  function EvidenceProperties(source: Source, documentId: string, evidence: SpanEvidence, confidence: Json): (r: Props)
    ensures Innocent(r)
  {
    hide CommonProperties;
    CommonProperties(source) + map[
      DocumentId := Json(documentId), StartOffset := evidence.startOffset, EndOffset := evidence.endOffset,
      SpanHash := evidence.spanHash, Kind := Json("model_extraction"), Confidence := confidence]
  }

  function EntityProperties(source: Source, r: Resolution): (props: Props)
    ensures Innocent(props)
  {
    hide CommonProperties;
    CommonProperties(source) + map[
      DisplayName := Json(r.displayName), NormalizedName := r.normalizedName, Confidence := r.confidence,
      Status := r.status, ExtractionModel := r.extractionModel, ExtractionVersion := r.extractionVersion]
  }

  function MentionProperties(source: Source, r: Resolution): (props: Props)
    ensures Innocent(props)
  {
    hide CommonProperties;
    CommonProperties(source) + map[
      MentionId := Json(r.mentionId), Confidence := r.confidence, Status := r.status,
      EvidenceId := Json(r.evidence.evidenceId)]
  }

  function GraphEvents(source: Source, r: Resolution): seq<(string, Payload)> {
    var articleId := ArticleId(r.documentId);
    var evidenceId := r.evidence.evidenceId;
    var supports := "evidence-entity:" + evidenceId + ":" + r.entityId;
    [ (r.entityId,
       UpsertOf(UpsertEntity, r.entityId, EntityProperties(source, r)).(entityType := Text(r.entityType))),
      (evidenceId,
       UpsertOf(UpsertEvidence, evidenceId, EvidenceProperties(source, r.documentId, r.evidence, r.confidence))),
      ("mentions:" + articleId + ":" + r.entityId + ":" + r.mentionId,
       LinkOf(LinkMentions, "mentions:" + r.mentionId, articleId, r.entityId, MentionProperties(source, r))),
      (supports,
       LinkOf(LinkEvidenceEntity, supports, evidenceId, r.entityId, CommonProperties(source)[Confidence := r.confidence])) ]
  }

  function PredicateMutation(name: string): Mutation {
    if name == "PARTNERED_WITH" then LinkPartneredWith
    else if name == "ACQUIRED" then LinkAcquired
    else if name == "INVESTED_IN" then LinkInvestedIn
    else if name == "COMPETES_WITH" then LinkCompetesWith
    else if name == "REGULATES" then LinkRegulates
    else if name == "AFFECTS" then LinkAffects
    else LinkRelatedTo
  }

  function RelationProperties(source: Source, payload: RelationPayload): (r: Props)
    ensures Innocent(r)
  {
    hide CommonProperties;
    CommonProperties(source) + map[
      Confidence := payload.confidence, Status := Json("candidate"), EvidenceId := Json(payload.evidenceId),
      ExtractionModel := payload.extractionModel, ExtractionVersion := payload.extractionVersion,
      ValidFrom := source.occurredAt]
  }

  function RelationMutation(source: Source, payload: RelationPayload): (string, Payload) {
    (payload.relationshipId,
     LinkOf(PredicateMutation(payload.predicateName), payload.relationshipId, payload.subject.entityId,
            payload.object_.entityId, RelationProperties(source, payload)))
  }

  function RelationGraphEvents(source: Source, payload: RelationPayload): seq<(string, Payload)> {
    GraphEvents(source, payload.subject) + GraphEvents(source, payload.object_) + [RelationMutation(source, payload)]
  }

  function ClaimProperties(source: Source, payload: ClaimPayload, clusterId: Json, normalized: Json): (r: Props)
    ensures Innocent(r)
  {
    hide CommonProperties;
    CommonProperties(source) + map[
      Proposition := payload.proposition, NormalizedProposition := normalized, ClusterId := clusterId,
      Confidence := payload.confidence, Status := Json("candidate"),
      ExtractionModel := payload.extractionModel, ExtractionVersion := payload.extractionVersion]
  }

  function GraphMutations(source: Source, payload: ClaimPayload, clusterId: Json, normalized: Json): seq<(string, Payload)> {
    var claimId := payload.claimId;
    var articleId := ArticleId(payload.documentId);
    var evidenceId := payload.evidence.evidenceId;
    var weighed := CommonProperties(source)[Confidence := payload.confidence];
    var makes := "article-claim:" + articleId + ":" + claimId;
    var supports := "evidence-claim:" + evidenceId + ":" + claimId;
    [ (claimId, UpsertOf(UpsertClaim, claimId, ClaimProperties(source, payload, clusterId, normalized))),
      (evidenceId,
       UpsertOf(UpsertEvidence, evidenceId, EvidenceProperties(source, payload.documentId, payload.evidence, payload.confidence))),
      (makes, LinkOf(LinkArticleClaim, makes, articleId, claimId, weighed)),
      (supports, LinkOf(LinkEvidenceClaim, supports, evidenceId, claimId, weighed)) ]
  }

  function Mutations(job: Job): seq<(string, Payload)> {
    match job
    case NlpJob(source, nlp) => GraphBaseMutations(source, nlp)
    case MentionJob(source, resolution) => GraphEvents(source, resolution)
    case RelationJob(source, relation) => RelationGraphEvents(source, relation)
    case ClaimJob(source, claim, clusterId, normalized) => GraphMutations(source, claim, clusterId, normalized)
  }

  function Sent(source: Source, keyed: (string, Payload)): Message {
    Message(keyed.0, Event(source.tenant, keyed.1))
  }

  /** The messages one consumed event leads to, in the order they are published. */
  function Emit(job: Job): (r: seq<Message>)
    ensures |r| == |Mutations(job)|
    ensures forall k :: 0 <= k < |r| ==> r[k] == Sent(job.source, Mutations(job)[k])
  {
    seq(|Mutations(job)|, k requires 0 <= k < |Mutations(job)| => Sent(job.source, Mutations(job)[k]))
  }

  // ----- the key belongs to what is written -----

  /** The key a statement's message travels under. Only mentions use a key longer than the stable id. */
  function KeyOf(s: Statement): string {
    if s.Link? && s.rel == MENTIONS && |s.id| >= 9
    then "mentions:" + s.source + ":" + s.target + ":" + s.id[9..]
    else s.id
  }

  /** What every published mutation keeps to: right key, no takedown, no takedown status, no stable id among its properties. */
  predicate Proper(m: Message) {
    match BuildStatement(m.event)
    case Ok(s) => m.key == KeyOf(s) && !s.Takedown? && Innocent(s.props)
    case Err(_) => true
  }

  /** A keyed payload fit for Proper, before the projector has looked at it. */
  predicate ProperPayload(key: string, payload: Payload) {
    && payload.Payload? && payload.mutation.Text? && payload.stableId.Text?
    && payload.mutation.value != MarkSourceTakedown
    && payload.properties.Object? && Innocent(payload.properties.props)
    && (if payload.mutation.value == LinkMentions
        then payload.fromId.Text? && payload.toId.Text? && |payload.stableId.value| >= 9
             && key == "mentions:" + payload.fromId.value + ":" + payload.toId.value + ":" + payload.stableId.value[9..]
        else key == payload.stableId.value)
  }

  lemma ProperPayloadIsProper(source: Source, key: string, payload: Payload)
    requires ProperPayload(key, payload)
    ensures Proper(Sent(source, (key, payload)))
  {
    hide Blank;
    var event := Event(source.tenant, payload);
    if BuildStatement(event).Ok? {
      var s := BuildStatement(event).value;
      assert s.Link? && s.rel == MENTIONS ==> payload.mutation.value == LinkMentions;
    }
  }

  predicate AllProperPayloads(mutations: seq<(string, Payload)>) {
    forall k :: 0 <= k < |mutations| ==> ProperPayload(mutations[k].0, mutations[k].1)
  }

  lemma NlpIsProper(source: Source, payload: NlpPayload)
    ensures AllProperPayloads(GraphBaseMutations(source, payload))
  {
    hide CommonProperties, NlpProperties, DocumentProperties, ArticleProperties;
  }

  lemma MentionIsProper(source: Source, r: Resolution)
    ensures AllProperPayloads(GraphEvents(source, r))
  {
    hide CommonProperties, EvidenceProperties, EntityProperties, MentionProperties;
    assert ("mentions:" + r.mentionId)[9..] == r.mentionId;
  }

  lemma RelationIsProper(source: Source, payload: RelationPayload)
    ensures AllProperPayloads(RelationGraphEvents(source, payload))
  {
    hide GraphEvents, RelationProperties;
    MentionIsProper(source, payload.subject);
    MentionIsProper(source, payload.object_);
    var m := RelationMutation(source, payload);
    assert ProperPayload(m.0, m.1);
  }

  lemma ClaimIsProper(source: Source, payload: ClaimPayload, clusterId: Json, normalized: Json)
    ensures AllProperPayloads(GraphMutations(source, payload, clusterId, normalized))
  {
    hide CommonProperties, EvidenceProperties, ClaimProperties;
  }

  /** Every message of every job is proper. */
  lemma EmitsProper(job: Job)
    ensures forall m :: m in Emit(job) ==> Proper(m)
  {
    hide GraphBaseMutations, GraphEvents, RelationGraphEvents, GraphMutations, Proper, ProperPayload;
    match job {
      case NlpJob(source, nlp) => NlpIsProper(source, nlp);
      case MentionJob(source, resolution) => MentionIsProper(source, resolution);
      case RelationJob(source, relation) => RelationIsProper(source, relation);
      case ClaimJob(source, claim, clusterId, normalized) => ClaimIsProper(source, claim, clusterId, normalized);
    }
    forall k | 0 <= k < |Emit(job)|
      ensures Proper(Emit(job)[k])
    {
      ProperPayloadIsProper(job.source, Mutations(job)[k].0, Mutations(job)[k].1);
    }
  }

  // ----- when the projector takes what is published -----

  /** The tenant and the ids a job works with are what the projector calls non-empty strings, its entity types are known. */
  predicate Identified(job: Job) {
    && job.source.tenant.Text? && !Blank(job.source.tenant.value)
    && match job
       case NlpJob(_, nlp) => !Blank(nlp.documentId) && !Blank(SourceId(nlp))
       case MentionJob(_, r) => IdentifiedMention(r)
       case RelationJob(_, relation) =>
         IdentifiedMention(relation.subject) && IdentifiedMention(relation.object_) && !Blank(relation.relationshipId)
       case ClaimJob(_, claim, _, _) => !Blank(claim.claimId) && !Blank(claim.evidence.evidenceId)
  }

  predicate IdentifiedMention(r: Resolution) {
    !Blank(r.entityId) && !r.entityType.OtherEntity? && !Blank(r.evidence.evidenceId)
  }

  predicate Accepted(m: Message) {
    BuildStatement(m.event).Ok?
  }

  /** A string that starts with a visible character is not blank, whatever follows. */
  lemma VisibleIsNotBlank(s: string)
    requires |s| > 0 && !IsSpace(s[0])
    ensures !Blank(s)
  {
  }

  lemma UpsertAccepted(source: Source, key: string, m: Mutation, id: string, props: Props)
    requires NodeLabels(m).Some?
    ensures Accepted(Sent(source, (key, UpsertOf(m, id, props)))) <==> source.tenant.Text? && !Blank(source.tenant.value) && !Blank(id)
  {
    hide Blank;
  }

  lemma LinkAccepted(source: Source, key: string, m: Mutation, id: string, a: string, b: string, props: Props)
    requires RelationshipType(m).Some?
    ensures Accepted(Sent(source, (key, LinkOf(m, id, a, b, props)))) <==>
            source.tenant.Text? && !Blank(source.tenant.value) && !Blank(id) && !Blank(a) && !Blank(b)
  {
    hide Blank;
  }

  predicate AllAccepted(source: Source, mutations: seq<(string, Payload)>) {
    forall k :: 0 <= k < |mutations| ==> Accepted(Sent(source, mutations[k]))
  }

  predicate Tenanted(source: Source) {
    source.tenant.Text? && !Blank(source.tenant.value)
  }

  lemma NlpAccepted(source: Source, payload: NlpPayload)
    ensures AllAccepted(source, GraphBaseMutations(source, payload)) <==>
            Tenanted(source) && !Blank(payload.documentId) && !Blank(SourceId(payload))
  {
    hide Blank, Accepted, CommonProperties, NlpProperties, DocumentProperties, ArticleProperties, SourceId;
    var r := GraphBaseMutations(source, payload);
    VisibleIsNotBlank(r[1].1.stableId.value);
    VisibleIsNotBlank(r[3].1.stableId.value);
    VisibleIsNotBlank(r[4].1.stableId.value);
    UpsertAccepted(source, r[0].0, UpsertDocument, payload.documentId, r[0].1.properties.props);
    UpsertAccepted(source, r[1].0, UpsertArticle, ArticleId(payload.documentId), r[1].1.properties.props);
    UpsertAccepted(source, r[2].0, UpsertSource, SourceId(payload), r[2].1.properties.props);
    LinkAccepted(source, r[3].0, LinkPublished, r[3].0, ArticleId(payload.documentId), SourceId(payload), r[3].1.properties.props);
    LinkAccepted(source, r[4].0, LinkArticleDocument, r[4].0, ArticleId(payload.documentId), payload.documentId, r[4].1.properties.props);
    assert AllAccepted(source, r) <==> forall k: nat :: k < 5 ==> Accepted(Sent(source, r[k]));
  }

  lemma EntityAccepted(source: Source, r: Resolution)
    ensures Accepted(Sent(source, GraphEvents(source, r)[0])) ==> Tenanted(source) && !Blank(r.entityId) && !r.entityType.OtherEntity?
    ensures Tenanted(source) && !Blank(r.entityId) && !r.entityType.OtherEntity? ==> Accepted(Sent(source, GraphEvents(source, r)[0]))
  {
    hide Blank, CommonProperties, EvidenceProperties, EntityProperties, MentionProperties;
  }

  lemma MentionAccepted(source: Source, r: Resolution)
    ensures AllAccepted(source, GraphEvents(source, r)) <==> Tenanted(source) && IdentifiedMention(r)
  {
    hide Blank, Accepted, CommonProperties, EvidenceProperties, EntityProperties, MentionProperties;
    var e := GraphEvents(source, r);
    var evidenceId := r.evidence.evidenceId;
    EntityAccepted(source, r);
    VisibleIsNotBlank(ArticleId(r.documentId));
    VisibleIsNotBlank(e[2].1.stableId.value);
    VisibleIsNotBlank(e[3].1.stableId.value);
    UpsertAccepted(source, e[1].0, UpsertEvidence, evidenceId, e[1].1.properties.props);
    LinkAccepted(source, e[2].0, LinkMentions, e[2].1.stableId.value, ArticleId(r.documentId), r.entityId, e[2].1.properties.props);
    LinkAccepted(source, e[3].0, LinkEvidenceEntity, e[3].0, evidenceId, r.entityId, e[3].1.properties.props);
    assert AllAccepted(source, e) <==> forall k: nat :: k < 4 ==> Accepted(Sent(source, e[k]));
  }

  lemma AllAcceptedConcat(source: Source, a: seq<(string, Payload)>, b: seq<(string, Payload)>)
    ensures AllAccepted(source, a + b) <==> AllAccepted(source, a) && AllAccepted(source, b)
  {
    hide Accepted;
    if AllAccepted(source, a + b) {
      forall k | 0 <= k < |a|
        ensures Accepted(Sent(source, a[k]))
      {
        assert (a + b)[k] == a[k];
      }
      forall k | 0 <= k < |b|
        ensures Accepted(Sent(source, b[k]))
      {
        assert (a + b)[|a| + k] == b[k];
      }
    }
  }

  lemma RelationAccepted(source: Source, payload: RelationPayload)
    ensures AllAccepted(source, RelationGraphEvents(source, payload)) <==>
            && Tenanted(source) && IdentifiedMention(payload.subject) && IdentifiedMention(payload.object_)
            && !Blank(payload.relationshipId)
  {
    hide Blank, Accepted, CommonProperties, GraphEvents, RelationProperties;
    var a, b, c := GraphEvents(source, payload.subject), GraphEvents(source, payload.object_), [RelationMutation(source, payload)];
    AllAcceptedConcat(source, a + b, c);
    AllAcceptedConcat(source, a, b);
    MentionAccepted(source, payload.subject);
    MentionAccepted(source, payload.object_);
    LinkAccepted(source, c[0].0, PredicateMutation(payload.predicateName), payload.relationshipId,
                 payload.subject.entityId, payload.object_.entityId, c[0].1.properties.props);
    assert AllAccepted(source, c) <==> Accepted(Sent(source, c[0]));
  }

  lemma ClaimAccepted(source: Source, payload: ClaimPayload, clusterId: Json, normalized: Json)
    ensures AllAccepted(source, GraphMutations(source, payload, clusterId, normalized)) <==>
            Tenanted(source) && !Blank(payload.claimId) && !Blank(payload.evidence.evidenceId)
  {
    hide Blank, Accepted, CommonProperties, EvidenceProperties, ClaimProperties;
    var r := GraphMutations(source, payload, clusterId, normalized);
    var claimId, evidenceId := payload.claimId, payload.evidence.evidenceId;
    VisibleIsNotBlank(ArticleId(payload.documentId));
    VisibleIsNotBlank(r[2].0);
    VisibleIsNotBlank(r[3].0);
    UpsertAccepted(source, r[0].0, UpsertClaim, claimId, r[0].1.properties.props);
    UpsertAccepted(source, r[1].0, UpsertEvidence, evidenceId, r[1].1.properties.props);
    LinkAccepted(source, r[2].0, LinkArticleClaim, r[2].0, ArticleId(payload.documentId), claimId, r[2].1.properties.props);
    LinkAccepted(source, r[3].0, LinkEvidenceClaim, r[3].0, evidenceId, claimId, r[3].1.properties.props);
    assert AllAccepted(source, r) <==> forall k: nat :: k < 4 ==> Accepted(Sent(source, r[k]));
  }

  /** The projector takes every mutation of a job exactly when the job's own ids are there and its entity types are known. */
  lemma AcceptedExactlyWhenIdentified(job: Job)
    ensures (forall m :: m in Emit(job) ==> Accepted(m)) <==> Identified(job)
  {
    hide Blank, Accepted, GraphBaseMutations, GraphEvents, RelationGraphEvents, GraphMutations, SourceId, IdentifiedMention;
    match job {
      case NlpJob(source, nlp) => NlpAccepted(source, nlp);
      case MentionJob(source, resolution) => MentionAccepted(source, resolution);
      case RelationJob(source, relation) => RelationAccepted(source, relation);
      case ClaimJob(source, claim, clusterId, normalized) => ClaimAccepted(source, claim, clusterId, normalized);
    }
    assert Identified(job) <==> AllAccepted(job.source, Mutations(job));
    forall k | 0 <= k < |Emit(job)|
      ensures Accepted(Emit(job)[k]) <==> Accepted(Sent(job.source, Mutations(job)[k]))
      ensures Emit(job)[k] in Emit(job)
    {
    }
  }
}
