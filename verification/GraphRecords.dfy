/**
 What a delivered job leaves in each property of each node and edge it writes: a table of cells and the
 payload fields they hold, for as long as no later message writes the cell.
 */
module GraphRecords {
  import opened Outcomes
  import opened PythonText
  import opened GraphModel
  import opened GraphDelivery
  import opened GraphBuilders
  import opened GraphPipeline

  /** A node or an edge. */
  datatype Place = AtNode(node: NodeKey) | AtEdge(edge: EdgeKey)

  function CellAt(at: Place, p: Prop): Cell {
    match at
    case AtNode(n) => NodeCell(n, p)
    case AtEdge(e) => EdgeCell(e, p)
  }

  /** Wherever the message was published and nothing after it writes the cell, the graph holds the value there; null is no property. */
  ghost predicate Shown(g: Graph, published: seq<Message>, m: Message, c: Cell, v: Json) {
    forall k: nat | k < |published| && published[k] == m && Quiet(published, k + 1, c) :: Read(g, c) == if v == NullValue then None else Some(v)
  }

  /** The message writes exactly the properties of the table, at this place, and the graph shows them. */
  ghost predicate Records(g: Graph, published: seq<Message>, m: Message, at: Place, table: Props) {
    && (forall c :: Writes(m, c) <==> exists p :: p in table && c == CellAt(at, p))
    && forall p :: p in table ==> Shown(g, published, m, CellAt(at, p), table[p])
  }

  // ----- the table -----

  function Edge(tenant: string, source: string, rel: Rel, target: string, id: string): Place {
    AtEdge(EdgeKey(NodeKey(tenant, source), rel, NodeKey(tenant, target), id))
  }

  function Node(tenant: string, id: string): Place {
    AtNode(NodeKey(tenant, id))
  }

  /** On every node: when the event occurred, and when the worker wrote it. */
  function Times(s: Source): Props {
    map[ObservedAt := s.occurredAt, CreatedAt := s.now, UpdatedAt := s.now]
  }

  /** On every edge the tenant too, which on a node is part of its key. */
  function Stamp(tenant: string, s: Source): Props {
    map[TenantId := Json(tenant)] + Times(s)
  }

  ghost predicate DocumentRecorded(g: Graph, published: seq<Message>, m: Message, tenant: string, s: Source, nlp: NlpPayload) {
    Records(g, published, m, Node(tenant, nlp.documentId), Times(s) + map[
      ExtractionModel := nlp.extractionModel, ExtractionVersion := nlp.extractionVersion] + map[
      Status := Json("model_verified"), Confidence := Json("1.0"),
      CanonicalUrl := nlp.canonicalUrl, Title := nlp.title, CleanTextObjectUri := nlp.cleanTextObjectUri])
  }

  ghost predicate ArticleRecorded(g: Graph, published: seq<Message>, m: Message, tenant: string, s: Source, nlp: NlpPayload) {
    Records(g, published, m, Node(tenant, "article:" + nlp.documentId), Times(s) + map[
      ExtractionModel := nlp.extractionModel, ExtractionVersion := nlp.extractionVersion] + map[
      DocumentId := Json(nlp.documentId), Title := nlp.title, CanonicalUrl := nlp.canonicalUrl,
      PublishedAt := nlp.publishedAt, Language := nlp.language, Topics := nlp.topics, Embedding := nlp.embedding,
      Status := Json("model_verified")])
  }

  /** The source a document names, or the unknown one. */
  function Named(sourceId: Option<string>): string {
    match sourceId
    case Some(id) => id
    case None => "source:unknown"
  }

  ghost predicate SourceRecorded(g: Graph, published: seq<Message>, m: Message, tenant: string, s: Source, nlp: NlpPayload) {
    Records(g, published, m, Node(tenant, Named(nlp.sourceId)), Times(s) + map[
      ExtractionModel := nlp.extractionModel, ExtractionVersion := nlp.extractionVersion] + map[Status := Json("active")])
  }

  /** The two links of an article carry the tenant, the times and the model, and no more. */
  ghost predicate NlpLinkRecorded(g: Graph, published: seq<Message>, m: Message, tenant: string, s: Source, nlp: NlpPayload, at: Place) {
    Records(g, published, m, at, Stamp(tenant, s) + map[
      ExtractionModel := nlp.extractionModel, ExtractionVersion := nlp.extractionVersion])
  }

  ghost predicate EvidenceRecorded(g: Graph, published: seq<Message>, m: Message, tenant: string, s: Source,
                                   documentId: string, evidence: SpanEvidence, confidence: Json) {
    Records(g, published, m, Node(tenant, evidence.evidenceId), Times(s) + map[
      DocumentId := Json(documentId), StartOffset := evidence.startOffset, EndOffset := evidence.endOffset,
      SpanHash := evidence.spanHash, Kind := Json("model_extraction"), Confidence := confidence])
  }

  ghost predicate EntityRecorded(g: Graph, published: seq<Message>, m: Message, tenant: string, s: Source, r: Resolution) {
    Records(g, published, m, Node(tenant, r.entityId), Times(s) + map[
      DisplayName := Json(r.displayName), NormalizedName := r.normalizedName, Confidence := r.confidence, Status := r.status,
      ExtractionModel := r.extractionModel, ExtractionVersion := r.extractionVersion])
  }

  ghost predicate MentionRecorded(g: Graph, published: seq<Message>, m: Message, tenant: string, s: Source, r: Resolution) {
    Records(g, published, m, Edge(tenant, "article:" + r.documentId, MENTIONS, r.entityId, "mentions:" + r.mentionId), Stamp(tenant, s) + map[
      MentionId := Json(r.mentionId), Confidence := r.confidence, Status := r.status, EvidenceId := Json(r.evidence.evidenceId)])
  }

  /** Evidence links and the link from an article to a claim carry the tenant, the times and a confidence. */
  ghost predicate WeighedLinkRecorded(g: Graph, published: seq<Message>, m: Message, tenant: string, s: Source, confidence: Json, at: Place) {
    Records(g, published, m, at, Stamp(tenant, s) + map[Confidence := confidence])
  }

  ghost predicate RelationRecorded(g: Graph, published: seq<Message>, m: Message, tenant: string, s: Source, r: RelationPayload) {
    Records(g, published, m, Edge(tenant, r.subject.entityId, RelNamed(r.predicateName), r.object_.entityId, r.relationshipId), Stamp(tenant, s) + map[
      Confidence := r.confidence, Status := Json("candidate"), EvidenceId := Json(r.evidenceId),
      ExtractionModel := r.extractionModel, ExtractionVersion := r.extractionVersion, ValidFrom := s.occurredAt])
  }

  ghost predicate ClaimRecorded(g: Graph, published: seq<Message>, m: Message, tenant: string, s: Source, claim: ClaimPayload,
                                clusterId: Json, normalized: Json) {
    Records(g, published, m, Node(tenant, claim.claimId), Times(s) + map[
      Proposition := claim.proposition, NormalizedProposition := normalized, ClusterId := clusterId,
      Confidence := claim.confidence, Status := Json("candidate"),
      ExtractionModel := claim.extractionModel, ExtractionVersion := claim.extractionVersion])
  }

  ghost predicate NlpRecorded(g: Graph, published: seq<Message>, ms: seq<Message>, tenant: string, s: Source, nlp: NlpPayload) {
    var document, article, from := nlp.documentId, "article:" + nlp.documentId, Named(nlp.sourceId);
    && |ms| == 5
    && DocumentRecorded(g, published, ms[0], tenant, s, nlp)
    && ArticleRecorded(g, published, ms[1], tenant, s, nlp)
    && SourceRecorded(g, published, ms[2], tenant, s, nlp)
    && NlpLinkRecorded(g, published, ms[3], tenant, s, nlp, Edge(tenant, article, PUBLISHED, from, "published:" + article + ":" + from))
    && NlpLinkRecorded(g, published, ms[4], tenant, s, nlp,
                       Edge(tenant, article, DERIVED_FROM, document, "article-document:" + article + ":" + document))
  }

  ghost predicate ResolutionRecorded(g: Graph, published: seq<Message>, ms: seq<Message>, tenant: string, s: Source, r: Resolution) {
    && |ms| == 4
    && EntityRecorded(g, published, ms[0], tenant, s, r)
    && EvidenceRecorded(g, published, ms[1], tenant, s, r.documentId, r.evidence, r.confidence)
    && MentionRecorded(g, published, ms[2], tenant, s, r)
    && WeighedLinkRecorded(g, published, ms[3], tenant, s, r.confidence,
                           Edge(tenant, r.evidence.evidenceId, EVIDENCE_FOR, r.entityId, "evidence-entity:" + r.evidence.evidenceId + ":" + r.entityId))
  }

  ghost predicate AssertionRecorded(g: Graph, published: seq<Message>, ms: seq<Message>, tenant: string, s: Source, claim: ClaimPayload,
                                    clusterId: Json, normalized: Json) {
    var article, evidence := "article:" + claim.documentId, claim.evidence.evidenceId;
    && |ms| == 4
    && ClaimRecorded(g, published, ms[0], tenant, s, claim, clusterId, normalized)
    && EvidenceRecorded(g, published, ms[1], tenant, s, claim.documentId, claim.evidence, claim.confidence)
    && WeighedLinkRecorded(g, published, ms[2], tenant, s, claim.confidence,
                           Edge(tenant, article, MAKES_CLAIM, claim.claimId, "article-claim:" + article + ":" + claim.claimId))
    && WeighedLinkRecorded(g, published, ms[3], tenant, s, claim.confidence,
                           Edge(tenant, evidence, EVIDENCE_FOR, claim.claimId, "evidence-claim:" + evidence + ":" + claim.claimId))
  }

  /** The table of a job's cells, message by message. */
  ghost predicate Recorded(g: Graph, published: seq<Message>, job: Job)
    requires job.source.tenant.Text?
  {
    var ms, tenant := Emit(job), job.source.tenant.value;
    match job
    case NlpJob(s, nlp) => NlpRecorded(g, published, ms, tenant, s, nlp)
    case MentionJob(s, r) => ResolutionRecorded(g, published, ms, tenant, s, r)
    case RelationJob(s, r) =>
      && |ms| == 9 && ResolutionRecorded(g, published, ms[..4], tenant, s, r.subject) && ResolutionRecorded(g, published, ms[4..8], tenant, s, r.object_)
      && RelationRecorded(g, published, ms[8], tenant, s, r)
    case ClaimJob(s, claim, clusterId, normalized) => AssertionRecorded(g, published, ms, tenant, s, claim, clusterId, normalized)
  }

  // ----- the last writer decides -----

  lemma LastWriterDecides(published: seq<Message>, k: nat, c: Cell, v: Option<Json>)
    requires AllMergeable(published) && k < |published| && Write(published[k].event, c) == Some(v) && Quiet(published, k + 1, c)
    ensures Read(CleanPass(published), c) == v
  {
    hide Write, CleanPass, AllMergeable, Read, LastWrite;
    LastWriteQuiet(published, k + 1, |published|, c);
    assert published[..|published|] == published;
    LastWriteNext(published, k, c);
    CleanPassMeans(published, c, HasNode(NodeKey("", "")));
  }

  lemma IsShown(published: seq<Message>, m: Message, c: Cell, v: Json)
    requires AllMergeable(published) && Write(m.event, c) == Some(Overwritten(v))
    ensures Shown(CleanPass(published), published, m, c, v)
  {
    hide Write, CleanPass, AllMergeable, Read;
    forall k: nat | k < |published| && published[k] == m && Quiet(published, k + 1, c)
      ensures Read(CleanPass(published), c) == Overwritten(v)
    {
      LastWriterDecides(published, k, c, Overwritten(v));
    }
  }

  lemma UpsertRecorded(published: seq<Message>, m: Message, tenant: string, id: string, labels: set<Label>, props: Props, table: Props)
    requires AllMergeable(published) && BuildStatement(m.event) == Ok(Upsert(tenant, id, labels, props)) && Stored(props) == table
    ensures Records(CleanPass(published), published, m, Node(tenant, id), table)
  {
    hide BuildStatement, CleanPass, AllMergeable, Stored, Shown;
    forall p | p in table
      ensures Shown(CleanPass(published), published, m, CellAt(Node(tenant, id), p), table[p])
    {
      IsShown(published, m, CellAt(Node(tenant, id), p), table[p]);
    }
    forall c
      ensures Writes(m, c) <==> exists p :: p in table && c == CellAt(Node(tenant, id), p)
    {
      if Writes(m, c) {
        assert c.prop in table && c == CellAt(Node(tenant, id), c.prop);
      }
    }
  }

  lemma LinkRecorded(published: seq<Message>, m: Message, tenant: string, id: string, rel: Rel, source: string, target: string, table: Props)
    requires AllMergeable(published) && BuildStatement(m.event) == Ok(Link(tenant, id, rel, source, target, table))
    ensures Records(CleanPass(published), published, m, Edge(tenant, source, rel, target, id), table)
  {
    hide BuildStatement, CleanPass, AllMergeable, Shown;
    var at := Edge(tenant, source, rel, target, id);
    forall p | p in table
      ensures Shown(CleanPass(published), published, m, CellAt(at, p), table[p])
    {
      IsShown(published, m, CellAt(at, p), table[p]);
    }
    forall c
      ensures Writes(m, c) <==> exists p :: p in table && c == CellAt(at, p)
    {
      if Writes(m, c) {
        assert c.prop in table && c == CellAt(at, c.prop);
      }
    }
  }

  // ----- the builders' messages -----

  /** An accepted upsert writes its properties but the tenant, which is part of the node's key. */
  lemma UpsertShows(published: seq<Message>, s: Source, key: string, m: Mutation, id: string, props: Props, table: Props)
    requires AllMergeable(published) && NodeLabels(m).Some? && Accepted(Sent(s, (key, UpsertOf(m, id, props))))
    requires Innocent(props) && table == props - {TenantId}
    ensures s.tenant.Text?
    ensures Records(CleanPass(published), published, Sent(s, (key, UpsertOf(m, id, props))), Node(s.tenant.value, id), table)
  {
    hide Blank, CleanPass, AllMergeable, Records, Stored;
    var tenant, stored := s.tenant.value, props[TenantId := Json(s.tenant.value)];
    assert Stored(stored) == table;
    UpsertRecorded(published, Sent(s, (key, UpsertOf(m, id, props))), tenant, id, NodeLabels(m).value, stored, table);
  }

  lemma LinkShows(published: seq<Message>, s: Source, key: string, m: Mutation, id: string, a: string, b: string, props: Props, table: Props)
    requires AllMergeable(published) && RelationshipType(m).Some? && Accepted(Sent(s, (key, LinkOf(m, id, a, b, props))))
    requires s.tenant.Text? && table == props[TenantId := Json(s.tenant.value)]
    ensures Records(CleanPass(published), published, Sent(s, (key, LinkOf(m, id, a, b, props))),
                    Edge(s.tenant.value, a, RelationshipType(m).value, b, id), table)
  {
    hide Blank, CleanPass, AllMergeable, Records;
    LinkRecorded(published, Sent(s, (key, LinkOf(m, id, a, b, props))), s.tenant.value, id, RelationshipType(m).value, a, b, table);
  }

  lemma TimesAre(s: Source, more: Props)
    requires s.tenant.Text? && TenantId !in more
    ensures (CommonProperties(s) + more) - {TenantId} == Times(s) + more
    ensures (CommonProperties(s) + more)[TenantId := Json(s.tenant.value)] == Stamp(s.tenant.value, s) + more
  {
  }

  lemma ModelTimesAre(s: Source, nlp: NlpPayload, more: Props)
    requires s.tenant.Text? && TenantId !in more
    ensures var model := map[ExtractionModel := nlp.extractionModel, ExtractionVersion := nlp.extractionVersion];
            && (NlpProperties(s, nlp) + more) - {TenantId} == Times(s) + model + more
            && (NlpProperties(s, nlp) + more)[TenantId := Json(s.tenant.value)] == Stamp(s.tenant.value, s) + model + more
  {
    hide CommonProperties, Times, Stamp;
    var model := map[ExtractionModel := nlp.extractionModel, ExtractionVersion := nlp.extractionVersion];
    TimesAre(s, model + more);
    Associates(CommonProperties(s), model, more);
    Associates(Times(s), model, more);
    Associates(Stamp(s.tenant.value, s), model, more);
  }

  lemma Associates(a: Props, b: Props, c: Props)
    ensures a + (b + c) == a + b + c
  {
  }

  function Modelled(nlp: NlpPayload): Props {
    map[ExtractionModel := nlp.extractionModel, ExtractionVersion := nlp.extractionVersion]
  }

  lemma DocumentShows(published: seq<Message>, s: Source, nlp: NlpPayload)
    requires AllMergeable(published) && s.tenant.Text? && Accepted(Sent(s, GraphBaseMutations(s, nlp)[0]))
    ensures DocumentRecorded(CleanPass(published), published, Sent(s, GraphBaseMutations(s, nlp)[0]), s.tenant.value, s, nlp)
  {
    hide Accepted, CleanPass, AllMergeable, Records, NlpProperties, CommonProperties, Times, Stamp;
    var own := map[Status := Json("model_verified"), Confidence := Json("1.0"),
                   CanonicalUrl := nlp.canonicalUrl, Title := nlp.title, CleanTextObjectUri := nlp.cleanTextObjectUri];
    ModelTimesAre(s, nlp, own);
    UpsertShows(published, s, nlp.documentId, UpsertDocument, nlp.documentId, DocumentProperties(s, nlp), Times(s) + Modelled(nlp) + own);
  }

  lemma ArticleShows(published: seq<Message>, s: Source, nlp: NlpPayload)
    requires AllMergeable(published) && s.tenant.Text? && Accepted(Sent(s, GraphBaseMutations(s, nlp)[1]))
    ensures ArticleRecorded(CleanPass(published), published, Sent(s, GraphBaseMutations(s, nlp)[1]), s.tenant.value, s, nlp)
  {
    hide Accepted, CleanPass, AllMergeable, Records, NlpProperties, CommonProperties, Times, Stamp;
    var id := "article:" + nlp.documentId;
    var own := map[DocumentId := Json(nlp.documentId), Title := nlp.title, CanonicalUrl := nlp.canonicalUrl,
                   PublishedAt := nlp.publishedAt, Language := nlp.language, Topics := nlp.topics, Embedding := nlp.embedding,
                   Status := Json("model_verified")];
    ModelTimesAre(s, nlp, own);
    UpsertShows(published, s, id, UpsertArticle, id, ArticleProperties(s, nlp), Times(s) + Modelled(nlp) + own);
  }

  lemma SourceShows(published: seq<Message>, s: Source, nlp: NlpPayload)
    requires AllMergeable(published) && s.tenant.Text? && Accepted(Sent(s, GraphBaseMutations(s, nlp)[2]))
    ensures SourceRecorded(CleanPass(published), published, Sent(s, GraphBaseMutations(s, nlp)[2]), s.tenant.value, s, nlp)
  {
    hide Accepted, CleanPass, AllMergeable, Records, NlpProperties, CommonProperties, Times, Stamp, DocumentProperties, ArticleProperties;
    var id, own := Named(nlp.sourceId), map[Status := Json("active")];
    ModelTimesAre(s, nlp, own);
    var props := NlpProperties(s, nlp)[Status := Json("active")];
    assert props == NlpProperties(s, nlp) + own;
    UpsertShows(published, s, id, UpsertSource, id, props, Times(s) + Modelled(nlp) + own);
  }

  lemma NlpLinkShows(published: seq<Message>, s: Source, nlp: NlpPayload, m: Mutation, id: string, target: string)
    requires AllMergeable(published) && s.tenant.Text? && RelationshipType(m).Some?
    requires Accepted(Sent(s, (id, LinkOf(m, id, "article:" + nlp.documentId, target, NlpProperties(s, nlp)))))
    ensures NlpLinkRecorded(CleanPass(published), published, Sent(s, (id, LinkOf(m, id, "article:" + nlp.documentId, target, NlpProperties(s, nlp)))),
                            s.tenant.value, s, nlp, Edge(s.tenant.value, "article:" + nlp.documentId, RelationshipType(m).value, target, id))
  {
    hide Accepted, CleanPass, AllMergeable, Records, NlpProperties, CommonProperties, Times, Stamp;
    ModelTimesAre(s, nlp, map[]);
    assert NlpProperties(s, nlp) + map[] == NlpProperties(s, nlp);
    var table := Stamp(s.tenant.value, s) + Modelled(nlp);
    assert table + map[] == table;
    LinkShows(published, s, id, m, id, "article:" + nlp.documentId, target, NlpProperties(s, nlp), table);
  }

  lemma NlpShows(published: seq<Message>, s: Source, nlp: NlpPayload, ms: seq<Message>)
    requires AllMergeable(published) && AllAccepted(s, GraphBaseMutations(s, nlp)) && s.tenant.Text?
    requires |ms| == 5 && forall k :: 0 <= k < 5 ==> ms[k] == Sent(s, GraphBaseMutations(s, nlp)[k])
    ensures NlpRecorded(CleanPass(published), published, ms, s.tenant.value, s, nlp)
  {
    hide Accepted, CleanPass, AllMergeable, NlpProperties, DocumentProperties, ArticleProperties;
    hide DocumentRecorded, ArticleRecorded, SourceRecorded, NlpLinkRecorded;
    var document, article, from := nlp.documentId, "article:" + nlp.documentId, Named(nlp.sourceId);
    var e := GraphBaseMutations(s, nlp);
    assert Accepted(Sent(s, e[0])) && Accepted(Sent(s, e[1])) && Accepted(Sent(s, e[2])) && Accepted(Sent(s, e[3])) && Accepted(Sent(s, e[4]));
    DocumentShows(published, s, nlp);
    ArticleShows(published, s, nlp);
    SourceShows(published, s, nlp);
    assert SourceId(nlp) == from;
    NlpLinkShows(published, s, nlp, LinkPublished, "published:" + article + ":" + from, from);
    NlpLinkShows(published, s, nlp, LinkArticleDocument, "article-document:" + article + ":" + document, document);
  }

  // ----- resolutions and relations -----

  lemma EntityShows(published: seq<Message>, s: Source, r: Resolution)
    requires AllMergeable(published) && s.tenant.Text? && Accepted(Sent(s, GraphEvents(s, r)[0]))
    ensures EntityRecorded(CleanPass(published), published, Sent(s, GraphEvents(s, r)[0]), s.tenant.value, s, r)
  {
    hide Accepted, CleanPass, AllMergeable, Records, CommonProperties, Times, Stamp, Stored, GraphEvents, BuildStatement;
    EntityStatement(s, r);
    var own := map[DisplayName := Json(r.displayName), NormalizedName := r.normalizedName, Confidence := r.confidence, Status := r.status,
                   ExtractionModel := r.extractionModel, ExtractionVersion := r.extractionVersion];
    TimesAre(s, own);
    var table, props := Times(s) + own, EntityProperties(s, r);
    TenantIsKey(props, s.tenant.value, table);
    UpsertRecorded(published, Sent(s, GraphEvents(s, r)[0]), s.tenant.value, r.entityId, {Entity, TypeLabel(r.entityType)},
                   props[TenantId := Json(s.tenant.value)], table);
  }

  lemma EntityStatement(s: Source, r: Resolution)
    requires s.tenant.Text? && Accepted(Sent(s, GraphEvents(s, r)[0]))
    ensures |GraphEvents(s, r)| == 4
    ensures BuildStatement(Sent(s, GraphEvents(s, r)[0]).event) ==
            Ok(Upsert(s.tenant.value, r.entityId, {Entity, TypeLabel(r.entityType)}, EntityProperties(s, r)[TenantId := Json(s.tenant.value)]))
  {
    hide Blank, EvidenceProperties, EntityProperties, MentionProperties, CommonProperties;
  }

  lemma TenantIsKey(props: Props, tenant: string, table: Props)
    requires Innocent(props) && table == props - {TenantId}
    ensures Stored(props[TenantId := Json(tenant)]) == table
  {
    hide Stored;
  }

  lemma EvidenceShows(published: seq<Message>, s: Source, documentId: string, evidence: SpanEvidence, confidence: Json)
    requires AllMergeable(published) && s.tenant.Text?
    requires var id := evidence.evidenceId;
             Accepted(Sent(s, (id, UpsertOf(UpsertEvidence, id, EvidenceProperties(s, documentId, evidence, confidence)))))
    ensures var id := evidence.evidenceId;
            EvidenceRecorded(CleanPass(published), published,
                             Sent(s, (id, UpsertOf(UpsertEvidence, id, EvidenceProperties(s, documentId, evidence, confidence)))),
                             s.tenant.value, s, documentId, evidence, confidence)
  {
    hide Accepted, CleanPass, AllMergeable, Records, CommonProperties, Times, Stamp;
    var id := evidence.evidenceId;
    var own := map[DocumentId := Json(documentId), StartOffset := evidence.startOffset, EndOffset := evidence.endOffset,
                   SpanHash := evidence.spanHash, Kind := Json("model_extraction"), Confidence := confidence];
    TimesAre(s, own);
    UpsertShows(published, s, id, UpsertEvidence, id, EvidenceProperties(s, documentId, evidence, confidence), Times(s) + own);
  }

  lemma MentionShows(published: seq<Message>, s: Source, r: Resolution)
    requires AllMergeable(published) && s.tenant.Text? && Accepted(Sent(s, GraphEvents(s, r)[2]))
    ensures MentionRecorded(CleanPass(published), published, Sent(s, GraphEvents(s, r)[2]), s.tenant.value, s, r)
  {
    hide Accepted, CleanPass, AllMergeable, Records, CommonProperties, Times, Stamp, EvidenceProperties, EntityProperties;
    var article := "article:" + r.documentId;
    var own := map[MentionId := Json(r.mentionId), Confidence := r.confidence, Status := r.status,
                   EvidenceId := Json(r.evidence.evidenceId)];
    TimesAre(s, own);
    LinkShows(published, s, "mentions:" + article + ":" + r.entityId + ":" + r.mentionId, LinkMentions, "mentions:" + r.mentionId,
              article, r.entityId, MentionProperties(s, r), Stamp(s.tenant.value, s) + own);
  }

  lemma WeighedLinkShows(published: seq<Message>, s: Source, m: Mutation, id: string, a: string, b: string, confidence: Json)
    requires AllMergeable(published) && s.tenant.Text? && RelationshipType(m).Some?
    requires Accepted(Sent(s, (id, LinkOf(m, id, a, b, CommonProperties(s)[Confidence := confidence]))))
    ensures WeighedLinkRecorded(CleanPass(published), published, Sent(s, (id, LinkOf(m, id, a, b, CommonProperties(s)[Confidence := confidence]))),
                                s.tenant.value, s, confidence, Edge(s.tenant.value, a, RelationshipType(m).value, b, id))
  {
    hide Accepted, CleanPass, AllMergeable, Records, CommonProperties, Times, Stamp;
    var own := map[Confidence := confidence];
    TimesAre(s, own);
    var props := CommonProperties(s)[Confidence := confidence];
    assert props == CommonProperties(s) + own;
    LinkShows(published, s, id, m, id, a, b, props, Stamp(s.tenant.value, s) + own);
  }

  lemma ResolutionShows(published: seq<Message>, s: Source, r: Resolution, ms: seq<Message>)
    requires AllMergeable(published) && AllAccepted(s, GraphEvents(s, r)) && s.tenant.Text?
    requires |ms| == 4 && forall k :: 0 <= k < 4 ==> ms[k] == Sent(s, GraphEvents(s, r)[k])
    ensures ResolutionRecorded(CleanPass(published), published, ms, s.tenant.value, s, r)
  {
    hide Accepted, CleanPass, AllMergeable, CommonProperties, EntityProperties, EvidenceProperties, MentionProperties;
    hide EntityRecorded, EvidenceRecorded, MentionRecorded, WeighedLinkRecorded;
    var e := GraphEvents(s, r);
    assert Accepted(Sent(s, e[0])) && Accepted(Sent(s, e[1])) && Accepted(Sent(s, e[2])) && Accepted(Sent(s, e[3]));
    EntityShows(published, s, r);
    EvidenceShows(published, s, r.documentId, r.evidence, r.confidence);
    MentionShows(published, s, r);
    var evidence := r.evidence.evidenceId;
    WeighedLinkShows(published, s, LinkEvidenceEntity, "evidence-entity:" + evidence + ":" + r.entityId, evidence, r.entityId, r.confidence);
  }

  lemma RelationShows(published: seq<Message>, s: Source, r: RelationPayload)
    requires AllMergeable(published) && s.tenant.Text? && Accepted(Sent(s, RelationMutation(s, r)))
    ensures RelationRecorded(CleanPass(published), published, Sent(s, RelationMutation(s, r)), s.tenant.value, s, r)
  {
    hide Accepted, CleanPass, AllMergeable, Records, CommonProperties, Times, Stamp;
    var own := map[Confidence := r.confidence, Status := Json("candidate"), EvidenceId := Json(r.evidenceId),
                   ExtractionModel := r.extractionModel, ExtractionVersion := r.extractionVersion, ValidFrom := s.occurredAt];
    TimesAre(s, own);
    NamedRelation(r.predicateName);
    hide PredicateMutation, RelNamed;
    LinkShows(published, s, r.relationshipId, PredicateMutation(r.predicateName), r.relationshipId, r.subject.entityId, r.object_.entityId,
              RelationProperties(s, r), Stamp(s.tenant.value, s) + own);
  }

  lemma NamedRelation(name: string)
    ensures RelationshipType(PredicateMutation(name)) == Some(RelNamed(name))
  {
  }

  // ----- claims -----

  lemma ClaimShows(published: seq<Message>, s: Source, claim: ClaimPayload, clusterId: Json, normalized: Json)
    requires AllMergeable(published) && s.tenant.Text? && Accepted(Sent(s, GraphMutations(s, claim, clusterId, normalized)[0]))
    ensures ClaimRecorded(CleanPass(published), published, Sent(s, GraphMutations(s, claim, clusterId, normalized)[0]), s.tenant.value, s,
                          claim, clusterId, normalized)
  {
    hide Accepted, CleanPass, AllMergeable, Records, CommonProperties, Times, Stamp, EvidenceProperties;
    var own := map[Proposition := claim.proposition, NormalizedProposition := normalized, ClusterId := clusterId,
                   Confidence := claim.confidence, Status := Json("candidate"),
                   ExtractionModel := claim.extractionModel, ExtractionVersion := claim.extractionVersion];
    TimesAre(s, own);
    UpsertShows(published, s, claim.claimId, UpsertClaim, claim.claimId, ClaimProperties(s, claim, clusterId, normalized), Times(s) + own);
  }

  lemma AssertionShows(published: seq<Message>, s: Source, claim: ClaimPayload, clusterId: Json, normalized: Json, ms: seq<Message>)
    requires AllMergeable(published) && AllAccepted(s, GraphMutations(s, claim, clusterId, normalized)) && s.tenant.Text?
    requires |ms| == 4 && forall k :: 0 <= k < 4 ==> ms[k] == Sent(s, GraphMutations(s, claim, clusterId, normalized)[k])
    ensures AssertionRecorded(CleanPass(published), published, ms, s.tenant.value, s, claim, clusterId, normalized)
  {
    hide Accepted, CleanPass, AllMergeable, CommonProperties, ClaimProperties, EvidenceProperties;
    hide ClaimRecorded, EvidenceRecorded, WeighedLinkRecorded;
    var e := GraphMutations(s, claim, clusterId, normalized);
    assert Accepted(Sent(s, e[0])) && Accepted(Sent(s, e[1])) && Accepted(Sent(s, e[2])) && Accepted(Sent(s, e[3]));
    var article, evidence := "article:" + claim.documentId, claim.evidence.evidenceId;
    ClaimShows(published, s, claim, clusterId, normalized);
    EvidenceShows(published, s, claim.documentId, claim.evidence, claim.confidence);
    WeighedLinkShows(published, s, LinkArticleClaim, "article-claim:" + article + ":" + claim.claimId, article, claim.claimId, claim.confidence);
    WeighedLinkShows(published, s, LinkEvidenceClaim, "evidence-claim:" + evidence + ":" + claim.claimId, evidence, claim.claimId, claim.confidence);
  }

  // ----- the theorem -----

  lemma RelationJobShows(published: seq<Message>, s: Source, r: RelationPayload, ms: seq<Message>)
    requires AllMergeable(published) && AllAccepted(s, RelationGraphEvents(s, r)) && s.tenant.Text?
    requires |ms| == 9 && forall k :: 0 <= k < 9 ==> ms[k] == Sent(s, RelationGraphEvents(s, r)[k])
    ensures ResolutionRecorded(CleanPass(published), published, ms[..4], s.tenant.value, s, r.subject)
    ensures ResolutionRecorded(CleanPass(published), published, ms[4..8], s.tenant.value, s, r.object_)
    ensures RelationRecorded(CleanPass(published), published, ms[8], s.tenant.value, s, r)
  {
    hide Accepted, CleanPass, AllMergeable, ResolutionRecorded, RelationRecorded, RelationMutation;
    var a, b, last := GraphEvents(s, r.subject), GraphEvents(s, r.object_), RelationMutation(s, r);
    var all := RelationGraphEvents(s, r);
    AllAcceptedConcat(s, a + b, [last]);
    AllAcceptedConcat(s, a, b);
    assert |a| == |b| == 4 && all == a + b + [last];
    hide GraphEvents;
    ResolutionShows(published, s, r.subject, ms[..4]);
    ResolutionShows(published, s, r.object_, ms[4..8]);
    assert [last][0] == last;
    RelationShows(published, s, r);
  }

  /** One clean pass over messages that include a job's leaves the table of that job. */
  lemma CleanPassRecords(published: seq<Message>, job: Job)
    requires FromPipeline(published) && Identified(job) && forall m :: m in Emit(job) ==> m in published
    ensures Recorded(CleanPass(published), published, job)
  {
    hide CleanPass, Accepted, AllMergeable, GraphBaseMutations, GraphEvents, RelationGraphEvents, GraphMutations, SharesKeys, Proper;
    hide NlpRecorded, ResolutionRecorded, AssertionRecorded, RelationRecorded;
    PipelineIsProper(published);
    ProperSharesKeys(published);
    AcceptedExactlyWhenIdentified(job);
    MutationCounts(job);
    var ms := Emit(job);
    forall k | 0 <= k < |ms|
      ensures Accepted(Sent(job.source, Mutations(job)[k]))
    {
      assert ms[k] in ms;
    }
    match job {
      case NlpJob(s, nlp) => NlpShows(published, s, nlp, ms);
      case MentionJob(s, r) => ResolutionShows(published, s, r, ms);
      case RelationJob(s, r) => RelationJobShows(published, s, r, ms);
      case ClaimJob(s, claim, clusterId, normalized) => AssertionShows(published, s, claim, clusterId, normalized, ms);
    }
  }

  /**
   However the pipeline's mutations are delivered, once all are read every job with its ids has its table
   in the graph: each property of each node and edge it writes holds the payload's field, unless a later
   message writes it.
   */
  lemma DeliveryRecords(published: seq<Message>, part: Partitioner, partitions: nat, steps: seq<Step>, job: Job)
    requires FromPipeline(published) && Identified(job) && forall m :: m in Emit(job) ==> m in published
    requires forall m :: m in published ==> part(m.key) < partitions
    requires var logs := Logs(published, part, partitions);
             forall p :: 0 <= p < partitions ==> Execute(logs, steps).position[p] == |logs[p]|
    ensures Recorded(Execute(Logs(published, part, partitions), steps).graph, published, job)
  {
    hide FromPipeline, Execute, Recorded, Emit, CleanPass;
    PipelineConverges(published, part, partitions, steps);
    CleanPassRecords(published, job);
  }
}
