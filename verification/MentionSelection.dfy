/**
 Entity mentions of a document: the candidates of all patterns are sorted by start, then length, then
 confidence, and accepted greedily unless they overlap an accepted one; relations then join the first
 two mentions of a sentence.
 */
module MentionSelection {
  import opened Outcomes
  import opened PythonText

  datatype EntityType = Person | Organization | Company | GovernmentAgency | Location

  datatype Document = Document(id: string, text: string)

  /** A pattern match: where it lies, and the type and confidence of its pattern. */
  datatype Candidate = Candidate(start: nat, end: nat, entity: EntityType, confidence: real)

  /** The patterns match at least one character of the text. */
  predicate Proper(doc: Document, c: Candidate) {
    c.start < c.end <= |doc.text|
  }

  /** SHA-256 in hexadecimal, supplied by the caller of the model. */
  type Hash = string -> string

  datatype Evidence = Evidence(evidenceId: string, documentId: string, start: nat, end: nat, spanHash: string)

  datatype Mention = Mention(mentionId: string, text: string, entity: EntityType, confidence: real, evidence: Evidence)

  // ----- order -----

  /** The sort key (start, -(end - start), -confidence), compared as Python compares tuples. */
  predicate Before(a: Candidate, b: Candidate) {
    a.start < b.start || (a.start == b.start && (a.end > b.end || (a.end == b.end && a.confidence >= b.confidence)))
  }

  predicate IsSorted(cs: seq<Candidate>) {
    forall i, j :: 0 <= i < j < |cs| ==> Before(cs[i], cs[j])
  }

  /** A stable sort: an equal key keeps its place behind those that came earlier. */
  function Insert(cs: seq<Candidate>, c: Candidate): seq<Candidate> {
    if cs == [] || Before(cs[|cs| - 1], c) then cs + [c]
    else Insert(cs[..|cs| - 1], c) + [cs[|cs| - 1]]
  }

  function Sort(cs: seq<Candidate>): seq<Candidate> {
    if cs == [] then [] else Insert(Sort(cs[..|cs| - 1]), cs[|cs| - 1])
  }

  lemma {:induction false} InsertSorts(cs: seq<Candidate>, c: Candidate)
    requires IsSorted(cs)
    ensures IsSorted(Insert(cs, c)) && multiset(Insert(cs, c)) == multiset(cs) + multiset{c}
    decreases |cs|
  {
    if cs != [] && !Before(cs[|cs| - 1], c) {
      var init, last := cs[..|cs| - 1], cs[|cs| - 1];
      assert cs == init + [last];
      InsertSorts(init, c);
      LastStaysLast(init, Insert(init, c), c, last);
    }
  }

  lemma LastStaysLast(init: seq<Candidate>, sorted: seq<Candidate>, c: Candidate, last: Candidate)
    requires IsSorted(init + [last]) && IsSorted(sorted) && !Before(last, c)
    requires multiset(sorted) == multiset(init) + multiset{c}
    ensures IsSorted(sorted + [last])
  {
    forall k | 0 <= k < |sorted|
      ensures Before(sorted[k], last)
    {
      assert sorted[k] in multiset(sorted);
      if sorted[k] != c {
        var i :| 0 <= i < |init| && init[i] == sorted[k];
        assert (init + [last])[i] == init[i] && (init + [last])[|init|] == last;
      }
    }
  }

  lemma {:induction false} SortSorts(cs: seq<Candidate>)
    ensures IsSorted(Sort(cs)) && multiset(Sort(cs)) == multiset(cs)
    decreases |cs|
  {
    if cs != [] {
      SortSorts(cs[..|cs| - 1]);
      InsertSorts(Sort(cs[..|cs| - 1]), cs[|cs| - 1]);
      assert cs == cs[..|cs| - 1] + [cs[|cs| - 1]];
    }
  }

  // ----- which candidates are chosen -----

  predicate Overlap(a: Candidate, b: Candidate) {
    a.start < b.end && a.end > b.start
  }

  /** The indices are chosen exactly when no chosen candidate of higher priority overlaps. */
  ghost predicate Chosen(cs: seq<Candidate>, kept: set<nat>) {
    && (forall i :: i in kept ==> i < |cs|)
    && (forall i: nat | i < |cs| :: i in kept <==> !exists j :: j in kept && j < i && Overlap(cs[i], cs[j]))
  }

  lemma {:induction false} AgreeBelow(cs: seq<Candidate>, a: set<nat>, b: set<nat>, n: nat)
    requires Chosen(cs, a) && Chosen(cs, b) && n <= |cs|
    ensures forall i: nat | i < n :: i in a <==> i in b
  {
    if n > 0 {
      AgreeBelow(cs, a, b, n - 1);
      var i := n - 1;
      assert forall j :: j in a && j < i <==> j in b && j < i;
    }
  }

  /** There is only one such choice, so the loop's outcome is determined by the sorted list. */
  lemma ChoiceIsUnique(cs: seq<Candidate>, a: set<nat>, b: set<nat>)
    requires Chosen(cs, a) && Chosen(cs, b)
    ensures a == b
  {
    AgreeBelow(cs, a, b, |cs|);
    forall i
      ensures i in a <==> i in b
    {
    }
  }

  /** In order: each chosen span ends where, or before, the next one starts. */
  lemma ChosenAreDisjoint(cs: seq<Candidate>, kept: set<nat>, i: nat, j: nat)
    requires IsSorted(cs) && (forall k :: 0 <= k < |cs| ==> cs[k].start < cs[k].end) && Chosen(cs, kept) && i in kept && j in kept && i < j
    ensures cs[i].end <= cs[j].start && cs[i].start < cs[j].start
  {
    assert Before(cs[i], cs[j]) && !Overlap(cs[j], cs[i]);
  }

  /** Of the candidates that start where a chosen one starts none is longer, and of those with its span none is more confident. */
  lemma PriorityWins(cs: seq<Candidate>, kept: set<nat>, i: nat, j: nat)
    requires IsSorted(cs) && (forall k :: 0 <= k < |cs| ==> cs[k].start < cs[k].end) && Chosen(cs, kept) && i in kept && j < |cs|
    requires cs[j].start == cs[i].start
    ensures cs[j].end <= cs[i].end && (cs[j].end == cs[i].end ==> cs[j].confidence <= cs[i].confidence)
  {
    OverlapsPass(cs, kept, i, j);
  }

  /** What keeps the earlier of two candidates with one start out keeps the later one out too. */
  lemma OverlapsPass(cs: seq<Candidate>, kept: set<nat>, i: nat, j: nat)
    requires IsSorted(cs) && (forall k :: 0 <= k < |cs| ==> cs[k].start < cs[k].end) && i < |cs| && j < |cs| && cs[i].start == cs[j].start
    ensures Overlap(cs[i], cs[j]) && (i < j ==> Before(cs[i], cs[j]))
    ensures j < i ==> forall m :: m in kept && m < j && Overlap(cs[j], cs[m]) ==> Overlap(cs[i], cs[m])
  {
    forall m | m in kept && m < j && j < i && Overlap(cs[j], cs[m])
      ensures Overlap(cs[i], cs[m])
    {
      assert Before(cs[m], cs[j]);
    }
  }

  /** The candidates with this key, in order. */
  function WithKey(cs: seq<Candidate>, start: nat, end: nat, confidence: real): seq<Candidate> {
    if cs == [] then []
    else
      var last := cs[|cs| - 1];
      WithKey(cs[..|cs| - 1], start, end, confidence) +
      if last.start == start && last.end == end && last.confidence == confidence then [last] else []
  }

  lemma {:induction false} InsertIsStable(cs: seq<Candidate>, c: Candidate, start: nat, end: nat, confidence: real)
    ensures WithKey(Insert(cs, c), start, end, confidence) == WithKey(cs + [c], start, end, confidence)
    decreases |cs|
  {
    assert (cs + [c])[..|cs|] == cs;
    if cs != [] && !Before(cs[|cs| - 1], c) {
      var init, last := cs[..|cs| - 1], cs[|cs| - 1];
      InsertIsStable(init, c, start, end, confidence);
      assert (init + [c])[..|init|] == init;
      assert (Insert(init, c) + [last])[..|Insert(init, c)|] == Insert(init, c);
    }
  }

  /** Candidates with equal keys stay in the order in which the patterns found them. */
  lemma {:induction false} SortIsStable(cs: seq<Candidate>, start: nat, end: nat, confidence: real)
    ensures WithKey(Sort(cs), start, end, confidence) == WithKey(cs, start, end, confidence)
    decreases |cs|
  {
    if cs != [] {
      var init, last := cs[..|cs| - 1], cs[|cs| - 1];
      SortIsStable(init, start, end, confidence);
      InsertIsStable(Sort(init), last, start, end, confidence);
      assert (Sort(init) + [last])[..|Sort(init)|] == Sort(init);
    }
  }

  // ----- the loop -----

  function EvidenceOf(doc: Document, hash: Hash, start: nat, end: nat): Evidence
    requires start <= end <= |doc.text|
  {
    Evidence("ev:" + doc.id + ":" + Digits(start) + ":" + Digits(end), doc.id, start, end, hash(doc.text[start..end]))
  }

  function MentionOf(doc: Document, hash: Hash, c: Candidate): Mention
    requires Proper(doc, c)
  {
    var ev := EvidenceOf(doc, hash, c.start, c.end);
    Mention("mention:" + ev.evidenceId, Strip(doc.text[c.start..c.end]), c.entity, c.confidence, ev)
  }

  /** The evidence names the document and exactly this span, and hashes exactly its text. */
  predicate Witnesses(doc: Document, hash: Hash, start: nat, end: nat, ev: Evidence)
    requires start <= end <= |doc.text|
  {
    && ev.documentId == doc.id && ev.start == start && ev.end == end && ev.spanHash == hash(doc.text[start..end])
    && ev.evidenceId == "ev:" + doc.id + ":" + Digits(start) + ":" + Digits(end)
  }

  /** The mention carries its candidate's type, confidence and span, and the matched text without the space around it. */
  predicate Carries(doc: Document, hash: Hash, c: Candidate, m: Mention)
    requires Proper(doc, c)
  {
    && m.entity == c.entity && m.confidence == c.confidence && m.text == Strip(doc.text[c.start..c.end])
    && Witnesses(doc, hash, c.start, c.end, m.evidence) && m.mentionId == "mention:" + m.evidence.evidenceId
  }

  /** Disjoint and strictly increasing. */
  predicate Increasing(spans: seq<(nat, nat)>) {
    && (forall k :: 0 <= k < |spans| ==> spans[k].0 < spans[k].1)
    && forall i, j :: 0 <= i < j < |spans| ==> spans[i].1 <= spans[j].0
  }

  predicate Hits(c: Candidate, span: (nat, nat)) {
    c.start < span.1 && c.end > span.0
  }

  predicate IsHit(c: Candidate, accepted: seq<(nat, nat)>) {
    exists k :: 0 <= k < |accepted| && Hits(c, accepted[k])
  }

  /** Once the starts increase, only the last accepted span can be hit: the scan over all is a test of one. */
  lemma LastSpanDecides(accepted: seq<(nat, nat)>, c: Candidate)
    requires Increasing(accepted) && c.start < c.end && (accepted != [] ==> accepted[|accepted| - 1].0 <= c.start)
    ensures IsHit(c, accepted) <==> accepted != [] && c.start < accepted[|accepted| - 1].1
  {
    if accepted != [] {
      var n := |accepted| - 1;
      assert c.start < accepted[n].1 ==> Hits(c, accepted[n]);
      forall k | 0 <= k < |accepted|
        ensures Hits(c, accepted[k]) ==> c.start < accepted[n].1
      {
        assert k < n ==> accepted[k].1 <= accepted[n].0;
      }
    }
  }

  /** any(...) over the accepted spans. */
  method AnyHit(c: Candidate, accepted: seq<(nat, nat)>) returns (hit: bool)
    ensures hit <==> IsHit(c, accepted)
  {
    for k := 0 to |accepted|
      invariant forall j :: 0 <= j < k ==> !Hits(c, accepted[j])
    {
      if Hits(c, accepted[k]) {
        return true;
      }
    }
    return false;
  }

  function SpansOf(mentions: seq<Mention>): (r: seq<(nat, nat)>)
    ensures |r| == |mentions|
    ensures forall k :: 0 <= k < |r| ==> r[k] == (mentions[k].evidence.start, mentions[k].evidence.end)
  {
    seq(|mentions|, k requires 0 <= k < |mentions| => (mentions[k].evidence.start, mentions[k].evidence.end))
  }

  /** The indices were accepted in increasing order, one mention each. */
  ghost predicate Accounted(doc: Document, hash: Hash, cs: seq<Candidate>, mentions: seq<Mention>, picks: seq<nat>) {
    && |mentions| == |picks| && (forall i, j :: 0 <= i < j < |picks| ==> picks[i] < picks[j])
    && forall k :: 0 <= k < |picks| ==> picks[k] < |cs| && Proper(doc, cs[picks[k]]) && Carries(doc, hash, cs[picks[k]], mentions[k])
  }

  /** The mentions of the chosen candidates, in order. */
  ghost predicate IsSelection(doc: Document, hash: Hash, cs: seq<Candidate>, mentions: seq<Mention>) {
    exists picks: seq<nat> :: Accounted(doc, hash, cs, mentions, picks) && Chosen(cs, set x | x in picks)
  }

  /**
   The mentions are those of the one choice there is, in order: accepted spans are disjoint and strictly
   increasing, every candidate left out overlaps an accepted one of higher priority, and each mention
   carries what its candidate says.
   */
  method ExtractMentions(doc: Document, hash: Hash, candidates: seq<Candidate>) returns (mentions: seq<Mention>)
    requires forall k :: 0 <= k < |candidates| ==> Proper(doc, candidates[k])
    ensures IsSelection(doc, hash, Sort(candidates), mentions)
    ensures Increasing(SpansOf(mentions))
  {
    hide Sort, Midway, Accounted, Chosen, Increasing;
    var sorted := Sort(candidates);
    SortSorts(candidates);
    var accepted: seq<(nat, nat)> := [];
    mentions := [];
    ghost var picks: seq<nat> := [];
    AllProper(doc, sorted, candidates);
    Starts(doc, hash, sorted);
    for i := 0 to |sorted|
      invariant Midway(doc, hash, sorted, i, accepted, mentions, picks)
    {
      var c := sorted[i];
      var hit := AnyHit(c, accepted);
      if hit {
        Skip(doc, hash, sorted, i, accepted, mentions, picks);
      } else {
        Accept(doc, hash, sorted, i, accepted, mentions, picks);
        accepted := accepted + [(c.start, c.end)];
        mentions := mentions + [MentionOf(doc, hash, c)];
        picks := picks + [i];
      }
    }
    Ends(doc, hash, sorted, accepted, mentions, picks);
  }

  /** The first i candidates have been decided. */
  ghost predicate Midway(
    doc: Document, hash: Hash, cs: seq<Candidate>, i: nat, accepted: seq<(nat, nat)>, mentions: seq<Mention>, picks: seq<nat>)
  {
    && Accounted(doc, hash, cs, mentions, picks) && |accepted| == |picks| && Increasing(accepted)
    && (forall k :: 0 <= k < |picks| ==> picks[k] < i && accepted[k] == (cs[picks[k]].start, cs[picks[k]].end))
    && i <= |cs| && ChosenBelow(cs, picks, i)
  }

  ghost predicate ChosenBelow(cs: seq<Candidate>, picks: seq<nat>, i: nat)
    requires i <= |cs|
  {
    forall j: nat | j < i :: j in picks <==> !exists m :: m in picks && m < j && m < |cs| && Overlap(cs[j], cs[m])
  }

  lemma AllProper(doc: Document, sorted: seq<Candidate>, candidates: seq<Candidate>)
    requires multiset(sorted) == multiset(candidates) && forall k :: 0 <= k < |candidates| ==> Proper(doc, candidates[k])
    ensures forall k :: 0 <= k < |sorted| ==> Proper(doc, sorted[k])
  {
    forall k | 0 <= k < |sorted|
      ensures Proper(doc, sorted[k])
    {
      assert sorted[k] in multiset(candidates);
    }
  }

  lemma Starts(doc: Document, hash: Hash, cs: seq<Candidate>)
    ensures Midway(doc, hash, cs, 0, [], [], [])
  {
  }

  /** Skipping a candidate that is hit is right. */
  lemma Skip(doc: Document, hash: Hash, cs: seq<Candidate>, i: nat, accepted: seq<(nat, nat)>, mentions: seq<Mention>, picks: seq<nat>)
    requires i < |cs| && Midway(doc, hash, cs, i, accepted, mentions, picks) && IsHit(cs[i], accepted)
    ensures Midway(doc, hash, cs, i + 1, accepted, mentions, picks)
  {
    hide Carries, IsHit, ChosenBelow, Increasing;
    HitsAreOverlaps(cs, accepted, picks, i);
    ChosenNext(cs, picks, i);
  }

  lemma MentionCarries(doc: Document, hash: Hash, c: Candidate)
    requires Proper(doc, c)
    ensures Carries(doc, hash, c, MentionOf(doc, hash, c))
  {
  }

  lemma AccountedNext(doc: Document, hash: Hash, cs: seq<Candidate>, i: nat, mentions: seq<Mention>, picks: seq<nat>)
    requires i < |cs| && Proper(doc, cs[i]) && Accounted(doc, hash, cs, mentions, picks) && forall k :: 0 <= k < |picks| ==> picks[k] < i
    ensures Accounted(doc, hash, cs, mentions + [MentionOf(doc, hash, cs[i])], picks + [i])
  {
    MentionCarries(doc, hash, cs[i]);
    hide MentionOf, Carries;
  }

  /** Accepting one that is not is right. */
  lemma Accept(doc: Document, hash: Hash, cs: seq<Candidate>, i: nat, accepted: seq<(nat, nat)>, mentions: seq<Mention>, picks: seq<nat>)
    requires i < |cs| && IsSorted(cs) && Proper(doc, cs[i]) && Midway(doc, hash, cs, i, accepted, mentions, picks)
    requires !IsHit(cs[i], accepted)
    ensures Midway(doc, hash, cs, i + 1, accepted + [(cs[i].start, cs[i].end)], mentions + [MentionOf(doc, hash, cs[i])], picks + [i])
  {
    AccountedNext(doc, hash, cs, i, mentions, picks);
    hide MentionOf, Accounted, IsHit, ChosenBelow, Increasing;
    HitsAreOverlaps(cs, accepted, picks, i);
    ChosenNext(cs, picks, i);
    StaysIncreasing(cs, accepted, picks, i);
  }

  lemma ChosenNext(cs: seq<Candidate>, picks: seq<nat>, i: nat)
    requires i < |cs| && ChosenBelow(cs, picks, i) && forall m :: m in picks ==> m < i
    ensures (exists m :: m in picks && m < i && Overlap(cs[i], cs[m])) ==> ChosenBelow(cs, picks, i + 1)
    ensures !(exists m :: m in picks && m < i && Overlap(cs[i], cs[m])) ==> ChosenBelow(cs, picks + [i], i + 1)
  {
    assert forall m :: m in picks + [i] <==> m in picks || m == i;
  }

  lemma Ends(doc: Document, hash: Hash, cs: seq<Candidate>, accepted: seq<(nat, nat)>, mentions: seq<Mention>, picks: seq<nat>)
    requires Midway(doc, hash, cs, |cs|, accepted, mentions, picks)
    ensures Accounted(doc, hash, cs, mentions, picks) && Increasing(SpansOf(mentions))
    ensures Chosen(cs, set x | x in picks)
  {
    SpansAre(doc, hash, cs, mentions, picks, accepted);
    hide Accounted, SpansOf, Increasing;
    PicksChosen(cs, picks);
  }

  lemma PicksChosen(cs: seq<Candidate>, picks: seq<nat>)
    requires ChosenBelow(cs, picks, |cs|) && forall k :: 0 <= k < |picks| ==> picks[k] < |cs|
    ensures Chosen(cs, set x | x in picks)
  {
    hide Overlap;
    var kept := set x | x in picks;
    forall i: nat | i < |cs|
      ensures i in kept <==> !exists j :: j in kept && j < i && Overlap(cs[i], cs[j])
    {
      assert forall j :: j in kept && j < i <==> j in picks && j < i && j < |cs|;
    }
  }

  lemma HitsAreOverlaps(cs: seq<Candidate>, accepted: seq<(nat, nat)>, picks: seq<nat>, i: nat)
    requires i < |cs| && |accepted| == |picks|
    requires forall k :: 0 <= k < |picks| ==> picks[k] < i && accepted[k] == (cs[picks[k]].start, cs[picks[k]].end)
    ensures IsHit(cs[i], accepted) <==>
            exists m :: m in picks && m < i && Overlap(cs[i], cs[m])
  {
    if m :| m in picks && m < i && Overlap(cs[i], cs[m]) {
      var k :| 0 <= k < |picks| && picks[k] == m;
      assert Hits(cs[i], accepted[k]);
    }
    if k :| 0 <= k < |accepted| && Hits(cs[i], accepted[k]) {
      assert picks[k] in picks && Overlap(cs[i], cs[picks[k]]);
    }
  }

  lemma StaysIncreasing(cs: seq<Candidate>, accepted: seq<(nat, nat)>, picks: seq<nat>, i: nat)
    requires IsSorted(cs) && i < |cs| && cs[i].start < cs[i].end && Increasing(accepted) && |accepted| == |picks|
    requires forall k :: 0 <= k < |picks| ==> picks[k] < i && accepted[k] == (cs[picks[k]].start, cs[picks[k]].end)
    requires !IsHit(cs[i], accepted)
    ensures Increasing(accepted + [(cs[i].start, cs[i].end)])
  {
    forall k | 0 <= k < |accepted|
      ensures accepted[k].1 <= cs[i].start
    {
      assert Before(cs[picks[k]], cs[i]) && !Hits(cs[i], accepted[k]);
    }
  }

  lemma SpansAre(doc: Document, hash: Hash, cs: seq<Candidate>, mentions: seq<Mention>, picks: seq<nat>, accepted: seq<(nat, nat)>)
    requires Accounted(doc, hash, cs, mentions, picks) && |accepted| == |picks|
    requires forall k :: 0 <= k < |picks| ==> accepted[k] == (cs[picks[k]].start, cs[picks[k]].end)
    ensures SpansOf(mentions) == accepted
  {
  }

  // ----- identities -----

  lemma SameStart(a: nat, restA: string, b: nat, restB: string)
    requires restA != "" && !IsDigit(restA[0]) && restB != "" && !IsDigit(restB[0])
    ensures Digits(a) + restA == Digits(b) + restB ==> a == b
  {
    hide Digits, DigitRun, ReadDigits;
    DelimitedNumber(a, restA);
    DelimitedNumber(b, restB);
  }

  lemma IdSplits(documentId: string, start: nat, end: nat)
    ensures "mention:" + ("ev:" + documentId + ":" + Digits(start) + ":" + Digits(end)) ==
            "mention:" + ("ev:" + documentId + ":") + (Digits(start) + ":" + Digits(end))
    ensures Digits(start) + ":" + Digits(end) == Digits(start) + (":" + Digits(end))
  {
    hide Digits;
  }

  /** Spans with different starts have different mention ids, so a lookup by id finds the mention itself. */
  lemma MentionIdsAreDistinct(doc: Document, hash: Hash, a: Candidate, b: Candidate, m: Mention, n: Mention)
    requires a.start != b.start && Proper(doc, a) && Proper(doc, b) && Carries(doc, hash, a, m) && Carries(doc, hash, b, n)
    ensures m.mentionId != n.mentionId
  {
    hide Digits, Strip;
    var prefix := "mention:" + ("ev:" + doc.id + ":");
    var x, y := Digits(a.start) + ":" + Digits(a.end), Digits(b.start) + ":" + Digits(b.end);
    IdSplits(doc.id, a.start, a.end);
    IdSplits(doc.id, b.start, b.end);
    assert m.mentionId == prefix + x && n.mentionId == prefix + y;
    hide Carries;
    SameStart(a.start, ":" + Digits(a.end), b.start, ":" + Digits(b.end));
    assert (prefix + x)[|prefix|..] == x && (prefix + y)[|prefix|..] == y;
  }

  // ----- relations -----

  /** A sentence: its span, and the first predicate one of whose keywords occurs in it. */
  datatype Sentence = Sentence(start: nat, end: nat, named: Option<string>)

  datatype Relation = Relation(
    relationshipId: string, subject: string, relation: string, object_: string, confidence: real, evidence: Evidence)

  const RELATION_CONFIDENCE := 0.74

  predicate Inside(m: Mention, s: Sentence) {
    m.evidence.start >= s.start && m.evidence.end <= s.end
  }

  /** The list comprehension: the mentions inside the sentence, in order. */
  function InSentence(mentions: seq<Mention>, s: Sentence): seq<Mention> {
    if mentions == [] then []
    else
      var rest := InSentence(mentions[..|mentions| - 1], s);
      if Inside(mentions[|mentions| - 1], s) then rest + [mentions[|mentions| - 1]] else rest
  }

  /** The two leftmost mentions of a sentence. */
  ghost predicate FirstTwo(mentions: seq<Mention>, s: Sentence, i: nat, j: nat) {
    && i < j < |mentions| && Inside(mentions[i], s) && Inside(mentions[j], s)
    && forall k | 0 <= k < j && k != i :: !Inside(mentions[k], s)
  }

  /** What InSentence found so far is none, the one, or starts with the first two. */
  ghost predicate Counted(mentions: seq<Mention>, s: Sentence, found: seq<Mention>) {
    if |found| == 0 then forall k :: 0 <= k < |mentions| ==> !Inside(mentions[k], s)
    else if |found| == 1 then exists i: nat :: OnlyOne(mentions, s, i) && found[0] == mentions[i]
    else exists i: nat, j: nat :: FirstTwo(mentions, s, i, j) && found[0] == mentions[i] && found[1] == mentions[j]
  }

  ghost predicate OnlyOne(mentions: seq<Mention>, s: Sentence, i: nat) {
    i < |mentions| && Inside(mentions[i], s) && forall k | 0 <= k < |mentions| && k != i :: !Inside(mentions[k], s)
  }

  lemma CountNext(mentions: seq<Mention>, s: Sentence, m: Mention, found: seq<Mention>)
    requires Counted(mentions, s, found)
    ensures Counted(mentions + [m], s, if Inside(m, s) then found + [m] else found)
  {
    var all := mentions + [m];
    if |found| >= 2 {
      var i: nat, j: nat :| FirstTwo(mentions, s, i, j) && found[0] == mentions[i] && found[1] == mentions[j];
      assert FirstTwo(all, s, i, j) && all[i] == mentions[i] && all[j] == mentions[j];
    } else if |found| == 1 {
      var i: nat :| OnlyOne(mentions, s, i) && found[0] == mentions[i];
      assert all[i] == mentions[i];
      assert if Inside(m, s) then FirstTwo(all, s, i, |mentions|) else OnlyOne(all, s, i);
    } else if Inside(m, s) {
      assert OnlyOne(all, s, |mentions|) && (found + [m])[0] == all[|mentions|];
    }
  }

  lemma {:induction false} InSentenceCounts(mentions: seq<Mention>, s: Sentence)
    ensures Counted(mentions, s, InSentence(mentions, s))
    decreases |mentions|
  {
    hide Counted;
    if mentions == [] {
      assert Counted([], s, []) by { NoneCounted(s); }
    } else {
      var n := |mentions| - 1;
      InSentenceCounts(mentions[..n], s);
      CountNext(mentions[..n], s, mentions[n], InSentence(mentions[..n], s));
      assert mentions == mentions[..n] + [mentions[n]];
    }
  }

  lemma NoneCounted(s: Sentence)
    ensures Counted([], s, [])
  {
  }

  /** The first 24 characters. */
  function Short(digest: string): string {
    if |digest| <= 24 then digest else digest[..24]
  }

  function RelationId(hash: Hash, subject: string, name: string, object_: string, spanHash: string): string {
    "relationship:" + Short(hash(subject + ":" + name + ":" + object_ + ":" + spanHash))
  }

  function RelationOf(doc: Document, hash: Hash, s: Sentence, subject: Mention, object_: Mention): Relation
    requires s.named.Some? && s.start <= s.end <= |doc.text|
  {
    var ev := EvidenceOf(doc, hash, s.start, s.end);
    Relation(RelationId(hash, subject.mentionId, s.named.value, object_.mentionId, ev.spanHash),
             subject.mentionId, s.named.value, object_.mentionId, RELATION_CONFIDENCE, ev)
  }

  /** The relation names the sentence's predicate, its two leftmost mentions in order, and the sentence as its evidence. */
  ghost predicate Joins(doc: Document, hash: Hash, mentions: seq<Mention>, s: Sentence, r: Relation)
    requires s.start <= s.end <= |doc.text|
  {
    && s.named == Some(r.relation) && Witnesses(doc, hash, s.start, s.end, r.evidence) && r.confidence == 0.74
    && r.relationshipId == "relationship:" + Short(hash(r.subject + ":" + r.relation + ":" + r.object_ + ":" + hash(doc.text[s.start..s.end])))
    && exists i: nat, j: nat :: FirstTwo(mentions, s, i, j) && r.subject == mentions[i].mentionId && r.object_ == mentions[j].mentionId
  }

  ghost predicate Related(mentions: seq<Mention>, s: Sentence) {
    s.named.Some? && exists i: nat, j: nat :: FirstTwo(mentions, s, i, j)
  }

  predicate AllWithin(doc: Document, sentences: seq<Sentence>) {
    forall n :: 0 <= n < |sentences| ==> sentences[n].start <= sentences[n].end <= |doc.text|
  }

  /** The relations of the sentences that relate two mentions, in order of the sentences. */
  ghost predicate AreRelations(
    doc: Document, hash: Hash, mentions: seq<Mention>, sentences: seq<Sentence>, relations: seq<Relation>, origins: seq<nat>)
    requires AllWithin(doc, sentences)
  {
    && |relations| == |origins| && (forall i, j :: 0 <= i < j < |origins| ==> origins[i] < origins[j])
    && (forall k :: 0 <= k < |origins| ==> origins[k] < |sentences| && Joins(doc, hash, mentions, sentences[origins[k]], relations[k]))
    && (forall n: nat | n < |sentences| :: Related(mentions, sentences[n]) <==> n in origins)
  }

  /** One relation for each sentence that names a predicate and holds two mentions, in order of the sentences. */
  method ExtractRelations(doc: Document, hash: Hash, mentions: seq<Mention>, sentences: seq<Sentence>) returns (relations: seq<Relation>)
    requires AllWithin(doc, sentences)
    ensures exists origins: seq<nat> :: AreRelations(doc, hash, mentions, sentences, relations, origins)
  {
    hide InSentence, FirstTwo, Joins, RelationOf;
    relations := [];
    ghost var origins: seq<nat> := [];
    for n := 0 to |sentences|
      invariant |relations| == |origins| && forall i, j :: 0 <= i < j < |origins| ==> origins[i] < origins[j]
      invariant forall k :: 0 <= k < |origins| ==> origins[k] < n && Joins(doc, hash, mentions, sentences[origins[k]], relations[k])
      invariant forall m: nat | m < n :: Related(mentions, sentences[m]) <==> m in origins
    {
      var s := sentences[n];
      var found := InSentence(mentions, s);
      TwoOrNone(mentions, s);
      if |found| >= 2 && s.named.Some? {
        relations := relations + [RelationOf(doc, hash, s, found[0], found[1])];
        origins := origins + [n];
        JoinsFound(doc, hash, mentions, s, found[0], found[1]);
      }
    }
    assert AreRelations(doc, hash, mentions, sentences, relations, origins);
  }

  lemma JoinsFound(doc: Document, hash: Hash, mentions: seq<Mention>, s: Sentence, subject: Mention, object_: Mention)
    requires s.start <= s.end <= |doc.text| && s.named.Some?
    requires exists i: nat, j: nat :: FirstTwo(mentions, s, i, j) && subject == mentions[i] && object_ == mentions[j]
    ensures Joins(doc, hash, mentions, s, RelationOf(doc, hash, s, subject, object_))
  {
    hide FirstTwo, Digits, Short;
  }

  lemma TwoOrNone(mentions: seq<Mention>, s: Sentence)
    ensures var found := InSentence(mentions, s);
            && (|found| >= 2 ==> exists i: nat, j: nat :: FirstTwo(mentions, s, i, j) && found[0] == mentions[i] && found[1] == mentions[j])
            && (|found| < 2 ==> !exists i: nat, j: nat :: FirstTwo(mentions, s, i, j))
  {
    InSentenceCounts(mentions, s);
    var found := InSentence(mentions, s);
    if |found| == 1 {
      var only: nat :| OnlyOne(mentions, s, only) && found[0] == mentions[only];
      assert forall k: nat | k < |mentions| && Inside(mentions[k], s) :: k == only;
    }
  }

  /** Over extracted mentions a relation's subject lies wholly before its object, and their ids differ. */
  lemma SubjectBeforeObject(doc: Document, hash: Hash, cs: seq<Candidate>, mentions: seq<Mention>, s: Sentence, r: Relation)
    requires s.start <= s.end <= |doc.text|
    requires IsSelection(doc, hash, cs, mentions) && Increasing(SpansOf(mentions)) && Joins(doc, hash, mentions, s, r)
    ensures r.subject != r.object_
    ensures exists a, b :: a in mentions && b in mentions && a.mentionId == r.subject && b.mentionId == r.object_ &&
              s.start <= a.evidence.start && a.evidence.end <= b.evidence.start && b.evidence.end <= s.end
  {
    hide Chosen, Digits, Strip, Short;
    var picks: seq<nat> :| Accounted(doc, hash, cs, mentions, picks) && Chosen(cs, set x | x in picks);
    var i: nat, j: nat :| FirstTwo(mentions, s, i, j) && r.subject == mentions[i].mentionId && r.object_ == mentions[j].mentionId;
    var spans := SpansOf(mentions);
    assert spans[i].1 <= spans[j].0 && spans[i].0 < spans[i].1;
    var a, b := cs[picks[i]], cs[picks[j]];
    MentionIdsAreDistinct(doc, hash, a, b, mentions[i], mentions[j]);
    assert mentions[i] in mentions && mentions[j] in mentions;
  }
}
