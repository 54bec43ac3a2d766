/**
 At-least-once delivery of graph mutations: partitions interleave arbitrarily, crashes and replays
 re-read any earlier stretch of a partition, and still every complete run ends in the graph of one
 in-order pass over the published events.
 */
module GraphDelivery {
  import opened Outcomes
  import opened GraphModel

  /** A published message: its partition key and the mutation event it carries. */
  datatype Message = Message(key: string, event: Event)

  // ----- what one event writes -----

  /** The registers of a graph: each property of each node and edge. */
  datatype Cell = NodeCell(node: NodeKey, prop: Prop) | EdgeCell(edge: EdgeKey, prop: Prop)

  /** The facts a graph accumulates and never loses. */
  datatype Fact = HasNode(node: NodeKey) | HasLabel(labelled: NodeKey, name: Label) | HasEdge(edge: EdgeKey)

  function Read(g: Graph, c: Cell): Option<Json> {
    match c
    case NodeCell(n, p) => if n in g.nodes && p in g.nodes[n].props then Some(g.nodes[n].props[p]) else None
    case EdgeCell(e, p) => if e in g.edges && p in g.edges[e] then Some(g.edges[e][p]) else None
  }

  predicate Holds(g: Graph, f: Fact) {
    match f
    case HasNode(n) => n in g.nodes
    case HasLabel(n, l) => n in g.nodes && l in g.nodes[n].labels
    case HasEdge(e) => e in g.edges
  }

  /** The value an event writes into a cell (None inside Some: it removes the property). */
  function Write(event: Event, c: Cell): Option<Option<Json>> {
    match BuildStatement(event)
    case Ok(Upsert(tenant, id, _, props)) =>
      if c.NodeCell? && c.node == NodeKey(tenant, id) && c.prop in Stored(props) then Some(Overwritten(props[c.prop])) else None
    case Ok(Link(tenant, id, rel, source, target, props)) =>
      if c.EdgeCell? && c.edge == EdgeKey(NodeKey(tenant, source), rel, NodeKey(tenant, target), id) && c.prop in props
      then Some(Overwritten(props[c.prop])) else None
    case _ => None
  }

  function Overwritten(v: Json): Option<Json> {
    if v == NullValue then None else Some(v)
  }

  /** The facts an event establishes. */
  predicate Establishes(event: Event, f: Fact) {
    match BuildStatement(event)
    case Ok(Upsert(tenant, id, labels, _)) =>
      (match f
       case HasNode(n) => n == NodeKey(tenant, id)
       case HasLabel(n, l) => n == NodeKey(tenant, id) && l in labels
       case HasEdge(_) => false)
    case Ok(Link(tenant, id, rel, source, target, _)) =>
      (match f
       case HasNode(n) => n == NodeKey(tenant, source) || n == NodeKey(tenant, target)
       case HasLabel(_, _) => false
       case HasEdge(e) => e == EdgeKey(NodeKey(tenant, source), rel, NodeKey(tenant, target), id))
    case _ => false
  }

  /** Upserts, links and refused events: everything but takedowns. */
  predicate Mergeable(event: Event) {
    BuildStatement(event).Ok? ==> !BuildStatement(event).value.Takedown?
  }

  lemma ProjectCell(g: Graph, event: Event, c: Cell)
    requires Mergeable(event)
    ensures Read(Project(g, event), c) == match Write(event, c)
                                          case Some(v) => v
                                          case None => Read(g, c)
  {
    hide BuildStatement;
  }

  lemma ProjectFact(g: Graph, event: Event, f: Fact)
    requires Mergeable(event)
    ensures Holds(Project(g, event), f) <==> Holds(g, f) || Establishes(event, f)
  {
    hide BuildStatement, AddProps, Stored;
  }

  /** A graph is its facts and its registers. */
  lemma GraphsEqual(g: Graph, h: Graph)
    requires forall f :: Holds(g, f) <==> Holds(h, f)
    requires forall c :: Read(g, c) == Read(h, c)
    ensures g == h
  {
    forall n
      ensures n in g.nodes <==> n in h.nodes
      ensures n in g.nodes && n in h.nodes ==> g.nodes[n] == h.nodes[n]
    {
      assert Holds(g, HasNode(n)) <==> Holds(h, HasNode(n));
      if n in g.nodes {
        NodesEqual(g, h, n);
      }
    }
    forall e
      ensures e in g.edges <==> e in h.edges
      ensures e in g.edges && e in h.edges ==> g.edges[e] == h.edges[e]
    {
      assert Holds(g, HasEdge(e)) <==> Holds(h, HasEdge(e));
      if e in g.edges {
        EdgesEqual(g, h, e);
      }
    }
    assert g.nodes == h.nodes && g.edges == h.edges;
  }

  lemma NodesEqual(g: Graph, h: Graph, n: NodeKey)
    requires n in g.nodes && n in h.nodes
    requires forall f :: Holds(g, f) <==> Holds(h, f)
    requires forall c :: Read(g, c) == Read(h, c)
    ensures g.nodes[n] == h.nodes[n]
  {
    forall l
      ensures l in g.nodes[n].labels <==> l in h.nodes[n].labels
    {
      assert Holds(g, HasLabel(n, l)) <==> Holds(h, HasLabel(n, l));
    }
    assert g.nodes[n].labels == h.nodes[n].labels;
    var a, b := g.nodes[n].props, h.nodes[n].props;
    forall p
      ensures p in a <==> p in b
      ensures p in a && p in b ==> a[p] == b[p]
    {
      assert Read(g, NodeCell(n, p)) == Read(h, NodeCell(n, p));
    }
    assert a == b;
  }

  lemma EdgesEqual(g: Graph, h: Graph, e: EdgeKey)
    requires e in g.edges && e in h.edges
    requires forall c :: Read(g, c) == Read(h, c)
    ensures g.edges[e] == h.edges[e]
  {
    var a, b := g.edges[e], h.edges[e];
    forall p
      ensures p in a <==> p in b
      ensures p in a && p in b ==> a[p] == b[p]
    {
      assert Read(g, EdgeCell(e, p)) == Read(h, EdgeCell(e, p));
    }
    assert a == b;
  }

  // ----- one in-order pass -----

  function EventsOf(log: seq<Message>): (r: seq<Event>)
    ensures |r| == |log| && forall k :: 0 <= k < |log| ==> r[k] == log[k].event
  {
    seq(|log|, k requires 0 <= k < |log| => log[k].event)
  }

  /** The graph of one clean pass. */
  function CleanPass(log: seq<Message>): Graph {
    ProjectAll(EMPTY, EventsOf(log))
  }

  /** The value of a cell after one pass: that of the last write. */
  function LastWrite(log: seq<Message>, c: Cell): Option<Json> {
    if log == [] then None
    else
      match Write(log[|log| - 1].event, c)
      case Some(v) => v
      case None => LastWrite(log[..|log| - 1], c)
  }

  ghost predicate AllMergeable(log: seq<Message>) {
    forall k :: 0 <= k < |log| ==> Mergeable(log[k].event)
  }

  ghost predicate Mentions(log: seq<Message>, f: Fact) {
    exists k :: 0 <= k < |log| && Establishes(log[k].event, f)
  }

  lemma {:induction false} CleanPassMeans(log: seq<Message>, c: Cell, f: Fact)
    requires AllMergeable(log)
    ensures Read(CleanPass(log), c) == LastWrite(log, c)
    ensures Holds(CleanPass(log), f) <==> Mentions(log, f)
    decreases |log|
  {
    hide Project, Write, Establishes, Mergeable;
    if log != [] {
      var n := |log| - 1;
      CleanPassMeans(log[..n], c, f);
      assert EventsOf(log)[..n] == EventsOf(log[..n]);
      ProjectCell(CleanPass(log[..n]), log[n].event, c);
      ProjectFact(CleanPass(log[..n]), log[n].event, f);
      MentionsSnoc(log, f);
    } else {
      assert EventsOf(log) == [];
    }
  }

  lemma MentionsSnoc(log: seq<Message>, f: Fact)
    requires log != []
    ensures Mentions(log, f) <==> Mentions(log[..|log| - 1], f) || Establishes(log[|log| - 1].event, f)
  {
    hide Establishes;
    var init := log[..|log| - 1];
    if Mentions(init, f) {
      var k :| 0 <= k < |init| && Establishes(init[k].event, f);
      assert Establishes(log[k].event, f);
    }
    if Mentions(log, f) {
      var k :| 0 <= k < |log| && Establishes(log[k].event, f);
      assert k < |init| ==> Establishes(init[k].event, f);
    }
  }

  // ----- partitions -----

  type Partitioner = string -> nat

  /** The log of partition p: the published messages whose key hashes there, in order. */
  function Partition(published: seq<Message>, part: Partitioner, p: nat): seq<Message> {
    if published == [] then []
    else
      var init := Partition(published[..|published| - 1], part, p);
      var last := published[|published| - 1];
      if part(last.key) == p then init + [last] else init
  }

  lemma {:induction false} PartitionMembers(published: seq<Message>, part: Partitioner, p: nat)
    ensures forall m :: m in Partition(published, part, p) <==> m in published && part(m.key) == p
    decreases |published|
  {
    if published != [] {
      var n := |published| - 1;
      PartitionMembers(published[..n], part, p);
      assert published == published[..n] + [published[n]];
    }
  }

  predicate Writes(m: Message, c: Cell) {
    Write(m.event, c).Some?
  }

  /** Two messages that write the same node property or edge property share their key. */
  ghost predicate SharesKeys(published: seq<Message>) {
    forall i, j, c :: 0 <= i < |published| && 0 <= j < |published| && Writes(published[i], c) && Writes(published[j], c) ==>
      published[i].key == published[j].key
  }

  /** The partition that holds every writer of a cell sees the same last write as the whole topic. */
  lemma {:induction false} PartitionKeepsLastWrite(published: seq<Message>, part: Partitioner, p: nat, c: Cell)
    requires forall k :: 0 <= k < |published| && Writes(published[k], c) ==> part(published[k].key) == p
    ensures LastWrite(Partition(published, part, p), c) == LastWrite(published, c)
    decreases |published|
  {
    hide Write;
    if published != [] {
      var n := |published| - 1;
      var init := published[..n];
      PartitionKeepsLastWrite(init, part, p, c);
      var log := Partition(init, part, p);
      if part(published[n].key) == p {
        assert (log + [published[n]])[..|log + [published[n]]| - 1] == log;
      }
    }
  }

  // ----- the delivery system -----

  /** The projector's graph, and per partition the next offset to read and the committed offset. */
  datatype System = System(graph: Graph, position: seq<nat>, committed: seq<nat>)

  /**
   Deliver: read the next message and apply it (a refused one goes to the dead letters).
   Commit: record the position. Restart: a crash or rebalance resumes from the committed offset.
   Rewind: an operator replays from any earlier offset.
   */
  datatype Step = Deliver(p: nat) | Commit(p: nat) | Restart(p: nat) | Rewind(p: nat, offset: nat)

  function Initial(partitions: nat): System {
    System(EMPTY, seq(partitions, p requires 0 <= p < partitions => 0), seq(partitions, p requires 0 <= p < partitions => 0))
  }

  /** A step that is not possible leaves the system as it is. */
  function Next(logs: seq<seq<Message>>, s: System, step: Step): System
    requires |s.position| == |s.committed| == |logs|
  {
    if step.p >= |logs| then s
    else
      var p := step.p;
      match step
      case Deliver(_) =>
        if s.position[p] < |logs[p]|
        then System(Project(s.graph, logs[p][s.position[p]].event), s.position[p := s.position[p] + 1], s.committed)
        else s
      case Commit(_) => s.(committed := s.committed[p := s.position[p]])
      case Restart(_) => s.(position := s.position[p := s.committed[p]])
      case Rewind(_, offset) =>
        if offset <= s.position[p]
        then System(s.graph, s.position[p := offset], s.committed[p := if offset < s.committed[p] then offset else s.committed[p]])
        else s
  }

  function Execute(logs: seq<seq<Message>>, steps: seq<Step>): (s: System)
    ensures |s.position| == |s.committed| == |logs|
    decreases |steps|
  {
    if steps == [] then Initial(|logs|)
    else Next(logs, Execute(logs, steps[..|steps| - 1]), steps[|steps| - 1])
  }

  /** Writers of one cell are all in one log. */
  ghost predicate Exclusive(logs: seq<seq<Message>>) {
    forall p, q, i, j, c | 0 <= p < |logs| && 0 <= q < |logs| && 0 <= i < |logs[p]| && 0 <= j < |logs[q]| ::
      Writes(logs[p][i], c) && Writes(logs[q][j], c) ==> p == q
  }

  ghost predicate WritesSomewhere(log: seq<Message>, c: Cell) {
    exists i :: 0 <= i < |log| && Writes(log[i], c)
  }

  /** No message at or after the offset writes the cell. */
  ghost predicate Quiet(log: seq<Message>, offset: nat, c: Cell) {
    forall i :: offset <= i < |log| ==> !Writes(log[i], c)
  }

  ghost predicate InBounds(logs: seq<seq<Message>>, s: System) {
    && |s.position| == |s.committed| == |logs|
    && forall p :: 0 <= p < |logs| ==> s.committed[p] <= s.position[p] <= |logs[p]|
  }

  /** A cell whose writers lie all behind the reading position holds their last value, however often they were re-read. */
  ghost predicate CellSettled(logs: seq<seq<Message>>, s: System, c: Cell)
    requires InBounds(logs, s)
  {
    && (forall p :: 0 <= p < |logs| && WritesSomewhere(logs[p], c) && Quiet(logs[p], s.position[p], c) ==>
          Read(s.graph, c) == LastWrite(logs[p][..s.position[p]], c))
    && ((forall p :: 0 <= p < |logs| ==> !WritesSomewhere(logs[p], c)) ==> Read(s.graph, c) == None)
  }

  /** The graph holds the facts of everything read so far, and only facts some message establishes. */
  ghost predicate FactSettled(logs: seq<seq<Message>>, s: System, f: Fact)
    requires InBounds(logs, s)
  {
    && (forall p :: 0 <= p < |logs| && Mentions(logs[p][..s.position[p]], f) ==> Holds(s.graph, f))
    && (Holds(s.graph, f) ==> exists p :: 0 <= p < |logs| && Mentions(logs[p], f))
  }

  // ----- every step keeps the invariants -----

  lemma {:induction false} LastWriteQuiet(log: seq<Message>, lo: nat, hi: nat, c: Cell)
    requires lo <= hi <= |log| && forall i :: lo <= i < hi ==> !Writes(log[i], c)
    ensures LastWrite(log[..hi], c) == LastWrite(log[..lo], c)
    decreases hi
  {
    if lo < hi {
      assert log[..hi][..hi - 1] == log[..hi - 1];
      LastWriteQuiet(log, lo, hi - 1, c);
    }
  }

  lemma LastWriteNext(log: seq<Message>, k: nat, c: Cell)
    requires k < |log|
    ensures LastWrite(log[..k + 1], c) == match Write(log[k].event, c)
                                          case Some(v) => v
                                          case None => LastWrite(log[..k], c)
  {
    hide Write;
    assert log[..k + 1][..k] == log[..k] && log[..k + 1][k] == log[k];
  }

  lemma StepKeepsBounds(logs: seq<seq<Message>>, s: System, step: Step)
    requires InBounds(logs, s)
    ensures InBounds(logs, Next(logs, s, step))
  {
    hide Project;
  }

  lemma DeliverSettlesCell(logs: seq<seq<Message>>, s: System, p: nat, c: Cell)
    requires InBounds(logs, s) && Exclusive(logs) && CellSettled(logs, s, c)
    requires p < |logs| && s.position[p] < |logs[p]| && Mergeable(logs[p][s.position[p]].event)
    ensures InBounds(logs, Next(logs, s, Deliver(p))) && CellSettled(logs, Next(logs, s, Deliver(p)), c)
  {
    hide Project, Write, Mergeable, Read, LastWrite;
    var k := s.position[p];
    var m := logs[p][k];
    var s' := Next(logs, s, Deliver(p));
    ProjectCell(s.graph, m.event, c);
    LastWriteNext(logs[p], k, c);
    forall q | 0 <= q < |logs| && WritesSomewhere(logs[q], c) && Quiet(logs[q], s'.position[q], c)
      ensures Read(s'.graph, c) == LastWrite(logs[q][..s'.position[q]], c)
    {
      var i :| 0 <= i < |logs[q]| && Writes(logs[q][i], c);
      if Writes(m, c) {
        assert Writes(logs[p][k], c) && Writes(logs[q][i], c);
        assert q == p;
      } else if q == p {
        assert Quiet(logs[p], k, c);
      } else {
        assert Quiet(logs[q], s.position[q], c);
      }
    }
    if forall q :: 0 <= q < |logs| ==> !WritesSomewhere(logs[q], c) {
      assert !WritesSomewhere(logs[p], c);
      assert !Writes(m, c);
    }
  }

  /** Reading on from an earlier offset keeps cells settled. */
  lemma MoveBackSettlesCell(logs: seq<seq<Message>>, s: System, s': System, p: nat, c: Cell)
    requires InBounds(logs, s) && InBounds(logs, s') && CellSettled(logs, s, c)
    requires p < |logs| && s'.graph == s.graph && s'.position[p] <= s.position[p]
    requires forall q :: 0 <= q < |logs| && q != p ==> s'.position[q] == s.position[q]
    ensures CellSettled(logs, s', c)
  {
    hide Write, Read, LastWrite;
    forall q | 0 <= q < |logs| && WritesSomewhere(logs[q], c) && Quiet(logs[q], s'.position[q], c)
      ensures Read(s'.graph, c) == LastWrite(logs[q][..s'.position[q]], c)
    {
      assert Quiet(logs[q], s.position[q], c);
      LastWriteQuiet(logs[q], s'.position[q], s.position[q], c);
    }
  }

  lemma StepSettlesCell(logs: seq<seq<Message>>, s: System, step: Step, c: Cell)
    requires InBounds(logs, s) && Exclusive(logs) && CellSettled(logs, s, c)
    requires forall p :: 0 <= p < |logs| ==> AllMergeable(logs[p])
    ensures InBounds(logs, Next(logs, s, step)) && CellSettled(logs, Next(logs, s, step), c)
  {
    hide Project, Write, Mergeable, Read, LastWrite, CellSettled;
    StepKeepsBounds(logs, s, step);
    if step.p < |logs| {
      if step.Deliver? && s.position[step.p] < |logs[step.p]| {
        assert AllMergeable(logs[step.p]);
        DeliverSettlesCell(logs, s, step.p, c);
      } else {
        MoveBackSettlesCell(logs, s, Next(logs, s, step), step.p, c);
      }
    }
  }

  lemma MentionsPrefix(log: seq<Message>, lo: nat, hi: nat, f: Fact)
    requires lo <= hi <= |log|
    ensures Mentions(log[..lo], f) ==> Mentions(log[..hi], f)
    ensures Mentions(log[..hi], f) ==> Mentions(log, f)
  {
    hide Establishes;
    if Mentions(log[..lo], f) {
      var k :| 0 <= k < lo && Establishes(log[..lo][k].event, f);
      assert log[..hi][k] == log[..lo][k];
    }
    if Mentions(log[..hi], f) {
      var k :| 0 <= k < hi && Establishes(log[..hi][k].event, f);
      assert log[k] == log[..hi][k];
    }
  }

  lemma StepSettlesFact(logs: seq<seq<Message>>, s: System, step: Step, f: Fact)
    requires InBounds(logs, s) && FactSettled(logs, s, f)
    requires forall p :: 0 <= p < |logs| ==> AllMergeable(logs[p])
    ensures InBounds(logs, Next(logs, s, step)) && FactSettled(logs, Next(logs, s, step), f)
  {
    hide Project, Establishes, Mergeable, Holds, Mentions;
    StepKeepsBounds(logs, s, step);
    var s' := Next(logs, s, step);
    if step.p < |logs| {
      var p := step.p;
      var k := s.position[p];
      if step.Deliver? && k < |logs[p]| {
        assert AllMergeable(logs[p]);
        ProjectFact(s.graph, logs[p][k].event, f);
        MentionsSnoc(logs[p][..k + 1], f);
        assert logs[p][..k + 1][..k] == logs[p][..k];
        MentionsPrefix(logs[p], k, k + 1, f);
      } else {
        MentionsPrefix(logs[p], s'.position[p], k, f);
      }
    }
  }

  lemma {:induction false} RunsStaySettled(logs: seq<seq<Message>>, steps: seq<Step>, c: Cell, f: Fact)
    requires Exclusive(logs) && forall p :: 0 <= p < |logs| ==> AllMergeable(logs[p])
    ensures var s := Execute(logs, steps);
            InBounds(logs, s) && CellSettled(logs, s, c) && FactSettled(logs, s, f)
    decreases |steps|
  {
    hide Next, Write, Establishes, Exclusive, AllMergeable;
    if steps == [] {
      InitiallySettled(logs, c, f);
    } else {
      var n := |steps| - 1;
      RunsStaySettled(logs, steps[..n], c, f);
      StepSettlesCell(logs, Execute(logs, steps[..n]), steps[n], c);
      StepSettlesFact(logs, Execute(logs, steps[..n]), steps[n], f);
    }
  }

  lemma InitiallySettled(logs: seq<seq<Message>>, c: Cell, f: Fact)
    ensures var s := Initial(|logs|);
            InBounds(logs, s) && CellSettled(logs, s, c) && FactSettled(logs, s, f)
  {
    hide Write, Establishes;
    var s := Initial(|logs|);
    forall p | 0 <= p < |logs|
      ensures logs[p][..s.position[p]] == []
    {
    }
  }

  // ----- convergence -----

  function Logs(published: seq<Message>, part: Partitioner, partitions: nat): (logs: seq<seq<Message>>)
    ensures |logs| == partitions
    ensures forall p :: 0 <= p < partitions ==> logs[p] == Partition(published, part, p)
  {
    seq(partitions, p requires 0 <= p < partitions => Partition(published, part, p))
  }

  lemma LogsAreExclusive(published: seq<Message>, part: Partitioner, partitions: nat)
    requires SharesKeys(published) && AllMergeable(published)
    ensures Exclusive(Logs(published, part, partitions))
    ensures forall p :: 0 <= p < partitions ==> AllMergeable(Logs(published, part, partitions)[p])
  {
    hide Write, Mergeable, Partition;
    var logs := Logs(published, part, partitions);
    forall p | 0 <= p < partitions
      ensures AllMergeable(logs[p])
      ensures forall m :: m in logs[p] ==> m in published && part(m.key) == p
    {
      PartitionMembers(published, part, p);
      forall k | 0 <= k < |logs[p]|
        ensures Mergeable(logs[p][k].event)
      {
        assert logs[p][k] in published;
      }
    }
    forall p, q, i, j, c | 0 <= p < |logs| && 0 <= q < |logs| && 0 <= i < |logs[p]| && 0 <= j < |logs[q]|
      && Writes(logs[p][i], c) && Writes(logs[q][j], c)
      ensures p == q
    {
      assert logs[p][i] in published && logs[q][j] in published;
    }
  }

  lemma DeliveredCell(published: seq<Message>, part: Partitioner, partitions: nat, s: System, c: Cell)
    requires SharesKeys(published)
    requires forall m :: m in published ==> part(m.key) < partitions
    requires var logs := Logs(published, part, partitions);
             && InBounds(logs, s) && CellSettled(logs, s, c)
             && forall p :: 0 <= p < partitions ==> s.position[p] == |logs[p]|
    ensures Read(s.graph, c) == LastWrite(published, c)
  {
    hide Write, Read, LastWrite, Partition;
    var logs := Logs(published, part, partitions);
    if k :| 0 <= k < |published| && Writes(published[k], c) {
      var p := part(published[k].key);
      assert published[k] in published;
      PartitionMembers(published, part, p);
      assert published[k] in logs[p];
      var i :| 0 <= i < |logs[p]| && logs[p][i] == published[k];
      assert WritesSomewhere(logs[p], c);
      assert logs[p][..s.position[p]] == logs[p];
      PartitionKeepsLastWrite(published, part, p, c);
    } else {
      forall p | 0 <= p < partitions
        ensures !WritesSomewhere(logs[p], c)
      {
        PartitionMembers(published, part, p);
        forall i | 0 <= i < |logs[p]|
          ensures !Writes(logs[p][i], c)
        {
          assert logs[p][i] in published;
        }
      }
      LastWriteQuiet(published, 0, |published|, c);
      assert published[..|published|] == published;
      assert LastWrite(published[..0], c) == None by { NoWrite(published[..0], c); }
    }
  }

  lemma NoWrite(log: seq<Message>, c: Cell)
    requires log == []
    ensures LastWrite(log, c) == None
  {
  }

  lemma DeliveredFact(published: seq<Message>, part: Partitioner, partitions: nat, s: System, f: Fact)
    requires forall m :: m in published ==> part(m.key) < partitions
    requires var logs := Logs(published, part, partitions);
             && InBounds(logs, s) && FactSettled(logs, s, f)
             && forall p :: 0 <= p < partitions ==> s.position[p] == |logs[p]|
    ensures Holds(s.graph, f) <==> Mentions(published, f)
  {
    hide Establishes, Holds, Partition;
    var logs := Logs(published, part, partitions);
    if Mentions(published, f) {
      var k :| 0 <= k < |published| && Establishes(published[k].event, f);
      var p := part(published[k].key);
      assert published[k] in published;
      PartitionMembers(published, part, p);
      assert published[k] in logs[p];
      var i :| 0 <= i < |logs[p]| && logs[p][i] == published[k];
      assert logs[p][..s.position[p]] == logs[p];
      assert Mentions(logs[p], f);
    }
    if Holds(s.graph, f) {
      var p :| 0 <= p < |logs| && Mentions(logs[p], f);
      var i :| 0 <= i < |logs[p]| && Establishes(logs[p][i].event, f);
      PartitionMembers(published, part, p);
      assert logs[p][i] in published;
      var k :| 0 <= k < |published| && published[k] == logs[p][i];
      assert Establishes(published[k].event, f);
    }
  }

  /**
   Convergence: whatever the interleaving of partitions, the crashes, restarts and replays, once
   every partition has been read to its end the graph is that of one in-order pass over everything
   that was published.
   */
  lemma DeliveryConverges(published: seq<Message>, part: Partitioner, partitions: nat, steps: seq<Step>)
    requires AllMergeable(published) && SharesKeys(published)
    requires forall m :: m in published ==> part(m.key) < partitions
    requires var logs := Logs(published, part, partitions);
             forall p :: 0 <= p < partitions ==> Execute(logs, steps).position[p] == |logs[p]|
    ensures Execute(Logs(published, part, partitions), steps).graph == CleanPass(published)
  {
    hide Write, Establishes, Read, Holds, LastWrite, Partition, Mergeable, Next, CellSettled, FactSettled, Mentions, Exclusive;
    var logs := Logs(published, part, partitions);
    var s := Execute(logs, steps);
    LogsAreExclusive(published, part, partitions);
    forall c
      ensures Read(s.graph, c) == Read(CleanPass(published), c)
    {
      var f := HasNode(NodeKey("", ""));
      RunsStaySettled(logs, steps, c, f);
      DeliveredCell(published, part, partitions, s, c);
      CleanPassMeans(published, c, f);
    }
    forall f
      ensures Holds(s.graph, f) <==> Holds(CleanPass(published), f)
    {
      var c := NodeCell(NodeKey("", ""), TenantId);
      RunsStaySettled(logs, steps, c, f);
      DeliveredFact(published, part, partitions, s, f);
      CleanPassMeans(published, c, f);
    }
    GraphsEqual(s.graph, CleanPass(published));
  }
}
