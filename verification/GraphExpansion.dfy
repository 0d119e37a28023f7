/** The two-hop walk over the fact graph, and retrieval with the lanes it adds. */
module GraphExpansion {
  import opened Common
  import opened Retrieval

  const FAN_OUT: nat := 5

  type FactId = nat

  /** A fact as the graph answers it, under its id. */
  datatype GraphFact = GraphFact(id: FactId, version: VersionId, evidence: ChunkId, source: string, relation: string,
                                 target: string)

  /** The fact table, and what the graph answers for an entity in the scope of one generation. */
  datatype Graph = Graph(table: map<FactId, GraphFact>, neighbors: string -> seq<GraphFact>)

  /** The graph's answer counts only where the fact table of the scope says the same. */
  predicate Authoritative(f: GraphFact, table: map<FactId, GraphFact>, versions: set<VersionId>) {
    && f.id in table && table[f.id].version in versions
    && table[f.id].source == f.source && table[f.id].relation == f.relation
    && table[f.id].target == f.target && table[f.id].evidence == f.evidence
  }

  function Kept(facts: seq<GraphFact>, table: map<FactId, GraphFact>, versions: set<VersionId>): seq<GraphFact> {
    if facts == [] then []
    else
      var before := Kept(facts[..|facts| - 1], table, versions);
      var last := facts[|facts| - 1];
      if Authoritative(last, table, versions) then before + [last] else before
  }

  method Filter(facts: seq<GraphFact>, table: map<FactId, GraphFact>, versions: set<VersionId>)
    returns (kept: seq<GraphFact>)
    ensures kept == Kept(facts, table, versions)
  {
    kept := [];
    for i := 0 to |facts|
      invariant kept == Kept(facts[..i], table, versions)
    {
      assert facts[..i + 1][..i] == facts[..i];
      if Authoritative(facts[i], table, versions) {
        kept := kept + [facts[i]];
      }
    }
    assert facts[..|facts|] == facts;
  }

  /** The table holds a fact of these versions under the same id, with the same content. */
  ghost predicate Confirmed(f: GraphFact, table: map<FactId, GraphFact>, versions: set<VersionId>) {
    && f.id in table
    && exists version :: version in versions && table[f.id] == f.(id := table[f.id].id, version := version)
  }

  lemma AuthoritativeExact(f: GraphFact, table: map<FactId, GraphFact>, versions: set<VersionId>)
    ensures Authoritative(f, table, versions) <==> Confirmed(f, table, versions)
  {
  }

  /** Kept are exactly the confirmed facts, in the graph's order. */
  lemma {:induction false} KeptExact(facts: seq<GraphFact>, table: map<FactId, GraphFact>, versions: set<VersionId>)
    returns (kept: seq<nat>)
    ensures Picks(facts, Kept(facts, table, versions), kept)
    ensures forall i: nat :: i < |facts| ==> (i in kept <==> Confirmed(facts[i], table, versions))
  {
    if facts == [] {
      kept := [];
    } else {
      var n := |facts| - 1;
      var before := KeptExact(facts[..n], table, versions);
      kept := KeptLast(facts, table, versions, before);
    }
  }

  lemma KeptLast(facts: seq<GraphFact>, table: map<FactId, GraphFact>, versions: set<VersionId>, before: seq<nat>)
    returns (kept: seq<nat>)
    requires facts != [] && Picks(facts[..|facts| - 1], Kept(facts[..|facts| - 1], table, versions), before)
    requires forall i: nat :: i < |facts| - 1 ==>
               (i in before <==> Confirmed(facts[..|facts| - 1][i], table, versions))
    ensures Picks(facts, Kept(facts, table, versions), kept)
    ensures forall i: nat :: i < |facts| ==> (i in kept <==> Confirmed(facts[i], table, versions))
  {
    var n := |facts| - 1;
    AuthoritativeExact(facts[n], table, versions);
    PicksMore(facts, Kept(facts[..n], table, versions), before);
    kept := if Authoritative(facts[n], table, versions) then before + [n] else before;
    forall i: nat | i < |facts| ensures i in kept <==> Confirmed(facts[i], table, versions) {
      assert i < n ==> facts[..n][i] == facts[i];
      assert n !in before by {
        assert forall k :: 0 <= k < |before| ==> before[k] < n;
      }
    }
  }

  function Answer(g: Graph, entity: string, versions: set<VersionId>): seq<GraphFact> {
    Kept(g.neighbors(entity), g.table, versions)
  }

  function Hits(facts: seq<GraphFact>): (r: seq<Hit>)
    ensures |r| == |facts|
    ensures forall i :: 0 <= i < |r| ==> r[i] == Hit(facts[i].evidence, facts[i].version)
  {
    seq(|facts|, i requires 0 <= i < |facts| => Hit(facts[i].evidence, facts[i].version))
  }

  // ---------------------------------------------------------------- the walk

  /** The entities of a list in order, each once, without those seen before. */
  function Unseen(entities: seq<string>, seen: set<string>): seq<string> {
    if entities == [] then []
    else
      var before := Unseen(entities[..|entities| - 1], seen);
      var last := entities[|entities| - 1];
      if last in seen || last in before then before else before + [last]
  }

  lemma {:induction false} UnseenExact(entities: seq<string>, seen: set<string>)
    ensures Distinct(Unseen(entities, seen)) && |Unseen(entities, seen)| <= |entities|
    ensures forall e :: e in Unseen(entities, seen) <==> e in entities && e !in seen
  {
    if entities != [] {
      UnseenExact(entities[..|entities| - 1], seen);
      assert entities == entities[..|entities| - 1] + [entities[|entities| - 1]];
    }
  }

  /** They come in the order of their first occurrences. */
  lemma {:induction false} UnseenOrdered(entities: seq<string>, seen: set<string>) returns (first: seq<nat>)
    ensures Picks(entities, Unseen(entities, seen), first)
    ensures forall i: nat :: i in first ==> IsFirst(entities, i)
  {
    if entities == [] {
      first := [];
    } else {
      var n := |entities| - 1;
      var init := entities[..n];
      first := UnseenOrdered(init, seen);
      UnseenExact(init, seen);
      PicksMore(entities, Unseen(init, seen), first);
      assert forall i :: 0 <= i < n ==> init[i] == entities[i];
      assert forall i: nat :: i in first ==> IsFirst(init, i) && IsFirst(entities, i);
      if entities[n] !in seen && entities[n] !in Unseen(init, seen) {
        assert entities[n] !in init;
        first := first + [n];
      }
    }
  }

  ghost predicate IsFirst(entities: seq<string>, i: nat) {
    i < |entities| && forall j :: 0 <= j < i ==> entities[j] != entities[i]
  }

  /** Both ends of every fact of a version in scope, in order. */
  function Ends(facts: seq<GraphFact>, versions: set<VersionId>): seq<string> {
    if facts == [] then []
    else
      var before := Ends(facts[..|facts| - 1], versions);
      var last := facts[|facts| - 1];
      if last.version in versions then before + [last.source, last.target] else before
  }

  /** Of each fact of a version in scope, in order, its source and then its target. */
  lemma {:induction false} EndsExact(facts: seq<GraphFact>, versions: set<VersionId>) returns (kept: seq<nat>)
    ensures forall j, k :: 0 <= j < k < |kept| ==> kept[j] < kept[k]
    ensures forall i: nat :: i in kept <==> i < |facts| && facts[i].version in versions
    ensures |Ends(facts, versions)| == 2 * |kept|
    ensures forall k :: 0 <= k < |kept| ==>
              kept[k] < |facts| && Ends(facts, versions)[2 * k] == facts[kept[k]].source
              && Ends(facts, versions)[2 * k + 1] == facts[kept[k]].target
  {
    if facts == [] {
      kept := [];
    } else {
      var n := |facts| - 1;
      kept := EndsExact(facts[..n], versions);
      assert forall i :: 0 <= i < n ==> facts[..n][i] == facts[i];
      if facts[n].version in versions {
        kept := kept + [n];
      }
    }
  }

  /** The ends that the answers for these entities lead to. */
  function Reached(g: Graph, asked: seq<string>, versions: set<VersionId>): seq<string> {
    if asked == [] then []
    else Reached(g, asked[..|asked| - 1], versions) + Ends(Answer(g, asked[|asked| - 1], versions), versions)
  }

  function LanesFor(g: Graph, generation: string, asked: seq<string>, versions: set<VersionId>): (r: seq<Lane>)
    ensures |r| == |asked|
    ensures forall k :: 0 <= k < |r| ==> r[k] == Lane(generation, Hits(Answer(g, asked[k], versions)))
  {
    seq(|asked|, k requires 0 <= k < |asked| => Lane(generation, Hits(Answer(g, asked[k], versions))))
  }

  function FirstFive(entities: seq<string>): seq<string> {
    if |entities| <= FAN_OUT then entities else entities[..FAN_OUT]
  }

  function FirstHop(entities: seq<string>): seq<string> {
    Unseen(FirstFive(entities), {})
  }

  function SecondHop(g: Graph, asked: seq<string>, versions: set<VersionId>): seq<string> {
    Unseen(FirstFive(Unseen(Reached(g, asked, versions), {})), set e | e in asked)
  }

  function Walk(g: Graph, entities: seq<string>, versions: set<VersionId>): seq<string> {
    FirstHop(entities) + SecondHop(g, FirstHop(entities), versions)
  }

  lemma {:induction false} UnseenNext(entities: seq<string>, i: nat, seen: set<string>)
    requires i < |entities|
    ensures Unseen(entities[..i + 1], seen) ==
              if entities[i] in seen || entities[i] in Unseen(entities[..i], seen) then Unseen(entities[..i], seen)
              else Unseen(entities[..i], seen) + [entities[i]]
  {
    assert entities[..i + 1][..i] == entities[..i];
  }

  /** One hop: of the first five entities, those not asked before. */
  method Hop(g: Graph, generation: string, frontier: seq<string>, seen: set<string>, versions: set<VersionId>)
    returns (lanes: seq<Lane>, asked: seq<string>, next: seq<string>)
    ensures asked == Unseen(FirstFive(frontier), seen)
    ensures lanes == LanesFor(g, generation, asked, versions)
    ensures next == Unseen(Reached(g, asked, versions), {})
  {
    lanes, asked, next := [], [], [];
    var five := FirstFive(frontier);
    for i := 0 to |five|
      invariant asked == Unseen(five[..i], seen)
      invariant lanes == LanesFor(g, generation, asked, versions)
      invariant next == Reached(g, asked, versions)
    {
      var entity := five[i];
      UnseenNext(five, i, seen);
      if entity !in seen && entity !in asked {
        var facts := Filter(g.neighbors(entity), g.table, versions);
        var ends := EndsOf(facts, versions);
        AskedNext(g, generation, asked, entity, versions);
        lanes, asked, next := lanes + [Lane(generation, Hits(facts))], asked + [entity], next + ends;
      }
    }
    assert five[..|five|] == five;
    next := Deduplicate(next);
  }

  lemma {:induction false} AskedNext(g: Graph, generation: string, asked: seq<string>, entity: string,
                                     versions: set<VersionId>)
    ensures LanesFor(g, generation, asked + [entity], versions) ==
              LanesFor(g, generation, asked, versions) + [Lane(generation, Hits(Answer(g, entity, versions)))]
    ensures Reached(g, asked + [entity], versions) ==
              Reached(g, asked, versions) + Ends(Answer(g, entity, versions), versions)
  {
    assert (asked + [entity])[..|asked|] == asked;
  }

  method EndsOf(facts: seq<GraphFact>, versions: set<VersionId>) returns (ends: seq<string>)
    ensures ends == Ends(facts, versions)
  {
    ends := [];
    for i := 0 to |facts|
      invariant ends == Ends(facts[..i], versions)
    {
      assert facts[..i + 1][..i] == facts[..i];
      if facts[i].version in versions {
        ends := ends + [facts[i].source, facts[i].target];
      }
    }
    assert facts[..|facts|] == facts;
  }

  /** `list(dict.fromkeys(...))`. */
  method Deduplicate(entities: seq<string>) returns (r: seq<string>)
    ensures r == Unseen(entities, {})
  {
    r := [];
    for i := 0 to |entities|
      invariant r == Unseen(entities[..i], {})
    {
      assert entities[..i + 1][..i] == entities[..i];
      if entities[i] !in r {
        r := r + [entities[i]];
      }
    }
    assert entities[..|entities|] == entities;
  }

  /** The walk of one generation. */
  method Expand(g: Graph, generation: string, entities: seq<string>, versions: set<VersionId>)
    returns (lanes: seq<Lane>)
    ensures lanes == LanesFor(g, generation, Walk(g, entities, versions), versions)
  {
    var first, from, next := Hop(g, generation, entities, {}, versions);
    var second, beyond, rest := Hop(g, generation, next, (set e | e in from), versions);
    LanesAppend(g, generation, from, beyond, versions);
    lanes := first + second;
  }

  lemma LanesAppend(g: Graph, generation: string, a: seq<string>, b: seq<string>, versions: set<VersionId>)
    ensures LanesFor(g, generation, a + b, versions) ==
              LanesFor(g, generation, a, versions) + LanesFor(g, generation, b, versions)
  {
  }

  /** A confirmed fact of a version in scope, answered for `origin`, has this end. */
  ghost predicate Leads(g: Graph, origin: string, entity: string, versions: set<VersionId>) {
    exists f :: f in g.neighbors(origin) && Confirmed(f, g.table, versions) && f.version in versions
                && entity in [f.source, f.target]
  }

  lemma {:induction false} LeadsExact(g: Graph, origin: string, versions: set<VersionId>)
    ensures forall e :: e in Ends(Answer(g, origin, versions), versions) <==> Leads(g, origin, e, versions)
  {
    forall e ensures e in Ends(Answer(g, origin, versions), versions) <==> Leads(g, origin, e, versions) {
      if e in Ends(Answer(g, origin, versions), versions) {
        EndLeads(g, origin, versions, e);
      }
      if Leads(g, origin, e, versions) {
        LeadsEnd(g, origin, versions, e);
      }
    }
  }

  lemma {:induction false} EndLeads(g: Graph, origin: string, versions: set<VersionId>, e: string)
    requires e in Ends(Answer(g, origin, versions), versions)
    ensures Leads(g, origin, e, versions)
  {
    var answer := Answer(g, origin, versions);
    var ends := Ends(answer, versions);
    var kept := KeptExact(g.neighbors(origin), g.table, versions);
    var scoped := EndsExact(answer, versions);
    var m :| 0 <= m < |ends| && ends[m] == e;
    var at := scoped[m / 2];
    assert at in scoped && kept[at] in kept;
    assert m == 2 * (m / 2) || m == 2 * (m / 2) + 1;
    assert answer[at] in g.neighbors(origin) && e in [answer[at].source, answer[at].target];
  }

  lemma {:induction false} LeadsEnd(g: Graph, origin: string, versions: set<VersionId>, e: string)
    requires Leads(g, origin, e, versions)
    ensures e in Ends(Answer(g, origin, versions), versions)
  {
    var asked, answer := g.neighbors(origin), Answer(g, origin, versions);
    var kept := KeptExact(asked, g.table, versions);
    var scoped := EndsExact(answer, versions);
    var f :| f in asked && Confirmed(f, g.table, versions) && f.version in versions && e in [f.source, f.target];
    var i :| 0 <= i < |asked| && asked[i] == f;
    var k :| 0 <= k < |kept| && kept[k] == i;
    assert answer[k] == f;
    var j :| 0 <= j < |scoped| && scoped[j] == k;
    var ends := Ends(answer, versions);
    assert ends[2 * j] == f.source && ends[2 * j + 1] == f.target;
  }

  ghost predicate LeadsFrom(g: Graph, origins: seq<string>, entity: string, versions: set<VersionId>) {
    exists origin :: origin in origins && Leads(g, origin, entity, versions)
  }

  lemma {:induction false} ReachedExact(g: Graph, asked: seq<string>, versions: set<VersionId>)
    ensures forall e :: e in Reached(g, asked, versions) <==> LeadsFrom(g, asked, e, versions)
  {
    if asked != [] {
      var init, last := asked[..|asked| - 1], asked[|asked| - 1];
      ReachedExact(g, init, versions);
      assert asked == init + [last];
      LeadsExact(g, last, versions);
      forall e ensures e in Reached(g, asked, versions) <==> LeadsFrom(g, asked, e, versions) {
        assert LeadsFrom(g, asked, e, versions) <==> LeadsFrom(g, init, e, versions) || Leads(g, last, e, versions);
      }
    }
  }

  lemma DistinctAppend(a: seq<string>, b: seq<string>)
    requires Distinct(a) && Distinct(b) && forall e :: e in b ==> e !in a
    ensures Distinct(a + b)
  {
    forall i, j | 0 <= i < j < |a + b| ensures (a + b)[i] != (a + b)[j] {
      assert i < |a| ==> (a + b)[i] in a;
      assert j >= |a| ==> (a + b)[j] in b;
    }
  }

  /** The ends the first hop leads to, each once. */
  function Frontier(g: Graph, entities: seq<string>, versions: set<VersionId>): seq<string> {
    Unseen(Reached(g, FirstHop(entities), versions), {})
  }

  /** The walk asks at most ten entities and none twice: all of the question's first five, and all of
      the first five ends of confirmed facts that those lead to, and nothing else. */
  lemma WalkExact(g: Graph, entities: seq<string>, versions: set<VersionId>)
    ensures |Walk(g, entities, versions)| <= 10 && Distinct(Walk(g, entities, versions))
    ensures var ends := Frontier(g, entities, versions);
            forall e :: e in Walk(g, entities, versions) <==>
                        e in entities[..Min(5, |entities|)] || e in ends[..Min(5, |ends|)]
  {
    var first, ends := FirstHop(entities), Frontier(g, entities, versions);
    UnseenExact(FirstFive(entities), {});
    UnseenExact(FirstFive(ends), set e | e in first);
    DistinctAppend(first, SecondHop(g, first, versions));
  }

  lemma FrontierExact(g: Graph, entities: seq<string>, versions: set<VersionId>)
    ensures Distinct(Frontier(g, entities, versions))
    ensures forall e :: e in Frontier(g, entities, versions) <==>
                        LeadsFrom(g, entities[..Min(5, |entities|)], e, versions)
  {
    UnseenExact(FirstFive(entities), {});
    UnseenExact(Reached(g, FirstHop(entities), versions), {});
    ReachedExact(g, FirstHop(entities), versions);
  }

  /** What the entities lead to comes in the order in which they were asked. */
  lemma {:induction false} ReachedInOrder(g: Graph, asked: seq<string>, later: seq<string>, versions: set<VersionId>)
    ensures Reached(g, asked + later, versions) == Reached(g, asked, versions) + Reached(g, later, versions)
    ensures |asked| == 1 ==> Reached(g, asked, versions) ==
                               Ends(Kept(g.neighbors(asked[0]), g.table, versions), versions)
    decreases |later|
  {
    if later == [] {
      assert asked + later == asked;
    } else {
      var n := |later| - 1;
      ReachedInOrder(g, asked, later[..n], versions);
      assert (asked + later)[..|asked| + n] == asked + later[..n];
      Associative(Reached(g, asked, versions), Reached(g, later[..n], versions),
                  Ends(Answer(g, later[n], versions), versions));
    }
    if |asked| == 1 {
      assert asked[..0] == [];
    }
  }

  // ---------------------------------------------------------------- retrieval with the walk

  function VersionsOf(visible: Scope, generation: string): set<VersionId> {
    set v | v in visible && visible[v] == generation
  }

  /** The lanes that the walks of all generations add. */
  function WalkLanes(graphs: seq<(string, Graph)>, entities: seq<string>, visible: Scope): seq<Lane> {
    if graphs == [] then []
    else
      var (generation, g) := graphs[|graphs| - 1];
      var versions := VersionsOf(visible, generation);
      WalkLanes(graphs[..|graphs| - 1], entities, visible)
        + LanesFor(g, generation, Walk(g, entities, versions), versions)
  }

  /** The walk of the last generation, over its own visible versions, comes after those of the others. */
  lemma WalkLanesExact(graphs: seq<(string, Graph)>, entities: seq<string>, visible: Scope) returns (last: seq<Lane>)
    requires graphs != []
    ensures WalkLanes(graphs, entities, visible) == WalkLanes(graphs[..|graphs| - 1], entities, visible) + last
    ensures var (generation, g) := graphs[|graphs| - 1];
            var versions := set v | v in visible && visible[v] == generation;
            var walk := Walk(g, entities, versions);
            && |last| == |walk|
            && forall k :: 0 <= k < |walk| ==>
                 last[k] == Lane(generation, Hits(Kept(g.neighbors(walk[k]), g.table, versions)))
  {
    var (generation, g) := graphs[|graphs| - 1];
    var versions := VersionsOf(visible, generation);
    assert versions == set v | v in visible && visible[v] == generation;
    last := LanesFor(g, generation, Walk(g, entities, versions), versions);
  }

  /** A confirmed fact of a visible version names this chunk as its evidence. */
  ghost predicate FactEvidence(graphs: seq<(string, Graph)>, visible: Scope, id: ChunkId) {
    exists k, f :: 0 <= k < |graphs| && ConfirmedBy(graphs[k], visible, f) && f.evidence == id
  }

  ghost predicate ConfirmedBy(graph: (string, Graph), visible: Scope, f: GraphFact) {
    && Confirmed(f, graph.1.table, set v | v in visible && visible[v] == graph.0)
    && f.version in visible && visible[f.version] == graph.0
  }

  lemma {:induction false} WalkLanesConfirmed(graphs: seq<(string, Graph)>, entities: seq<string>, visible: Scope,
                                              l: nat, r: nat)
    requires l < |WalkLanes(graphs, entities, visible)|
    requires var lane := WalkLanes(graphs, entities, visible)[l];
             r < |lane.hits| && InLane(lane, r, visible)
    ensures FactEvidence(graphs, visible, WalkLanes(graphs, entities, visible)[l].hits[r].id)
  {
    var last := |graphs| - 1;
    var before := WalkLanes(graphs[..last], entities, visible);
    if l < |before| {
      WalkLanesConfirmed(graphs[..last], entities, visible, l, r);
      var id := before[l].hits[r].id;
      var k, f :| 0 <= k < last && ConfirmedBy(graphs[..last][k], visible, f) && f.evidence == id;
      assert ConfirmedBy(graphs[k], visible, f);
    } else {
      var (generation, g) := graphs[last];
      var versions := VersionsOf(visible, generation);
      var entity := Walk(g, entities, versions)[l - |before|];
      var kept := KeptExact(g.neighbors(entity), g.table, versions);
      var f := Answer(g, entity, versions)[r];
      assert kept[r] in kept;
      assert ConfirmedBy(graphs[last], visible, f);
    }
  }

  lemma ScopedLanes(searches: seq<Lane>, walks: seq<Lane>, visible: Scope, id: ChunkId) returns (l: nat, r: nat)
    requires InScope(searches + walks, |searches + walks|, visible, id) && !InScope(searches, |searches|, visible, id)
    ensures l < |walks| && r < |walks[l].hits|
    ensures walks[l].hits[r].id == id && InLane(walks[l], r, visible)
  {
    var lanes := searches + walks;
    var m :| 0 <= m < |lanes| && Returned(lanes[m], |lanes[m].hits|, visible, id);
    forall i | 0 <= i < |searches| ensures !Returned(lanes[i], |lanes[i].hits|, visible, id) {
      assert lanes[i] == searches[i];
    }
    l := m - |searches|;
    var k :| 0 <= k < |lanes[m].hits| && lanes[m].hits[k].id == id && InLane(lanes[m], k, visible);
    r := k;
  }

  /** `retrieve` with the walk: outside global mode, all evidence was returned by a search in scope or
      is the evidence of a fact that the fact table confirms for a visible version. */
  method RetrieveWithGraph(table: seq<Row>, visible: Scope, searches: seq<Lane>, graphs: seq<(string, Graph)>,
                           entities: seq<string>, rerank: seq<nat>, global: bool, limit: nat)
    returns (r: Result<seq<Evidence>, RetrievalError>, ghost ids: seq<ChunkId>)
    requires limit >= 1 && UniqueIds(table)
    ensures !global ==>
              && BestIds(searches + WalkLanes(graphs, entities, visible), visible, ids)
              && r == FusedEvidence(table, visible, ids, rerank, limit)
    ensures global ==> r == if |Visible(table, visible)| > 1000 then Err(ScopeTooLarge)
                            else Ok(Chosen(Visible(table, visible), true, limit))
    ensures r.Ok? ==> Sourced(r.value, table, visible) && NoRepeats(r.value) && Distinct(EvidenceIds(r.value))
    ensures r.Ok? ==> TotalText(r.value) <= (if global then 45000 else 24000) && (!global ==> |r.value| <= limit)
    ensures r.Ok? && !global ==>
              forall k :: 0 <= k < |r.value| ==>
                InScope(searches, |searches|, visible, r.value[k].id) || FactEvidence(graphs, visible, r.value[k].id)
  {
    var walks := [];
    for i := 0 to |graphs|
      invariant walks == WalkLanes(graphs[..i], entities, visible)
    {
      var (generation, g) := graphs[i];
      assert graphs[..i + 1][..i] == graphs[..i];
      var more := Expand(g, generation, entities, VersionsOf(visible, generation));
      walks := walks + more;
    }
    assert graphs[..|graphs|] == graphs;
    r, ids := Retrieve(table, visible, searches + walks, rerank, global, limit);
    if r.Ok? && !global {
      forall k | 0 <= k < |r.value|
        ensures InScope(searches, |searches|, visible, r.value[k].id) || FactEvidence(graphs, visible, r.value[k].id)
      {
        var id := r.value[k].id;
        if !InScope(searches, |searches|, visible, id) {
          var l, m := ScopedLanes(searches, walks, visible, id);
          WalkLanesConfirmed(graphs, entities, visible, l, m);
        }
      }
    }
  }
}
