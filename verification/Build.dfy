/** Analysing a project in dependency waves through a content-addressed cache. */
module Build {
  import opened Prelude
  import opened Fixpoint
  import opened Lineage
  import Layers
  import Order
  import Keys = CacheKey

  datatype LineageNode = LineageNode(
    id: string,
    relation: RelationName,
    kind: NodeKind,
    sql: Option<string>,
    columns: Option<seq<string>>,
    dependsOn: seq<string>)

  /** Columns known so far, by relation. */
  type Known = map<RelationName, seq<string>>

  function Lookup(known: Known, r: RelationName): Option<seq<string>> { if r in known then Some(known[r]) else None }

  /** A SQL analyzer: nothing when the analyzer itself fails. */
  datatype Analyzer = Analyzer(version: string, analyze: (string, Known) -> Option<QueryLineage>)
  {
    /** The result depends only on the SQL and on the columns of the relations it reports
        reading. */
    ghost predicate Local() {
      forall sql, a, b ::
          analyze(sql, a).Some? && SameOn(a, b, analyze(sql, a).value.relationsRead) ==>
          analyze(sql, b) == analyze(sql, a)
    }
  }

  ghost predicate SameOn(a: Known, b: Known, relations: set<RelationName>) {
    forall r :: r in relations ==> Lookup(a, r) == Lookup(b, r)
  }

  datatype Hasher = Hasher(utf8: string -> Keys.Bytes, sha256: Keys.Bytes -> string)
  {
    /** No two byte streams share a digest, and text is encoded without loss. */
    ghost predicate Ideal() {
      Keys.Lossless(utf8) && forall a, b :: sha256(a) == sha256(b) ==> a == b
    }

    function KeyOf(version: string, sql: string, u: Keys.Upstream): string {
      sha256(Keys.Stream(utf8, version, sql, u))
    }
  }

  /** What a build works on. */
  datatype Setup = Setup(byId: map<string, LineageNode>, an: Analyzer, h: Hasher)

  // ---- one node ---------------------------------------------------------------------

  /** The relations of the nodes it declares, those in the project. */
  function DependsOn(byId: map<string, LineageNode>, node: LineageNode): set<RelationName> {
    set d | d in node.dependsOn && d in byId :: byId[d].relation
  }

  function DependsOnList(byId: map<string, LineageNode>, ids: seq<string>): seq<RelationName> {
    if ids == [] then [] else
      (if ids[0] in byId then [byId[ids[0]].relation] else []) + DependsOnList(byId, ids[1..])
  }

  /** Its declared upstream relations in sort order, each with the columns known now. */
  function UpstreamOf(byId: map<string, LineageNode>, node: LineageNode, known: Known): Keys.Upstream {
    var list := Order.Listing(DependsOn(byId, node));
    seq(|list|, i requires 0 <= i < |list| => (list[i], Lookup(known, list[i])))
  }

  function Outputs(l: QueryLineage): (r: seq<string>)
    ensures |r| == |l.outputs|
  {
    seq(|l.outputs|, i requires 0 <= i < |l.outputs| => l.outputs[i].name)
  }

  function Declared(node: LineageNode): seq<string> { if node.columns.Some? then node.columns.value else [] }

  /** The node with this lineage. */
  function WithLineage(s: Setup, node: LineageNode, known: Known, l: QueryLineage): NodeLineage
    requires node.sql.Some?
  {
    NodeLineage(node.id, node.relation, node.kind, if l.unread then Declared(node) else Outputs(l), Some(l),
      Some(s.h.KeyOf(s.an.version, node.sql.value, UpstreamOf(s.byId, node, known))),
          DependsOnList(s.byId, node.dependsOn))
  }

  /** The reference: analysing a node without a cache. Nothing when the analyzer fails. */
  function Analyze(s: Setup, node: LineageNode, known: Known): Option<NodeLineage> {
    match node.sql
    case None =>
        Some(NodeLineage(node.id, node.relation, node.kind, Declared(node), None, None,
        DependsOnList(s.byId, node.dependsOn)))
    case Some(sql) =>
      var l := s.an.analyze(sql, known);
      if l.None? then None else Some(WithLineage(s, node, known, l.value))
  }

  // ---- the cache --------------------------------------------------------------------

  class MemoryCache {
    var entries: map<string, QueryLineage>

    constructor ()
      ensures entries == map[]
    {
      entries := map[];
    }

    method Get(key: string) returns (l: Option<QueryLineage>)
      ensures l == if key in entries then Some(entries[key]) else None
    {
      if key in entries { return Some(entries[key]); }
      return None;
    }

    method Put(key: string, l: QueryLineage)
      modifies this
      ensures entries == old(entries)[key := l]
    {
      entries := entries[key := l];
    }
  }

  /** Relation names without dots, and every length fits its 64-bit prefix. */
  ghost predicate Proper(h: Hasher, version: string, sql: string, u: Keys.Upstream) {
    Keys.Sized(h.utf8, version, sql, u) && forall i :: 0 <= i < |u| ==> Keys.Dotless(u[i].0)
  }

  /** `l` is what the analyzer gives for this SQL wherever the upstream columns are these. */
  ghost predicate Explains(an: Analyzer, sql: string, u: Keys.Upstream, l: QueryLineage) {
    forall known: Known ::
        (forall i :: 0 <= i < |u| ==> Lookup(known, u[i].0) == u[i].1) ==> an.analyze(sql, known) == Some(l)
  }

  /** Every entry under a key of this analyzer version is what the analyzer would give. */
  ghost predicate Sound(entries: map<string, QueryLineage>, an: Analyzer, h: Hasher) {
    forall sql, u :: Proper(h, an.version, sql, u) && h.KeyOf(an.version, sql, u) in entries ==>
      Explains(an, sql, u, entries[h.KeyOf(an.version, sql, u)])
  }

  lemma EmptyIsSound(an: Analyzer, h: Hasher)
    ensures Sound(map[], an, h)
  {
  }

  lemma KeyDetermines(h: Hasher, version: string, sql: string, u: Keys.Upstream, version': string, sql': string,
      v: Keys.Upstream)
    requires h.Ideal() && Proper(h, version, sql, u) && Proper(h, version', sql', v)
    requires h.KeyOf(version, sql, u) == h.KeyOf(version', sql', v)
    ensures version == version' && sql == sql' && u == v
  {
    Keys.KeyIsInjective(h.utf8, version, sql, u, version', sql', v);
  }

  /** A result whose reads the key covers holds wherever the covered columns are the same. */
  lemma CoveredExplains(s: Setup, node: LineageNode, known: Known, l: QueryLineage)
    requires s.an.Local() && node.sql.Some? && s.an.analyze(node.sql.value, known) == Some(l)
    requires l.relationsRead <= DependsOn(s.byId, node)
    ensures Explains(s.an, node.sql.value, UpstreamOf(s.byId, node, known), l)
  {
    var u, list := UpstreamOf(s.byId, node, known), Order.Listing(DependsOn(s.byId, node));
    forall k: Known | forall i ::
        0 <= i < |u| ==> Lookup(k, u[i].0) == u[i].1 ensures s.an.analyze(node.sql.value, k) == Some(l) {
      forall r | r in l.relationsRead ensures Lookup(known, r) == Lookup(k, r) {
        assert r in list;
        var i :| 0 <= i < |list| && list[i] == r;
        assert u[i] == (r, Lookup(known, r));
      }
      assert SameOn(known, k, l.relationsRead);
    }
  }

  /** Storing such a result keeps the cache sound, for this analyzer and for any other
      version's. */
  lemma PutKeepsSound(entries: map<string, QueryLineage>, an: Analyzer, h: Hasher, version: string, sql: string,
      u: Keys.Upstream, l: QueryLineage)
    requires h.Ideal() && Sound(entries, an, h) && Proper(h, version, sql, u)
    requires version == an.version ==> Explains(an, sql, u, l)
    ensures Sound(entries[h.KeyOf(version, sql, u) := l], an, h)
  {
    var after := entries[h.KeyOf(version, sql, u) := l];
    forall q, v | Proper(h, an.version, q, v) && h.KeyOf(an.version, q, v) in after
      ensures Explains(an, q, v, after[h.KeyOf(an.version, q, v)])
    {
      if h.KeyOf(an.version, q, v) == h.KeyOf(version, sql, u) { KeyDetermines(h, an.version, q, v, version, sql, u); }
    }
  }

  /** The version, the SQL and the relation names fit their 64-bit lengths, and no name part
      holds a dot. */
  ghost predicate ProperNames(s: Setup) {
    && Keys.Fits(s.h.utf8(s.an.version))
    && (forall id :: id in s.byId && s.byId[id].sql.Some? ==> Keys.Fits(s.h.utf8(s.byId[id].sql.value)))
    && forall id :: id in s.byId ==>
      Keys.Dotless(s.byId[id].relation) && Keys.Fits(s.h.utf8(Keys.Display(s.byId[id].relation)))
  }

  /** The columns known fit their 64-bit lengths. */
  ghost predicate Fitting(h: Hasher, known: Known) {
    forall r :: r in known ==> Keys.ColumnsFit(h.utf8, known[r])
  }

  lemma FittingIsProper(s: Setup, id: string, known: Known)
    requires ProperNames(s) && Fitting(s.h, known) && id in s.byId && s.byId[id].sql.Some?
    ensures Proper(s.h, s.an.version, s.byId[id].sql.value, UpstreamOf(s.byId, s.byId[id], known))
  {
    var u, list := UpstreamOf(s.byId, s.byId[id], known), Order.Listing(DependsOn(s.byId, s.byId[id]));
    forall i | 0 <= i < |u|
      ensures Keys.Dotless(u[i].0) && Keys.Fits(s.h.utf8(Keys.Display(u[i].0)))
      ensures u[i].1.Some? ==> Keys.ColumnsFit(s.h.utf8, u[i].1.value)
    {
      assert list[i] in DependsOn(s.byId, s.byId[id]);
    }
    Keys.FittingIsSized(s.h.utf8, s.an.version, s.byId[id].sql.value, u);
  }

  /** Analyses one node, through the cache: the same as without it. */
  method AnalyzeNode(s: Setup, id: string, known: Known, cache: MemoryCache) returns (r: Option<NodeLineage>, hit: bool)
    requires id in s.byId && s.an.Local() && s.h.Ideal() && Sound(cache.entries, s.an, s.h)
    requires ProperNames(s) && Fitting(s.h, known)
    modifies cache
    ensures r == Analyze(s, s.byId[id], known)
    ensures Sound(cache.entries, s.an, s.h)
    ensures forall other: Analyzer ::
        other.version != s.an.version && Sound(old(cache.entries), other, s.h) ==> Sound(cache.entries, other, s.h)
    ensures hit ==> cache.entries == old(cache.entries)
  {
    hide ProperNames, Fitting, Proper;
    var node := s.byId[id];
    if node.sql.None? { return Analyze(s, node, known), false; }
    var sql, upstream := node.sql.value, UpstreamOf(s.byId, node, known);
    FittingIsProper(s, id, known);
    var key := Keys.Key(s.h.utf8, s.h.sha256, s.an.version, sql, upstream);
    var cached := cache.Get(key);
    if cached.Some? {
      assert Explains(s.an, sql, upstream, cached.value);
      return Some(WithLineage(s, node, known, cached.value)), true;
    }
    var l := s.an.analyze(sql, known);
    if l.None? { return None, false; }
    if l.value.relationsRead <= DependsOn(s.byId, node) {
      CoveredExplains(s, node, known, l.value);
      PutKeepsSound(cache.entries, s.an, s.h, s.an.version, sql, upstream, l.value);
      forall other: Analyzer | other.version != s.an.version && Sound(cache.entries, other, s.h)
        ensures Sound(cache.entries[key := l.value], other, s.h)
      {
        PutKeepsSound(cache.entries, other, s.h, s.an.version, sql, upstream, l.value);
      }
      cache.Put(key, l.value);
    }
    return Some(WithLineage(s, node, known, l.value)), false;
  }

  // ---- a whole schedule -------------------------------------------------------------

  datatype Outcome = Done(nodes: map<string, NodeLineage>) | Failed(node: string)

  /** Columns found are known to whatever comes later. */
  function Learn(known: Known, nodes: seq<NodeLineage>): Known
    decreases |nodes|
  {
    if nodes == [] then known else
      Learn(if nodes[0].columns != [] then known[nodes[0].relation := nodes[0].columns] else known, nodes[1..])
  }

  function Remember(done: map<string, NodeLineage>, nodes: seq<NodeLineage>): map<string, NodeLineage>
    decreases |nodes|
  {
    if nodes == [] then done else Remember(done[nodes[0].id := nodes[0]], nodes[1..])
  }

  /** The results of a wave, all against the same known columns, or its first failure. */
  function WaveResults(s: Setup, wave: seq<string>, known: Known): (r: (seq<NodeLineage>, Option<string>))
    requires forall id :: id in wave ==> id in s.byId
    ensures r.1.None? ==>
        |r.0| == |wave| && forall i :: 0 <= i < |wave| ==> Analyze(s, s.byId[wave[i]], known) == Some(r.0[i])
    ensures r.1.Some? ==> r.1.value in wave && Analyze(s, s.byId[r.1.value], known) == None
  {
    if wave == [] then ([], None) else
      var first := Analyze(s, s.byId[wave[0]], known);
      if first.None? then ([], Some(wave[0])) else
        var rest := WaveResults(s, wave[1..], known);
        ([first.value] + rest.0, rest.1)
  }

  ghost predicate Scheduled(s: Setup, schedule: seq<seq<string>>) {
    forall k, id :: 0 <= k < |schedule| && id in schedule[k] ==> id in s.byId
  }

  /** The reference: running a schedule without a cache. */
  ghost function Run(s: Setup, schedule: seq<seq<string>>, known: Known, done: map<string, NodeLineage>): Outcome
    requires Scheduled(s, schedule)
  {
    if schedule == [] then Done(done) else
      var wave := WaveResults(s, schedule[0], known);
      assert Scheduled(s, schedule[1..]) by {
        assert forall k :: 0 <= k < |schedule[1..]| ==> schedule[1..][k] == schedule[k + 1];
      }
      if wave.1.Some? then Failed(wave.1.value) else
        Run(s, schedule[1..], Learn(known, wave.0), Remember(done, wave.0))
  }

  /** Every column list that occurs while the schedule runs fits its 64-bit length. */
  ghost predicate RunFits(s: Setup, schedule: seq<seq<string>>, known: Known)
    requires Scheduled(s, schedule)
  {
    && Fitting(s.h, known)
    && (schedule != [] ==>
          var wave := WaveResults(s, schedule[0], known);
          assert Scheduled(s, schedule[1..]) by {
            assert forall k :: 0 <= k < |schedule[1..]| ==> schedule[1..][k] == schedule[k + 1];
          }
          wave.1.None? ==> RunFits(s, schedule[1..], Learn(known, wave.0)))
  }

  /** Analyses a wave through the cache, every node of it even when one fails. */
  method AnalyzeWave(s: Setup, wave: seq<string>, known: Known, cache: MemoryCache)
    returns (nodes: seq<NodeLineage>, failed: Option<string>)
    requires (forall id :: id in wave ==> id in s.byId)
    requires s.an.Local() && s.h.Ideal() && Sound(cache.entries, s.an, s.h)
    requires ProperNames(s) && Fitting(s.h, known)
    modifies cache
    ensures (nodes, failed) == WaveResults(s, wave, known)
    ensures Sound(cache.entries, s.an, s.h)
    ensures forall other: Analyzer ::
        other.version != s.an.version && Sound(old(cache.entries), other, s.h) ==> Sound(cache.entries, other, s.h)
  {
    if wave == [] { return [], None; }
    var first, hit := AnalyzeNode(s, wave[0], known, cache);
    nodes, failed := AnalyzeWave(s, wave[1..], known, cache);
    if first.None? {
      nodes, failed := [], Some(wave[0]);
    } else {
      nodes := [first.value] + nodes;
    }
  }

  // ---- building ---------------------------------------------------------------------

  datatype BuildStats = BuildStats(waves: nat, missing: set<string>)

  datatype BuildResult =
    | Built(graph: ColumnGraph, stats: BuildStats)
    | DuplicateId(id: string)
    | DuplicateRelation(first: string, second: string, relation: RelationName)
    | CyclicDependencies
    | AnalyzerFailed(node: string)

  /** The index of a project whose ids and relations are all different. */
  ghost predicate IsIndex(project: seq<LineageNode>, byId: map<string, LineageNode>) {
    && (forall n :: n in project ==> n.id in byId && byId[n.id] == n)
    && (forall id :: id in byId ==> byId[id] in project && byId[id].id == id)
    && DistinctUpTo(project, |project|) && DistinctRelations(byId)
  }

  ghost predicate DistinctRelations(byId: map<string, LineageNode>) {
    forall i, j :: i in byId && j in byId && byId[i].relation == byId[j].relation ==> i == j
  }

  ghost predicate DistinctUpTo(project: seq<LineageNode>, k: nat)
    requires k <= |project|
  {
    forall i, j :: 0 <= i < j < k ==> project[i].id != project[j].id && project[i].relation != project[j].relation
  }

  /** The node at `k` is the first to share an id or a relation with an earlier one, as the
      error says; its id is looked at first. */
  ghost predicate FirstClash(project: seq<LineageNode>, k: nat, error: BuildResult) {
    && k < |project| && DistinctUpTo(project, k)
    && if exists i :: 0 <= i < k && project[i].id == project[k].id then error == DuplicateId(project[k].id)
       else exists i :: 0 <= i < k && project[i].relation == project[k].relation
                        && error == DuplicateRelation(project[i].id, project[k].id, project[k].relation)
  }

  method Index(project: seq<LineageNode>) returns (byId: map<string, LineageNode>, error: Option<BuildResult>)
    ensures error.None? ==> IsIndex(project, byId)
    ensures error.Some? ==> exists k :: FirstClash(project, k, error.value)
  {
    hide DistinctRelations;
    byId := map[];
    var relations: map<RelationName, string> := map[];
    for k := 0 to |project|
      invariant Recorded(project, k, byId, relations)
    {
      var node := project[k];
      RecordedAreDistinct(project, k, byId, relations);
      if node.id in byId {
        assert FirstClash(project, k, DuplicateId(node.id));
        return byId, Some(DuplicateId(node.id));
      }
      if node.relation in relations {
        var i :| 0 <= i < k && project[i].relation == node.relation && project[i].id == relations[node.relation];
        assert FirstClash(project, k, DuplicateRelation(relations[node.relation], node.id, node.relation));
        return byId, Some(DuplicateRelation(relations[node.relation], node.id, node.relation));
      }
      RecordId(project, k, byId);
      RecordRelation(project, k, relations);
      byId, relations := byId[node.id := node], relations[node.relation := node.id];
    }
    RecordedIsIndex(project, byId, relations);
    error := None;
  }

  lemma RecordedAreDistinct(project: seq<LineageNode>, k: nat, byId: map<string, LineageNode>,
      relations: map<RelationName, string>)
    requires k <= |project| && Recorded(project, k, byId, relations)
    ensures DistinctUpTo(project, k)
  {
  }

  lemma RecordedIsIndex(project: seq<LineageNode>, byId: map<string, LineageNode>, relations: map<RelationName, string>)
    requires Recorded(project, |project|, byId, relations)
    ensures IsIndex(project, byId)
  {
    RecordedAreDistinct(project, |project|, byId, relations);
    forall i, j | i in byId && j in byId && byId[i].relation == byId[j].relation ensures i == j {
      var a :| 0 <= a < |project| && project[a].id == i;
      var b :| 0 <= b < |project| && project[b].id == j;
      assert project[a].relation == project[b].relation;
    }
  }

  /** The first `k` nodes are indexed by id and by relation, no two of them alike. */
  ghost predicate Recorded(project: seq<LineageNode>, k: nat, byId: map<string, LineageNode>,
      relations: map<RelationName, string>)
    requires k <= |project|
  {
    RecordedIds(project, k, byId) && RecordedRelations(project, k, relations)
  }

  ghost predicate RecordedIds(project: seq<LineageNode>, k: nat, byId: map<string, LineageNode>)
    requires k <= |project|
  {
    && (forall i :: 0 <= i < k ==> project[i].id in byId && byId[project[i].id] == project[i])
    && (forall id :: id in byId ==> exists i :: 0 <= i < k && project[i].id == id)
    && (forall i, j :: 0 <= i < j < k ==> project[i].id != project[j].id)
  }

  ghost predicate RecordedRelations(project: seq<LineageNode>, k: nat, relations: map<RelationName, string>)
    requires k <= |project|
  {
    && (forall i :: 0 <= i < k ==> project[i].relation in relations && relations[project[i].relation] == project[i].id)
    && (forall r ::
        r in relations ==> exists i :: 0 <= i < k && project[i].relation == r && project[i].id == relations[r])
  }

  lemma RecordId(project: seq<LineageNode>, k: nat, byId: map<string, LineageNode>)
    requires k < |project| && RecordedIds(project, k, byId) && project[k].id !in byId
    ensures RecordedIds(project, k + 1, byId[project[k].id := project[k]])
  {
    var more := byId[project[k].id := project[k]];
    forall id | id in more ensures exists i :: 0 <= i < k + 1 && project[i].id == id {
      if id in byId { var i :| 0 <= i < k && project[i].id == id; } else { assert project[k].id == id; }
    }
  }

  lemma RecordRelation(project: seq<LineageNode>, k: nat, relations: map<RelationName, string>)
    requires k < |project| && RecordedRelations(project, k, relations) && project[k].relation !in relations
    ensures RecordedRelations(project, k + 1, relations[project[k].relation := project[k].id])
  {
    var more := relations[project[k].relation := project[k].id];
    forall r | r in more ensures exists i :: 0 <= i < k + 1 && project[i].relation == r && project[i].id == more[r] {
      if r == project[k].relation {
        assert project[k].id == more[r];
      } else {
        var i :| 0 <= i < k && project[i].relation == r && project[i].id == relations[r];
      }
    }
  }

  /** Columns declared or known from a catalog. */
  function Seed(project: seq<LineageNode>): Known {
    if project == [] then map[] else
      var last := project[|project| - 1];
      var before := Seed(project[..|project| - 1]);
      if last.columns.Some? then before[last.relation := last.columns.value] else before
  }

  function DeclaredIds(byId: map<string, LineageNode>): Layers.Declared { map id | id in byId :: byId[id].dependsOn }

  ghost predicate IsCyclic(byId: map<string, LineageNode>) {
    exists p :: Layers.IsCycle(Layers.DependencyEdges(DeclaredIds(byId)), p)
  }

  /** What a whole build must give: the reference run over the waves. */
  ghost predicate IsBuild(project: seq<LineageNode>, an: Analyzer, h: Hasher, byId: map<string, LineageNode>,
      waves: seq<seq<string>>, r: BuildResult) {
    && IsIndex(project, byId) && Layers.IsSchedule(DeclaredIds(byId), waves) && Scheduled(Setup(byId, an, h), waves)
    && !IsCyclic(byId)
    && match Run(Setup(byId, an, h), waves, Seed(project), map[])
       case Failed(node) => r == AnalyzerFailed(node)
       case Done(nodes) =>
         && r.Built? && r.graph.nodes == nodes && r.graph.Indexed()
         && r.stats.missing == Layers.MissingDependencies(DeclaredIds(byId)) && r.stats.waves == |waves|
  }

  /** The result of a build: the first clash, a cycle, or what the reference run gives. */
  ghost predicate IsResult(project: seq<LineageNode>, an: Analyzer, h: Hasher, r: BuildResult) {
    match r
    case DuplicateId(_) => exists k :: FirstClash(project, k, r)
    case DuplicateRelation(_, _, _) => exists k :: FirstClash(project, k, r)
    case CyclicDependencies => exists byId :: IsIndex(project, byId) && IsCyclic(byId)
    case _ => exists byId, waves :: IsBuild(project, an, h, byId, waves, r)
  }

  lemma WavesAreScheduled(s: Setup, waves: seq<seq<string>>)
    requires Layers.IsSchedule(DeclaredIds(s.byId), waves)
    ensures Scheduled(s, waves)
  {
    forall k, id | 0 <= k < |waves| && id in waves[k] ensures id in s.byId { assert Layers.InWave(waves, k, id); }
  }

  ghost predicate KeyedById(nodes: map<string, NodeLineage>) { forall id :: id in nodes ==> nodes[id].id == id }

  lemma {:induction false} RememberKeyed(done: map<string, NodeLineage>, nodes: seq<NodeLineage>)
    requires KeyedById(done)
    ensures KeyedById(Remember(done, nodes))
    decreases |nodes|
  {
    if nodes != [] { RememberKeyed(done[nodes[0].id := nodes[0]], nodes[1..]); }
  }

  /** What 64-bit lengths and dotless names give: all that this project's build feeds to a key
      fits. */
  ghost predicate ProperBuild(project: seq<LineageNode>, an: Analyzer, h: Hasher) {
    forall byId, waves :: IsIndex(project, byId) && Layers.IsSchedule(DeclaredIds(byId), waves) ==>
      && ProperNames(Setup(byId, an, h))
      && (Scheduled(Setup(byId, an, h), waves) ==> RunFits(Setup(byId, an, h), waves, Seed(project)))
  }

  /** Analyses every model in the project and builds its graph. The cache changes nothing: the
      graph, or the error, is that of the reference run, whatever sound cache it starts from. */
  method BuildGraph(project: seq<LineageNode>, an: Analyzer, h: Hasher, cache: MemoryCache) returns (r: BuildResult)
    requires an.Local() && h.Ideal() && Sound(cache.entries, an, h)
    requires ProperBuild(project, an, h)
    modifies cache
    ensures Sound(cache.entries, an, h)
    ensures forall other: Analyzer ::
        other.version != an.version && Sound(old(cache.entries), other, h) ==> Sound(cache.entries, other, h)
    ensures IsResult(project, an, h, r)
    ensures r.Built? ==> IsWhole(project, an, h, r.graph.nodes) && MissingAre(project, r.stats.missing)
    ensures r.AnalyzerFailed? ==> IsFailure(project, an, r.node)
  {
    hide MissingAre, Sound, Learn, Remember, ProperNames, IsIndex, Layers.IsSchedule, IsWhole, IsFailure;
    hide ColumnGraph.ReadersAgree, ColumnGraph.UsesAgree, ColumnGraph.OwnersAgree;
    var byId, error := Index(project);
    if error.Some? { return error.value; }
    var waves, missing := Layers.Waves(DeclaredIds(byId));
    if waves.None? { return CyclicDependencies; }
    var s := Setup(byId, an, h);
    WavesAreScheduled(s, waves.value);
    var known, done := Seed(project), map[];
    var left := waves.value;
    var stats := BuildStats(|left|, missing);
    ghost var whole := Run(s, left, known, done);
    while left != []
      invariant Scheduled(s, left) && Run(s, left, known, done) == whole && KeyedById(done)
      invariant ProperNames(s) && RunFits(s, left, known)
      invariant Sound(cache.entries, an, h)
      invariant forall other: Analyzer ::
          other.version != an.version && Sound(old(cache.entries), other, h) ==> Sound(cache.entries, other, h)
      decreases |left|
    {
      assert forall id :: id in left[0] ==> id in s.byId;
      var nodes, failed := AnalyzeWave(s, left[0], known, cache);
      if failed.Some? {
        assert IsBuild(project, an, h, byId, waves.value, AnalyzerFailed(failed.value));
        BuiltIsWhole(project, an, h, AnalyzerFailed(failed.value));
        return AnalyzerFailed(failed.value);
      }
      assert Scheduled(s, left[1..]) by { assert forall k :: 0 <= k < |left[1..]| ==> left[1..][k] == left[k + 1]; }
      RememberKeyed(done, nodes);
      known, done, left := Learn(known, nodes), Remember(done, nodes), left[1..];
    }
    var g := FromNodes(done);
    r := Built(g, stats);
    assert IsBuild(project, an, h, byId, waves.value, r);
    BuiltIsWhole(project, an, h, r);
  }

  // ---- the cache is invisible -------------------------------------------------------

  lemma FirstClashIsUnique(project: seq<LineageNode>, k: nat, e: BuildResult, m: nat, f: BuildResult)
    requires FirstClash(project, k, e) && FirstClash(project, m, f)
    ensures k == m && e == f
  {
    if k < m { ClashIsNotDistinct(project, k, e, m); }
    if m < k { ClashIsNotDistinct(project, m, f, k); }
  }

  lemma ClashIsNotDistinct(project: seq<LineageNode>, k: nat, e: BuildResult, m: nat)
    requires FirstClash(project, k, e) && k < m <= |project|
    ensures !DistinctUpTo(project, m)
  {
  }

  /** Two builds of one project with one analyzer give the same nodes and statistics or the same
      error, whatever sound caches they start from: their results are both what `BuildGraph`
      promises, and only one result is. */
  lemma CacheIsInvisible(project: seq<LineageNode>, an: Analyzer, h: Hasher, r: BuildResult, q: BuildResult)
    requires IsResult(project, an, h, r) && IsResult(project, an, h, q)
    ensures r.Built? <==> q.Built?
    ensures r.Built? ==> r.graph.nodes == q.graph.nodes && r.stats == q.stats
    ensures !r.Built? ==> r == q
  {
    hide IsBuild, IsIndex, FirstClash, IsCyclic;
    if Clashes(r) {
      ClashesTogether(project, an, h, r, q);
    } else if Clashes(q) {
      ClashesTogether(project, an, h, q, r);
    } else {
      RunsTogether(project, an, h, r, q);
    }
  }

  predicate Clashes(r: BuildResult) { r.DuplicateId? || r.DuplicateRelation? }

  lemma ClashesTogether(project: seq<LineageNode>, an: Analyzer, h: Hasher, r: BuildResult, q: BuildResult)
    requires IsResult(project, an, h, r) && IsResult(project, an, h, q) && Clashes(r)
    ensures q == r
  {
    hide FirstClash, Run, Layers.IsSchedule;
    var k :| FirstClash(project, k, r);
    ClashHasNoIndex(project, k, r);
    if Clashes(q) {
      var m :| FirstClash(project, m, q);
      FirstClashIsUnique(project, k, r, m, q);
    }
  }

  lemma ClashHasNoIndex(project: seq<LineageNode>, k: nat, e: BuildResult)
    requires FirstClash(project, k, e)
    ensures forall byId :: !IsIndex(project, byId)
  {
    ClashIsNotDistinct(project, k, e, |project|);
  }

  lemma RunsTogether(project: seq<LineageNode>, an: Analyzer, h: Hasher, r: BuildResult, q: BuildResult)
    requires IsResult(project, an, h, r) && IsResult(project, an, h, q) && !Clashes(r) && !Clashes(q)
    ensures r.Built? <==> q.Built?
    ensures r.Built? ==> r.graph.nodes == q.graph.nodes && r.stats == q.stats
    ensures !r.Built? ==> r == q
  {
    hide IsIndex, FirstClash, IsCyclic, Layers.IsSchedule;
    forall b, c | IsIndex(project, b) && IsIndex(project, c) ensures b == c { IndexIsUnique(project, b, c); }
    if !r.CyclicDependencies? && !q.CyclicDependencies? {
      var b, v :| IsBuild(project, an, h, b, v, r);
      var c, w :| IsBuild(project, an, h, c, w, q);
      Layers.ScheduleIsUnique(DeclaredIds(b), v, w);
    }
  }

  /** A build from any sound cache gives what a build from an empty one gives. */
  method SameAsFromEmpty(project: seq<LineageNode>, an: Analyzer, h: Hasher, cache: MemoryCache)
    returns (r: BuildResult, q: BuildResult)
    requires an.Local() && h.Ideal() && Sound(cache.entries, an, h) && ProperBuild(project, an, h)
    modifies cache
    ensures r.Built? <==> q.Built?
    ensures r.Built? ==> r.graph.nodes == q.graph.nodes && r.stats == q.stats
    ensures !r.Built? ==> r == q
  {
    var empty := new MemoryCache();
    EmptyIsSound(an, h);
    q := BuildGraph(project, an, h, empty);
    r := BuildGraph(project, an, h, cache);
    CacheIsInvisible(project, an, h, r, q);
  }

  lemma IndexIsUnique(project: seq<LineageNode>, b: map<string, LineageNode>, c: map<string, LineageNode>)
    requires IsIndex(project, b) && IsIndex(project, c)
    ensures b == c
  {
    forall id | id in b ensures id in c && b[id] == c[id] { assert b[id] in project; }
    forall id | id in c ensures id in b { assert c[id] in project; }
  }

  // ---- what every built node is -----------------------------------------------------

  ghost predicate InProject(project: seq<LineageNode>, id: string) { exists q :: q in project && q.id == id }

  /** `relations` are the relations of those ids that are in the project, in order. */
  ghost predicate RelationsOf(project: seq<LineageNode>, ids: seq<string>, relations: seq<RelationName>) {
    exists at: seq<nat> :: Picks(project, ids, relations, at)
  }

  /** `at` lists, in order, the positions of the ids that are in the project. */
  ghost predicate Picks(project: seq<LineageNode>, ids: seq<string>, relations: seq<RelationName>, at: seq<nat>) {
    && |at| == |relations| && (forall i, j :: 0 <= i < j < |at| ==> at[i] < at[j])
    && (forall i :: 0 <= i < |at| ==> at[i] < |ids| && Named(project, ids[at[i]], relations[i]))
    && forall k: nat :: k < |ids| && InProject(project, ids[k]) ==> k in at
  }

  ghost predicate Named(project: seq<LineageNode>, id: string, relation: RelationName) {
    exists q :: q in project && q.id == id && q.relation == relation
  }

  /** The columns of a built node: those of its outputs, in order, or else the declared ones. */
  ghost predicate HasColumns(p: LineageNode, n: NodeLineage) {
    if n.lineage.Some? && !n.lineage.value.unread then
      && |n.columns| == |n.lineage.value.outputs|
      && forall i :: 0 <= i < |n.columns| ==> n.columns[i] == n.lineage.value.outputs[i].name
    else n.columns == match p.columns case Some(c) => c case None => []
  }

  /** What the analyzer could look up for `p`: for everything else it declares, the columns that
      the built node has, if it has any; for the rest of the project, those or the declared ones;
      and nothing outside the project. */
  ghost predicate IsView(project: seq<LineageNode>, nodes: map<string, NodeLineage>, p: LineageNode, view: Known) {
    && (forall q :: q in project && q.id in p.dependsOn && q.id != p.id ==>
          q.id in nodes && Lookup(view, q.relation) ==
            if nodes[q.id].columns != [] then Some(nodes[q.id].columns) else q.columns)
    && Lookup(view, p.relation) == p.columns
    && (forall q :: q in project ==>
          || Lookup(view, q.relation) == q.columns
          || (q.id in nodes && nodes[q.id].columns != [] && Lookup(view, q.relation) == Some(nodes[q.id].columns)))
    && forall r :: r in view ==> exists q :: q in project && q.relation == r
  }

  /** The declared upstream relations that are in the project, sorted, each once, with the columns
      that the analyzer could look up. */
  ghost predicate IsUpstream(project: seq<LineageNode>, p: LineageNode, view: Known, u: Keys.Upstream) {
    && (forall i :: 0 <= i < |u| ==> DeclaresRelation(project, p, u[i].0) && u[i].1 == Lookup(view, u[i].0))
    && (forall r :: DeclaresRelation(project, p, r) ==> Lists(u, r))
    && forall i, j :: 0 <= i < j < |u| ==> Order.NameLe(u[i].0, u[j].0) && u[i].0 != u[j].0
  }

  predicate Lists(u: Keys.Upstream, r: RelationName) { exists i :: 0 <= i < |u| && u[i].0 == r }

  ghost predicate DeclaresRelation(project: seq<LineageNode>, p: LineageNode, r: RelationName) {
    exists q :: q in project && q.id in p.dependsOn && q.relation == r
  }

  ghost predicate IsBuiltNode(project: seq<LineageNode>, an: Analyzer, h: Hasher, nodes: map<string, NodeLineage>,
      p: LineageNode, n: NodeLineage) {
    && n.id == p.id && n.relation == p.relation && n.kind == p.kind
    && HasColumns(p, n) && RelationsOf(project, p.dependsOn, n.dependsOn)
    && (p.sql.None? ==> n.lineage.None? && n.cacheKey.None?)
    && (p.sql.Some? ==> n.lineage.Some? && n.cacheKey.Some?)
    && (p.sql.Some? ==> exists view, u ::
          && IsView(project, nodes, p, view) && an.analyze(p.sql.value, view) == n.lineage
          && IsUpstream(project, p, view, u) && n.cacheKey == Some(h.KeyOf(an.version, p.sql.value, u)))
  }

  /** The built nodes are those of the project, and each is what it should be. */
  ghost predicate IsWhole(project: seq<LineageNode>, an: Analyzer, h: Hasher, nodes: map<string, NodeLineage>) {
    && (forall id :: id in nodes ==> InProject(project, id))
    && forall p :: p in project ==> p.id in nodes && IsBuiltNode(project, an, h, nodes, p, nodes[p.id])
  }

  lemma {:induction false} SeedShows(project: seq<LineageNode>)
    requires DistinctUpTo(project, |project|)
    ensures forall q :: q in project ==> Lookup(Seed(project), q.relation) == q.columns
    ensures forall r :: r in Seed(project) ==> exists q :: q in project && q.relation == r
  {
    if project != [] {
      var init, last := project[..|project| - 1], project[|project| - 1];
      SeedShows(init);
      assert project == init + [last];
      forall q | q in init ensures q.relation != last.relation {
        var i :| 0 <= i < |init| && init[i] == q;
        assert project[i].relation != project[|project| - 1].relation;
      }
      SeedStep(project, init, last);
    }
  }

  lemma SeedStep(project: seq<LineageNode>, init: seq<LineageNode>, last: LineageNode)
    requires project == init + [last] && forall q :: q in init ==> q.relation != last.relation
    requires forall q :: q in init ==> Lookup(Seed(init), q.relation) == q.columns
    requires forall r :: r in Seed(init) ==> exists q :: q in init && q.relation == r
    ensures forall q :: q in project ==> Lookup(Seed(project), q.relation) == q.columns
    ensures forall r :: r in Seed(project) ==> exists q :: q in project && q.relation == r
  {
    assert project[..|project| - 1] == init;
    var before, after := Seed(init), Seed(project);
    assert after == if last.columns.Some? then before[last.relation := last.columns.value] else before;
    hide Seed;
    assert last.relation !in before;
    forall r | r in after ensures exists q :: q in project && q.relation == r {
      if r in before {
        var q :| q in init && q.relation == r;
        assert q in project;
      } else {
        assert last in project;
      }
    }
  }

  lemma {:induction false} DependsOnPicks(project: seq<LineageNode>, byId: map<string, LineageNode>, ids: seq<string>)
    requires IsIndex(project, byId)
    ensures RelationsOf(project, ids, DependsOnList(byId, ids))
  {
    if ids == [] {
      assert Picks(project, ids, [], []);
    } else {
      DependsOnPicks(project, byId, ids[1..]);
      var rest := DependsOnList(byId, ids[1..]);
      var at: seq<nat> :| Picks(project, ids[1..], rest, at);
      PicksMore(project, byId, ids, rest, at);
    }
  }

  function Shifted(at: seq<nat>): (r: seq<nat>)
    ensures |r| == |at| && forall i :: 0 <= i < |r| ==> r[i] == at[i] + 1
  {
    seq(|at|, i requires 0 <= i < |at| => at[i] + 1)
  }

  lemma PicksLater(project: seq<LineageNode>, ids: seq<string>, rest: seq<RelationName>, at: seq<nat>)
    requires ids != [] && Picks(project, ids[1..], rest, at)
    ensures
      var next := Shifted(at);
      && |next| == |rest| && (forall i, j :: 0 <= i < j < |next| ==> next[i] < next[j])
      && (forall i :: 0 <= i < |next| ==> 0 < next[i] < |ids| && Named(project, ids[next[i]], rest[i]))
      && forall k: nat :: 0 < k < |ids| && InProject(project, ids[k]) ==> k in next
  {
    hide InProject, Named;
    var next := Shifted(at);
    forall i | 0 <= i < |next| ensures 0 < next[i] < |ids| && Named(project, ids[next[i]], rest[i]) {
      assert ids[1..][at[i]] == ids[next[i]];
    }
    forall k: nat | 0 < k < |ids| && InProject(project, ids[k]) ensures k in next {
      assert ids[1..][k - 1] == ids[k];
      var i :| 0 <= i < |at| && at[i] == k - 1;
      assert next[i] == k;
    }
  }

  lemma PicksMore(project: seq<LineageNode>, byId: map<string, LineageNode>, ids: seq<string>, rest: seq<RelationName>,
      at: seq<nat>)
    requires IsIndex(project, byId) && ids != [] && Picks(project, ids[1..], rest, at)
    ensures RelationsOf(project, ids, (if ids[0] in byId then [byId[ids[0]].relation] else []) + rest)
  {
    PicksLater(project, ids, rest, at);
    InIndex(project, byId, ids[0]);
    hide IsIndex, InProject, Named;
    var next := Shifted(at);
    if ids[0] in byId {
      PicksFirst(project, ids, byId[ids[0]].relation, rest, next);
    } else {
      assert [] + rest == rest;
      assert Picks(project, ids, rest, next);
    }
  }

  lemma PicksFirst(project: seq<LineageNode>, ids: seq<string>, first: RelationName, rest: seq<RelationName>,
      next: seq<nat>)
    requires ids != [] && |next| == |rest| && forall i, j :: 0 <= i < j < |next| ==> next[i] < next[j]
    requires forall i :: 0 <= i < |next| ==> 0 < next[i] < |ids| && Named(project, ids[next[i]], rest[i])
    requires forall k: nat :: 0 < k < |ids| && InProject(project, ids[k]) ==> k in next
    requires Named(project, ids[0], first)
    ensures RelationsOf(project, ids, [first] + rest)
  {
    hide InProject, Named;
    var at: seq<nat>, relations := [0] + next, [first] + rest;
    forall i | 0 <= i < |at| ensures at[i] < |ids| && Named(project, ids[at[i]], relations[i]) {
      if i > 0 { assert at[i] == next[i - 1] && relations[i] == rest[i - 1]; }
    }
    forall k: nat | k < |ids| && InProject(project, ids[k]) ensures k in at {
      if k == 0 { assert at[0] == 0; } else { assert k in next; }
    }
    assert Picks(project, ids, relations, at);
  }

  lemma InIndex(project: seq<LineageNode>, byId: map<string, LineageNode>, id: string)
    requires IsIndex(project, byId)
    ensures id in byId <==> InProject(project, id)
    ensures id in byId ==> Named(project, id, byId[id].relation)
  {
    if id in byId { assert byId[id] in project; }
  }

  // ---- waves are as good as any order -----------------------------------------------

  /** Whatever it is given, a query reads only relations its node declares. */
  ghost predicate ReadsDeclared(s: Setup) {
    forall id, known :: id in s.byId && s.byId[id].sql.Some? && s.an.analyze(s.byId[id].sql.value, known).Some? ==>
      s.an.analyze(s.byId[id].sql.value, known).value.relationsRead <= DependsOn(s.byId, s.byId[id])
  }

  /** Each node is in one batch, once, after its other known dependencies. */
  ghost predicate ValidOrder(s: Setup, schedule: seq<seq<string>>) {
    && Scheduled(s, schedule)
    && (forall id :: id in s.byId ==> exists k :: 0 <= k < |schedule| && id in schedule[k])
    && (forall k, j, id ::
        0 <= k < |schedule| && 0 <= j < |schedule| && id in schedule[k] && id in schedule[j] ==> k == j)
    && (forall k, i, j :: 0 <= k < |schedule| && 0 <= i < j < |schedule[k]| ==> schedule[k][i] != schedule[k][j])
    && (forall k, id, d ::
        0 <= k < |schedule| && id in schedule[k] && d in s.byId[id].dependsOn && d in s.byId && d != id ==>
          exists j :: 0 <= j < k && d in schedule[j])
  }

  /** The columns a node's relation shows once these nodes are done. */
  function Shown(s: Setup, seed: Known, nodes: map<string, NodeLineage>, d: string): Option<seq<string>>
    requires d in s.byId
  {
    if d in nodes && nodes[d].columns != [] then Some(nodes[d].columns) else Lookup(seed, s.byId[d].relation)
  }

  /** The node sees its other dependencies done, and itself not yet. */
  ghost predicate Sees(s: Setup, seed: Known, nodes: map<string, NodeLineage>, id: string, known: Known)
    requires id in s.byId
  {
    forall d :: d in s.byId[id].dependsOn && d in s.byId ==>
      Lookup(known, s.byId[d].relation) == if d == id then Lookup(seed, s.byId[d].relation)
          else Shown(s, seed, nodes, d)
  }

  /** Every node is what analysing it against the others gives. */
  ghost predicate Solves(s: Setup, seed: Known, nodes: map<string, NodeLineage>) {
    nodes.Keys == s.byId.Keys &&
    forall id, known ::
        id in s.byId && Sees(s, seed, nodes, id, known) ==> Analyze(s, s.byId[id], known) == Some(nodes[id])
  }

  /** Analysing a node depends only on the columns of what it declares. */
  lemma AnalyzeIsLocal(s: Setup, id: string, a: Known, b: Known)
    requires s.an.Local() && ReadsDeclared(s) && id in s.byId && SameOn(a, b, DependsOn(s.byId, s.byId[id]))
    ensures Analyze(s, s.byId[id], a) == Analyze(s, s.byId[id], b)
  {
    var node := s.byId[id];
    if node.sql.Some? {
      var u, v := UpstreamOf(s.byId, node, a), UpstreamOf(s.byId, node, b);
      forall i | 0 <= i < |u| ensures u[i] == v[i] {
        assert Order.Listing(DependsOn(s.byId, node))[i] in DependsOn(s.byId, node);
      }
      assert u == v;
      var l, m := s.an.analyze(node.sql.value, a), s.an.analyze(node.sql.value, b);
      assert l.Some? ==> SameOn(a, b, l.value.relationsRead);
      assert m.Some? ==> SameOn(b, a, m.value.relationsRead);
    }
  }

  /** What is known while a schedule runs: the seed, overwritten by what was found. */
  ghost predicate Tracks(s: Setup, seed: Known, done: map<string, NodeLineage>, known: Known) {
    && done.Keys <= s.byId.Keys
    && (forall id :: id in done ==> done[id].id == id && done[id].relation == s.byId[id].relation)
    && (forall r :: r in known ==> r in seed || exists id :: id in s.byId && s.byId[id].relation == r)
    && forall id :: id in s.byId ==> Lookup(known, s.byId[id].relation) == Shown(s, seed, done, id)
  }

  lemma TrackOne(s: Setup, seed: Known, done: map<string, NodeLineage>, known: Known, n: NodeLineage)
    requires DistinctRelations(s.byId) && Tracks(s, seed, done, known)
    requires n.id in s.byId && n.relation == s.byId[n.id].relation && n.id !in done
    ensures Tracks(s, seed, done[n.id := n], if n.columns != [] then known[n.relation := n.columns] else known)
  {
  }

  /** Results that may be added: of this project, new, and all different. */
  ghost predicate New(s: Setup, done: map<string, NodeLineage>, nodes: seq<NodeLineage>) {
    && (forall i ::
        0 <= i < |nodes| ==>
        nodes[i].id in s.byId && nodes[i].relation == s.byId[nodes[i].id].relation && nodes[i].id !in done)
    && (forall i, j :: 0 <= i < j < |nodes| ==> nodes[i].id != nodes[j].id)
  }

  lemma {:induction false} LearnTracks(s: Setup, seed: Known, done: map<string, NodeLineage>, known: Known,
      nodes: seq<NodeLineage>)
    requires DistinctRelations(s.byId) && Tracks(s, seed, done, known) && New(s, done, nodes)
    ensures Tracks(s, seed, Remember(done, nodes), Learn(known, nodes))
    decreases |nodes|
  {
    if nodes != [] {
      var n := nodes[0];
      var now, seen := done[n.id := n], if n.columns != [] then known[n.relation := n.columns] else known;
      TrackOne(s, seed, done, known, n);
      hide Tracks;
      LearnTracks(s, seed, now, seen, nodes[1..]);
    }
  }

  lemma {:induction false} RememberAdds(s: Setup, done: map<string, NodeLineage>, nodes: seq<NodeLineage>)
    requires New(s, done, nodes)
    ensures forall id ::
        id in Remember(done, nodes) <==> id in done || exists i :: 0 <= i < |nodes| && nodes[i].id == id
    ensures forall id :: id in done ==> Remember(done, nodes)[id] == done[id]
    ensures forall i :: 0 <= i < |nodes| ==> Remember(done, nodes)[nodes[i].id] == nodes[i]
    decreases |nodes|
  {
    if nodes != [] {
      var n, rest := nodes[0], nodes[1..];
      RememberAdds(s, done[n.id := n], rest);
      forall i | 0 <= i < |nodes|
          ensures nodes[i].id in Remember(done, nodes) && Remember(done, nodes)[nodes[i].id] == nodes[i] {
        if i > 0 { assert rest[i - 1] == nodes[i]; }
      }
      forall id | id in Remember(done, nodes) && id !in done ensures exists i :: 0 <= i < |nodes| && nodes[i].id == id {
        if id == n.id {
          assert nodes[0].id == id;
        } else {
          var i :| 0 <= i < |rest| && rest[i].id == id;
          assert nodes[i + 1].id == id;
        }
      }
    }
  }

  /** The ids of the first `k` batches. */
  ghost predicate Placed(schedule: seq<seq<string>>, k: nat, id: string) {
    exists j :: 0 <= j < k && j < |schedule| && id in schedule[j]
  }

  /** Where a schedule stands after `k` batches. */
  ghost predicate Standing(s: Setup, seed: Known, schedule: seq<seq<string>>, k: nat, known: Known,
      done: map<string, NodeLineage>) {
    && DistinctRelations(s.byId) && (forall id :: id in s.byId ==> s.byId[id].id == id)
    && ValidOrder(s, schedule) && k <= |schedule| && Tracks(s, seed, done, known)
    && forall id :: id in done <==> Placed(schedule, k, id)
  }

  lemma KnownIsShown(s: Setup, seed: Known, done: map<string, NodeLineage>, known: Known)
    requires Tracks(s, seed, done, known)
    ensures forall id :: id in s.byId ==> Lookup(known, s.byId[id].relation) == Shown(s, seed, done, id)
    ensures done.Keys <= s.byId.Keys
  {
  }

  /** A node about to run sees what was found for its other dependencies. */
  lemma BatchSees(s: Setup, seed: Known, schedule: seq<seq<string>>, k: nat, known: Known,
      done: map<string, NodeLineage>, nodes: map<string, NodeLineage>, id: string)
    requires Standing(s, seed, schedule, k, known, done) && k < |schedule| && id in schedule[k]
    requires forall d :: d in done ==> d in nodes && nodes[d] == done[d]
    ensures id in s.byId && id !in done && Sees(s, seed, nodes, id, known)
  {
    KnownIsShown(s, seed, done, known);
    OthersPlaced(s, schedule, k, id);
    assert forall d :: d in done <==> Placed(schedule, k, d);
    hide *;
    SeesWhenDone(s, seed, done, nodes, id, known);
  }

  lemma SeesWhenDone(s: Setup, seed: Known, done: map<string, NodeLineage>, nodes: map<string, NodeLineage>, id: string,
      known: Known)
    requires id in s.byId && id !in done && forall d :: d in done ==> d in nodes && nodes[d] == done[d]
    requires forall q :: q in s.byId ==> Lookup(known, s.byId[q].relation) == Shown(s, seed, done, q)
    requires forall d :: d in s.byId[id].dependsOn && d in s.byId && d != id ==> d in done
    ensures Sees(s, seed, nodes, id, known)
  {
    hide Lookup;
  }

  lemma OthersPlaced(s: Setup, schedule: seq<seq<string>>, k: nat, id: string)
    requires ValidOrder(s, schedule) && k < |schedule| && id in schedule[k]
    ensures id in s.byId && !Placed(schedule, k, id)
    ensures forall d :: d in s.byId[id].dependsOn && d in s.byId && d != id ==> Placed(schedule, k, d)
  {
  }

  lemma BatchIsNew(s: Setup, seed: Known, schedule: seq<seq<string>>, k: nat, known: Known,
      done: map<string, NodeLineage>, nodes: seq<NodeLineage>)
    requires Standing(s, seed, schedule, k, known, done) && k < |schedule| && |nodes| == |schedule[k]|
    requires forall i ::
        0 <= i < |nodes| ==> schedule[k][i] in s.byId && Analyze(s, s.byId[schedule[k][i]], known) == Some(nodes[i])
    ensures New(s, done, nodes) && forall i :: 0 <= i < |nodes| ==> nodes[i].id == schedule[k][i]
  {
    hide Tracks, Analyze, ReadsDeclared;
    var batch := schedule[k];
    forall i | 0 <= i < |nodes|
        ensures nodes[i].id == batch[i] && nodes[i].relation == s.byId[batch[i]].relation && batch[i] !in done {
      AnalyzeKeepsName(s, s.byId[batch[i]], known);
      assert batch[i] in schedule[k] && !Placed(schedule, k, batch[i]);
    }
  }

  lemma AnalyzeKeepsName(s: Setup, node: LineageNode, known: Known)
    ensures Analyze(s, node, known).Some? ==>
      Analyze(s, node, known).value.id == node.id && Analyze(s, node, known).value.relation == node.relation
  {
  }

  lemma StandNext(s: Setup, seed: Known, schedule: seq<seq<string>>, k: nat, known: Known,
      done: map<string, NodeLineage>, nodes: seq<NodeLineage>)
    requires Standing(s, seed, schedule, k, known, done) && k < |schedule| && |nodes| == |schedule[k]|
    requires New(s, done, nodes) && forall i :: 0 <= i < |nodes| ==> nodes[i].id == schedule[k][i]
    ensures Standing(s, seed, schedule, k + 1, Learn(known, nodes), Remember(done, nodes))
  {
    var more := Remember(done, nodes);
    StandingIs(s, seed, schedule, k, known, done);
    hide *;
    LearnTracks(s, seed, done, known, nodes);
    RememberedAre(s, done, nodes, schedule[k]);
    PlacedNext(schedule, k, done.Keys, more.Keys);
    NowStanding(s, seed, schedule, k + 1, Learn(known, nodes), more);
  }

  lemma RememberedAre(s: Setup, done: map<string, NodeLineage>, nodes: seq<NodeLineage>, batch: seq<string>)
    requires New(s, done, nodes) && |nodes| == |batch| && forall i :: 0 <= i < |nodes| ==> nodes[i].id == batch[i]
    ensures forall id :: id in Remember(done, nodes) <==> id in done || id in batch
  {
    RememberAdds(s, done, nodes);
    hide New, Remember;
    forall id ensures id in Remember(done, nodes) <==> id in done || id in batch {
      if i :| 0 <= i < |batch| && batch[i] == id { assert nodes[i].id == id; }
    }
  }

  lemma StandingIs(s: Setup, seed: Known, schedule: seq<seq<string>>, k: nat, known: Known,
      done: map<string, NodeLineage>)
    requires Standing(s, seed, schedule, k, known, done)
    ensures DistinctRelations(s.byId) && (forall id :: id in s.byId ==> s.byId[id].id == id)
    ensures ValidOrder(s, schedule) && k <= |schedule| && Tracks(s, seed, done, known)
    ensures forall id :: id in done <==> Placed(schedule, k, id)
  {
    hide DistinctRelations, ValidOrder, Tracks, Placed;
  }

  lemma PlacedNext(schedule: seq<seq<string>>, k: nat, done: set<string>, more: set<string>)
    requires k < |schedule| && forall id :: id in done <==> Placed(schedule, k, id)
    requires forall id :: id in more <==> id in done || id in schedule[k]
    ensures forall id :: id in more <==> Placed(schedule, k + 1, id)
  {
  }

  lemma NowStanding(s: Setup, seed: Known, schedule: seq<seq<string>>, k: nat, known: Known,
      done: map<string, NodeLineage>)
    requires DistinctRelations(s.byId) && (forall id :: id in s.byId ==> s.byId[id].id == id)
    requires ValidOrder(s, schedule) && k <= |schedule| && Tracks(s, seed, done, known)
    requires forall id :: id in done <==> Placed(schedule, k, id)
    ensures Standing(s, seed, schedule, k, known, done)
  {
    hide DistinctRelations, ValidOrder, Tracks, Placed;
  }

  lemma NoMore(schedule: seq<seq<string>>, k: nat)
    requires k < |schedule|
    ensures schedule[k..][0] == schedule[k] && schedule[k..][1..] == schedule[k + 1..]
  {
  }

  lemma BatchAgrees(s: Setup, seed: Known, schedule: seq<seq<string>>, k: nat, known: Known,
      done: map<string, NodeLineage>, nodes: map<string, NodeLineage>)
    requires Standing(s, seed, schedule, k, known, done) && k < |schedule| && Solves(s, seed, nodes)
    requires forall id :: id in done ==> id in nodes && done[id] == nodes[id]
    requires forall id :: id in schedule[k] ==> id in s.byId
    ensures forall id :: id in schedule[k] ==> Analyze(s, s.byId[id], known) == Some(nodes[id])
    ensures WaveResults(s, schedule[k], known).1.None?
  {
    hide Tracks, Analyze, ReadsDeclared, ValidOrder, Sees;
    forall id | id in schedule[k] ensures Analyze(s, s.byId[id], known) == Some(nodes[id]) {
      BatchSees(s, seed, schedule, k, known, done, nodes, id);
    }
  }

  /** After a batch without failure, the schedule stands one batch further. */
  lemma BatchStands(s: Setup, seed: Known, schedule: seq<seq<string>>, k: nat, known: Known,
      done: map<string, NodeLineage>)
    requires Standing(s, seed, schedule, k, known, done) && k < |schedule|
    requires forall id :: id in schedule[k] ==> id in s.byId
    requires WaveResults(s, schedule[k], known).1.None?
    ensures
      var found := WaveResults(s, schedule[k], known).0;
      var more := Remember(done, found);
      && |found| == |schedule[k]|
      && Standing(s, seed, schedule, k + 1, Learn(known, found), more)
      && (forall id :: id in more ==> id in done || id in schedule[k])
      && (forall id :: id in done ==> id in more && more[id] == done[id])
      && (forall i :: 0 <= i < |found| ==> schedule[k][i] in more && more[schedule[k][i]] == found[i])
      && (forall i :: 0 <= i < |found| ==> Analyze(s, s.byId[schedule[k][i]], known) == Some(found[i]))
  {
    hide Tracks, Analyze, ReadsDeclared, ValidOrder, Sees;
    var found := WaveResults(s, schedule[k], known).0;
    BatchIsNew(s, seed, schedule, k, known, done, found);
    StandNext(s, seed, schedule, k, known, done, found);
    RememberAdds(s, done, found);
  }

  lemma AllPlaced(s: Setup, seed: Known, schedule: seq<seq<string>>, known: Known, done: map<string, NodeLineage>)
    requires Standing(s, seed, schedule, |schedule|, known, done)
    ensures done.Keys == s.byId.Keys
  {
    forall id | id in s.byId ensures id in done {
      var j :| 0 <= j < |schedule| && id in schedule[j];
      assert Placed(schedule, |schedule|, id);
    }
  }

  lemma KeysOfSolution(s: Setup, seed: Known, nodes: map<string, NodeLineage>)
    requires Solves(s, seed, nodes)
    ensures nodes.Keys == s.byId.Keys
  {
  }

  /** Whatever solves the project is what a valid schedule arrives at. */
  lemma {:induction false} RunArrives(s: Setup, seed: Known, schedule: seq<seq<string>>, k: nat, known: Known,
      done: map<string, NodeLineage>, nodes: map<string, NodeLineage>)
    requires k <= |schedule| && Standing(s, seed, schedule, k, known, done) && Scheduled(s, schedule[k..]) &&
        Solves(s, seed, nodes)
    requires forall id :: id in done ==> id in nodes && done[id] == nodes[id]
    ensures Run(s, schedule[k..], known, done) == Done(nodes)
    decreases |schedule| - k
  {
    hide Standing, Solves, Learn, Remember;
    KeysOfSolution(s, seed, nodes);
    if k == |schedule| {
      AllPlaced(s, seed, schedule, known, done);
      assert done == nodes;
    } else {
      NoMore(schedule, k);
      forall id | id in schedule[k] ensures id in s.byId { assert id in schedule[k..][0]; }
      BatchAgrees(s, seed, schedule, k, known, done, nodes);
      BatchStands(s, seed, schedule, k, known, done);
      var found := WaveResults(s, schedule[k], known).0;
      var more := Remember(done, found);
      forall id | id in more ensures id in nodes && more[id] == nodes[id] {
        if id !in done { var i :| 0 <= i < |schedule[k]| && schedule[k][i] == id; }
      }
      RunArrives(s, seed, schedule, k + 1, Learn(known, found), more, nodes);
    }
  }

  /** What was found so far is what analysing each node against the rest gives. */
  ghost predicate SolvesDone(s: Setup, seed: Known, done: map<string, NodeLineage>) {
    && done.Keys <= s.byId.Keys
    && forall id, known ::
        id in done && Sees(s, seed, done, id, known) ==> Analyze(s, s.byId[id], known) == Some(done[id])
  }

  /** A node already placed sees the same whatever is done later. */
  lemma OldSeesSame(s: Setup, seed: Known, schedule: seq<seq<string>>, k: nat, known: Known,
      done: map<string, NodeLineage>, more: map<string, NodeLineage>, id: string, view: Known)
    requires Standing(s, seed, schedule, k, known, done) && id in done && id in s.byId
    requires forall d :: d in done ==> d in more && more[d] == done[d]
    ensures Sees(s, seed, more, id, view) <==> Sees(s, seed, done, id, view)
  {
    var k' :| 0 <= k' < k && k' < |schedule| && id in schedule[k'];
    OthersPlaced(s, schedule, k', id);
    assert forall d :: d in done <==> Placed(schedule, k, d);
    forall d | Placed(schedule, k', d) ensures Placed(schedule, k, d) { EarlierPlaced(schedule, k', k, d); }
    hide *;
    SameShown(s, seed, done, more, id, view);
  }

  lemma EarlierPlaced(schedule: seq<seq<string>>, j: nat, k: nat, id: string)
    requires j <= k && Placed(schedule, j, id)
    ensures Placed(schedule, k, id)
  {
  }

  lemma SameShown(s: Setup, seed: Known, done: map<string, NodeLineage>, more: map<string, NodeLineage>, id: string,
      view: Known)
    requires id in s.byId && forall d :: d in done ==> d in more && more[d] == done[d]
    requires forall d :: d in s.byId[id].dependsOn && d in s.byId && d != id ==> d in done
    ensures Sees(s, seed, more, id, view) <==> Sees(s, seed, done, id, view)
  {
    hide Lookup;
  }

  lemma NewSolves(s: Setup, seed: Known, schedule: seq<seq<string>>, k: nat, known: Known,
      done: map<string, NodeLineage>, more: map<string, NodeLineage>, id: string, view: Known)
    requires s.an.Local() && ReadsDeclared(s)
    requires Standing(s, seed, schedule, k, known, done) && k < |schedule| && id in schedule[k] && id in s.byId
    requires forall d :: d in done ==> d in more && more[d] == done[d]
    requires Sees(s, seed, more, id, view)
    ensures Analyze(s, s.byId[id], view) == Analyze(s, s.byId[id], known)
  {
    hide Tracks, Analyze;
    BatchSees(s, seed, schedule, k, known, done, more, id);
    forall r | r in DependsOn(s.byId, s.byId[id]) ensures Lookup(view, r) == Lookup(known, r) { }
    AnalyzeIsLocal(s, id, view, known);
  }

  lemma BatchSolves(s: Setup, seed: Known, schedule: seq<seq<string>>, k: nat, known: Known,
      done: map<string, NodeLineage>)
    requires s.an.Local() && ReadsDeclared(s)
    requires Standing(s, seed, schedule, k, known, done) && k < |schedule| && SolvesDone(s, seed, done)
    requires forall id :: id in schedule[k] ==> id in s.byId
    requires WaveResults(s, schedule[k], known).1.None?
    ensures SolvesDone(s, seed, Remember(done, WaveResults(s, schedule[k], known).0))
  {
    hide Tracks, Analyze, ReadsDeclared, ValidOrder, Sees, Remember, Learn;
    BatchStands(s, seed, schedule, k, known, done);
    var found := WaveResults(s, schedule[k], known).0;
    var more := Remember(done, found);
    forall id, view | id in more && id in s.byId && Sees(s, seed, more, id, view)
        ensures Analyze(s, s.byId[id], view) == Some(more[id]) {
      if id in done {
        OldSeesSame(s, seed, schedule, k, known, done, more, id, view);
      } else {
        NewSolves(s, seed, schedule, k, known, done, more, id, view);
        var i :| 0 <= i < |schedule[k]| && schedule[k][i] == id;
      }
    }
  }

  /** What a valid schedule arrives at solves the project. */
  lemma {:induction false} RunSolves(s: Setup, seed: Known, schedule: seq<seq<string>>, k: nat, known: Known,
      done: map<string, NodeLineage>)
    requires s.an.Local() && ReadsDeclared(s)
    requires k <= |schedule| && Standing(s, seed, schedule, k, known, done) && Scheduled(s, schedule[k..]) &&
        SolvesDone(s, seed, done)
    ensures Run(s, schedule[k..], known, done).Done? ==> Solves(s, seed, Run(s, schedule[k..], known, done).nodes)
    decreases |schedule| - k
  {
    hide Standing, Analyze, Sees, Learn, Remember;
    if k == |schedule| {
      AllPlaced(s, seed, schedule, known, done);
    } else {
      NoMore(schedule, k);
      forall id | id in schedule[k] ensures id in s.byId { assert id in schedule[k..][0]; }
      if WaveResults(s, schedule[k], known).1.None? {
        BatchStands(s, seed, schedule, k, known, done);
        BatchSolves(s, seed, schedule, k, known, done);
        var found := WaveResults(s, schedule[k], known).0;
        RunSolves(s, seed, schedule, k + 1, Learn(known, found), Remember(done, found));
      }
    }
  }

  /** Any two valid schedules of a project whose queries read only what they declare arrive at
      the same nodes, or both fail. */
  lemma OrderDoesNotMatter(s: Setup, seed: Known, a: seq<seq<string>>, b: seq<seq<string>>)
    requires s.an.Local() && ReadsDeclared(s) && DistinctRelations(s.byId) &&
        forall id :: id in s.byId ==> s.byId[id].id == id
    requires ValidOrder(s, a) && ValidOrder(s, b)
    ensures Run(s, a, seed, map[]).Done? <==> Run(s, b, seed, map[]).Done?
    ensures Run(s, a, seed, map[]).Done? ==> Run(s, a, seed, map[]) == Run(s, b, seed, map[])
  {
    assert a[0..] == a && b[0..] == b;
    RunSolves(s, seed, a, 0, seed, map[]);
    RunSolves(s, seed, b, 0, seed, map[]);
    if Run(s, a, seed, map[]).Done? { RunArrives(s, seed, b, 0, seed, map[], Run(s, a, seed, map[]).nodes); }
    if Run(s, b, seed, map[]).Done? { RunArrives(s, seed, a, 0, seed, map[], Run(s, b, seed, map[]).nodes); }
  }

  /** The waves are a valid schedule. */
  lemma WavesAreValid(s: Setup, waves: seq<seq<string>>)
    requires Layers.IsSchedule(DeclaredIds(s.byId), waves)
    ensures ValidOrder(s, waves)
  {
    var declared := DeclaredIds(s.byId);
    WavesAreScheduled(s, waves);
    forall id | id in s.byId ensures exists k :: 0 <= k < |waves| && id in waves[k] {
      assert id in declared;
      var k: nat :| Layers.InWave(waves, k, id);
    }
    forall k, j, id | 0 <= k < |waves| && 0 <= j < |waves| && id in waves[k] && id in waves[j] ensures k == j {
      assert Layers.InWave(waves, k, id) && Layers.InWave(waves, j, id);
      Layers.DepthIsUnique(Layers.DependencyEdges(declared), id, k, j);
    }
    forall k, id, d | 0 <= k < |waves| && id in waves[k] && d in s.byId[id].dependsOn && d in s.byId && d != id
      ensures exists j :: 0 <= j < k && d in waves[j]
    {
      assert Layers.InWave(waves, k, id) && d in declared;
      var j: nat :| Layers.InWave(waves, j, d);
      Layers.DependenciesComeFirst(declared, waves, id, d, k, j);
    }
  }

  function OneAtATime(order: seq<string>): (r: seq<seq<string>>)
    ensures |r| == |order|
  {
    seq(|order|, i requires 0 <= i < |order| => [order[i]])
  }

  /** Building in waves equals analysing nodes one at a time in any topological order. */
  lemma WavesEqualOneAtATime(s: Setup, seed: Known, waves: seq<seq<string>>, order: seq<string>)
    requires s.an.Local() && ReadsDeclared(s) && DistinctRelations(s.byId) &&
        forall id :: id in s.byId ==> s.byId[id].id == id
    requires Layers.IsSchedule(DeclaredIds(s.byId), waves)
    requires Elements(order) == s.byId.Keys && Layers.Topological(Layers.DependencyEdges(DeclaredIds(s.byId)), order)
    ensures ValidOrder(s, OneAtATime(order)) && ValidOrder(s, waves)
    ensures Run(s, waves, seed, map[]).Done? <==> Run(s, OneAtATime(order), seed, map[]).Done?
    ensures Run(s, waves, seed, map[]).Done? ==> Run(s, waves, seed, map[]) == Run(s, OneAtATime(order), seed, map[])
  {
    WavesAreValid(s, waves);
    SinglesAreValid(s, order);
    OrderDoesNotMatter(s, seed, waves, OneAtATime(order));
  }

  lemma SinglesAreValid(s: Setup, order: seq<string>)
    requires Elements(order) == s.byId.Keys && Layers.Topological(Layers.DependencyEdges(DeclaredIds(s.byId)), order)
    ensures ValidOrder(s, OneAtATime(order))
  {
    var singles, declared := OneAtATime(order), DeclaredIds(s.byId);
    forall k, id | 0 <= k < |singles| && id in singles[k] ensures id == order[k] && id in s.byId {
      assert order[k] in Elements(order);
    }
    forall id | id in s.byId ensures exists k :: 0 <= k < |singles| && id in singles[k] {
      assert id in Elements(order);
      var k :| 0 <= k < |order| && order[k] == id;
      assert id in singles[k];
    }
    forall k, id, d | 0 <= k < |singles| && id in singles[k] && d in s.byId[id].dependsOn && d in s.byId && d != id
      ensures exists j :: 0 <= j < k && d in singles[j]
    {
      assert (d, id) in Layers.DependencyEdges(declared);
      var i, j :| 0 <= i < j < |order| && order[i] == d && order[j] == id;
      assert j == k && d in singles[i];
    }
  }

  // ---- a project that meets every demand --------------------------------------------

  function Spell(s: string): Keys.Bytes { if s == "" then [] else Keys.LittleEndian(s[0] as nat, 3) + Spell(s[1..]) }

  lemma {:induction false} SpellInjective(a: string, b: string)
    requires Spell(a) == Spell(b)
    ensures a == b
  {
    hide Keys.LittleEndian;
    assert a != [] ==> |Spell(a)| >= 3;
    assert b != [] ==> |Spell(b)| >= 3;
    if a != "" && b != "" {
      var x, y := Spell(a), Spell(b);
      assert x[..3] == Keys.LittleEndian(a[0] as nat, 3) && y[..3] == Keys.LittleEndian(b[0] as nat, 3);
      assert x[3..] == Spell(a[1..]) && y[3..] == Spell(b[1..]);
      assert Keys.Power(3) == 256 * (256 * (256 * Keys.Power(0)));
      Keys.LittleEndianInjective(a[0] as nat, b[0] as nat, 3);
      SpellInjective(a[1..], b[1..]);
      assert a == [a[0]] + a[1..] && b == [b[0]] + b[1..];
    }
  }

  function AsText(b: Keys.Bytes): string { seq(|b|, i requires 0 <= i < |b| => (b[i] as int) as char) }

  const ExampleHasher := Hasher(s => Spell(s), b => AsText(b))

  lemma ExampleIsIdeal()
    ensures ExampleHasher.Ideal()
  {
    forall a, b | ExampleHasher.utf8(a) == ExampleHasher.utf8(b) ensures a == b { SpellInjective(a, b); }
    forall a, b | ExampleHasher.sha256(a) == ExampleHasher.sha256(b) ensures a == b {
      assert |a| == |b|;
      forall i | 0 <= i < |a| ensures a[i] == b[i] { assert AsText(a)[i] == AsText(b)[i]; }
    }
  }

  function StarOf(columns: seq<string>): seq<OutputColumn> {
    seq(|columns|, i requires 0 <= i < |columns| =>
      OutputColumn(columns[i], {(ColumnRef(["a"], columns[i]), Direct(Identity))}, columns[i]))
  }

  /** Analyses every query as `select * from a`: its outputs are whatever columns `a` has. */
  const StarAnalyzer := Analyzer("1", (sql, known) =>
    Some(QueryLineage(StarOf(if ["a"] in known then known[["a"]] else []), {}, {["a"]}, {["a"]}, "", false)))

  lemma StarIsLocal()
    ensures StarAnalyzer.Local()
  {
    forall sql, a, b | StarAnalyzer.analyze(sql, a).Some? &&
        SameOn(a, b, StarAnalyzer.analyze(sql, a).value.relationsRead)
      ensures StarAnalyzer.analyze(sql, b) == StarAnalyzer.analyze(sql, a)
    {
      assert Lookup(a, ["a"]) == Lookup(b, ["a"]);
    }
  }

  /** A seed `a` with one column, and a model `b` that declares and selects from it. */
  const ExampleProject := [
    LineageNode("a", ["a"], NodeKind.Seed, None, Some(["x"]), []),
    LineageNode("b", ["b"], Model, Some("select * from a"), None, ["a"])]

  /** Every column list is that of `a`. */
  ghost predicate OnlyX(known: Known) { forall r :: r in known ==> known[r] == ["x"] || known[r] == [] }

  lemma ExampleStarKeepsX(s: Setup, node: LineageNode, known: Known)
    requires s.an == StarAnalyzer && OnlyX(known) && (node.columns.Some? ==> node.columns.value == ["x"])
    ensures Analyze(s, node, known).Some?
    ensures Analyze(s, node, known).value.columns == ["x"] || Analyze(s, node, known).value.columns == []
  {
    if node.sql.Some? {
      var columns := if ["a"] in known then known[["a"]] else [];
      var l := StarAnalyzer.analyze(node.sql.value, known).value;
      assert |Outputs(l)| == |columns| && (columns == ["x"] ==> Outputs(l)[0] == "x");
    }
  }

  lemma {:induction false} LearnKeepsX(known: Known, nodes: seq<NodeLineage>)
    requires OnlyX(known) && forall i :: 0 <= i < |nodes| ==> nodes[i].columns == ["x"] || nodes[i].columns == []
    ensures OnlyX(Learn(known, nodes))
    decreases |nodes|
  {
    if nodes != [] {
      LearnKeepsX(if nodes[0].columns != [] then known[nodes[0].relation := nodes[0].columns] else known, nodes[1..]);
    }
  }

  lemma OnlyXFits(known: Known)
    requires OnlyX(known)
    ensures Fitting(ExampleHasher, known)
  {
    Keys.PowerIsLarge();
    assert |Spell("x")| == 3 by { assert Spell("x") == Keys.LittleEndian('x' as nat, 3) + Spell(""); }
  }

  lemma {:induction false} ExampleRunFits(s: Setup, schedule: seq<seq<string>>, known: Known)
    requires Scheduled(s, schedule) && s.an == StarAnalyzer && s.h == ExampleHasher && OnlyX(known)
    requires forall id :: id in s.byId && s.byId[id].columns.Some? ==> s.byId[id].columns.value == ["x"]
    ensures RunFits(s, schedule, known)
    decreases |schedule|
  {
    hide OnlyX, Fitting, Analyze, StarAnalyzer, ExampleHasher;
    OnlyXFits(known);
    if schedule != [] {
      var wave := WaveResults(s, schedule[0], known);
      assert Scheduled(s, schedule[1..]) by {
        assert forall k :: 0 <= k < |schedule[1..]| ==> schedule[1..][k] == schedule[k + 1];
      }
      if wave.1.None? {
        forall i | 0 <= i < |wave.0| ensures wave.0[i].columns == ["x"] || wave.0[i].columns == [] {
          ExampleStarKeepsX(s, s.byId[schedule[0][i]], known);
        }
        LearnKeepsX(known, wave.0);
        ExampleRunFits(s, schedule[1..], Learn(known, wave.0));
      }
    }
  }

  /** A model that selects `*` from a declared dependency meets all that a build demands. */
  lemma DependenciesAreProper()
    ensures StarAnalyzer.Local() && ExampleHasher.Ideal() && Sound(map[], StarAnalyzer, ExampleHasher)
    ensures ProperBuild(ExampleProject, StarAnalyzer, ExampleHasher)
    ensures exists byId :: IsIndex(ExampleProject, byId) && DependsOn(byId, ExampleProject[1]) == {["a"]}
  {
    StarIsLocal();
    ExampleIsIdeal();
    EmptyIsSound(StarAnalyzer, ExampleHasher);
    forall byId, waves | IsIndex(ExampleProject, byId) && Layers.IsSchedule(DeclaredIds(byId), waves)
      ensures ProperNames(Setup(byId, StarAnalyzer, ExampleHasher))
      ensures Scheduled(Setup(byId, StarAnalyzer, ExampleHasher), waves) ==>
        RunFits(Setup(byId, StarAnalyzer, ExampleHasher), waves, Seed(ExampleProject))
    {
      ExampleNamesProper(byId);
      SeedHasX();
      if Scheduled(Setup(byId, StarAnalyzer, ExampleHasher), waves) {
        ExampleRunFits(Setup(byId, StarAnalyzer, ExampleHasher), waves, Seed(ExampleProject));
      }
    }
    ExampleIsIndexed();
  }

  lemma ExampleIsIndexed()
    ensures exists byId :: IsIndex(ExampleProject, byId) && DependsOn(byId, ExampleProject[1]) == {["a"]}
  {
    var byId := map["a" := ExampleProject[0], "b" := ExampleProject[1]];
    assert ExampleProject[0] in ExampleProject && ExampleProject[1] in ExampleProject;
    assert IsIndex(ExampleProject, byId);
    assert "a" in ExampleProject[1].dependsOn;
    assert DependsOn(byId, ExampleProject[1]) == {["a"]};
  }

  lemma SeedHasX()
    ensures OnlyX(Seed(ExampleProject))
  {
    assert ExampleProject[..1] == [ExampleProject[0]];
    assert Seed([ExampleProject[0]]) == map[["a"] := ["x"]] by { assert [ExampleProject[0]][..0] == []; }
  }

  lemma {:induction false} SpellLength(s: string)
    ensures |Spell(s)| == 3 * |s|
  {
    if s != "" { SpellLength(s[1..]); }
  }

  lemma ExampleNamesProper(byId: map<string, LineageNode>)
    requires IsIndex(ExampleProject, byId)
    ensures ProperNames(Setup(byId, StarAnalyzer, ExampleHasher))
    ensures forall id :: id in byId && byId[id].columns.Some? ==> byId[id].columns.value == ["x"]
  {
    hide Spell;
    Keys.PowerIsLarge();
    SpellLength("1");
    SpellLength("select * from a");
    SpellLength("a");
    SpellLength("b");
    forall id | id in byId ensures byId[id] == ExampleProject[0] || byId[id] == ExampleProject[1] {
      assert byId[id] in ExampleProject;
    }
  }

  // ---- what a run leaves -------------------------------------------------------------

  /** What the node was analysed against: its other dependencies as they are among `nodes`, itself
      as it was before, and nothing that neither the seed nor a node shows. */
  ghost predicate Saw(s: Setup, seed: Known, nodes: map<string, NodeLineage>, id: string, view: Known)
    requires id in s.byId
  {
    && Sees(s, seed, nodes, id, view) && Lookup(view, s.byId[id].relation) == Lookup(seed, s.byId[id].relation)
    && (forall q :: q in s.byId ==> ShowsOrSeed(s, seed, nodes, q, view))
    && forall r :: r in view ==> r in seed || exists q :: q in s.byId && s.byId[q].relation == r
  }

  ghost predicate ShowsOrSeed(s: Setup, seed: Known, nodes: map<string, NodeLineage>, q: string, view: Known)
    requires q in s.byId
  {
    || Lookup(view, s.byId[q].relation) == Lookup(seed, s.byId[q].relation)
    || (q in nodes && nodes[q].columns != [] && Lookup(view, s.byId[q].relation) == Some(nodes[q].columns))
  }

  ghost predicate EachSaw(s: Setup, seed: Known, nodes: map<string, NodeLineage>) {
    forall id :: id in nodes ==> id in s.byId && exists view ::
      Saw(s, seed, nodes, id, view) && Analyze(s, s.byId[id], view) == Some(nodes[id])
  }

  lemma OldSaw(s: Setup, seed: Known, schedule: seq<seq<string>>, k: nat, known: Known,
      done: map<string, NodeLineage>, more: map<string, NodeLineage>, id: string, view: Known)
    requires Standing(s, seed, schedule, k, known, done) && id in done && id in s.byId
    requires forall d :: d in done ==> d in more && more[d] == done[d]
    requires Saw(s, seed, done, id, view)
    ensures Saw(s, seed, more, id, view)
  {
    OldSeesSame(s, seed, schedule, k, known, done, more, id, view);
    hide Standing, Sees;
  }

  lemma NewSaw(s: Setup, seed: Known, schedule: seq<seq<string>>, k: nat, known: Known,
      done: map<string, NodeLineage>, more: map<string, NodeLineage>, id: string)
    requires Standing(s, seed, schedule, k, known, done) && k < |schedule| && id in schedule[k] && id in s.byId
    requires forall d :: d in done ==> d in more && more[d] == done[d]
    ensures Saw(s, seed, more, id, known)
  {
    BatchSees(s, seed, schedule, k, known, done, more, id);
    assert Tracks(s, seed, done, known);
    hide Sees, Standing;
    KnownShows(s, seed, done, more, known);
    assert Lookup(known, s.byId[id].relation) == Shown(s, seed, done, id);
  }

  lemma KnownShows(s: Setup, seed: Known, done: map<string, NodeLineage>, more: map<string, NodeLineage>, known: Known)
    requires Tracks(s, seed, done, known) && forall d :: d in done ==> d in more && more[d] == done[d]
    ensures forall q :: q in s.byId ==> ShowsOrSeed(s, seed, more, q, known)
    ensures forall r :: r in known ==> r in seed || exists q :: q in s.byId && s.byId[q].relation == r
  {
  }

  lemma BatchSaw(s: Setup, seed: Known, schedule: seq<seq<string>>, k: nat, known: Known,
      done: map<string, NodeLineage>)
    requires Standing(s, seed, schedule, k, known, done) && k < |schedule| && EachSaw(s, seed, done)
    requires forall id :: id in schedule[k] ==> id in s.byId
    requires WaveResults(s, schedule[k], known).1.None?
    ensures EachSaw(s, seed, Remember(done, WaveResults(s, schedule[k], known).0))
  {
    hide Standing, Analyze, Saw, Remember, Learn;
    BatchStands(s, seed, schedule, k, known, done);
    var found := WaveResults(s, schedule[k], known).0;
    var more := Remember(done, found);
    forall id | id in more
      ensures id in s.byId
      ensures exists view :: Saw(s, seed, more, id, view) && Analyze(s, s.byId[id], view) == Some(more[id])
    {
      if id in done {
        var view :| Saw(s, seed, done, id, view) && Analyze(s, s.byId[id], view) == Some(done[id]);
        OldSaw(s, seed, schedule, k, known, done, more, id, view);
      } else {
        NewSaw(s, seed, schedule, k, known, done, more, id);
        var i :| 0 <= i < |schedule[k]| && schedule[k][i] == id;
      }
    }
  }

  lemma {:induction false} RunSaw(s: Setup, seed: Known, schedule: seq<seq<string>>, k: nat, known: Known,
      done: map<string, NodeLineage>)
    requires k <= |schedule| && Standing(s, seed, schedule, k, known, done) && Scheduled(s, schedule[k..])
    requires EachSaw(s, seed, done)
    ensures
      var r := Run(s, schedule[k..], known, done);
      && (r.Done? ==> EachSaw(s, seed, r.nodes) && r.nodes.Keys == s.byId.Keys)
      && (r.Failed? ==> r.node in s.byId && exists view :: Analyze(s, s.byId[r.node], view) == None)
    decreases |schedule| - k
  {
    hide Standing, Analyze, EachSaw, Learn, Remember;
    if k == |schedule| {
      AllPlaced(s, seed, schedule, known, done);
    } else {
      NoMore(schedule, k);
      forall id | id in schedule[k] ensures id in s.byId { assert id in schedule[k..][0]; }
      if WaveResults(s, schedule[k], known).1.None? {
        BatchStands(s, seed, schedule, k, known, done);
        BatchSaw(s, seed, schedule, k, known, done);
        var found := WaveResults(s, schedule[k], known).0;
        RunSaw(s, seed, schedule, k + 1, Learn(known, found), Remember(done, found));
      }
    }
  }

  /** The node the analyzer failed on is one of the project's, and the analyzer fails on its SQL. */
  ghost predicate IsFailure(project: seq<LineageNode>, an: Analyzer, id: string) {
    exists p, view :: p in project && p.id == id && p.sql.Some? && an.analyze(p.sql.value, view) == None
  }

  lemma SawIsBuilt(project: seq<LineageNode>, s: Setup, nodes: map<string, NodeLineage>, p: LineageNode, view: Known)
    requires IsIndex(project, s.byId) && p in project && nodes.Keys == s.byId.Keys
    requires Saw(s, Seed(project), nodes, p.id, view) && Analyze(s, p, view) == Some(nodes[p.id])
    ensures IsBuiltNode(project, s.an, s.h, nodes, p, nodes[p.id])
  {
    DependsOnPicks(project, s.byId, p.dependsOn);
    SeedShows(project);
    SawIsView(project, s, nodes, p, view);
    assert s.byId[p.id] == p;
    AnalyzedIs(s, p, view, nodes[p.id]);
    UpstreamIs(project, s.byId, p, view);
    var u := UpstreamOf(s.byId, p, view);
    hide *;
    WithView(project, s, nodes, p, view, u);
  }

  /** An analysed node has its own name, the lineage that the analyzer gives, the columns that the
      lineage or else the project gives, and a key exactly with SQL. */
  lemma AnalyzedIs(s: Setup, p: LineageNode, view: Known, n: NodeLineage)
    requires Analyze(s, p, view) == Some(n)
    ensures n.id == p.id && n.relation == p.relation && n.kind == p.kind
    ensures HasColumns(p, n) && n.dependsOn == DependsOnList(s.byId, p.dependsOn)
    ensures n.lineage.Some? <==> p.sql.Some?
    ensures n.cacheKey.Some? <==> p.sql.Some?
    ensures p.sql.Some? ==> s.an.analyze(p.sql.value, view) == n.lineage
    ensures p.sql.Some? ==> n.cacheKey == Some(s.h.KeyOf(s.an.version, p.sql.value, UpstreamOf(s.byId, p, view)))
  {
    hide DependsOnList, Order.Listing;
  }

  lemma UpstreamIs(project: seq<LineageNode>, byId: map<string, LineageNode>, p: LineageNode, view: Known)
    requires IsIndex(project, byId)
    ensures IsUpstream(project, p, view, UpstreamOf(byId, p, view))
  {
    DeclaredAre(project, byId, p);
    ListedUpstream(byId, p, view);
    hide DependsOn, DeclaresRelation, UpstreamOf, Lists, IsIndex;
  }

  lemma DeclaredAre(project: seq<LineageNode>, byId: map<string, LineageNode>, p: LineageNode)
    requires IsIndex(project, byId)
    ensures forall r :: r in DependsOn(byId, p) <==> DeclaresRelation(project, p, r)
  {
    forall r ensures r in DependsOn(byId, p) <==> DeclaresRelation(project, p, r) {
      if d :| d in p.dependsOn && d in byId && byId[d].relation == r { assert byId[d] in project; }
    }
  }

  lemma ListedUpstream(byId: map<string, LineageNode>, p: LineageNode, view: Known)
    ensures
      var u := UpstreamOf(byId, p, view);
      && (forall i :: 0 <= i < |u| ==> u[i].0 in DependsOn(byId, p) && u[i].1 == Lookup(view, u[i].0))
      && (forall r :: r in DependsOn(byId, p) ==> Lists(u, r))
      && forall i, j :: 0 <= i < j < |u| ==> Order.NameLe(u[i].0, u[j].0) && u[i].0 != u[j].0
  {
    hide DependsOn, Order.Listing;
    var list, u := Order.Listing(DependsOn(byId, p)), UpstreamOf(byId, p, view);
    assert |u| == |list| && forall i :: 0 <= i < |u| ==> u[i] == (list[i], Lookup(view, list[i]));
    hide UpstreamOf, Lookup;
    forall i | 0 <= i < |u| ensures u[i].0 in DependsOn(byId, p) { assert list[i] in list; }
    forall r | r in DependsOn(byId, p) ensures Lists(u, r) {
      assert r in list;
      var i :| 0 <= i < |list| && list[i] == r;
      assert u[i].0 == r;
    }
  }

  lemma WithView(project: seq<LineageNode>, s: Setup, nodes: map<string, NodeLineage>, p: LineageNode, view: Known,
      u: Keys.Upstream)
    requires p.id in nodes && IsView(project, nodes, p, view) && IsUpstream(project, p, view, u)
    requires
      var n := nodes[p.id];
      && n.id == p.id && n.relation == p.relation && n.kind == p.kind
      && HasColumns(p, n) && RelationsOf(project, p.dependsOn, n.dependsOn)
      && (n.lineage.Some? <==> p.sql.Some?) && (n.cacheKey.Some? <==> p.sql.Some?)
      && (p.sql.Some? ==> s.an.analyze(p.sql.value, view) == n.lineage)
      && (p.sql.Some? ==> n.cacheKey == Some(s.h.KeyOf(s.an.version, p.sql.value, u)))
    ensures IsBuiltNode(project, s.an, s.h, nodes, p, nodes[p.id])
  {
    hide HasColumns, RelationsOf, IsView, IsUpstream;
  }

  lemma SawIsView(project: seq<LineageNode>, s: Setup, nodes: map<string, NodeLineage>, p: LineageNode, view: Known)
    requires IsIndex(project, s.byId) && p in project && nodes.Keys == s.byId.Keys
    requires Saw(s, Seed(project), nodes, p.id, view)
    requires forall q :: q in project ==> Lookup(Seed(project), q.relation) == q.columns
    requires forall r :: r in Seed(project) ==> exists q :: q in project && q.relation == r
    ensures IsView(project, nodes, p, view)
  {
    hide Seed;
    assert forall q :: q in project ==> q.id in s.byId && s.byId[q.id] == q;
    assert forall id :: id in s.byId ==> s.byId[id] in project;
    hide IsIndex;
    forall q | q in project ensures ShowsOrSeed(s, Seed(project), nodes, q.id, view) { assert q.id in s.byId; }
  }

  /** Every node that a build gives has the columns, the dependencies and the lineage that its own
      analysis gives among the other nodes; and a build fails in the analyzer only on a node of
      the project. */
  lemma BuiltIsWhole(project: seq<LineageNode>, an: Analyzer, h: Hasher, r: BuildResult)
    requires IsResult(project, an, h, r)
    ensures r.Built? ==> IsWhole(project, an, h, r.graph.nodes) && MissingAre(project, r.stats.missing)
    ensures r.AnalyzerFailed? ==> IsFailure(project, an, r.node)
  {
    if r.Built? || r.AnalyzerFailed? {
      var byId, waves :| IsBuild(project, an, h, byId, waves, r);
      var s, seed := Setup(byId, an, h), Seed(project);
      StartStanding(project, s, waves);
      assert waves[0..] == waves;
      RunSaw(s, seed, waves, 0, seed, map[]);
      hide Run, Layers.IsSchedule, Saw, Analyze, IsBuiltNode, Seed;
      if r.Built? {
        EachIsBuilt(project, s, r.graph.nodes);
        MissingIs(project, byId);
      } else {
        var view :| Analyze(s, byId[r.node], view) == None;
        FailureIs(project, s, r.node, view);
      }
    }
  }

  lemma StartStanding(project: seq<LineageNode>, s: Setup, waves: seq<seq<string>>)
    requires IsIndex(project, s.byId) && Layers.IsSchedule(DeclaredIds(s.byId), waves)
    ensures Standing(s, Seed(project), waves, 0, Seed(project), map[])
  {
    WavesAreValid(s, waves);
    assert DistinctRelations(s.byId) && forall id :: id in s.byId ==> s.byId[id].id == id;
    hide *;
    StandStart(s, Seed(project), waves);
  }

  lemma StandStart(s: Setup, seed: Known, schedule: seq<seq<string>>)
    requires DistinctRelations(s.byId) && (forall id :: id in s.byId ==> s.byId[id].id == id) && ValidOrder(s, schedule)
    ensures Standing(s, seed, schedule, 0, seed, map[])
  {
    TracksStart(s, seed);
    hide Tracks, ValidOrder, DistinctRelations;
  }

  lemma TracksStart(s: Setup, seed: Known)
    ensures Tracks(s, seed, map[], seed)
  {
  }

  /** The declared ids that are not in the project. */
  ghost predicate MissingAre(project: seq<LineageNode>, missing: set<string>) {
    forall d :: d in missing <==> !InProject(project, d) && exists p :: p in project && d in p.dependsOn
  }

  lemma MissingIs(project: seq<LineageNode>, byId: map<string, LineageNode>)
    requires IsIndex(project, byId)
    ensures MissingAre(project, Layers.MissingDependencies(DeclaredIds(byId)))
  {
    var declared := DeclaredIds(byId);
    var missing := Layers.MissingDependencies(declared);
    forall d ensures d in missing <==> !InProject(project, d) && exists p :: p in project && d in p.dependsOn {
      InIndex(project, byId, d);
      MissingMeans(declared, d);
      if id :| id in declared && d in declared[id] { assert byId[id] in project && d in byId[id].dependsOn; }
      if p :| p in project && d in p.dependsOn { assert p.id in declared && d in declared[p.id]; }
    }
  }

  lemma MissingMeans(declared: Layers.Declared, d: string)
    ensures d in Layers.MissingDependencies(declared) <==>
      d !in declared && exists id :: id in declared && d in declared[id]
  {
  }

  lemma FailureIs(project: seq<LineageNode>, s: Setup, id: string, view: Known)
    requires IsIndex(project, s.byId) && id in s.byId && Analyze(s, s.byId[id], view) == None
    ensures IsFailure(project, s.an, id)
  {
    assert s.byId[id] in project;
  }

  lemma EachIsBuilt(project: seq<LineageNode>, s: Setup, nodes: map<string, NodeLineage>)
    requires IsIndex(project, s.byId) && nodes.Keys == s.byId.Keys && EachSaw(s, Seed(project), nodes)
    ensures IsWhole(project, s.an, s.h, nodes)
  {
    hide Saw, Analyze, IsBuiltNode, Seed;
    forall p | p in project ensures p.id in nodes && IsBuiltNode(project, s.an, s.h, nodes, p, nodes[p.id]) {
      assert p.id in s.byId && s.byId[p.id] == p;
      var view :| Saw(s, Seed(project), nodes, p.id, view) && Analyze(s, p, view) == Some(nodes[p.id]);
      SawIsBuilt(project, s, nodes, p, view);
    }
    forall id | id in nodes ensures InProject(project, id) { assert s.byId[id] in project; }
  }
}
