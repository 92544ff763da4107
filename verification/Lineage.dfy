/** The column-lineage vocabulary, and the analysed graph with its two indexes. */
module Lineage {
  import opened Prelude

  type RelationName = seq<string>

  datatype ColumnRef = ColumnRef(relation: RelationName, column: string)

  datatype DirectKind = Identity | Transformation | Aggregation
  datatype IndirectKind = Join | Filter | GroupBy | Sort | Window | Conditional
  datatype EdgeKind = Direct(direct: DirectKind) | Indirect(indirect: IndirectKind)

  datatype OutputColumn = OutputColumn(name: string, inputs: set<(ColumnRef, EdgeKind)>, digest: string)

  /** What an analyzer reports about one query. `unread` is the source's `opaque` flag: the
      query could not be analysed at all. */
  datatype QueryLineage = QueryLineage(
    outputs: seq<OutputColumn>,
    rowInputs: set<(ColumnRef, IndirectKind)>,
    relationsRead: set<RelationName>,
    wildcards: set<RelationName>,
    rowDigest: string,
    unread: bool)

  datatype NodeKind = Model | Seed | Snapshot | Source

  datatype NodeLineage = NodeLineage(
    id: string,
    relation: RelationName,
    kind: NodeKind,
    columns: seq<string>,
    lineage: Option<QueryLineage>,
    cacheKey: Option<string>,
    dependsOn: seq<RelationName>)
  {
    /** Nothing is known about how it uses its inputs. */
    predicate IsOpaque() {
      match lineage
      case Some(l) => l.unread
      case None => kind == Model || dependsOn != []
    }

    /** What its SQL reads and, conservatively, what it declares. */
    function Reads(): set<RelationName> {
      (if lineage.Some? then lineage.value.relationsRead else {}) + set r | r in dependsOn
    }

    /** Declared, but its SQL does not read it. */
    predicate DeclaredOnly(relation: RelationName) {
      lineage.Some? && relation !in lineage.value.relationsRead
    }

    /** Every use it makes of an upstream column, by a plain scan of its lineage. */
    function Uses(): set<(ColumnRef, ColumnUse)> {
      match lineage
      case None => {}
      case Some(l) => (set o, p | o in l.outputs && p in OutputUses(id, o) :: p) + RowUses(id, l)
    }
  }

  function OutputUses(id: string, o: OutputColumn): set<(ColumnRef, ColumnUse)> {
    set i | i in o.inputs :: (i.0, ColumnUse(id, Some(o.name), i.1))
  }

  function RowUses(id: string, l: QueryLineage): set<(ColumnRef, ColumnUse)> {
    set i | i in l.rowInputs :: (i.0, ColumnUse(id, None, Indirect(i.1)))
  }

  /** How a node uses an upstream column: in an output, or (None) to shape its rows. */
  datatype ColumnUse = ColumnUse(node: string, output: Option<string>, edge: EdgeKind)

  datatype ColumnGraph = ColumnGraph(
    nodes: map<string, NodeLineage>,
    byRelation: map<RelationName, string>,
    consumers: map<ColumnRef, set<ColumnUse>>,
    readers: map<RelationName, set<string>>)
  {
    function UsesOf(column: ColumnRef): set<ColumnUse> { Entry(consumers, column) }

    function ReadersOf(relation: RelationName): set<string> { Entry(readers, relation) }

    function NodeFor(relation: RelationName): Option<NodeLineage> {
      if relation in byRelation && byRelation[relation] in nodes
      then Some(nodes[byRelation[relation]]) else None
    }

    ghost predicate KeyedById() { forall id :: id in nodes ==> nodes[id].id == id }

    ghost predicate ReadersAgree() { forall r, id :: id in ReadersOf(r) <==> id in nodes && r in nodes[id].Reads() }

    ghost predicate UsesAgree() { forall c, u :: u in UsesOf(c) <==> u.node in nodes && (c, u) in nodes[u.node].Uses() }

    ghost predicate OwnersAgree() {
      && (forall r :: r in byRelation ==> byRelation[r] in nodes && nodes[byRelation[r]].relation == r)
      && (forall id :: id in nodes ==> nodes[id].relation in byRelation)
    }

    /** Both indexes answer exactly what a scan of every node would. */
    ghost predicate Indexed() { KeyedById() && ReadersAgree() && UsesAgree() && OwnersAgree() }
  }

  // ---- multimaps --------------------------------------------------------------------

  function Entry<K, V>(m: map<K, set<V>>, k: K): set<V> { if k in m then m[k] else {} }

  function Insert<K, V>(m: map<K, set<V>>, k: K, v: V): map<K, set<V>> { m[k := Entry(m, k) + {v}] }

  /** `m` holds exactly `pairs`. */
  ghost predicate Holds<K(!new), V(!new)>(m: map<K, set<V>>, pairs: set<(K, V)>) {
    forall k, v :: v in Entry(m, k) <==> (k, v) in pairs
  }

  /** Inserts every pair of `add`. */
  method InsertAll<K(!new), V(!new)>(m: map<K, set<V>>, ghost pairs: set<(K, V)>, add: set<(K, V)>)
      returns (r: map<K, set<V>>)
    requires Holds(m, pairs)
    ensures Holds(r, pairs + add)
  {
    r := m;
    var todo := add;
    while todo != {}
      invariant todo <= add && Holds(r, pairs + (add - todo))
    {
      var p :| p in todo;
      r := Insert(r, p.0, p.1);
      todo := todo - {p};
    }
    assert add - todo == add;
  }

  // ---- building the indexes ---------------------------------------------------------

  /** Adds one node's column uses to the consumers index. */
  method IndexUses(consumers: map<ColumnRef, set<ColumnUse>>, node: NodeLineage,
      ghost pairs: set<(ColumnRef, ColumnUse)>)
    returns (r: map<ColumnRef, set<ColumnUse>>)
    requires Holds(consumers, pairs)
    ensures Holds(r, pairs + node.Uses())
  {
    r := consumers;
    if node.lineage.None? { return; }
    var l := node.lineage.value;
    ghost var added := {};
    for k := 0 to |l.outputs|
      invariant Holds(r, pairs + added)
      invariant added == set o, p | o in l.outputs[..k] && p in OutputUses(node.id, o) :: p
    {
      var output := l.outputs[k];
      r := InsertAll(r, pairs + added, OutputUses(node.id, output));
      assert pairs + added + OutputUses(node.id, output) == pairs + (added + OutputUses(node.id, output));
      added := added + OutputUses(node.id, output);
      assert l.outputs[..k + 1] == l.outputs[..k] + [output];
    }
    assert l.outputs[..|l.outputs|] == l.outputs;
    r := InsertAll(r, pairs + added, RowUses(node.id, l));
    assert pairs + added + RowUses(node.id, l) == pairs + node.Uses();
  }

  ghost function ReadsIn(nodes: map<string, NodeLineage>, ids: set<string>): set<(RelationName, string)>
    requires ids <= nodes.Keys
  {
    set id, q | id in ids && q in nodes[id].Reads() :: (q, id)
  }

  ghost function UsesIn(nodes: map<string, NodeLineage>, ids: set<string>): set<(ColumnRef, ColumnUse)>
    requires ids <= nodes.Keys
  {
    set id, p | id in ids && p in nodes[id].Uses() :: p
  }

  /** Builds the graph of analysed nodes: each is stored under its own id. */
  method FromNodes(nodes: map<string, NodeLineage>) returns (g: ColumnGraph)
    requires forall id :: id in nodes ==> nodes[id].id == id
    ensures g.nodes == nodes && g.Indexed()
  {
    var byRelation: map<RelationName, string> := map[];
    var consumers: map<ColumnRef, set<ColumnUse>> := map[];
    var readers: map<RelationName, set<string>> := map[];
    var todo := nodes.Keys;
    ghost var done := {};
    while todo != {}
      invariant todo + done == nodes.Keys && todo !! done
      invariant Holds(readers, ReadsIn(nodes, done)) && Holds(consumers, UsesIn(nodes, done))
      invariant forall q :: q in byRelation ==> byRelation[q] in nodes && nodes[byRelation[q]].relation == q
      invariant forall id :: id in done ==> nodes[id].relation in byRelation
    {
      var id :| id in todo;
      var node := nodes[id];
      var reading := set q | q in node.Reads() :: (q, id);
      readers := InsertAll(readers, ReadsIn(nodes, done), reading);
      assert ReadsIn(nodes, done + {id}) == ReadsIn(nodes, done) + reading;
      consumers := IndexUses(consumers, node, UsesIn(nodes, done));
      assert UsesIn(nodes, done + {id}) == UsesIn(nodes, done) + node.Uses();
      byRelation := byRelation[node.relation := id];
      todo, done := todo - {id}, done + {id};
    }
    g := ColumnGraph(nodes, byRelation, consumers, readers);
    assert done == nodes.Keys;
    IndexesAgree(g);
  }

  lemma IndexesAgree(g: ColumnGraph)
    requires g.KeyedById()
    requires Holds(g.readers, ReadsIn(g.nodes, g.nodes.Keys)) && Holds(g.consumers, UsesIn(g.nodes, g.nodes.Keys))
    ensures g.ReadersAgree() && g.UsesAgree()
  {
    forall c, u ensures u in g.UsesOf(c) <==> u.node in g.nodes && (c, u) in g.nodes[u.node].Uses() {
      assert u in g.UsesOf(c) <==> (c, u) in UsesIn(g.nodes, g.nodes.Keys);
    }
    forall r, id ensures id in g.ReadersOf(r) <==> id in g.nodes && r in g.nodes[id].Reads() {
      assert id in g.ReadersOf(r) <==> (r, id) in ReadsIn(g.nodes, g.nodes.Keys);
    }
  }
}
