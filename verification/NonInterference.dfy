/** What the impact report means for data: a node it leaves out computes the same table, and
    a column it leaves out holds the same values. */
module NonInterference {
  import opened Prelude
  import opened Fixpoint
  import opened Lineage
  import opened Impact

  /** A relation's contents: which rows there are, and each column's values by name. */
  datatype Table<R, V> = Table(rows: R, column: string -> V)

  type Env<R, V> = RelationName -> Table<R, V>

  /** What each node's code computes from the tables it is run on. */
  datatype Semantics<!R, !V> = Semantics(rows: (string, Env<R, V>) -> R, column: (string, string, Env<R, V>) -> V)

  ghost predicate SameColumn<R, V>(a: Env<R, V>, b: Env<R, V>, c: ColumnRef) {
    a(c.relation).column(c.column) == b(c.relation).column(c.column)
  }

  ghost predicate SameTable<R, V>(a: Env<R, V>, b: Env<R, V>, r: RelationName) {
    a(r).rows == b(r).rows && forall x :: a(r).column(x) == b(r).column(x)
  }

  ghost predicate SameInputs<R, V>(node: NodeLineage, a: Env<R, V>, b: Env<R, V>) {
    forall r :: r in node.Reads() ==> SameTable(a, b, r)
  }

  /** Everything that decides which rows the node has. */
  ghost predicate SameRowInputs<R, V>(node: NodeLineage, l: QueryLineage, a: Env<R, V>, b: Env<R, V>) {
    && (forall r :: r in l.relationsRead ==> a(r).rows == b(r).rows)
    && (forall i :: i in l.rowInputs ==> SameColumn(a, b, i.0))
    && (forall r :: r in node.dependsOn && node.DeclaredOnly(r) ==> SameTable(a, b, r))
  }

  /** Everything that feeds the node's outputs called `x`. */
  ghost predicate SameColumnInputs<R, V>(l: QueryLineage, x: string, a: Env<R, V>, b: Env<R, V>) {
    forall o, i :: o in l.outputs && o.name == x && i in o.inputs ==> SameColumn(a, b, i.0)
  }

  /** The columns a query uses belong to relations it reports reading. */
  ghost predicate WellScoped(l: QueryLineage) {
    && (forall o, i :: o in l.outputs && i in o.inputs ==> i.0.relation in l.relationsRead)
    && (forall i :: i in l.rowInputs ==> i.0.relation in l.relationsRead)
  }

  /** The lineage is sound for what the nodes compute: nothing outside it matters. */
  ghost predicate Sound<R(!new), V(!new)>(g: ColumnGraph, sem: Semantics<R, V>) {
    forall id :: id in g.nodes ==> SoundNode(g.nodes[id], sem)
  }

  ghost predicate SoundNode<R(!new), V(!new)>(node: NodeLineage, sem: Semantics<R, V>) {
    if node.IsOpaque() || node.lineage.None? then
      forall a: Env<R, V>, b: Env<R, V> :: SameInputs(node, a, b) ==>
        sem.rows(node.id, a) == sem.rows(node.id, b) &&
            forall x :: sem.column(node.id, x, a) == sem.column(node.id, x, b)
    else
      && WellScoped(node.lineage.value)
      && forall a: Env<R, V>, b: Env<R, V> :: SameRowInputs(node, node.lineage.value, a, b) ==>
        && sem.rows(node.id, a) == sem.rows(node.id, b)
        && forall x ::
            SameColumnInputs(node.lineage.value, x, a, b) ==> sem.column(node.id, x, a) == sem.column(node.id, x, b)
  }

  ghost predicate GivenColumn(given: set<Change>, c: ColumnRef) {
    exists kind :: Column(c, kind) in given
  }

  /** `e` is what running every node gives, except where a given change says otherwise. */
  ghost predicate Evaluates<R, V>(g: ColumnGraph, sem: Semantics<R, V>, e: Env<R, V>, given: set<Change>) {
    forall id :: id in g.nodes && Rows(g.nodes[id].relation) !in given ==>
      && e(g.nodes[id].relation).rows == sem.rows(id, e)
      && forall x :: !GivenColumn(given, ColumnRef(g.nodes[id].relation, x)) ==>
        e(g.nodes[id].relation).column(x) == sem.column(id, x, e)
  }

  /** Tables no node builds differ only where a given change says so. */
  ghost predicate SameOutside<R, V>(g: ColumnGraph, a: Env<R, V>, b: Env<R, V>, given: set<Change>) {
    forall r :: (forall id :: id in g.nodes ==> g.nodes[id].relation != r) && Rows(r) !in given ==>
      && a(r).rows == b(r).rows
      && forall x :: !GivenColumn(given, ColumnRef(r, x)) ==> SameColumn(a, b, ColumnRef(r, x))
  }

  ghost predicate Acyclic(g: ColumnGraph, rank: RelationName -> nat) {
    forall id, r :: id in g.nodes && r in g.nodes[id].Reads() ==> rank(r) < rank(g.nodes[id].relation)
  }

  /** A column that was not there before is read only through `*`, under its own name, or by a
      node whose own change is given. */
  ghost predicate AddedThroughStars(g: ColumnGraph, given: set<Change>) {
    forall c, id ::
        c in Caused(g, given) && c.IsAdded() && id in g.nodes && g.nodes[id].lineage.Some? &&
        Rows(g.nodes[id].relation) !in given ==>
      StarsOnly(g.nodes[id], g.nodes[id].lineage.value, c.column, given)
  }

  ghost predicate StarsOnly(node: NodeLineage, l: QueryLineage, added: ColumnRef, given: set<Change>) {
    && (forall i :: i in l.rowInputs && i.0 == added ==> added.relation in l.wildcards)
    && (forall o, i :: o in l.outputs && i in o.inputs && i.0 == added ==>
          (added.relation in l.wildcards && o.name == added.column) ||
              GivenColumn(given, ColumnRef(node.relation, o.name)))
  }

  /** Without added columns there is nothing to read through `*`. */
  lemma NoneAddedThroughStars(g: ColumnGraph, given: set<Change>)
    requires forall c :: c in given ==> !c.IsAdded()
    ensures AddedThroughStars(g, given)
  {
    AddedKeepNames(g, given);
  }

  /** Two runs that differ only by the given changes. */
  ghost predicate Compared<R(!new), V(!new)>(g: ColumnGraph, sem: Semantics<R, V>, a: Env<R, V>, b: Env<R, V>,
      given: set<Change>) {
    && g.Indexed() && Sound(g, sem)
    && Evaluates(g, sem, a, given) && Evaluates(g, sem, b, given) && SameOutside(g, a, b, given)
    && AddedThroughStars(g, given)
  }

  /** What is not caused is not different. */
  ghost predicate Same<R, V>(all: set<Change>, a: Env<R, V>, b: Env<R, V>, r: RelationName) {
    Rows(r) !in all ==>
      && a(r).rows == b(r).rows
      && forall x :: !GivenColumn(all, ColumnRef(r, x)) ==> SameColumn(a, b, ColumnRef(r, x))
  }

  // ---- what reaches a reader --------------------------------------------------------

  /** The node's rows, or the column the effect names, are among `all`. */
  ghost predicate Passed(g: ColumnGraph, all: set<Change>, e: Effect)
    requires e.node in g.nodes
  {
    match e.outcome
    case RowsDiffer => Rows(g.nodes[e.node].relation) in all
    case ColumnDiffers(name, _) => GivenColumn(all, ColumnRef(g.nodes[e.node].relation, name))
  }

  /** What every run of the worklist is: between the given changes and all they cause, with
      every effect passed on, if not always as the same kind of change, and nothing else. */
  ghost predicate Spreads(g: ColumnGraph, given: set<Change>, all: set<Change>) {
    && given <= all <= Caused(g, given)
    && (forall e :: e in AllEffects(g, all) ==> e.node in g.nodes && Passed(g, all, e))
    && (forall c :: c in all - given ==> exists e :: e in AllEffects(g, all) && e.node in g.nodes && c == Onward(g, e))
  }

  lemma RunsPass(g: ColumnGraph, given: set<Change>, processed: set<Change>, e: Effect)
    requires Follows(g, given, processed) && e in AllEffects(g, processed)
    ensures e.node in g.nodes && Passed(g, processed, e)
  {
    hide Follows, AllEffects;
    var f := MarkIsSent(g, given, processed, e);
  }

  lemma RunsSpread(g: ColumnGraph, given: set<Change>, processed: set<Change>)
    requires Follows(g, given, processed)
    ensures Spreads(g, given, processed)
  {
    assert given <= processed <= Caused(g, given);
    hide Caused, AllEffects, Follows, Passed;
    forall e | e in AllEffects(g, processed) ensures e.node in g.nodes && Passed(g, processed, e) {
      RunsPass(g, given, processed, e);
    }
    forall c | c in processed - given
        ensures exists e :: e in AllEffects(g, processed) && e.node in g.nodes && c == Onward(g, e) {
      var e := Sender(g, given, processed, c);
    }
  }

  lemma EverythingCausedSpreads(g: ColumnGraph, given: set<Change>)
    ensures Spreads(g, given, Caused(g, given))
  {
    var all := Caused(g, given);
    assert given <= all && Closed(Step(g), all);
    hide Caused;
    forall e | e in AllEffects(g, all) ensures e.node in g.nodes && Passed(g, all, e) {
      var c :| c in all && e in Effects(g, c);
      assert Onward(g, e) in Step(g)(c);
    }
    forall c | c in all - given ensures exists e :: e in AllEffects(g, all) && c == Onward(g, e) {
      CausedIsSent(g, given, c);
    }
  }

  /** What a change does to a reader is passed on. */
  lemma Hears(g: ColumnGraph, given: set<Change>, all: set<Change>, c: Change, id: string, e: Effect)
    requires g.Indexed() && Spreads(g, given, all) && c in all && id in g.nodes && c.Relation() in g.nodes[id].Reads()
    requires e in EffectsOn(g, c, id)
    ensures Passed(g, all, e)
  {
    assert id in g.ReadersOf(c.Relation());
    assert e in Effects(g, c);
  }

  lemma UnknownReaderHears(g: ColumnGraph, given: set<Change>, all: set<Change>, c: Change, id: string)
    requires g.Indexed() && Spreads(g, given, all) && c in all && id in g.nodes && c.Relation() in g.nodes[id].Reads()
    requires g.nodes[id].IsOpaque() || g.nodes[id].DeclaredOnly(c.Relation())
    ensures Rows(g.nodes[id].relation) in all
  {
    Hears(g, given, all, c, id, Effect(id, OpaqueReason(c.Relation()), RowsDiffer));
  }

  lemma RowsAreHeard(g: ColumnGraph, given: set<Change>, all: set<Change>, r: RelationName, id: string)
    requires g.Indexed() && Spreads(g, given, all) && Rows(r) in all && id in g.nodes && r in g.nodes[id].Reads()
    ensures Rows(g.nodes[id].relation) in all
  {
    var c := Rows(r);
    if g.nodes[id].IsOpaque() || g.nodes[id].DeclaredOnly(c.Relation()) {
      UnknownReaderHears(g, given, all, c, id);
    } else {
      Hears(g, given, all, c, id, Effect(id, RowsReason(r), RowsDiffer));
    }
  }

  /** A changed column reaches whatever its reader uses it for. */
  lemma UseIsHeard(g: ColumnGraph, given: set<Change>, all: set<Change>, c: Change, u: ColumnUse)
    requires g.Indexed() && Spreads(g, given, all) && c in all && c.Column? && !c.IsAdded()
    requires u.node in g.nodes && c.column.relation in g.nodes[u.node].Reads() &&
        (c.column, u) in g.nodes[u.node].Uses()
    requires !g.nodes[u.node].IsOpaque() && !g.nodes[u.node].DeclaredOnly(c.column.relation)
    ensures u.output.None? ==> Rows(g.nodes[u.node].relation) in all
    ensures u.output.Some? ==> GivenColumn(all, ColumnRef(g.nodes[u.node].relation, u.output.value))
  {
    assert u in g.UsesOf(c.column);
    Hears(g, given, all, c, u.node, UseEffect(c.column, c.kind, u));
  }

  /** An added column read through `*` reaches the rows it shapes. */
  lemma AddedRowInputHeard(g: ColumnGraph, given: set<Change>, all: set<Change>, added: ColumnRef, id: string,
      l: QueryLineage)
    requires g.Indexed() && Spreads(g, given, all) && AddedThroughStars(g, given) && Column(added, Added) in all
    requires id in g.nodes && !g.nodes[id].IsOpaque() && g.nodes[id].lineage == Some(l) &&
        added.relation in l.relationsRead
    requires exists i :: i in l.rowInputs && i.0 == added
    ensures Rows(g.nodes[id].relation) in all
  {
    if Rows(g.nodes[id].relation) !in given {
      assert StarsOnly(g.nodes[id], l, added, given);
      Hears(g, given, all, Column(added, Added), id, Effect(id, WildcardReason(added), RowsDiffer));
    }
  }

  /** An added column read through `*` reaches the output of its name. */
  lemma AddedInputHeard(g: ColumnGraph, given: set<Change>, all: set<Change>, added: ColumnRef, id: string,
      l: QueryLineage, o: OutputColumn)
    requires g.Indexed() && Spreads(g, given, all) && AddedThroughStars(g, given) && Column(added, Added) in all
    requires id in g.nodes && !g.nodes[id].IsOpaque() && g.nodes[id].lineage == Some(l) &&
        added.relation in l.relationsRead
    requires o in l.outputs && exists i :: i in o.inputs && i.0 == added
    ensures Rows(g.nodes[id].relation) in all || GivenColumn(all, ColumnRef(g.nodes[id].relation, o.name))
  {
    if Rows(g.nodes[id].relation) !in given {
      assert StarsOnly(g.nodes[id], l, added, given);
      if kind :| Column(ColumnRef(g.nodes[id].relation, o.name), kind) in given {
        assert Column(ColumnRef(g.nodes[id].relation, o.name), kind) in all;
      } else {
        Hears(g, given, all, Column(added, Added), id,
            Effect(id, WildcardReason(added), ColumnDiffers(added.column, Added)));
      }
    }
  }

  // ---- what does not reach it -------------------------------------------------------

  lemma UnchangedTable<R, V>(all: set<Change>, a: Env<R, V>, b: Env<R, V>, q: RelationName)
    requires Same(all, a, b, q) && forall c :: c in all ==> c.Relation() != q
    ensures SameTable(a, b, q)
  {
    assert Rows(q).Relation() == q;
    forall x ensures a(q).column(x) == b(q).column(x) {
      assert forall kind :: Column(ColumnRef(q, x), kind).Relation() == q;
      assert SameColumn(a, b, ColumnRef(q, x));
    }
  }

  lemma UnknownReadsUnchanged<R, V>(g: ColumnGraph, given: set<Change>, all: set<Change>, a: Env<R, V>, b: Env<R, V>,
      id: string, q: RelationName)
    requires g.Indexed() && Spreads(g, given, all) && id in g.nodes && Rows(g.nodes[id].relation) !in all
    requires q in g.nodes[id].Reads() && (g.nodes[id].IsOpaque() || g.nodes[id].DeclaredOnly(q))
    requires Same(all, a, b, q)
    ensures SameTable(a, b, q)
  {
    forall c | c in all && c.Relation() == q ensures false { UnknownReaderHears(g, given, all, c, id); }
    UnchangedTable(all, a, b, q);
  }

  lemma RowInputsUnchanged<R, V>(g: ColumnGraph, given: set<Change>, all: set<Change>, a: Env<R, V>, b: Env<R, V>,
      id: string, l: QueryLineage)
    requires g.Indexed() && Spreads(g, given, all) && id in g.nodes && Rows(g.nodes[id].relation) !in all
    requires !g.nodes[id].IsOpaque() && g.nodes[id].lineage == Some(l) && WellScoped(l)
    requires AddedThroughStars(g, given)
    requires forall q :: q in g.nodes[id].Reads() ==> Same(all, a, b, q)
    ensures SameRowInputs(g.nodes[id], l, a, b)
  {
    var node := g.nodes[id];
    forall r | r in l.relationsRead ensures a(r).rows == b(r).rows {
      assert r in node.Reads();
      if Rows(r) in all { RowsAreHeard(g, given, all, r, id); }
    }
    forall i | i in l.rowInputs ensures SameColumn(a, b, i.0) {
      assert i.0.relation in node.Reads();
      if Rows(i.0.relation) in all { RowsAreHeard(g, given, all, i.0.relation, id); }
      if kind :| Column(i.0, kind) in all {
        var u := ColumnUse(id, None, Indirect(i.1));
        assert (i.0, u) in RowUses(id, l);
        if kind == Added {
          AddedRowInputHeard(g, given, all, i.0, id, l);
        } else {
          UseIsHeard(g, given, all, Column(i.0, kind), u);
        }
      }
      assert i.0 == ColumnRef(i.0.relation, i.0.column) && !GivenColumn(all, i.0);
    }
    forall r | r in node.dependsOn && node.DeclaredOnly(r) ensures SameTable(a, b, r) {
      UnknownReadsUnchanged(g, given, all, a, b, id, r);
    }
  }

  lemma ColumnInputsUnchanged<R, V>(g: ColumnGraph, given: set<Change>, all: set<Change>, a: Env<R, V>, b: Env<R, V>,
      id: string, l: QueryLineage, x: string)
    requires g.Indexed() && Spreads(g, given, all) && id in g.nodes && Rows(g.nodes[id].relation) !in all
    requires !g.nodes[id].IsOpaque() && g.nodes[id].lineage == Some(l) && WellScoped(l)
    requires AddedThroughStars(g, given)
    requires forall q :: q in g.nodes[id].Reads() ==> Same(all, a, b, q)
    requires !GivenColumn(all, ColumnRef(g.nodes[id].relation, x))
    ensures SameColumnInputs(l, x, a, b)
  {
    forall o, i | o in l.outputs && o.name == x && i in o.inputs ensures SameColumn(a, b, i.0) {
      assert i.0.relation in g.nodes[id].Reads();
      if Rows(i.0.relation) in all { RowsAreHeard(g, given, all, i.0.relation, id); }
      if kind :| Column(i.0, kind) in all {
        var u := ColumnUse(id, Some(x), i.1);
        assert (i.0, u) in OutputUses(id, o);
        if kind == Added {
          AddedInputHeard(g, given, all, i.0, id, l, o);
        } else {
          UseIsHeard(g, given, all, Column(i.0, kind), u);
        }
      }
      assert i.0 == ColumnRef(i.0.relation, i.0.column) && !GivenColumn(all, i.0);
    }
  }

  /** What the node computes is the same, wherever its own relation is not caused to differ. */
  ghost predicate SameResult<R, V>(g: ColumnGraph, sem: Semantics<R, V>, a: Env<R, V>, b: Env<R, V>, all: set<Change>,
      id: string)
    requires id in g.nodes
  {
    && sem.rows(id, a) == sem.rows(id, b)
    && forall x ::
        !GivenColumn(all, ColumnRef(g.nodes[id].relation, x)) ==> sem.column(id, x, a) == sem.column(id, x, b)
  }

  lemma ResultUnchanged<R(!new), V(!new)>(g: ColumnGraph, sem: Semantics<R, V>, a: Env<R, V>, b: Env<R, V>,
      given: set<Change>, all: set<Change>, id: string)
    requires Compared(g, sem, a, b, given) && Spreads(g, given, all) && id in g.nodes &&
        Rows(g.nodes[id].relation) !in all
    requires forall q :: q in g.nodes[id].Reads() ==> Same(all, a, b, q)
    ensures SameResult(g, sem, a, b, all, id)
  {
    var node := g.nodes[id];
    assert SoundNode(node, sem);
    if node.IsOpaque() || node.lineage.None? {
      forall q | q in node.Reads() ensures SameTable(a, b, q) {
        UnknownReadsUnchanged(g, given, all, a, b, id, q);
      }
      assert SameInputs(node, a, b);
    } else {
      RowInputsUnchanged(g, given, all, a, b, id, node.lineage.value);
      forall x | !GivenColumn(all, ColumnRef(node.relation, x)) ensures sem.column(id, x, a) == sem.column(id, x, b) {
        ColumnInputsUnchanged(g, given, all, a, b, id, node.lineage.value, x);
      }
    }
  }

  lemma {:induction false} UncausedIsSame<R(!new), V(!new)>(g: ColumnGraph, sem: Semantics<R, V>, a: Env<R, V>,
      b: Env<R, V>, given: set<Change>, all: set<Change>, rank: RelationName -> nat, r: RelationName)
    requires Compared(g, sem, a, b, given) && Spreads(g, given, all) && Acyclic(g, rank)
    ensures Same(all, a, b, r)
    decreases rank(r)
  {
    if Rows(r) !in all {
      if id :| id in g.nodes && g.nodes[id].relation == r {
        forall q | q in g.nodes[id].Reads() ensures Same(all, a, b, q) {
          UncausedIsSame(g, sem, a, b, given, all, rank, q);
        }
        ResultUnchanged(g, sem, a, b, given, all, id);
      }
    }
  }

  ghost predicate UniqueRelations(g: ColumnGraph) {
    forall i, j :: i in g.nodes && j in g.nodes && g.nodes[i].relation == g.nodes[j].relation ==> i == j
  }

  /** What is caused but not given is sent on by some effect. */
  lemma CausedIsSent(g: ColumnGraph, given: set<Change>, c: Change)
    requires c in Caused(g, given) - given
    ensures exists e :: e in AllEffects(g, Caused(g, given)) && c == Onward(g, e)
  {
    var all := Caused(g, given);
    assert forall e :: e in AllEffects(g, all) ==> e.node in g.nodes;
    var kept := given + (all * Onwards(g, AllEffects(g, all)));
    forall b, d | b in kept && d in Step(g)(b) ensures d in kept {
      var e :| e in Effects(g, b) && d == Onward(g, e);
      assert e in AllEffects(g, all) && d in all;
    }
    ClosureIsLeast(Step(g), given, Bound(g, given), kept);
  }

  /** A change that is processed but not given is in the report of the node that builds its
      relation. */
  lemma PassedIsReported(g: ColumnGraph, given: set<Change>, all: set<Change>, c: Change, id: string)
    requires Spreads(g, given, all) && UniqueRelations(g) && id in g.nodes
    requires c in all - given && c.Relation() == g.nodes[id].relation
    ensures id in Report(g, all).nodes
    ensures c.Rows? ==> Report(g, all).nodes[id].rowsChanged
    ensures c.Column? ==> c.column.column in Report(g, all).nodes[id].changedColumns
  {
    hide Caused;
    var e :| e in AllEffects(g, all) && e.node in g.nodes && c == Onward(g, e);
    assert e.node == id;
  }

  /** The report is right about the node: if it leaves the node out, both runs hold the same
      table, and if it leaves its rows out, the same rows and the same values in every column it
      leaves out. */
  ghost predicate Right<R(!new), V(!new)>(g: ColumnGraph, a: Env<R, V>, b: Env<R, V>, given: set<Change>,
      report: map<string, NodeImpact>, id: string)
    requires id in g.nodes
  {
    var r := g.nodes[id].relation;
    && (id !in report && (forall c :: c in given ==> c.Relation() != r) ==> SameTable(a, b, r))
    && (Rows(r) !in given && (id in report ==> !report[id].rowsChanged) ==>
        && a(r).rows == b(r).rows
        && forall x :: (id in report ==> x !in report[id].changedColumns) && !GivenColumn(given, ColumnRef(r, x)) ==>
          SameColumn(a, b, ColumnRef(r, x)))
  }

  lemma SpreadIsRight<R(!new), V(!new)>(g: ColumnGraph, sem: Semantics<R, V>, a: Env<R, V>, b: Env<R, V>,
      given: set<Change>, all: set<Change>, rank: RelationName -> nat, id: string)
    requires Compared(g, sem, a, b, given) && Spreads(g, given, all) && Acyclic(g, rank) && UniqueRelations(g) &&
        id in g.nodes
    ensures Right(g, a, b, given, Report(g, all).nodes, id)
  {
    var report, r := Report(g, all).nodes, g.nodes[id].relation;
    UncausedIsSame(g, sem, a, b, given, all, rank, r);
    hide Spreads, Compared, Report, UniqueRelations, Acyclic;
    if Rows(r) !in given && (id in report ==> !report[id].rowsChanged) {
      if Rows(r) in all { PassedIsReported(g, given, all, Rows(r), id); }
      forall x | (id in report ==> x !in report[id].changedColumns) && !GivenColumn(given, ColumnRef(r, x))
          ensures SameColumn(a, b, ColumnRef(r, x)) {
        if kind :| Column(ColumnRef(r, x), kind) in all {
          PassedIsReported(g, given, all, Column(ColumnRef(r, x), kind), id);
        }
      }
    }
    if id !in report && forall c :: c in given ==> c.Relation() != r {
      assert Rows(r).Relation() == r;
      forall x ensures a(r).column(x) == b(r).column(x) {
        assert forall kind :: Column(ColumnRef(r, x), kind).Relation() == r;
        assert SameColumn(a, b, ColumnRef(r, x));
      }
    }
  }

  /** Non-interference: on an acyclic graph with sound lineage, two runs that differ only by
      the given changes agree on every node that the worklist's report leaves out, and on every
      column it leaves out of a node whose rows it does not report, whatever the guard withheld
      on the way. */
  lemma ImpactIsComplete<R(!new), V(!new)>(g: ColumnGraph, sem: Semantics<R, V>, a: Env<R, V>, b: Env<R, V>,
      given: set<Change>, rank: RelationName -> nat, impact: Impact, id: string)
    requires Compared(g, sem, a, b, given) && Acyclic(g, rank) && UniqueRelations(g) && id in g.nodes
    requires IsImpact(g, given, impact)
    ensures Right(g, a, b, given, impact.nodes, id)
  {
    hide Compared, Follows, Report, Right, Acyclic;
    var processed :| Follows(g, given, processed) && impact == Report(g, processed);
    RunsSpread(g, given, processed);
    SpreadIsRight(g, sem, a, b, given, processed, rank, id);
  }
}
