/** Entity-relationship models: facts about keys become cardinalities, and what a cardinality
    says about rows. */
module Erd {
  import opened Prelude
  import opened Fixpoint

  datatype Basis = Inferred | Joined | Tested | Declared

  function Strength(b: Basis): nat { match b case Inferred => 0 case Joined => 1 case Tested => 2 case Declared => 3 }

  function Strongest(a: Basis, b: Basis): Basis { if Strength(a) >= Strength(b) then a else b }

  datatype Fact =
    | Unique(entity: string, columns: seq<string>, basis: Basis, evidence: string)
    | NotNull(entity: string, column: string, evidence: string)
    | PrimaryKey(entity: string, columns: seq<string>, basis: Basis, evidence: string)
    | JoinedOn(left: string, leftColumns: seq<string>, right: string, rightColumns: seq<string>, evidence: string)
    | ForeignKey(entity: string, columns: seq<string>, to: string, toColumns: seq<string>, basis: Basis,
        evidence: string)

  datatype EntityInput = EntityInput(id: string, columns: seq<string>)

  datatype Key = Key(columns: seq<string>, basis: Basis, evidence: set<string>)

  datatype EntityFacts = EntityFacts(primary: Option<Key>, unique: seq<Key>, notNull: map<string, set<string>>)

  const NoFacts := EntityFacts(None, [], map[])

  datatype Cardinality = ManyToOne | OneToOne | Unknown

  datatype Relationship = Relationship(
    from: string, fromColumns: seq<string>, to: string, toColumns: seq<string>,
    cardinality: Cardinality, optional: bool, basis: Basis, evidence: set<string>)

  datatype Join = Join(left: string, leftColumns: seq<string>, right: string, rightColumns: seq<string>,
      evidence: string)

  datatype Diagnostic =
    | NoEntity(evidence: string, entity: string)
    | NoColumn(evidence: string, entity: string, column: string)
    | CountsDiffer(evidence: string)
    | ConflictingKeys(entity: string)
    | SeveralKeys(entity: string)

  type Keyed = map<string, EntityFacts>

  function FactsOf(perEntity: Keyed, entity: string): EntityFacts {
    if entity in perEntity then perEntity[entity] else NoFacts
  }

  // ---- names ------------------------------------------------------------------------

  function Lowered(columns: seq<string>): (r: seq<string>)
    ensures |r| == |columns| && forall i :: 0 <= i < |r| ==> r[i] == Lower(columns[i])
  {
    seq(|columns|, i requires 0 <= i < |columns| => Lower(columns[i]))
  }

  /** The same columns whatever their order and case. */
  predicate SameColumns(a: seq<string>, b: seq<string>) { multiset(Lowered(a)) == multiset(Lowered(b)) }

  datatype Resolved = Columns(names: seq<string>) | Missing(why: Diagnostic)

  /** A known column in the entity's spelling. */
  function Spelled(known: seq<string>, column: string): Option<string> {
    if known == [] then None else if Lower(known[0]) == Lower(column) then Some(known[0])
        else Spelled(known[1..], column)
  }

  function SpelledAll(entity: EntityInput, columns: seq<string>, evidence: string): (r: Resolved)
    ensures r.Columns? ==> Lowered(r.names) == Lowered(columns)
  {
    if columns == [] then Columns([]) else
      var first := Spelled(entity.columns, columns[0]);
      if first.None? then Missing(NoColumn(evidence, entity.id, columns[0])) else
        SpelledIsColumn(entity.columns, columns[0]);
        var rest := SpelledAll(entity, columns[1..], evidence);
        if rest.Missing? then rest else Columns([first.value] + rest.names)
  }

  lemma {:induction false} SpelledIsColumn(known: seq<string>, column: string)
    ensures Spelled(known, column).Some? ==> Lower(Spelled(known, column).value) == Lower(column)
  {
    if known != [] { SpelledIsColumn(known[1..], column); }
  }

  /** Columns in the entity's spelling, or what is missing; an entity of unknown columns takes
      any name. */
  function Resolve(entities: map<string, EntityInput>, entity: string, columns: seq<string>,
      evidence: string): (r: Resolved)
    ensures r.Columns? ==> Lowered(r.names) == Lowered(columns)
  {
    if entity !in entities then Missing(NoEntity(evidence, entity))
    else if entities[entity].columns == [] then Columns(columns)
    else SpelledAll(entities[entity], columns, evidence)
  }

  /** Some column has this name, case aside. */
  predicate Has(known: seq<string>, column: string) { exists j :: 0 <= j < |known| && SameButCase(known[j], column) }

  /** `name` is the first column with this name, case aside, as it is spelled there. */
  ghost predicate FirstSpelling(known: seq<string>, column: string, name: string) {
    exists j: nat :: FirstAt(known, column, j) && known[j] == name
  }

  predicate FirstAt(known: seq<string>, column: string, j: nat) {
    j < |known| && SameButCase(known[j], column) && forall i :: 0 <= i < j ==> !SameButCase(known[i], column)
  }

  /** The entity is there, and has all these columns or none that are known. */
  predicate Named(entities: map<string, EntityInput>, entity: string, columns: seq<string>) {
    && entity in entities
    && (entities[entity].columns == [] || forall i :: 0 <= i < |columns| ==> Has(entities[entity].columns, columns[i]))
  }

  /** The columns in the entity's spelling. */
  ghost predicate Spelling(entities: map<string, EntityInput>, entity: string, columns: seq<string>,
      names: seq<string>) {
    && Named(entities, entity, columns) && |names| == |columns|
    && if entities[entity].columns == [] then names == columns
       else forall i :: 0 <= i < |names| ==> FirstSpelling(entities[entity].columns, columns[i], names[i])
  }

  /** What is missing: the entity, or the first column it does not have. */
  ghost predicate Unnamed(entities: map<string, EntityInput>, entity: string, columns: seq<string>, evidence: string,
      d: Diagnostic) {
    if entity !in entities then d == NoEntity(evidence, entity)
    else entities[entity].columns != [] && exists i: nat ::
      FirstUnnamed(entities[entity].columns, columns, i) && d == NoColumn(evidence, entities[entity].id, columns[i])
  }

  predicate FirstUnnamed(known: seq<string>, columns: seq<string>, i: nat) {
    i < |columns| && !Has(known, columns[i]) && forall j :: 0 <= j < i ==> Has(known, columns[j])
  }

  lemma {:induction false} SpelledIsFirst(known: seq<string>, column: string)
    ensures Spelled(known, column).Some? <==> Has(known, column)
    ensures forall name :: FirstSpelling(known, column, name) <==> Spelled(known, column) == Some(name)
  {
    if known != [] {
      LowerMeans(known[0], column);
      SpelledIsFirst(known[1..], column);
      SpellingStep(known, column);
    }
  }

  lemma SpellingStep(known: seq<string>, column: string)
    requires known != []
    ensures Has(known, column) <==> SameButCase(known[0], column) || Has(known[1..], column)
    ensures forall name :: FirstSpelling(known, column, name) <==>
      if SameButCase(known[0], column) then name == known[0] else FirstSpelling(known[1..], column, name)
  {
    hide SameButCase;
    forall name ensures FirstSpelling(known, column, name) <==>
      if SameButCase(known[0], column) then name == known[0] else FirstSpelling(known[1..], column, name)
    {
      if SameButCase(known[0], column) {
        assert FirstAt(known, column, 0);
      } else {
        if j: nat :| FirstAt(known, column, j) && known[j] == name { assert FirstAt(known[1..], column, j - 1); }
        if j: nat :| FirstAt(known[1..], column, j) && known[1..][j] == name { assert FirstAt(known, column, j + 1); }
      }
    }
  }

  lemma {:induction false} SpelledAllExactly(entity: EntityInput, columns: seq<string>, evidence: string)
    ensures var r := SpelledAll(entity, columns, evidence);
      && (r.Columns? ==> |r.names| == |columns|)
      && (r.Columns? ==> forall i :: 0 <= i < |columns| ==> FirstSpelling(entity.columns, columns[i], r.names[i]))
      && (r.Missing? ==> exists i: nat ::
            FirstUnnamed(entity.columns, columns, i) && r.why == NoColumn(evidence, entity.id, columns[i]))
  {
    hide Has, FirstSpelling;
    if columns != [] {
      SpelledIsFirst(entity.columns, columns[0]);
      SpelledAllExactly(entity, columns[1..], evidence);
      var first, rest := Spelled(entity.columns, columns[0]), SpelledAll(entity, columns[1..], evidence);
      if first.None? {
        assert FirstUnnamed(entity.columns, columns, 0);
      } else if rest.Missing? {
        var i: nat :| FirstUnnamed(entity.columns, columns[1..], i) &&
          rest.why == NoColumn(evidence, entity.id, columns[1..][i]);
        assert FirstUnnamed(entity.columns, columns, i + 1);
      }
    }
  }

  lemma SpellingIsUnique(entities: map<string, EntityInput>, entity: string, columns: seq<string>,
      a: seq<string>, b: seq<string>)
    requires Spelling(entities, entity, columns, a) && Spelling(entities, entity, columns, b)
    ensures a == b
  {
    hide SameButCase, FirstSpelling;
    forall i | 0 <= i < |a| ensures a[i] == b[i] {
      if entities[entity].columns != [] { SpelledIsFirst(entities[entity].columns, columns[i]); }
    }
  }

  /** Names are resolved exactly when they are there, to the entity's own spelling; otherwise the
      first thing missing is reported. */
  lemma ResolvesExactly(entities: map<string, EntityInput>, entity: string, columns: seq<string>, evidence: string)
    ensures var r := Resolve(entities, entity, columns, evidence);
      && (r.Columns? <==> Named(entities, entity, columns))
      && (r.Columns? ==> forall names :: Spelling(entities, entity, columns, names) <==> names == r.names)
      && (r.Missing? ==> Unnamed(entities, entity, columns, evidence, r.why))
  {
    hide Has, FirstSpelling, Lowered;
    if entity in entities && entities[entity].columns != [] {
      SpelledAllExactly(entities[entity], columns, evidence);
      var r := Resolve(entities, entity, columns, evidence);
      if r.Columns? {
        forall i | 0 <= i < |columns| ensures Has(entities[entity].columns, columns[i]) {
          SpelledIsFirst(entities[entity].columns, columns[i]);
        }
        forall names | Spelling(entities, entity, columns, names) ensures names == r.names {
          SpellingIsUnique(entities, entity, columns, names, r.names);
        }
      }
    }
  }

  // ---- keys -------------------------------------------------------------------------

  predicate TrustedKey(key: Key, columns: seq<string>) { key.basis != Inferred && SameColumns(key.columns, columns) }

  /** The columns are a declared or tested key, primary or unique; guessed keys never count. */
  predicate HasTrustedKey(f: EntityFacts, columns: seq<string>) {
    || (f.primary.Some? && TrustedKey(f.primary.value, columns))
    || exists k :: k in f.unique && TrustedKey(k, columns)
  }

  predicate IsKey(perEntity: Keyed, entity: string, columns: seq<string>) {
    entity in perEntity && HasTrustedKey(perEntity[entity], columns)
  }

  predicate TrustedNotNull(f: EntityFacts, column: string) {
    column in f.notNull || (f.primary.Some? && f.primary.value.basis != Inferred && column in f.primary.value.columns)
  }

  function Stronger(key: Key, basis: Basis, evidence: string): Key {
    key.(basis := Strongest(key.basis, basis), evidence := key.evidence + {evidence})
  }

  /** Merges evidence for the same key, keeping the strongest basis. */
  method AddKey(keys: seq<Key>, columns: seq<string>, basis: Basis, evidence: string) returns (r: seq<Key>)
    ensures IsAdded(keys, columns, basis, evidence, r)
  {
    var i := 0;
    while i < |keys| && multiset(keys[i].columns) != multiset(columns)
      invariant 0 <= i <= |keys| && forall j :: 0 <= j < i ==> multiset(keys[j].columns) != multiset(columns)
      decreases |keys| - i
    {
      i := i + 1;
    }
    if i < |keys| {
      r := keys[i := Stronger(keys[i], basis, evidence)];
      assert AddedAt(keys, columns, basis, evidence, i, r);
    } else {
      r := keys + [Key(columns, basis, {evidence})];
    }
  }

  ghost predicate AddedAt(keys: seq<Key>, columns: seq<string>, basis: Basis, evidence: string, i: nat, r: seq<Key>) {
    i < |keys| && multiset(keys[i].columns) == multiset(columns) && r == keys[i := Stronger(keys[i], basis, evidence)]
  }

  /** The first key on these columns gained the evidence, or a new key did. */
  ghost predicate IsAdded(keys: seq<Key>, columns: seq<string>, basis: Basis, evidence: string, r: seq<Key>) {
    || (exists i ::
        AddedAt(keys, columns, basis, evidence, i, r) &&
        forall j :: 0 <= j < i ==> multiset(keys[j].columns) != multiset(columns))
    || ((forall i :: 0 <= i < |keys| ==> multiset(keys[i].columns) != multiset(columns)) &&
        r == keys + [Key(columns, basis, {evidence})])
  }

  /** Some key on these columns is at least this strong and has this evidence. */
  ghost predicate Evidenced(keys: seq<Key>, columns: seq<string>, basis: Basis, evidence: string) {
    exists k :: k in keys && multiset(k.columns) == multiset(columns) && evidence in k.evidence &&
        Strength(k.basis) >= Strength(basis)
  }

  /** Adding a key shows it with its evidence, loses no evidence and no strength, and invents none. */
  lemma AddingLosesNothing(keys: seq<Key>, columns: seq<string>, basis: Basis, evidence: string, r: seq<Key>)
    requires IsAdded(keys, columns, basis, evidence, r)
    ensures Evidenced(r, columns, basis, evidence)
    ensures forall k, e :: k in keys && e in k.evidence ==> Evidenced(r, k.columns, k.basis, e)
    ensures forall k, e :: k in r && e in k.evidence ==>
      e == evidence || exists old' :: old' in keys && old'.columns == k.columns && e in old'.evidence
    ensures forall k :: k in r ==> k.basis == basis || exists old' :: old' in keys && old'.basis == k.basis
  {
    if i: nat :| AddedAt(keys, columns, basis, evidence, i, r) {
      assert r[i] == Stronger(keys[i], basis, evidence);
      assert r[i] in r && evidence in r[i].evidence;
      forall k, e | k in keys && e in k.evidence ensures Evidenced(r, k.columns, k.basis, e) {
        var j :| 0 <= j < |keys| && keys[j] == k;
        assert r[j] in r && e in r[j].evidence;
      }
      forall k | k in r ensures k.basis == basis || exists old' :: old' in keys && old'.basis == k.basis {
        var j :| 0 <= j < |r| && r[j] == k;
        assert keys[j] in keys;
      }
      forall k, e | k in r && e in k.evidence && e != evidence
        ensures exists old' :: old' in keys && old'.columns == k.columns && e in old'.evidence
      {
        var j :| 0 <= j < |r| && r[j] == k;
        assert keys[j] in keys && keys[j].columns == k.columns && e in keys[j].evidence;
      }
    } else {
      var added := Key(columns, basis, {evidence});
      assert r == keys + [added];
      assert added in r;
      forall k, e | k in keys && e in k.evidence ensures Evidenced(r, k.columns, k.basis, e) { assert k in r; }
    }
  }

  // ---- what one fact asks for -------------------------------------------------------

  datatype State = State(perEntity: Keyed, foreign: seq<Relationship>, joins: seq<Join>, diagnostics: set<Diagnostic>)
  {
    function Report(d: Diagnostic): State { this.(diagnostics := diagnostics + {d}) }

    function Update(entity: string, f: EntityFacts): State { this.(perEntity := perEntity[entity := f]) }
  }

  /** Everything the fact names is there. */
  predicate NamesKnown(entities: map<string, EntityInput>, fact: Fact) {
    match fact
    case Unique(e, columns, _, _) => Named(entities, e, columns)
    case NotNull(e, column, _) => Named(entities, e, [column])
    case PrimaryKey(e, columns, _, _) => Named(entities, e, columns)
    case JoinedOn(a, x, b, y, _) => Named(entities, a, x) && Named(entities, b, y)
    case ForeignKey(a, x, b, y, _, _) => Named(entities, a, x) && Named(entities, b, y)
  }

  /** `d` is the first thing missing of what the fact names. */
  ghost predicate Complains(entities: map<string, EntityInput>, fact: Fact, d: Diagnostic) {
    match fact
    case Unique(e, columns, _, why) => Lacks(entities, e, columns, why, d)
    case NotNull(e, column, why) => Lacks(entities, e, [column], why, d)
    case PrimaryKey(e, columns, _, why) => Lacks(entities, e, columns, why, d)
    case JoinedOn(a, x, b, y, why) =>
      if !Named(entities, a, x) then Lacks(entities, a, x, why, d) else Lacks(entities, b, y, why, d)
    case ForeignKey(a, x, b, y, _, why) =>
      if !Named(entities, a, x) then Lacks(entities, a, x, why, d) else Lacks(entities, b, y, why, d)
  }

  ghost predicate Lacks(entities: map<string, EntityInput>, entity: string, columns: seq<string>, evidence: string,
      d: Diagnostic) {
    !Named(entities, entity, columns) && Unnamed(entities, entity, columns, evidence, d)
  }

  /** The relationship a foreign key states, in the entities' spelling. */
  ghost predicate States(entities: map<string, EntityInput>, fact: Fact, rel: Relationship) {
    && fact.ForeignKey? && |fact.columns| == |fact.toColumns|
    && Spelling(entities, fact.entity, fact.columns, rel.fromColumns)
    && Spelling(entities, fact.to, fact.toColumns, rel.toColumns)
    && rel == Relationship(fact.entity, rel.fromColumns, fact.to, rel.toColumns, ManyToOne, true, fact.basis,
                           {fact.evidence})
  }

  ghost predicate StatesJoin(entities: map<string, EntityInput>, fact: Fact, join: Join) {
    && fact.JoinedOn? && fact.left != fact.right && |fact.leftColumns| == |fact.rightColumns|
    && Spelling(entities, fact.left, fact.leftColumns, join.leftColumns)
    && Spelling(entities, fact.right, fact.rightColumns, join.rightColumns)
    && join == Join(fact.left, join.leftColumns, fact.right, join.rightColumns, fact.evidence)
  }

  /** The fact says that these columns, in the entity's spelling, are its primary key. */
  ghost predicate StatesPrimary(entities: map<string, EntityInput>, fact: Fact, entity: string, names: seq<string>) {
    fact.PrimaryKey? && fact.entity == entity && Spelling(entities, entity, fact.columns, names)
  }

  /** Some fact is the reason for the diagnostic. */
  ghost predicate Warranted(entities: map<string, EntityInput>, facts: set<Fact>, d: Diagnostic) {
    match d
    case NoEntity(_, _) => exists f :: f in facts && Complains(entities, f, d)
    case NoColumn(_, _, _) => exists f :: f in facts && Complains(entities, f, d)
    case CountsDiffer(why) => exists f :: f in facts && CountsApart(entities, f, why)
    case ConflictingKeys(e) => exists f, g, x, y :: f in facts && g in facts && PrimariesApart(entities, f, g, e, x, y)
    case SeveralKeys(_) => false
  }

  predicate CountsApart(entities: map<string, EntityInput>, f: Fact, why: string) {
    f.ForeignKey? && NamesKnown(entities, f) && |f.columns| != |f.toColumns| && f.evidence == why
  }

  ghost predicate PrimariesApart(entities: map<string, EntityInput>, f: Fact, g: Fact, e: string,
      x: seq<string>, y: seq<string>) {
    StatesPrimary(entities, f, e, x) && StatesPrimary(entities, g, e, y) && multiset(x) != multiset(y)
  }

  /** A declared or tested fact says these columns are a key of the entity. */
  predicate StatesKey(fact: Fact, entity: string, columns: seq<string>) {
    (fact.Unique? || fact.PrimaryKey?) && fact.entity == entity && fact.basis != Inferred &&
        SameColumns(fact.columns, columns)
  }

  ghost predicate Backed(facts: set<Fact>, entity: string, key: Key) {
    key.basis != Inferred ==> exists f :: f in facts && StatesKey(f, entity, key.columns)
  }

  ghost predicate AllBacked(facts: set<Fact>, entity: string, f: EntityFacts) {
    (f.primary.Some? ==> Backed(facts, entity, f.primary.value)) &&
        forall i :: 0 <= i < |f.unique| ==> Backed(facts, entity, f.unique[i])
  }

  predicate HasTrustedUnique(keys: seq<Key>, columns: seq<string>) { exists k :: k in keys && TrustedKey(k, columns) }

  /** What became of a fact: what it names that does not exist was reported, and otherwise it
      took effect. */
  ghost predicate Recorded(entities: map<string, EntityInput>, st: State, fact: Fact) {
    if !NamesKnown(entities, fact) then exists d :: d in st.diagnostics && Complains(entities, fact, d)
    else match fact
      case Unique(e, columns, basis, _) =>
          basis != Inferred ==> HasTrustedUnique(FactsOf(st.perEntity, e).unique, columns)
      case PrimaryKey(e, columns, basis, _) =>
        var primary := FactsOf(st.perEntity, e).primary;
        && primary.Some? && Strength(primary.value.basis) >= Strength(basis)
        && (SameColumns(primary.value.columns, columns) || ConflictingKeys(e) in st.diagnostics)
      case NotNull(e, column, why) =>
        exists name :: Spelling(entities, e, [column], [name]) && SaysNotNull(FactsOf(st.perEntity, e), name, why)
      case JoinedOn(_, _, _, _, _) => forall j :: StatesJoin(entities, fact, j) ==> j in st.joins
      case ForeignKey(_, _, _, _, _, why) =>
        if |fact.columns| == |fact.toColumns| then exists rel :: States(entities, fact, rel) && rel in st.foreign
        else CountsDiffer(why) in st.diagnostics
  }

  predicate SaysNotNull(f: EntityFacts, name: string, why: string) { name in f.notNull && why in f.notNull[name] }

  ghost predicate PrimaryStated(entities: map<string, EntityInput>, facts: set<Fact>, entity: string, f: EntityFacts) {
    f.primary.Some? ==> exists g :: g in facts && StatesPrimary(entities, g, entity, f.primary.value.columns)
  }

  /** Nothing is recorded that no fact says, and nothing reported that no fact warrants. */
  ghost predicate Grounded(entities: map<string, EntityInput>, seen: set<Fact>, st: State) {
    && (forall e :: e in st.perEntity ==> AllBacked(seen, e, st.perEntity[e]))
    && (forall e :: e in st.perEntity ==> PrimaryStated(entities, seen, e, st.perEntity[e]))
    && (forall rel :: rel in st.foreign ==> exists f :: f in seen && States(entities, f, rel))
    && (forall j :: j in st.joins ==> exists f :: f in seen && StatesJoin(entities, f, j))
    && (forall d :: d in st.diagnostics ==> Warranted(entities, seen, d))
  }

  ghost predicate Sound(entities: map<string, EntityInput>, seen: set<Fact>, st: State) {
    Grounded(entities, seen, st) && forall f :: f in seen ==> Recorded(entities, st, f)
  }

  /** Facts about an entity only add up: a primary key gives way only to a stronger one, and the
      conflict is reported. */
  ghost predicate Keeps(f: EntityFacts, g: EntityFacts, conflict: bool) {
    && (forall columns :: HasTrustedUnique(f.unique, columns) ==> HasTrustedUnique(g.unique, columns))
    && (forall c :: c in f.notNull ==> c in g.notNull && f.notNull[c] <= g.notNull[c])
    && (f.primary.Some? ==>
          && g.primary.Some? && Strength(g.primary.value.basis) >= Strength(f.primary.value.basis)
          && (g.primary.value.columns == f.primary.value.columns
              || (conflict && Strength(g.primary.value.basis) > Strength(f.primary.value.basis))))
  }

  ghost predicate Later(st: State, r: State) {
    && st.diagnostics <= r.diagnostics && st.foreign <= r.foreign && st.joins <= r.joins
    && forall e :: Keeps(FactsOf(st.perEntity, e), FactsOf(r.perEntity, e), ConflictingKeys(e) in r.diagnostics)
  }

  lemma RecordedStays(entities: map<string, EntityInput>, st: State, r: State, fact: Fact)
    requires Later(st, r) && Recorded(entities, st, fact)
    ensures Recorded(entities, r, fact)
  {
    hide Complains, NamesKnown, SameColumns, Spelling, States, StatesJoin;
    if NamesKnown(entities, fact) {
      match fact {
        case Unique(e, _, _, _) =>
            assert Keeps(FactsOf(st.perEntity, e), FactsOf(r.perEntity, e), ConflictingKeys(e) in r.diagnostics);
        case PrimaryKey(e, _, _, _) =>
            assert Keeps(FactsOf(st.perEntity, e), FactsOf(r.perEntity, e), ConflictingKeys(e) in r.diagnostics);
        case NotNull(e, _, _) =>
            assert Keeps(FactsOf(st.perEntity, e), FactsOf(r.perEntity, e), ConflictingKeys(e) in r.diagnostics);
        case JoinedOn(_, _, _, _, _) =>
        case ForeignKey(_, _, _, _, _, _) =>
      }
    }
  }

  lemma BackedMore(seen: set<Fact>, fact: Fact, entity: string, f: EntityFacts)
    requires AllBacked(seen, entity, f)
    ensures AllBacked(seen + {fact}, entity, f)
  {
    hide StatesKey;
  }

  lemma PrimaryMore(entities: map<string, EntityInput>, seen: set<Fact>, fact: Fact, entity: string, f: EntityFacts)
    requires PrimaryStated(entities, seen, entity, f)
    ensures PrimaryStated(entities, seen + {fact}, entity, f)
  {
    hide StatesPrimary;
  }

  lemma WarrantedMore(entities: map<string, EntityInput>, seen: set<Fact>, fact: Fact, d: Diagnostic)
    requires Warranted(entities, seen, d)
    ensures Warranted(entities, seen + {fact}, d)
  {
    hide Complains, CountsApart, PrimariesApart;
    if d.ConflictingKeys? {
      var f, g, x, y :| f in seen && g in seen && PrimariesApart(entities, f, g, d.entity, x, y);
      assert f in seen + {fact} && g in seen + {fact};
    }
  }

  lemma GroundedMore(entities: map<string, EntityInput>, seen: set<Fact>, fact: Fact, st: State)
    requires Grounded(entities, seen, st)
    ensures Grounded(entities, seen + {fact}, st)
  {
    hide States, StatesJoin, AllBacked, PrimaryStated, Warranted;
    forall e | e in st.perEntity
      ensures AllBacked(seen + {fact}, e, st.perEntity[e]) && PrimaryStated(entities, seen + {fact}, e, st.perEntity[e])
    {
      BackedMore(seen, fact, e, st.perEntity[e]);
      PrimaryMore(entities, seen, fact, e, st.perEntity[e]);
    }
    forall d | d in st.diagnostics ensures Warranted(entities, seen + {fact}, d) {
      WarrantedMore(entities, seen, fact, d);
    }
  }

  lemma Without(s: seq<string>, i: nat)
    requires i < |s|
    ensures multiset(s) == multiset(s[..i] + s[i + 1..]) + multiset{s[i]}
  {
    assert s == s[..i] + [s[i]] + s[i + 1..];
  }

  function Drop(s: seq<string>, i: nat): seq<string>
    requires i < |s|
  {
    s[..i] + s[i + 1..]
  }

  lemma LoweredWithout(s: seq<string>, i: nat)
    requires i < |s|
    ensures multiset(Lowered(s)) == multiset(Lowered(Drop(s, i))) + multiset{Lower(s[i])}
  {
    Without(Lowered(s), i);
    assert Lowered(s)[..i] + Lowered(s)[i + 1..] == Lowered(Drop(s, i));
  }

  lemma Cancel(a: multiset<string>, b: multiset<string>, x: string)
    requires a + multiset{x} == b + multiset{x}
    ensures a == b
  {
    assert a == (a + multiset{x}) - multiset{x} && b == (b + multiset{x}) - multiset{x};
  }

  /** The same columns in another order are the same columns lower-cased. */
  lemma {:induction false} LoweredMultiset(a: seq<string>, b: seq<string>)
    requires multiset(a) == multiset(b)
    ensures multiset(Lowered(a)) == multiset(Lowered(b))
    decreases |a|
  {
    if a == [] {
      assert |multiset(b)| == |b|;
    } else {
      assert a[0] in multiset(b);
      var i :| 0 <= i < |b| && b[i] == a[0];
      Without(a, 0);
      Without(b, i);
      Cancel(multiset(Drop(a, 0)), multiset(Drop(b, i)), a[0]);
      LoweredMultiset(Drop(a, 0), Drop(b, i));
      LoweredWithout(a, 0);
      LoweredWithout(b, i);
    }
  }

  lemma SameColumnsBack(a: seq<string>, b: seq<string>, c: seq<string>)
    requires Lowered(a) == Lowered(c) && multiset(a) == multiset(b)
    ensures SameColumns(c, b)
  {
    LoweredMultiset(a, b);
  }

  /** An added key is backed by the fact that added it, is trusted if the fact is, and takes
      no key away. */
  lemma AddedKeyIsBacked(seen: set<Fact>, fact: Fact, keys: seq<Key>, names: seq<string>, r: seq<Key>)
    requires (fact.Unique? || fact.PrimaryKey?) && Lowered(names) == Lowered(fact.columns)
    requires IsAdded(keys, names, fact.basis, fact.evidence, r)
    requires forall i :: 0 <= i < |keys| ==> Backed(seen, fact.entity, keys[i])
    ensures forall i :: 0 <= i < |r| ==> Backed(seen + {fact}, fact.entity, r[i])
  {
    hide SameColumns, Lowered;
    forall i | 0 <= i < |r| ensures Backed(seen + {fact}, fact.entity, r[i]) {
      if i < |keys| && r[i] == keys[i] {
        assert Backed(seen, fact.entity, keys[i]);
      } else if r[i].basis != Inferred {
        assert multiset(r[i].columns) == multiset(names);
        SameColumnsBack(names, r[i].columns, fact.columns);
        if fact.basis != Inferred {
          assert StatesKey(fact, fact.entity, r[i].columns);
        } else {
          assert Backed(seen, fact.entity, keys[i]);
        }
      }
    }
  }

  lemma AddedKeyIsThere(fact: Fact, keys: seq<Key>, names: seq<string>, r: seq<Key>) returns (i: nat)
    requires (fact.Unique? || fact.PrimaryKey?) && Lowered(names) == Lowered(fact.columns)
    requires IsAdded(keys, names, fact.basis, fact.evidence, r)
    ensures i < |r| && SameColumns(r[i].columns, fact.columns) && Strength(r[i].basis) >= Strength(fact.basis)
    ensures fact.basis != Inferred ==> HasTrustedUnique(r, fact.columns)
  {
    hide SameColumns, Lowered;
    i := |keys|;
    if j :| AddedAt(keys, names, fact.basis, fact.evidence, j, r) { i := j; }
    SameColumnsBack(names, r[i].columns, fact.columns);
    SameColumnsFlip(fact.columns, r[i].columns);
    assert r[i] in r;
  }

  lemma SameColumnsFlip(a: seq<string>, b: seq<string>)
    requires SameColumns(a, b)
    ensures SameColumns(b, a)
  {
  }

  lemma AddedKeyKeeps(keys: seq<Key>, names: seq<string>, basis: Basis, evidence: string, r: seq<Key>,
      columns: seq<string>)
    requires IsAdded(keys, names, basis, evidence, r) && HasTrustedUnique(keys, columns)
    ensures HasTrustedUnique(r, columns)
  {
    hide SameColumns;
    var k :| k in keys && TrustedKey(k, columns);
    var i :| 0 <= i < |keys| && keys[i] == k;
    assert r[i] in r && r[i].columns == k.columns && r[i].basis != Inferred;
  }

  // ---- applying facts ---------------------------------------------------------------

  lemma Reported(entities: map<string, EntityInput>, fact: Fact, st: State, seen: set<Fact>, d: Diagnostic)
    requires Grounded(entities, seen, st) && Warranted(entities, seen + {fact}, d)
    ensures Grounded(entities, seen + {fact}, st.Report(d)) && Later(st, st.Report(d))
  {
    hide AllBacked, PrimaryStated, Warranted, States, StatesJoin;
    GroundedMore(entities, seen, fact, st);
    KeepsItself();
  }

  /** What the fact names that is missing is reported. */
  lemma Complained(entities: map<string, EntityInput>, fact: Fact, st: State, seen: set<Fact>, d: Diagnostic)
    requires Grounded(entities, seen, st) && Complains(entities, fact, d) && !NamesKnown(entities, fact)
    ensures Applied(entities, fact, st, seen, st.Report(d))
  {
    assert Warranted(entities, seen + {fact}, d) by {
      ComplaintKind(entities, fact, d);
      assert fact in seen + {fact};
    }
    hide Grounded, Warranted, Later, NamesKnown, Complains;
    Reported(entities, fact, st, seen, d);
  }

  lemma ComplaintKind(entities: map<string, EntityInput>, fact: Fact, d: Diagnostic)
    requires Complains(entities, fact, d)
    ensures d.NoEntity? || d.NoColumn?
  {
    hide Named;
  }

  /** What applying one fact guarantees. */
  ghost predicate Applied(entities: map<string, EntityInput>, fact: Fact, st: State, seen: set<Fact>, r: State) {
    Later(st, r) && Recorded(entities, r, fact) && Grounded(entities, seen + {fact}, r)
  }

  lemma Updated(entities: map<string, EntityInput>, fact: Fact, st: State, seen: set<Fact>, entity: string,
      f: EntityFacts, more: set<Diagnostic>, r: State)
    requires Grounded(entities, seen, st) && AllBacked(seen + {fact}, entity, f)
    requires r == st.(perEntity := st.perEntity[entity := f], diagnostics := st.diagnostics + more)
    requires Keeps(FactsOf(st.perEntity, entity), f, ConflictingKeys(entity) in r.diagnostics)
    requires PrimaryStated(entities, seen + {fact}, entity, f)
    requires forall d :: d in more ==> Warranted(entities, seen + {fact}, d)
    ensures Later(st, r) && Grounded(entities, seen + {fact}, r)
  {
    hide AllBacked, PrimaryStated, Warranted, States, StatesJoin;
    GroundedMore(entities, seen, fact, st);
  }

  lemma FactsAreBacked(entities: map<string, EntityInput>, seen: set<Fact>, st: State, entity: string)
    requires Grounded(entities, seen, st)
    ensures AllBacked(seen, entity, FactsOf(st.perEntity, entity))
    ensures PrimaryStated(entities, seen, entity, FactsOf(st.perEntity, entity))
  {
    hide Backed, StatesPrimary, Warranted, States, StatesJoin;
  }

  /** What naming nothing unknown, or something unknown, comes to. */
  lemma OneResolved(entities: map<string, EntityInput>, fact: Fact, entity: string, columns: seq<string>)
    requires fact.Unique? || fact.PrimaryKey? || fact.NotNull?
    requires entity == fact.entity && columns == if fact.NotNull? then [fact.column] else fact.columns
    ensures var r := Resolve(entities, entity, columns, fact.evidence);
      && (r.Columns? ==> NamesKnown(entities, fact) && Spelling(entities, entity, columns, r.names))
      && (r.Missing? ==> !NamesKnown(entities, fact) && Complains(entities, fact, r.why))
  {
    ResolvesExactly(entities, entity, columns, fact.evidence);
    hide Named, Unnamed, Spelling, Resolve;
  }

  method ApplyUnique(entities: map<string, EntityInput>, fact: Fact, st: State, ghost seen: set<Fact>)
      returns (r: State)
    requires Grounded(entities, seen, st) && fact.Unique?
    ensures Applied(entities, fact, st, seen, r)
  {
    hide IsAdded, AllBacked, States, StatesJoin, Grounded, Later, SameColumns, HasTrustedUnique, TrustedKey, Resolve;
    hide NamesKnown, Complains, Spelling, PrimaryStated, Warranted, Applied;
    var names := Resolve(entities, fact.entity, fact.columns, fact.evidence);
    OneResolved(entities, fact, fact.entity, fact.columns);
    if names.Missing? {
      Complained(entities, fact, st, seen, names.why);
      return st.Report(names.why);
    }
    var facts := FactsOf(st.perEntity, fact.entity);
    FactsAreBacked(entities, seen, st, fact.entity);
    PrimaryMore(entities, seen, fact, fact.entity, facts);
    SamePrimary(entities, seen + {fact}, fact.entity, facts);
    var keys := AddKey(facts.unique, names.names, fact.basis, fact.evidence);
    r := st.Update(fact.entity, facts.(unique := keys));
    UniqueAdded(entities, seen, fact, st, names.names, facts.(unique := keys));
    Updated(entities, fact, st, seen, fact.entity, facts.(unique := keys), {}, r);
    var i := AddedKeyIsThere(fact, facts.unique, names.names, keys);
    assert Applied(entities, fact, st, seen, r) by { UniqueApplied(entities, fact, st, seen, r); }
  }

  lemma SamePrimary(entities: map<string, EntityInput>, facts: set<Fact>, entity: string, f: EntityFacts)
    requires PrimaryStated(entities, facts, entity, f)
    ensures forall g: EntityFacts :: g.primary == f.primary ==> PrimaryStated(entities, facts, entity, g)
  {
    hide StatesPrimary;
  }

  lemma UniqueApplied(entities: map<string, EntityInput>, fact: Fact, st: State, seen: set<Fact>, r: State)
    requires Later(st, r) && Grounded(entities, seen + {fact}, r) && fact.Unique? && NamesKnown(entities, fact)
    requires fact.basis != Inferred ==> HasTrustedUnique(FactsOf(r.perEntity, fact.entity).unique, fact.columns)
    ensures Applied(entities, fact, st, seen, r)
  {
    hide Later, Grounded, HasTrustedUnique, NamesKnown;
  }

  lemma UniqueAdded(entities: map<string, EntityInput>, seen: set<Fact>, fact: Fact, st: State, names: seq<string>,
      after: EntityFacts)
    requires Grounded(entities, seen, st) && fact.Unique? && Lowered(names) == Lowered(fact.columns)
    requires after == FactsOf(st.perEntity, fact.entity).(unique := after.unique)
    requires IsAdded(FactsOf(st.perEntity, fact.entity).unique, names, fact.basis, fact.evidence, after.unique)
    ensures AllBacked(seen + {fact}, fact.entity, after)
    ensures Keeps(FactsOf(st.perEntity, fact.entity), after, ConflictingKeys(fact.entity) in st.diagnostics)
  {
    hide Backed, Grounded, IsAdded, HasTrustedUnique, Lowered;
    var before := FactsOf(st.perEntity, fact.entity);
    FactsAreBacked(entities, seen, st, fact.entity);
    BackedMore(seen, fact, fact.entity, before);
    AddedKeyIsBacked(seen, fact, before.unique, names, after.unique);
    forall columns | HasTrustedUnique(before.unique, columns) ensures HasTrustedUnique(after.unique, columns) {
      AddedKeyKeeps(before.unique, names, fact.basis, fact.evidence, after.unique, columns);
    }
  }

  method ApplyPrimary(entities: map<string, EntityInput>, fact: Fact, st: State, ghost seen: set<Fact>)
      returns (r: State)
    requires Grounded(entities, seen, st) && fact.PrimaryKey?
    ensures Applied(entities, fact, st, seen, r)
  {
    hide AllBacked, States, StatesJoin, Grounded, Later, SameColumns, HasTrustedUnique, TrustedKey, Resolve;
    hide NamesKnown, Complains, Spelling, PrimaryStated, Warranted, Applied;
    var names := Resolve(entities, fact.entity, fact.columns, fact.evidence);
    OneResolved(entities, fact, fact.entity, fact.columns);
    if names.Missing? {
      Complained(entities, fact, st, seen, names.why);
      return st.Report(names.why);
    }
    var facts := FactsOf(st.perEntity, fact.entity);
    var before := if facts.primary.Some? then [facts.primary.value] else [];
    var keys := AddKey(before, names.names, fact.basis, fact.evidence);
    // Two different primary keys: the stronger is kept, the earlier if they are as strong.
    var kept := if |keys| > 1 && Strength(keys[1].basis) > Strength(keys[0].basis) then keys[1] else keys[0];
    var more := if |keys| > 1 then {ConflictingKeys(fact.entity)} else {};
    r := st.(perEntity := st.perEntity[fact.entity := facts.(primary := Some(kept))],
        diagnostics := st.diagnostics + more);
    PrimaryAdded(entities, seen, fact, st, names.names, keys, kept);
    PrimaryWarranted(entities, seen, fact, st, names.names, keys, kept);
    Updated(entities, fact, st, seen, fact.entity, facts.(primary := Some(kept)), more, r);
    PrimaryApplied(entities, fact, st, seen, r, kept);
  }

  lemma PrimaryApplied(entities: map<string, EntityInput>, fact: Fact, st: State, seen: set<Fact>, r: State, kept: Key)
    requires Later(st, r) && Grounded(entities, seen + {fact}, r) && fact.PrimaryKey? && NamesKnown(entities, fact)
    requires FactsOf(r.perEntity, fact.entity).primary == Some(kept) && Strength(kept.basis) >= Strength(fact.basis)
    requires SameColumns(kept.columns, fact.columns) || ConflictingKeys(fact.entity) in r.diagnostics
    ensures Applied(entities, fact, st, seen, r)
  {
    hide Later, Grounded, SameColumns, NamesKnown;
  }

  /** A conflict is reported only between two facts that state different primary keys, and the key
      that is kept was stated. */
  lemma PrimaryWarranted(entities: map<string, EntityInput>, seen: set<Fact>, fact: Fact, st: State,
      names: seq<string>, keys: seq<Key>, kept: Key)
    requires Grounded(entities, seen, st) && fact.PrimaryKey?
    requires Spelling(entities, fact.entity, fact.columns, names)
    requires var p := FactsOf(st.perEntity, fact.entity).primary;
             IsAdded(if p.Some? then [p.value] else [], names, fact.basis, fact.evidence, keys)
    requires kept in keys
    ensures |keys| > 1 ==> Warranted(entities, seen + {fact}, ConflictingKeys(fact.entity))
    ensures forall f: EntityFacts :: f.primary == Some(kept) ==> PrimaryStated(entities, seen + {fact}, fact.entity, f)
  {
    var p := FactsOf(st.perEntity, fact.entity).primary;
    FactsAreBacked(entities, seen, st, fact.entity);
    hide Grounded, Spelling;
    assert StatesPrimary(entities, fact, fact.entity, names) && fact in seen + {fact};
    if p.Some? {
      var g :| g in seen && StatesPrimary(entities, g, fact.entity, p.value.columns);
      assert g in seen + {fact};
      if |keys| > 1 {
        assert [p.value][0] == p.value && multiset([p.value][0].columns) != multiset(names);
        assert PrimariesApart(entities, g, fact, fact.entity, p.value.columns, names);
      }
    }
  }

  lemma PrimaryAdded(entities: map<string, EntityInput>, seen: set<Fact>, fact: Fact, st: State, names: seq<string>,
      keys: seq<Key>, kept: Key)
    requires Grounded(entities, seen, st) && fact.PrimaryKey? && Lowered(names) == Lowered(fact.columns)
    requires var p := FactsOf(st.perEntity, fact.entity).primary;
             IsAdded(if p.Some? then [p.value] else [], names, fact.basis, fact.evidence, keys)
    requires kept == if |keys| > 1 && Strength(keys[1].basis) > Strength(keys[0].basis) then keys[1] else keys[0]
    ensures var f := FactsOf(st.perEntity, fact.entity);
            && AllBacked(seen + {fact}, fact.entity, f.(primary := Some(kept)))
            && Keeps(f, f.(primary := Some(kept)), |keys| > 1)
            && Strength(kept.basis) >= Strength(fact.basis) && (|keys| == 1 ==> SameColumns(kept.columns, fact.columns))
  {
    hide Backed, Grounded, HasTrustedUnique, Lowered, SameColumns;
    var f := FactsOf(st.perEntity, fact.entity);
    var before := if f.primary.Some? then [f.primary.value] else [];
    FactsAreBacked(entities, seen, st, fact.entity);
    BackedMore(seen, fact, fact.entity, f);
    AddedKeyIsBacked(seen, fact, before, names, keys);
    var i := AddedKeyIsThere(fact, before, names, keys);
  }

  method ApplyNotNull(entities: map<string, EntityInput>, fact: Fact, st: State, ghost seen: set<Fact>)
      returns (r: State)
    requires Grounded(entities, seen, st) && fact.NotNull?
    ensures Applied(entities, fact, st, seen, r)
  {
    hide Backed, States, StatesJoin, Grounded, Later, HasTrustedUnique, Resolve;
    hide NamesKnown, Complains, PrimaryStated, Warranted, Applied, FirstSpelling;
    var names := Resolve(entities, fact.entity, [fact.column], fact.evidence);
    OneResolved(entities, fact, fact.entity, [fact.column]);
    if names.Missing? {
      Complained(entities, fact, st, seen, names.why);
      return st.Report(names.why);
    }
    assert |names.names| == 1 && names.names == [names.names[0]];
    var facts, name := FactsOf(st.perEntity, fact.entity), names.names[0];
    var known := if name in facts.notNull then facts.notNull[name] else {};
    var after := facts.(notNull := facts.notNull[name := known + {fact.evidence}]);
    FactsAreBacked(entities, seen, st, fact.entity);
    BackedMore(seen, fact, fact.entity, facts);
    PrimaryMore(entities, seen, fact, fact.entity, facts);
    SamePrimary(entities, seen + {fact}, fact.entity, facts);
    r := st.Update(fact.entity, after);
    Updated(entities, fact, st, seen, fact.entity, after, {}, r);
    assert SaysNotNull(FactsOf(r.perEntity, fact.entity), name, fact.evidence);
    NotNullApplied(entities, fact, st, seen, r, name);
  }

  lemma NotNullApplied(entities: map<string, EntityInput>, fact: Fact, st: State, seen: set<Fact>, r: State,
      name: string)
    requires Later(st, r) && Grounded(entities, seen + {fact}, r) && fact.NotNull? && NamesKnown(entities, fact)
    requires Spelling(entities, fact.entity, [fact.column], [name])
    requires SaysNotNull(FactsOf(r.perEntity, fact.entity), name, fact.evidence)
    ensures Applied(entities, fact, st, seen, r)
  {
    hide Later, Grounded, SaysNotNull, Spelling, NamesKnown;
  }

  method ApplyRelationship(entities: map<string, EntityInput>, fact: Fact, st: State, ghost seen: set<Fact>)
      returns (r: State)
    requires Grounded(entities, seen, st) && (fact.JoinedOn? || fact.ForeignKey?)
    ensures Applied(entities, fact, st, seen, r)
  {
    hide AllBacked, PrimaryStated, Resolve, Keeps, Spelling, Named, Unnamed, Warranted, Complains, NamesKnown;
    hide Applied, Grounded;
    BothResolved(entities, fact);
    r := st;
    match fact {
      case JoinedOn(left, leftColumns, right, rightColumns, evidence) =>
        var a, b := Resolve(entities, left, leftColumns, evidence), Resolve(entities, right, rightColumns, evidence);
        if a.Missing? || b.Missing? {
          var why := if a.Missing? then a.why else b.why;
          Complained(entities, fact, st, seen, why);
          return st.Report(why);
        }
        if |a.names| == |b.names| && left != right {
          var join := Join(left, a.names, right, b.names, evidence);
          assert StatesJoin(entities, fact, join);
          r := st.(joins := st.joins + [join]);
        }
        JoinApplied(entities, fact, st, seen, r);
      case ForeignKey(entity, columns, to, toColumns, basis, evidence) =>
        var a, b := Resolve(entities, entity, columns, evidence), Resolve(entities, to, toColumns, evidence);
        if a.Missing? || b.Missing? {
          var why := if a.Missing? then a.why else b.why;
          Complained(entities, fact, st, seen, why);
          return st.Report(why);
        }
        if |a.names| == |b.names| {
          var rel := Relationship(entity, a.names, to, b.names, ManyToOne, true, basis, {evidence});
          assert States(entities, fact, rel);
          r := st.(foreign := st.foreign + [rel]);
          ForeignApplied(entities, fact, st, seen, rel);
        } else {
          r := st.Report(CountsDiffer(evidence));
          CountsReported(entities, fact, st, seen);
        }
    }
  }

  lemma JoinApplied(entities: map<string, EntityInput>, fact: Fact, st: State, seen: set<Fact>, r: State)
    requires Grounded(entities, seen, st) && fact.JoinedOn? && NamesKnown(entities, fact)
    requires r == st.(joins := r.joins) && st.joins <= r.joins
    requires forall j :: j in r.joins ==> j in st.joins || StatesJoin(entities, fact, j)
    requires forall j :: StatesJoin(entities, fact, j) ==> j in r.joins
    ensures Applied(entities, fact, st, seen, r)
  {
    hide AllBacked, PrimaryStated, Warranted, StatesJoin, States, NamesKnown, Keeps;
    GroundedMore(entities, seen, fact, st);
    KeepsItself();
  }

  lemma ForeignApplied(entities: map<string, EntityInput>, fact: Fact, st: State, seen: set<Fact>, rel: Relationship)
    requires Grounded(entities, seen, st) && fact.ForeignKey? && NamesKnown(entities, fact)
    requires |fact.columns| == |fact.toColumns| && States(entities, fact, rel)
    ensures Applied(entities, fact, st, seen, st.(foreign := st.foreign + [rel]))
  {
    hide AllBacked, PrimaryStated, Warranted, StatesJoin, States, NamesKnown, Keeps;
    GroundedMore(entities, seen, fact, st);
    KeepsItself();
    assert rel in st.foreign + [rel];
  }

  lemma CountsReported(entities: map<string, EntityInput>, fact: Fact, st: State, seen: set<Fact>)
    requires Grounded(entities, seen, st) && fact.ForeignKey? && NamesKnown(entities, fact)
    requires |fact.columns| != |fact.toColumns|
    ensures Applied(entities, fact, st, seen, st.Report(CountsDiffer(fact.evidence)))
  {
    assert CountsApart(entities, fact, fact.evidence) && fact in seen + {fact};
    assert Warranted(entities, seen + {fact}, CountsDiffer(fact.evidence));
    hide Grounded, Warranted, NamesKnown, Later;
    Reported(entities, fact, st, seen, CountsDiffer(fact.evidence));
  }

  lemma BothResolved(entities: map<string, EntityInput>, fact: Fact)
    requires fact.JoinedOn? || fact.ForeignKey?
    ensures
      var (e, x) := if fact.JoinedOn? then (fact.left, fact.leftColumns) else (fact.entity, fact.columns);
      var (o, y) := if fact.JoinedOn? then (fact.right, fact.rightColumns) else (fact.to, fact.toColumns);
      var a, b := Resolve(entities, e, x, fact.evidence), Resolve(entities, o, y, fact.evidence);
      && (a.Columns? && b.Columns? ==>
            && NamesKnown(entities, fact) && |a.names| == |x| && |b.names| == |y|
            && (forall names :: Spelling(entities, e, x, names) <==> names == a.names)
            && (forall names :: Spelling(entities, o, y, names) <==> names == b.names))
      && (a.Missing? ==> !NamesKnown(entities, fact) && Complains(entities, fact, a.why))
      && (a.Columns? && b.Missing? ==> !NamesKnown(entities, fact) && Complains(entities, fact, b.why))
  {
    var (e, x) := if fact.JoinedOn? then (fact.left, fact.leftColumns) else (fact.entity, fact.columns);
    var (o, y) := if fact.JoinedOn? then (fact.right, fact.rightColumns) else (fact.to, fact.toColumns);
    ResolvesExactly(entities, e, x, fact.evidence);
    ResolvesExactly(entities, o, y, fact.evidence);
    hide Named, Unnamed, FirstSpelling, Resolve;
  }

  lemma KeepsItself()
    ensures forall f, conflict :: Keeps(f, f, conflict)
  {
  }

  /** Records one fact, or a diagnostic if it names something unknown. */
  method ApplyFact(entities: map<string, EntityInput>, fact: Fact, st: State, ghost seen: set<Fact>) returns (r: State)
    requires Sound(entities, seen, st)
    ensures Sound(entities, seen + {fact}, r)
  {
    hide Grounded, Recorded, Later;
    match fact {
      case Unique(_, _, _, _) => r := ApplyUnique(entities, fact, st, seen);
      case PrimaryKey(_, _, _, _) => r := ApplyPrimary(entities, fact, st, seen);
      case NotNull(_, _, _) => r := ApplyNotNull(entities, fact, st, seen);
      case JoinedOn(_, _, _, _, _) => r := ApplyRelationship(entities, fact, st, seen);
      case ForeignKey(_, _, _, _, _, _) => r := ApplyRelationship(entities, fact, st, seen);
    }
    forall f | f in seen ensures Recorded(entities, r, f) { RecordedStays(entities, st, r, f); }
  }

  /** Every fact takes effect or is reported, and no key or relationship comes from nowhere. */
  method ApplyFacts(entities: map<string, EntityInput>, facts: seq<Fact>) returns (st: State)
    ensures Sound(entities, Elements(facts), st)
  {
    st := State(map[], [], [], {});
    for k := 0 to |facts|
      invariant Sound(entities, Elements(facts[..k]), st)
    {
      st := ApplyFact(entities, facts[k], st, Elements(facts[..k]));
      assert facts[..k + 1] == facts[..k] + [facts[k]];
      assert Elements(facts[..k + 1]) == Elements(facts[..k]) + {facts[k]};
    }
    assert facts[..|facts|] == facts;
  }

  // ---- primary keys -----------------------------------------------------------------

  predicate AllNotNull(f: EntityFacts, key: Key) { forall c :: c in key.columns ==> c in f.notNull }

  ghost predicate FirstNotNull(f: EntityFacts, i: nat) {
    i < |f.unique| && AllNotNull(f, f.unique[i]) && forall j :: 0 <= j < i ==> !AllNotNull(f, f.unique[j])
  }

  ghost predicate SmallestComposite(keys: seq<Key>, i: nat) {
    && i < |keys| && |keys[i].columns| > 1
    && (forall j :: 0 <= j < |keys| && |keys[j].columns| > 1 ==> |keys[i].columns| <= |keys[j].columns|)
    && forall j :: 0 <= j < i && |keys[j].columns| > 1 ==> |keys[i].columns| < |keys[j].columns|
  }

  /** The key at `i` moved from the unique keys to be the primary one. */
  ghost predicate Moved(f: EntityFacts, r: EntityFacts, i: nat) {
    && i < |f.unique| && r.primary.Some? && r.notNull == f.notNull && r.unique == f.unique[..i] + f.unique[i + 1..]
    && r.primary.value.columns == f.unique[i].columns && r.primary.value.basis == f.unique[i].basis
  }

  /** Without a primary key the first unique key whose columns are all not null becomes it,
      else the first of the smallest composite ones. */
  ghost predicate IsPromoted(f: EntityFacts, r: EntityFacts) {
    if f.primary.Some? then r == f
    else if exists i :: FirstNotNull(f, i) then exists i :: FirstNotNull(f, i) && Moved(f, r, i)
    else if exists i :: SmallestComposite(f.unique, i) then exists i :: SmallestComposite(f.unique, i) && Moved(f, r, i)
    else r == f
  }

  function NotNullEvidence(f: EntityFacts, key: Key): set<string> {
    set c, e | c in key.columns && c in f.notNull && e in f.notNull[c] :: e
  }

  ghost predicate SeveralNotNull(f: EntityFacts) {
    f.primary.None? &&
        exists i, j :: 0 <= i < j < |f.unique| && AllNotNull(f, f.unique[i]) && AllNotNull(f, f.unique[j])
  }

  function MadePrimary(f: EntityFacts, i: nat, evidence: set<string>): EntityFacts
    requires i < |f.unique|
  {
    f.(primary := Some(f.unique[i].(evidence := f.unique[i].evidence + evidence)),
        unique := f.unique[..i] + f.unique[i + 1..])
  }

  /** The first key whose columns are all not null, and whether another one is. */
  method Qualifying(f: EntityFacts) returns (first: Option<nat>, several: bool)
    ensures first.Some? ==> FirstNotNull(f, first.value)
    ensures first.None? ==> forall j :: 0 <= j < |f.unique| ==> !AllNotNull(f, f.unique[j])
    ensures several <==>
        exists i, j :: 0 <= i < j < |f.unique| && AllNotNull(f, f.unique[i]) && AllNotNull(f, f.unique[j])
  {
    hide AllNotNull;
    first, several := None, false;
    for k := 0 to |f.unique|
      invariant first.Some? ==> first.value < k && FirstNotNull(f, first.value)
      invariant first.None? ==> forall j :: 0 <= j < k ==> !AllNotNull(f, f.unique[j])
      invariant several <==> exists i, j :: 0 <= i < j < k && AllNotNull(f, f.unique[i]) && AllNotNull(f, f.unique[j])
    {
      if AllNotNull(f, f.unique[k]) {
        if first.Some? { several := true; } else { first := Some(k); }
      }
    }
  }

  /** The first of the keys with the fewest columns, among those of several columns. */
  method Composite(keys: seq<Key>) returns (best: Option<nat>)
    ensures best.Some? ==> SmallestComposite(keys, best.value)
    ensures best.None? ==> forall j :: 0 <= j < |keys| ==> |keys[j].columns| <= 1
  {
    best := None;
    for k := 0 to |keys|
      invariant best.Some? ==> best.value < k && SmallestComposite(keys[..k], best.value)
      invariant best.None? ==> forall j :: 0 <= j < k ==> |keys[j].columns| <= 1
    {
      if |keys[k].columns| > 1 && (best.None? || |keys[k].columns| < |keys[best.value].columns|) { best := Some(k); }
    }
    assert keys[..|keys|] == keys;
  }

  method Promote(f: EntityFacts) returns (r: EntityFacts, several: bool)
    ensures IsPromoted(f, r)
    ensures several <==> SeveralNotNull(f)
  {
    hide AllNotNull, NotNullEvidence, SmallestComposite;
    if f.primary.Some? { return f, false; }
    var first, more := Qualifying(f);
    several := more;
    if first.Some? {
      r := MadePrimary(f, first.value, NotNullEvidence(f, f.unique[first.value]));
      assert Moved(f, r, first.value);
      return;
    }
    var best := Composite(f.unique);
    if best.Some? {
      CompositeExists(f.unique, best.value);
      r := MadePrimary(f, best.value, {"unique combination; nullability not tested"});
      assert Moved(f, r, best.value);
    } else {
      NoComposite(f.unique);
      r := f;
    }
  }

  lemma CompositeExists(keys: seq<Key>, i: nat)
    requires SmallestComposite(keys, i)
    ensures i < |keys|
  {
  }

  lemma NoComposite(keys: seq<Key>)
    requires forall j :: 0 <= j < |keys| ==> |keys[j].columns| <= 1
    ensures !exists i: nat :: SmallestComposite(keys, i)
  {
  }

  /** Promotion moves a key and changes nothing about which columns are keys. */
  lemma PromotionKeepsKeys(f: EntityFacts, r: EntityFacts, columns: seq<string>)
    requires IsPromoted(f, r)
    ensures HasTrustedKey(f, columns) <==> HasTrustedKey(r, columns)
  {
    hide SameColumns, AllNotNull, SmallestComposite;
    if r != f {
      var i: nat :| Moved(f, r, i);
      MovedKeys(f, r, i, columns);
    }
  }

  lemma SameTrust(a: Key, b: Key, columns: seq<string>)
    requires a.columns == b.columns && a.basis == b.basis
    ensures TrustedKey(a, columns) <==> TrustedKey(b, columns)
  {
  }

  lemma MovedKeys(f: EntityFacts, r: EntityFacts, i: nat, columns: seq<string>)
    requires f.primary.None? && Moved(f, r, i)
    ensures HasTrustedKey(f, columns) <==> HasTrustedKey(r, columns)
  {
    hide TrustedKey;
    assert f.unique == f.unique[..i] + [f.unique[i]] + f.unique[i + 1..];
    assert forall k :: k in f.unique <==> k == f.unique[i] || k in r.unique;
    SameTrust(f.unique[i], r.primary.value, columns);
  }

  lemma PromotionKeepsBacking(facts: set<Fact>, entity: string, f: EntityFacts, r: EntityFacts)
    requires IsPromoted(f, r) && AllBacked(facts, entity, f)
    ensures AllBacked(facts, entity, r)
  {
    hide StatesKey, AllNotNull, SmallestComposite;
    if r != f {
      var i: nat :| Moved(f, r, i);
    }
  }

  /** Every entity gets its primary key, whatever the order they are taken in. */
  method PromoteAll(perEntity: Keyed, diagnostics: set<Diagnostic>) returns (r: Keyed, reported: set<Diagnostic>)
    ensures r.Keys == perEntity.Keys
    ensures forall e :: e in r ==> IsPromoted(perEntity[e], r[e])
    ensures reported == diagnostics + set e | e in perEntity && SeveralNotNull(perEntity[e]) :: SeveralKeys(e)
  {
    hide IsPromoted, SeveralNotNull;
    r, reported := map[], diagnostics;
    var todo := perEntity.Keys;
    while todo != {}
      invariant todo <= perEntity.Keys && r.Keys == perEntity.Keys - todo
      invariant forall e :: e in r ==> IsPromoted(perEntity[e], r[e])
      invariant reported == diagnostics + set e | e in r && SeveralNotNull(perEntity[e]) :: SeveralKeys(e)
      decreases |todo|
    {
      var e :| e in todo;
      var f, several := Promote(perEntity[e]);
      r := r[e := f];
      if several { reported := reported + {SeveralKeys(e)}; }
      todo := todo - {e};
    }
  }

  // ---- guesses ----------------------------------------------------------------------

  /** What naming conventions suggest; the suggestions themselves are arbitrary here. */
  datatype Guesses = Guesses(keys: seq<(string, seq<string>)>, relationships: seq<Relationship>)

  predicate AreGuesses(relationships: seq<Relationship>) {
    forall i :: 0 <= i < |relationships| ==>
        relationships[i].basis == Inferred && relationships[i].cardinality == ManyToOne
  }

  /** At most a primary key was added, it is only a guess, and there was none before. */
  predicate OnlyGuessed(f: EntityFacts, g: EntityFacts) {
    f == g || (f.primary.None? && g.primary.Some? && g.primary.value.basis == Inferred && g == f.(primary := g.primary))
  }

  method GuessKeys(perEntity: Keyed, guesses: seq<(string, seq<string>)>) returns (r: Keyed)
    ensures forall e :: OnlyGuessed(FactsOf(perEntity, e), FactsOf(r, e))
    ensures forall k :: 0 <= k < |guesses| ==> FactsOf(r, guesses[k].0).primary.Some?
  {
    r := perEntity;
    for k := 0 to |guesses|
      invariant forall e :: OnlyGuessed(FactsOf(perEntity, e), FactsOf(r, e))
      invariant forall i :: 0 <= i < k ==> FactsOf(r, guesses[i].0).primary.Some?
    {
      var (entity, columns) := guesses[k];
      var f := FactsOf(r, entity);
      assert OnlyGuessed(FactsOf(perEntity, entity), f);
      if f.primary.None? { r := r[entity := f.(primary := Some(Key(columns, Inferred, {"naming"})))]; }
    }
  }

  /** Guessing primary keys changes nothing about which columns are trusted keys. */
  lemma GuessKeepsKeys(f: EntityFacts, g: EntityFacts, columns: seq<string>)
    requires OnlyGuessed(f, g)
    ensures HasTrustedKey(f, columns) <==> HasTrustedKey(g, columns)
  {
  }

  // ---- joins ------------------------------------------------------------------------

  predicate Links(rel: Relationship, from: string, fromColumns: seq<string>, to: string, toColumns: seq<string>) {
    rel.from == from && rel.fromColumns == fromColumns && rel.to == to && rel.toColumns == toColumns
  }

  /** A join refers to the side whose columns are a key, the right side if both are; with a
      key on neither side its cardinality is unknown. */
  ghost predicate IsDirected(perEntity: Keyed, j: Join, rel: Relationship) {
    var leftKey, rightKey := IsKey(perEntity, j.left, j.leftColumns), IsKey(perEntity, j.right, j.rightColumns);
    && rel.basis == Joined && rel.optional && rel.evidence == {"joined in " + j.evidence}
    && (rel.cardinality == Unknown <==> !leftKey && !rightKey) && rel.cardinality != OneToOne
    && (if leftKey && !rightKey
        then Links(rel, j.right, j.rightColumns, j.left, j.leftColumns)
        else Links(rel, j.left, j.leftColumns, j.right, j.rightColumns))
  }

  method ResolveJoins(joins: seq<Join>, perEntity: Keyed, foreign: seq<Relationship>) returns (r: seq<Relationship>)
    ensures |r| == |foreign| + |joins| && foreign <= r
    ensures forall k :: 0 <= k < |joins| ==> IsDirected(perEntity, joins[k], r[|foreign| + k])
  {
    hide HasTrustedKey;
    r := foreign;
    for k := 0 to |joins|
      invariant |r| == |foreign| + k && foreign <= r
      invariant forall i :: 0 <= i < k ==> IsDirected(perEntity, joins[i], r[|foreign| + i])
    {
      var j := joins[k];
      var rightKey, leftKey := IsKey(perEntity, j.right, j.rightColumns), IsKey(perEntity, j.left, j.leftColumns);
      var evidence := {"joined in " + j.evidence};
      if rightKey {
        r := r + [Relationship(j.left, j.leftColumns, j.right, j.rightColumns, ManyToOne, true, Joined, evidence)];
      } else if leftKey {
        r := r + [Relationship(j.right, j.rightColumns, j.left, j.leftColumns, ManyToOne, true, Joined, evidence)];
      } else {
        r := r + [Relationship(j.left, j.leftColumns, j.right, j.rightColumns, Unknown, true, Joined, evidence)];
      }
    }
  }

  // ---- merging ----------------------------------------------------------------------

  datatype Ends = Ends(from: string, fromColumns: seq<string>, to: string, toColumns: seq<string>)

  type Merged = map<Ends, Relationship>

  function EndsOf(r: Relationship): Ends { Ends(r.from, r.fromColumns, r.to, r.toColumns) }

  /** Everything said about one pair of ends: the strongest basis, all the evidence, and a
      cardinality if anything gives one. */
  ghost predicate Sums(rels: seq<Relationship>, ends: Ends, rel: Relationship) {
    && EndsOf(rel) == ends
    && (exists r :: r in rels && EndsOf(r) == ends && r.basis == rel.basis)
    && (forall r :: r in rels && EndsOf(r) == ends ==> Strength(r.basis) <= Strength(rel.basis))
    && (forall r, e :: r in rels && EndsOf(r) == ends && e in r.evidence ==> e in rel.evidence)
    && (forall e :: e in rel.evidence ==> exists r :: r in rels && EndsOf(r) == ends && e in r.evidence)
    && (rel.cardinality == Unknown <==> forall r :: r in rels && EndsOf(r) == ends ==> r.cardinality == Unknown)
    && rel.cardinality != OneToOne
  }

  ghost predicate IsMerged(rels: seq<Relationship>, m: Merged) {
    && (forall r :: r in rels ==> EndsOf(r) in m)
    && forall k :: k in m ==> Sums(rels, k, m[k])
  }

  method MergeOne(rels: seq<Relationship>, m: Merged, rel: Relationship) returns (r: Merged)
    requires IsMerged(rels, m) && rel.cardinality != OneToOne
    ensures IsMerged(rels + [rel], r)
  {
    hide Sums;
    var ends := EndsOf(rel);
    forall k | k in m && k != ends ensures Sums(rels + [rel], k, m[k]) { SumsElsewhere(rels, rel, k, m[k]); }
    if ends in m {
      var existing := m[ends];
      var cardinality := if existing.cardinality == Unknown then rel.cardinality else existing.cardinality;
      var merged := existing.(
          cardinality := cardinality,
          basis := Strongest(existing.basis, rel.basis),
          evidence := existing.evidence + rel.evidence);
      SumsMore(rels, rel, existing, merged);
      r := m[ends := merged];
    } else {
      SumsFirst(rels, rel);
      r := m[ends := rel];
    }
  }

  lemma SumsElsewhere(rels: seq<Relationship>, rel: Relationship, ends: Ends, sum: Relationship)
    requires Sums(rels, ends, sum) && EndsOf(rel) != ends
    ensures Sums(rels + [rel], ends, sum)
  {
    hide EndsOf;
    assert forall r :: r in rels + [rel] && EndsOf(r) == ends <==> r in rels && EndsOf(r) == ends;
    forall e | e in sum.evidence ensures exists r :: r in rels + [rel] && EndsOf(r) == ends && e in r.evidence {
      var r :| r in rels && EndsOf(r) == ends && e in r.evidence;
      assert r in rels + [rel];
    }
    var r :| r in rels && EndsOf(r) == ends && r.basis == sum.basis;
    assert r in rels + [rel];
  }

  lemma SumsMore(rels: seq<Relationship>, rel: Relationship, existing: Relationship, merged: Relationship)
    requires Sums(rels, EndsOf(rel), existing) && rel.cardinality != OneToOne
    requires merged == existing.(
        cardinality := if existing.cardinality == Unknown then rel.cardinality else existing.cardinality,
        basis := Strongest(existing.basis, rel.basis),
        evidence := existing.evidence + rel.evidence)
    ensures Sums(rels + [rel], EndsOf(rel), merged)
  {
    var ends, more := EndsOf(rel), rels + [rel];
    assert EndsOf(merged) == ends;
    hide EndsOf;
    assert rel in more && forall r :: r in rels ==> r in more;
    var r0 :| r0 in rels && EndsOf(r0) == ends && r0.basis == existing.basis;
    assert r0 in more;
    forall e | e in merged.evidence ensures exists r :: r in more && EndsOf(r) == ends && e in r.evidence {
      if e in existing.evidence {
        var r :| r in rels && EndsOf(r) == ends && e in r.evidence;
        assert r in more;
      }
    }
  }

  lemma SumsFirst(rels: seq<Relationship>, rel: Relationship)
    requires forall r :: r in rels ==> EndsOf(r) != EndsOf(rel)
    requires rel.cardinality != OneToOne
    ensures Sums(rels + [rel], EndsOf(rel), rel)
  {
    hide EndsOf;
    assert rel in rels + [rel];
  }

  /** Only trusted keys decide how many rows a relationship that is not a guess can match. */
  function Decided(perEntity: Keyed, basis: Basis, ends: Ends): Cardinality {
    if basis != Inferred && !IsKey(perEntity, ends.to, ends.toColumns) then Unknown
    else if IsKey(perEntity, ends.from, ends.fromColumns) then OneToOne
    else ManyToOne
  }

  predicate AllTrustedNotNull(perEntity: Keyed, ends: Ends) {
    ends.from in perEntity && forall c :: c in ends.fromColumns ==> TrustedNotNull(perEntity[ends.from], c)
  }

  /** Only a join between columns that are no key leaves its cardinality open. */
  ghost predicate OpenOnlyForJoins(perEntity: Keyed, rels: seq<Relationship>) {
    forall r :: r in rels ==> OpenForJoin(perEntity, r)
  }

  predicate OpenForJoin(perEntity: Keyed, r: Relationship) {
    r.cardinality != OneToOne &&
        (r.cardinality == Unknown ==> r.basis == Joined && !IsKey(perEntity, r.to, r.toColumns))
  }

  ghost predicate IsFinished(perEntity: Keyed, rels: seq<Relationship>, ends: Ends, rel: Relationship) {
    && EndsOf(rel) == ends
    && (exists r :: r in rels && EndsOf(r) == ends && r.basis == rel.basis)
    && (forall r :: r in rels && EndsOf(r) == ends ==> Strength(r.basis) <= Strength(rel.basis))
    && (forall e :: e in rel.evidence <==> exists r :: r in rels && EndsOf(r) == ends && e in r.evidence)
    && rel.cardinality == Decided(perEntity, rel.basis, ends)
    && (rel.optional <==> !AllTrustedNotNull(perEntity, ends))
  }

  /** Relationships with the same ends become one, and its cardinality is what the keys of
      both ends say, whatever was merged and in whatever order. */
  method FinishRelationships(rels: seq<Relationship>, perEntity: Keyed) returns (r: Merged)
    requires OpenOnlyForJoins(perEntity, rels)
    ensures forall ends :: ends in r <==> exists rel :: rel in rels && EndsOf(rel) == ends
    ensures forall ends :: ends in r ==> IsFinished(perEntity, rels, ends, r[ends])
  {
    hide IsKey, TrustedNotNull, IsFinished, Sums;
    var m: Merged := map[];
    for k := 0 to |rels|
      invariant IsMerged(rels[..k], m)
    {
      assert rels[k] in rels;
      m := MergeOne(rels[..k], m, rels[k]);
      assert rels[..k + 1] == rels[..k] + [rels[k]];
    }
    assert rels[..|rels|] == rels;
    forall ends | ends in m ensures exists rel :: rel in rels && EndsOf(rel) == ends { SumsSome(rels, ends, m[ends]); }
    forall ends | ends in m ensures IsFinished(perEntity, rels, ends, Finished(perEntity, m[ends])) {
      FinishedIsFinished(perEntity, rels, ends, m[ends]);
    }
    r := map ends | ends in m :: Finished(perEntity, m[ends]);
  }

  lemma SumsSome(rels: seq<Relationship>, ends: Ends, rel: Relationship)
    requires Sums(rels, ends, rel)
    ensures exists r :: r in rels && EndsOf(r) == ends
  {
  }

  /** The last pass over one merged relationship. */
  function Finished(perEntity: Keyed, rel: Relationship): Relationship {
    var toIsKey := IsKey(perEntity, rel.to, rel.toColumns);
    rel.(cardinality := if rel.basis != Inferred && !toIsKey then Unknown
                        else if rel.cardinality != Unknown && IsKey(perEntity, rel.from, rel.fromColumns) then OneToOne
                        else rel.cardinality,
         optional := !AllTrustedNotNull(perEntity, EndsOf(rel)))
  }

  lemma FinishedIsFinished(perEntity: Keyed, rels: seq<Relationship>, ends: Ends, rel: Relationship)
    requires OpenOnlyForJoins(perEntity, rels) && Sums(rels, ends, rel)
    ensures IsFinished(perEntity, rels, ends, Finished(perEntity, rel))
  {
    hide IsKey, TrustedNotNull;
    if rel.cardinality == Unknown {
      var r :| r in rels && EndsOf(r) == ends && r.basis == rel.basis;
      assert r.basis == Joined && !IsKey(perEntity, r.to, r.toColumns);
    }
  }

  // ---- the whole build --------------------------------------------------------------

  datatype Erd = Erd(perEntity: Keyed, relationships: Merged, diagnostics: set<Diagnostic>)

  /** What `Faithful` says of one fact that names nothing unknown. */
  ghost predicate Upheld(entities: map<string, EntityInput>, f: Fact, erd: Erd) {
    && (f.Unique? && f.basis != Inferred ==> IsKey(erd.perEntity, f.entity, f.columns))
    && (f.PrimaryKey? && f.basis != Inferred ==>
        IsKey(erd.perEntity, f.entity, f.columns) || ConflictingKeys(f.entity) in erd.diagnostics)
    && (f.NotNull? ==> exists name ::
        && Spelling(entities, f.entity, [f.column], [name])
        && SaysNotNull(FactsOf(erd.perEntity, f.entity), name, f.evidence))
    && (f.ForeignKey? ==>
        if |f.columns| == |f.toColumns| then exists rel :: States(entities, f, rel) && EndsOf(rel) in erd.relationships
        else CountsDiffer(f.evidence) in erd.diagnostics)
  }

  /** What a model owes to its facts. A fact about something unknown is reported, with the first
      thing that is missing, and a diagnostic is there only if facts warrant it; every trusted key
      was stated by a fact; every trusted uniqueness fact is a key; every foreign key and every
      join has its relationship; every relationship that is not a guess was stated or joined; and
      its cardinality is exactly what the keys of its ends allow. */
  ghost predicate Faithful(entities: map<string, EntityInput>, facts: set<Fact>, erd: Erd) {
    && (forall e :: e in erd.perEntity ==> AllBacked(facts, e, erd.perEntity[e]))
    && (forall f :: f in facts && !NamesKnown(entities, f) ==>
          exists d :: d in erd.diagnostics && Complains(entities, f, d))
    && (forall f :: f in facts && NamesKnown(entities, f) ==> Upheld(entities, f, erd))
    && (forall d :: d in erd.diagnostics && !d.SeveralKeys? ==> Warranted(entities, facts, d))
    && (forall f, j ::
        f in facts && StatesJoin(entities, f, j) ==> exists ends :: ends in erd.relationships && JoinsEnds(j, ends))
    && (forall ends :: ends in erd.relationships ==> EndsOf(erd.relationships[ends]) == ends)
    && (forall ends ::
        ends in erd.relationships ==>
        erd.relationships[ends].cardinality == Decided(erd.perEntity, erd.relationships[ends].basis, ends))
    && (forall ends ::
        ends in erd.relationships && erd.relationships[ends].basis != Inferred ==> Known(entities, facts, ends))
  }

  /** A foreign key states these ends, or a join relates them in one direction or the other. */
  ghost predicate Known(entities: map<string, EntityInput>, facts: set<Fact>, ends: Ends) {
    || (exists f, rel :: f in facts && States(entities, f, rel) && EndsOf(rel) == ends)
    || (exists f, j :: f in facts && StatesJoin(entities, f, j) && JoinsEnds(j, ends))
  }

  predicate JoinsEnds(j: Join, ends: Ends) {
    || ends == Ends(j.left, j.leftColumns, j.right, j.rightColumns)
    || ends == Ends(j.right, j.rightColumns, j.left, j.leftColumns)
  }

  ghost predicate SameNotNull(a: Keyed, b: Keyed) { forall e :: FactsOf(b, e).notNull == FactsOf(a, e).notNull }

  ghost predicate SameKeys(a: Keyed, b: Keyed) { forall e, columns :: IsKey(a, e, columns) <==> IsKey(b, e, columns) }

  /** The stages of a build, each from the one before: facts applied, keys promoted and
      guessed, joins directed by those keys, and everything merged. */
  ghost predicate BuiltFrom(entities: map<string, EntityInput>, facts: set<Fact>, guesses: Guesses, st: State,
      promoted: Keyed, directed: seq<Relationship>, erd: Erd) {
    var all := directed + guesses.relationships;
    && Sound(entities, facts, st)
    && promoted.Keys == st.perEntity.Keys && (forall e :: e in promoted ==> IsPromoted(st.perEntity[e], promoted[e]))
    && (forall e :: OnlyGuessed(FactsOf(promoted, e), FactsOf(erd.perEntity, e)))
    && (forall k :: 0 <= k < |guesses.keys| ==> FactsOf(erd.perEntity, guesses.keys[k].0).primary.Some?)
    && |directed| == |st.foreign| + |st.joins| && st.foreign <= directed
    && (forall k :: 0 <= k < |st.joins| ==> IsDirected(erd.perEntity, st.joins[k], directed[|st.foreign| + k]))
    && (forall ends :: ends in erd.relationships <==> exists rel :: rel in all && EndsOf(rel) == ends)
    && (forall ends :: ends in erd.relationships ==> IsFinished(erd.perEntity, all, ends, erd.relationships[ends]))
    && erd.diagnostics == st.diagnostics + set e | e in st.perEntity &&
        SeveralNotNull(st.perEntity[e]) :: SeveralKeys(e)
  }

  method Build(entities: map<string, EntityInput>, facts: seq<Fact>, guesses: Guesses) returns (erd: Erd)
    requires AreGuesses(guesses.relationships)
    ensures exists st, promoted, directed :: BuiltFrom(entities, Elements(facts), guesses, st, promoted, directed, erd)
    ensures Faithful(entities, Elements(facts), erd)
  {
    hide Sound, IsPromoted, SeveralNotNull, IsFinished, IsKey, OpenOnlyForJoins, AllBacked, IsDirected, Faithful,
        OnlyGuessed;
    var st := ApplyFacts(entities, facts);
    var promoted, diagnostics := PromoteAll(st.perEntity, st.diagnostics);
    var perEntity := GuessKeys(promoted, guesses.keys);
    KeysStay(st.perEntity, promoted, perEntity);
    BackingStays(entities, Elements(facts), st, promoted, perEntity);
    var directed := ResolveJoins(st.joins, perEntity, st.foreign);
    var all := directed + guesses.relationships;
    JoinsAreOpen(entities, Elements(facts), st, perEntity, directed, guesses.relationships);
    var relationships := FinishRelationships(all, perEntity);
    erd := Erd(perEntity, relationships, diagnostics);
    BuildIsFaithful(entities, Elements(facts), st, directed, guesses.relationships, erd);
    assert BuiltFrom(entities, Elements(facts), guesses, st, promoted, directed, erd);
  }

  lemma KeyOfFacts(perEntity: Keyed, e: string, columns: seq<string>)
    ensures IsKey(perEntity, e, columns) <==> HasTrustedKey(FactsOf(perEntity, e), columns)
  {
  }

  lemma KeysStay(before: Keyed, promoted: Keyed, after: Keyed)
    requires promoted.Keys == before.Keys && forall e :: e in promoted ==> IsPromoted(before[e], promoted[e])
    requires forall e :: OnlyGuessed(FactsOf(promoted, e), FactsOf(after, e))
    ensures SameKeys(before, after) && SameNotNull(before, after)
  {
    hide IsPromoted, HasTrustedKey, IsKey, OnlyGuessed;
    forall e ensures FactsOf(after, e).notNull == FactsOf(before, e).notNull {
      if e in before { PromotedNotNull(before[e], promoted[e]); }
      GuessedNotNull(FactsOf(promoted, e), FactsOf(after, e));
    }
    forall e, columns ensures IsKey(before, e, columns) <==> IsKey(after, e, columns) {
      if e in before { PromotionKeepsKeys(before[e], promoted[e], columns); }
      GuessKeepsKeys(FactsOf(promoted, e), FactsOf(after, e), columns);
      KeyOfFacts(before, e, columns);
      KeyOfFacts(after, e, columns);
    }
  }

  lemma PromotedNotNull(f: EntityFacts, r: EntityFacts)
    requires IsPromoted(f, r)
    ensures r.notNull == f.notNull
  {
    hide FirstNotNull, SmallestComposite;
  }

  lemma GuessedNotNull(f: EntityFacts, g: EntityFacts)
    requires OnlyGuessed(f, g)
    ensures g.notNull == f.notNull
  {
  }

  lemma BackingStays(entities: map<string, EntityInput>, facts: set<Fact>, st: State, promoted: Keyed, after: Keyed)
    requires Sound(entities, facts, st)
    requires promoted.Keys == st.perEntity.Keys &&
        forall e :: e in promoted ==> IsPromoted(st.perEntity[e], promoted[e])
    requires forall e :: OnlyGuessed(FactsOf(promoted, e), FactsOf(after, e))
    ensures forall e :: e in after ==> AllBacked(facts, e, after[e])
  {
    hide IsPromoted, Recorded, StatesKey, States, StatesJoin;
    forall e | e in after ensures AllBacked(facts, e, after[e]) {
      assert OnlyGuessed(FactsOf(promoted, e), FactsOf(after, e));
      if e in promoted { PromotionKeepsBacking(facts, e, st.perEntity[e], promoted[e]); }
    }
  }

  lemma StatedIsManyToOne(entities: map<string, EntityInput>, fact: Fact, rel: Relationship)
    requires States(entities, fact, rel)
    ensures rel.cardinality == ManyToOne
  {
  }

  lemma DirectedIsOpen(perEntity: Keyed, j: Join, rel: Relationship)
    requires IsDirected(perEntity, j, rel)
    ensures OpenForJoin(perEntity, rel)
  {
    hide HasTrustedKey;
  }

  lemma JoinsAreOpen(entities: map<string, EntityInput>, facts: set<Fact>, st: State, perEntity: Keyed,
                     directed: seq<Relationship>, guesses: seq<Relationship>)
    requires Sound(entities, facts, st) && AreGuesses(guesses)
    requires |directed| == |st.foreign| + |st.joins| && st.foreign <= directed
    requires forall k :: 0 <= k < |st.joins| ==> IsDirected(perEntity, st.joins[k], directed[|st.foreign| + k])
    ensures OpenOnlyForJoins(perEntity, directed + guesses)
  {
    hide IsKey, Recorded, AllBacked, StatesJoin, IsDirected, States;
    forall r | r in directed + guesses
      ensures OpenForJoin(perEntity, r)
    {
      var k :| 0 <= k < |directed + guesses| && (directed + guesses)[k] == r;
      if k < |st.foreign| {
        assert r in st.foreign;
        var f :| f in facts && States(entities, f, r);
        StatedIsManyToOne(entities, f, r);
      } else if k < |directed| {
        assert r == directed[|st.foreign| + (k - |st.foreign|)];
        DirectedIsOpen(perEntity, st.joins[k - |st.foreign|], r);
      } else {
        assert r == guesses[k - |directed|];
      }
    }
  }

  lemma BuildIsFaithful(entities: map<string, EntityInput>, facts: set<Fact>, st: State,
                        directed: seq<Relationship>, guesses: seq<Relationship>, erd: Erd)
    requires Sound(entities, facts, st) && AreGuesses(guesses)
    requires st.diagnostics <= erd.diagnostics && (forall d :: d in erd.diagnostics - st.diagnostics ==> d.SeveralKeys?)
    requires SameKeys(st.perEntity, erd.perEntity) && SameNotNull(st.perEntity, erd.perEntity)
    requires forall e :: e in erd.perEntity ==> AllBacked(facts, e, erd.perEntity[e])
    requires |directed| == |st.foreign| + |st.joins| && st.foreign <= directed
    requires forall k :: 0 <= k < |st.joins| ==> IsDirected(erd.perEntity, st.joins[k], directed[|st.foreign| + k])
    requires forall ends ::
        ends in erd.relationships <==> exists rel :: rel in directed + guesses && EndsOf(rel) == ends
    requires forall ends ::
        ends in erd.relationships ==> IsFinished(erd.perEntity, directed + guesses, ends, erd.relationships[ends])
    ensures Faithful(entities, facts, erd)
  {
    hide AllBacked, PrimaryStated, Complains, NamesKnown, States, StatesJoin, IsDirected, IsFinished, Decided, Known;
    hide Spelling, Warranted, IsKey, SaysNotNull, Upheld;
    forall f | f in facts ensures if NamesKnown(entities, f) then Upheld(entities, f, erd)
      else exists d :: d in erd.diagnostics && Complains(entities, f, d)
    {
      if NamesKnown(entities, f) { FactUpheld(entities, st, directed, guesses, erd, f); }
    }
    forall f, j | f in facts && StatesJoin(entities, f, j)
        ensures exists ends :: ends in erd.relationships && JoinsEnds(j, ends) {
      JoinUpheld(entities, facts, st, directed, guesses, erd, f, j);
    }
    forall ends | ends in erd.relationships ensures FinishedWell(entities, facts, erd, ends) {
      EndsKnown(entities, facts, st, directed, guesses, erd, ends);
    }
  }

  lemma FactUpheld(entities: map<string, EntityInput>, st: State, directed: seq<Relationship>,
      guesses: seq<Relationship>, erd: Erd, f: Fact)
    requires Recorded(entities, st, f) && NamesKnown(entities, f)
    requires st.diagnostics <= erd.diagnostics && st.foreign <= directed
    requires SameKeys(st.perEntity, erd.perEntity) && SameNotNull(st.perEntity, erd.perEntity)
    requires forall ends ::
        ends in erd.relationships <==> exists rel :: rel in directed + guesses && EndsOf(rel) == ends
    ensures Upheld(entities, f, erd)
  {
    hide NamesKnown, States, StatesJoin, Spelling, TrustedKey;
    if f.PrimaryKey? && f.basis != Inferred && ConflictingKeys(f.entity) !in st.diagnostics {
      PrimaryUpheld(st.perEntity, f.entity, f.columns);
    }
    if f.ForeignKey? && |f.columns| == |f.toColumns| {
      var rel :| States(entities, f, rel) && rel in st.foreign;
      assert rel in directed + guesses;
    }
  }

  lemma PrimaryUpheld(perEntity: Keyed, entity: string, columns: seq<string>)
    requires var p := FactsOf(perEntity, entity).primary;
        p.Some? && p.value.basis != Inferred && SameColumns(p.value.columns, columns)
    ensures IsKey(perEntity, entity, columns)
  {
    hide SameColumns;
  }

  lemma JoinUpheld(entities: map<string, EntityInput>, facts: set<Fact>, st: State,
                   directed: seq<Relationship>, guesses: seq<Relationship>, erd: Erd, f: Fact, j: Join)
    requires Sound(entities, facts, st) && f in facts && StatesJoin(entities, f, j)
    requires |directed| == |st.foreign| + |st.joins|
    requires forall k :: 0 <= k < |st.joins| ==> IsDirected(erd.perEntity, st.joins[k], directed[|st.foreign| + k])
    requires forall ends ::
        ends in erd.relationships <==> exists rel :: rel in directed + guesses && EndsOf(rel) == ends
    ensures exists ends :: ends in erd.relationships && JoinsEnds(j, ends)
  {
    hide Grounded, Complains, IsKey;
    assert Recorded(entities, st, f);
    var k :| 0 <= k < |st.joins| && st.joins[k] == j;
    var rel := directed[|st.foreign| + k];
    assert IsDirected(erd.perEntity, j, rel) && rel in directed + guesses;
    assert EndsOf(rel) in erd.relationships && JoinsEnds(j, EndsOf(rel));
  }

  /** What `Faithful` says of one relationship. */
  ghost predicate FinishedWell(entities: map<string, EntityInput>, facts: set<Fact>, erd: Erd, ends: Ends)
    requires ends in erd.relationships
  {
    var rel := erd.relationships[ends];
    EndsOf(rel) == ends && rel.cardinality == Decided(erd.perEntity, rel.basis, ends) &&
        (rel.basis != Inferred ==> Known(entities, facts, ends))
  }

  lemma EndsKnown(entities: map<string, EntityInput>, facts: set<Fact>, st: State,
                  directed: seq<Relationship>, guesses: seq<Relationship>, erd: Erd, ends: Ends)
    requires Sound(entities, facts, st) && AreGuesses(guesses) && ends in erd.relationships
    requires |directed| == |st.foreign| + |st.joins| && st.foreign <= directed
    requires forall k :: 0 <= k < |st.joins| ==> IsDirected(erd.perEntity, st.joins[k], directed[|st.foreign| + k])
    requires IsFinished(erd.perEntity, directed + guesses, ends, erd.relationships[ends])
    ensures FinishedWell(entities, facts, erd, ends)
  {
    hide AllBacked, States, StatesJoin, Decided, Recorded, IsKey, AllTrustedNotNull;
    var rel := erd.relationships[ends];
    if rel.basis != Inferred {
      var r :| r in directed + guesses && EndsOf(r) == ends && r.basis == rel.basis;
      var k :| 0 <= k < |directed| && directed[k] == r;
      if k < |st.foreign| {
        assert r in st.foreign;
        assert Known(entities, facts, ends);
      } else {
        var j := st.joins[k - |st.foreign|];
        assert IsDirected(erd.perEntity, j, directed[|st.foreign| + (k - |st.foreign|)]);
        assert j in st.joins && JoinsEnds(j, ends);
        assert Known(entities, facts, ends);
      }
    }
  }
}
