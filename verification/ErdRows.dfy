/** What a cardinality of the entity-relationship model says about the rows of a database in
    which the declared and tested facts hold. */
module ErdRows {
  import opened Prelude
  import opened Erd

  /** A row by lower-cased column name; None is a null. */
  type Row = map<string, Option<string>>

  type Database = map<string, seq<Row>>

  function Cell(row: Row, column: string): Option<string> { if Lower(column) in row then row[Lower(column)] else None }

  function RowsOf(db: Database, entity: string): seq<Row> { if entity in db then db[entity] else [] }

  /** SQL equality: a null equals nothing. */
  predicate Equal(a: Option<string>, b: Option<string>) { a.Some? && a == b }

  /** The join condition of a relationship holds between a referencing and a referenced row. */
  predicate Matches(ends: Ends, a: Row, b: Row)
    requires |ends.fromColumns| == |ends.toColumns|
  {
    forall i :: 0 <= i < |ends.fromColumns| ==> Equal(Cell(a, ends.fromColumns[i]), Cell(b, ends.toColumns[i]))
  }

  /** No two rows agree on all the columns, nulls aside. */
  predicate UniqueIn(rows: seq<Row>, columns: seq<string>) {
    forall i, j :: 0 <= i < j < |rows| ==> !Agree(rows[i], rows[j], columns)
  }

  predicate Agree(a: Row, b: Row, columns: seq<string>) { forall c :: c in columns ==> Equal(Cell(a, c), Cell(b, c)) }

  /** Every declared or tested key fact is true of the rows. */
  ghost predicate FactsHold(db: Database, facts: set<Fact>) {
    forall f :: f in facts && (f.Unique? || f.PrimaryKey?) && f.basis != Inferred ==>
        UniqueIn(RowsOf(db, f.entity), f.columns)
  }

  ghost predicate AtMostOneReferenced(db: Database, ends: Ends)
    requires |ends.fromColumns| == |ends.toColumns|
  {
    forall a, i, j :: a in RowsOf(db, ends.from) && 0 <= i < j < |RowsOf(db, ends.to)| ==>
      !(Matches(ends, a, RowsOf(db, ends.to)[i]) && Matches(ends, a, RowsOf(db, ends.to)[j]))
  }

  ghost predicate AtMostOneReferencing(db: Database, ends: Ends)
    requires |ends.fromColumns| == |ends.toColumns|
  {
    forall b, i, j :: b in RowsOf(db, ends.to) && 0 <= i < j < |RowsOf(db, ends.from)| ==>
      !(Matches(ends, RowsOf(db, ends.from)[i], b) && Matches(ends, RowsOf(db, ends.from)[j], b))
  }

  /** A column of one list is, case aside, a column of the other. */
  lemma ColumnAmong(a: seq<string>, b: seq<string>, c: string)
    requires SameColumns(a, b) && c in a
    ensures exists i :: 0 <= i < |b| && Lower(b[i]) == Lower(c)
  {
    hide Lower;
    var k :| 0 <= k < |a| && a[k] == c;
    assert Lowered(a)[k] in multiset(Lowered(a));
    assert Lower(c) in Lowered(b);
    var i :| 0 <= i < |Lowered(b)| && Lowered(b)[i] == Lower(c);
  }

  /** Rows that agree on columns agree on the same columns in another order or case. */
  lemma AgreeOnSame(a: Row, b: Row, x: seq<string>, y: seq<string>)
    requires SameColumns(x, y) && Agree(a, b, y)
    ensures Agree(a, b, x)
  {
    hide Lower, SameColumns;
    forall c | c in x ensures Equal(Cell(a, c), Cell(b, c)) {
      ColumnAmong(x, y, c);
      var i :| 0 <= i < |y| && Lower(y[i]) == Lower(c);
      assert Equal(Cell(a, y[i]), Cell(b, y[i]));
    }
  }

  lemma SameBetween(a: seq<string>, b: seq<string>, c: seq<string>)
    requires SameColumns(a, b) && SameColumns(b, c)
    ensures SameColumns(a, c)
  {
  }

  /** A trusted key of the model is unique in the rows. */
  lemma TrustedKeysAreUnique(entities: map<string, EntityInput>, facts: set<Fact>, erd: Erd, db: Database,
      entity: string, columns: seq<string>)
    requires Faithful(entities, facts, erd) && FactsHold(db, facts) && IsKey(erd.perEntity, entity, columns)
    ensures UniqueIn(RowsOf(db, entity), columns)
  {
    hide States, Known, Decided, UniqueIn, TrustedKey, FactsHold;
    var f := erd.perEntity[entity];
    var key :| (f.primary == Some(key) || key in f.unique) && TrustedKey(key, columns);
    BackedKeyIsUnique(facts, db, entity, key, columns);
  }

  lemma BackedKeyIsUnique(facts: set<Fact>, db: Database, entity: string, key: Key, columns: seq<string>)
    requires Backed(facts, entity, key) && TrustedKey(key, columns) && FactsHold(db, facts)
    ensures UniqueIn(RowsOf(db, entity), columns)
  {
    hide SameColumns, UniqueIn;
    var fact :| fact in facts && StatesKey(fact, entity, key.columns);
    SameBetween(fact.columns, key.columns, columns);
    UniqueOnSame(RowsOf(db, entity), fact.columns, columns);
  }

  lemma UniqueOnSame(rows: seq<Row>, x: seq<string>, y: seq<string>)
    requires SameColumns(x, y) && UniqueIn(rows, x)
    ensures UniqueIn(rows, y)
  {
    hide SameColumns, Agree;
    forall i, j | 0 <= i < j < |rows| ensures !Agree(rows[i], rows[j], y) {
      if Agree(rows[i], rows[j], y) { AgreeOnSame(rows[i], rows[j], x, y); }
    }
  }

  /** Two rows that match the same row agree on the columns they match by. */
  lemma MatchedAgree(ends: Ends, a: Row, b: Row, c: Row)
    requires |ends.fromColumns| == |ends.toColumns|
    ensures Matches(ends, a, b) && Matches(ends, a, c) ==> Agree(b, c, ends.toColumns)
    ensures Matches(ends, b, a) && Matches(ends, c, a) ==> Agree(b, c, ends.fromColumns)
  {
    hide Lower;
    if Matches(ends, a, b) && Matches(ends, a, c) {
      forall x | x in ends.toColumns ensures Equal(Cell(b, x), Cell(c, x)) {
        var i :| 0 <= i < |ends.toColumns| && ends.toColumns[i] == x;
        assert Equal(Cell(a, ends.fromColumns[i]), Cell(b, x)) && Equal(Cell(a, ends.fromColumns[i]), Cell(c, x));
      }
    }
    if Matches(ends, b, a) && Matches(ends, c, a) {
      forall x | x in ends.fromColumns ensures Equal(Cell(b, x), Cell(c, x)) {
        var i :| 0 <= i < |ends.fromColumns| && ends.fromColumns[i] == x;
        assert Equal(Cell(b, x), Cell(a, ends.toColumns[i])) && Equal(Cell(c, x), Cell(a, ends.toColumns[i]));
      }
    }
  }

  lemma KnownEndsPair(entities: map<string, EntityInput>, facts: set<Fact>, ends: Ends)
    requires Known(entities, facts, ends)
    ensures |ends.fromColumns| == |ends.toColumns|
  {
    hide FirstSpelling;
  }

  /** No fan-out: unless its cardinality is Unknown, a relationship that is not a guess lets a
      referencing row match at most one referenced row, and OneToOne holds both ways. */
  lemma NoFanOut(entities: map<string, EntityInput>, facts: set<Fact>, erd: Erd, db: Database, ends: Ends)
    requires Faithful(entities, facts, erd) && FactsHold(db, facts)
    requires ends in erd.relationships && erd.relationships[ends].basis != Inferred
    ensures |ends.fromColumns| == |ends.toColumns|
    ensures erd.relationships[ends].cardinality != Unknown ==> AtMostOneReferenced(db, ends)
    ensures erd.relationships[ends].cardinality == OneToOne ==> AtMostOneReferencing(db, ends)
  {
    hide Known, FactsHold, AllBacked, States, Matches, Agree, IsKey;
    KnownEndsPair(entities, facts, ends);
    var cardinality := erd.relationships[ends].cardinality;
    assert cardinality == Decided(erd.perEntity, erd.relationships[ends].basis, ends);
    if cardinality != Unknown { ReferencedOnce(entities, facts, erd, db, ends); }
    if cardinality == OneToOne { ReferencingOnce(entities, facts, erd, db, ends); }
  }

  lemma ReferencedOnce(entities: map<string, EntityInput>, facts: set<Fact>, erd: Erd, db: Database, ends: Ends)
    requires Faithful(entities, facts, erd) && FactsHold(db, facts) && |ends.fromColumns| == |ends.toColumns|
    requires IsKey(erd.perEntity, ends.to, ends.toColumns)
    ensures AtMostOneReferenced(db, ends)
  {
    hide Faithful, FactsHold, Matches, Agree, IsKey;
    TrustedKeysAreUnique(entities, facts, erd, db, ends.to, ends.toColumns);
    var rows := RowsOf(db, ends.to);
    forall a, i, j | a in RowsOf(db, ends.from) && 0 <= i < j < |rows|
        ensures !(Matches(ends, a, rows[i]) && Matches(ends, a, rows[j])) {
      MatchedAgree(ends, a, rows[i], rows[j]);
      assert !Agree(rows[i], rows[j], ends.toColumns);
    }
  }

  lemma ReferencingOnce(entities: map<string, EntityInput>, facts: set<Fact>, erd: Erd, db: Database, ends: Ends)
    requires Faithful(entities, facts, erd) && FactsHold(db, facts) && |ends.fromColumns| == |ends.toColumns|
    requires IsKey(erd.perEntity, ends.from, ends.fromColumns)
    ensures AtMostOneReferencing(db, ends)
  {
    hide Faithful, FactsHold, Matches, Agree, IsKey;
    TrustedKeysAreUnique(entities, facts, erd, db, ends.from, ends.fromColumns);
    var rows := RowsOf(db, ends.from);
    forall b, i, j | b in RowsOf(db, ends.to) && 0 <= i < j < |rows|
        ensures !(Matches(ends, rows[i], b) && Matches(ends, rows[j], b)) {
      MatchedAgree(ends, b, rows[i], rows[j]);
      assert !Agree(rows[i], rows[j], ends.fromColumns);
    }
  }
}
