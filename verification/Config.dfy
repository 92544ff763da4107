/** Layered configuration: settings recorded in precedence order, the keys still in effect,
    and the nested table rebuilt from them. */
module Config {
  import opened Prelude

  type Key = seq<string>

  /** A configuration value as written. A whole table can be one value: an inline table set in
      the environment, or a secret reference. */
  datatype Value = Scalar(text: string) | List(items: seq<Value>) | TableValue(entries: map<string, Value>)

  datatype Setting = Setting(value: Value, source: string, seqno: nat)

  type History = map<Key, seq<Setting>>

  /** One recorded setting. */
  datatype Entry = Entry(key: Key, value: Value, source: string)

  /** One key is a strict ancestor of the other. */
  predicate Related(a: Key, b: Key) { a != b && (b <= a || a <= b) }

  // ---- recording --------------------------------------------------------------------

  function SettingsOf(history: History, key: Key): seq<Setting> { if key in history then history[key] else [] }

  /** The history of a log of settings: each key's settings in order, numbered by position. */
  function HistoryOf(log: seq<Entry>): History {
    if log == [] then map[] else
      var n := |log| - 1;
      var before, e := HistoryOf(log[..n]), log[n];
      before[e.key := SettingsOf(before, e.key) + [Setting(e.value, e.source, n)]]
  }

  /** Accumulates settings in precedence order. */
  class Layers {
    var history: History
    var nextSeq: nat
    ghost var log: seq<Entry>

    ghost predicate Valid() reads this { history == HistoryOf(log) && nextSeq == |log| }

    constructor ()
      ensures Valid() && log == []
    {
      history, nextSeq, log := map[], 0, [];
    }

    method Record(key: Key, value: Value, source: string)
      requires Valid()
      modifies this
      ensures Valid() && log == old(log) + [Entry(key, value, source)]
    {
      var s := nextSeq;
      nextSeq := nextSeq + 1;
      history := history[key := SettingsOf(history, key) + [Setting(value, source, s)]];
      log := log + [Entry(key, value, source)];
      assert log[..|log| - 1] == old(log);
    }
  }

  /** A key's history is every setting of it in the log, in order, each with its place. */
  lemma {:induction false} HistoryIsWhole(log: seq<Entry>, key: Key)
    ensures
      var settings := SettingsOf(HistoryOf(log), key);
      && (forall i :: 0 <= i < |settings| ==>
            && settings[i].seqno < |log|
            && log[settings[i].seqno] == Entry(key, settings[i].value, settings[i].source))
      && (forall i, j :: 0 <= i < j < |settings| ==> settings[i].seqno < settings[j].seqno)
      && forall j: nat :: j < |log| && log[j].key == key ==> exists i :: 0 <= i < |settings| && settings[i].seqno == j
  {
    if log != [] {
      var n := |log| - 1;
      HistoryIsWhole(log[..n], key);
      HistoryStep(log, key);
      var before, settings := SettingsOf(HistoryOf(log[..n]), key), SettingsOf(HistoryOf(log), key);
      hide HistoryOf, SettingsOf;
      forall i | 0 <= i < |before|
        ensures before[i].seqno < n && log[before[i].seqno] == Entry(key, before[i].value, before[i].source)
      {
        assert log[..n][before[i].seqno] == log[before[i].seqno];
      }
      forall j: nat | j < |log| && log[j].key == key ensures exists i :: 0 <= i < |settings| && settings[i].seqno == j {
        if j == n {
          assert settings[|before|].seqno == n;
        } else {
          assert log[..n][j].key == key;
          var i :| 0 <= i < |before| && before[i].seqno == j;
          assert settings[i].seqno == j;
        }
      }
    }
  }

  lemma HistoryStep(log: seq<Entry>, key: Key)
    requires log != []
    ensures
      var n := |log| - 1;
      var before, last := SettingsOf(HistoryOf(log[..n]), key), Setting(log[n].value, log[n].source, n);
      SettingsOf(HistoryOf(log), key) == if log[n].key == key then before + [last] else before
  {
  }

  // ---- which keys are in effect -----------------------------------------------------

  function Last(settings: seq<Setting>): Setting requires settings != [] { settings[|settings| - 1] }

  predicate Ordinary(history: History) { forall key :: key in history ==> history[key] != [] }

  /** Keys whose latest setting is not replaced by a later setting of a related key. */
  function LiveKeys(history: History): set<Key>
    requires Ordinary(history)
  {
    set key | key in history &&
      !exists other :: other in history && Last(history[other]).seqno > Last(history[key]).seqno && Related(other, key)
  }

  /** Where a key was last set. */
  ghost predicate LastSet(log: seq<Entry>, key: Key, i: nat) {
    i < |log| && log[i].key == key && forall j :: i < j < |log| ==> log[j].key != key
  }

  lemma {:induction false} HistoryKeepsLast(log: seq<Entry>)
    ensures Ordinary(HistoryOf(log))
    ensures forall key :: key in HistoryOf(log) ==> Last(HistoryOf(log)[key]).seqno < |log|
    ensures forall key :: key in HistoryOf(log) ==> LastSet(log, key, Last(HistoryOf(log)[key]).seqno)
    ensures forall key ::
        key in HistoryOf(log) ==> Last(HistoryOf(log)[key]).value == log[Last(HistoryOf(log)[key]).seqno].value
    ensures forall i :: 0 <= i < |log| ==> log[i].key in HistoryOf(log)
  {
    if log != [] {
      var n := |log| - 1;
      HistoryKeepsLast(log[..n]);
      var before, now := HistoryOf(log[..n]), HistoryOf(log);
      forall key | key in now
          ensures LastSet(log, key, Last(now[key]).seqno) && Last(now[key]).value == log[Last(now[key]).seqno].value {
        if key != log[n].key {
          assert LastSet(log[..n], key, Last(before[key]).seqno);
          var i := Last(before[key]).seqno;
          assert log[..n][i] == log[i];
          forall j | i < j < |log| ensures log[j].key != key { if j < n { assert log[..n][j] == log[j]; } }
        }
      }
      forall i | 0 <= i < |log| ensures log[i].key in now { if i < n { assert log[..n][i] == log[i]; } }
    }
  }

  /** No live key is an ancestor of another. */
  lemma LiveKeysNeverConflict(log: seq<Entry>)
    ensures Ordinary(HistoryOf(log))
    ensures forall a, b :: a in LiveKeys(HistoryOf(log)) && b in LiveKeys(HistoryOf(log)) ==> !Related(a, b)
  {
    HistoryKeepsLast(log);
    var h := HistoryOf(log);
    forall a, b | a in LiveKeys(h) && b in LiveKeys(h) && Related(a, b) ensures false {
      var i, j := Last(h[a]).seqno, Last(h[b]).seqno;
      assert LastSet(log, a, i) && LastSet(log, b, j);
      assert i != j;
      assert Related(b, a);
    }
  }

  // ---- nested tables ----------------------------------------------------------------

  datatype Tree = Leaf(value: Value) | Node(children: map<string, Tree>)

  /** The reference: writing one setting replaces a scalar on the way to it, and whatever
      value or whole table was there. */
  function Write(table: map<string, Tree>, key: Key, value: Value): map<string, Tree>
    decreases |key|
  {
    if key == [] then map[]
    else if |key| == 1 then table[key[0] := Leaf(value)]
    else
      var child := if key[0] in table && table[key[0]].Node? then table[key[0]].children else map[];
      table[key[0] := Node(Write(child, key[1..], value))]
  }

  function WriteAll(log: seq<Entry>): map<string, Tree> {
    if log == [] then map[] else
      var n := |log| - 1;
      Write(WriteAll(log[..n]), log[n].key, log[n].value)
  }

  /** The leaf at a path. */
  function Get(table: map<string, Tree>, key: Key): Option<Value>
    decreases |key|
  {
    if key == [] || key[0] !in table then None
    else match table[key[0]]
      case Leaf(v) => if |key| == 1 then Some(v) else None
      case Node(children) => Get(children, key[1..])
  }

  /** No table below the root is empty. */
  ghost predicate Pruned(t: Tree) {
    t.Node? ==> forall x ::
        x in t.children ==> Pruned(t.children[x]) && (t.children[x].Node? ==> t.children[x].children != map[])
  }

  lemma {:induction false} GetAfterWrite(table: map<string, Tree>, key: Key, value: Value, k: Key)
    requires k != []
    ensures Get(Write(table, key, value), k) ==
      if k == key then Some(value) else if Related(key, k) then None else Get(table, k)
    decreases |key|
  {
    if key != [] && key[0] == k[0] {
      assert key == [key[0]] + key[1..] && k == [k[0]] + k[1..];
      if |key| > 1 && |k| > 1 {
        var child := if key[0] in table && table[key[0]].Node? then table[key[0]].children else map[];
        GetAfterWrite(child, key[1..], value, k[1..]);
      }
    }
  }

  lemma {:induction false} WriteKeepsPruned(table: map<string, Tree>, key: Key, value: Value)
    requires Pruned(Node(table))
    ensures Pruned(Node(Write(table, key, value))) && (key != [] ==> Write(table, key, value) != map[])
    decreases |key|
  {
    if |key| > 1 {
      var child := if key[0] in table && table[key[0]].Node? then table[key[0]].children else map[];
      assert Pruned(Node(child)) by { if child != map[] { assert table[key[0]] == Node(child); } }
      WriteKeepsPruned(child, key[1..], value);
      assert key[0] in Write(table, key, value);
    } else if |key| == 1 {
      assert key[0] in Write(table, key, value);
    }
  }

  /** A non-empty pruned table holds a leaf. */
  lemma {:induction false} SomeLeaf(t: Tree) returns (key: Key)
    requires t.Node? && Pruned(t) && t.children != map[]
    ensures Get(t.children, key).Some?
    decreases t
  {
    var x :| x in t.children;
    if t.children[x].Leaf? {
      key := [x];
    } else {
      var rest := SomeLeaf(t.children[x]);
      key := [x] + rest;
    }
  }

  /** Pruned tables with the same leaves are the same. */
  lemma {:induction false} SameLeavesSameTable(a: Tree, b: Tree)
    requires a.Node? && b.Node? && Pruned(a) && Pruned(b)
    requires forall key :: Get(a.children, key) == Get(b.children, key)
    ensures a == b
    decreases a
  {
    SameEntries(a, b);
    SameEntries(b, a);
    forall x | x in a.children && x in b.children ensures a.children[x] == b.children[x] {
      assert Get(a.children, [x]) == Get(b.children, [x]);
      if a.children[x].Node? && b.children[x].Node? {
        forall key ensures Get(a.children[x].children, key) == Get(b.children[x].children, key) {
          assert Get(a.children, [x] + key) == Get(b.children, [x] + key);
          assert ([x] + key)[1..] == key;
        }
        SameLeavesSameTable(a.children[x], b.children[x]);
      }
    }
    assert a.children == b.children;
  }

  lemma SameEntries(a: Tree, b: Tree)
    requires a.Node? && b.Node? && Pruned(a)
    requires forall key :: Get(a.children, key) == Get(b.children, key)
    ensures forall x :: x in a.children ==> x in b.children
  {
    forall x | x in a.children ensures x in b.children {
      if a.children[x].Leaf? {
        assert Get(a.children, [x]).Some?;
      } else {
        var rest := SomeLeaf(a.children[x]);
        assert ([x] + rest)[1..] == rest;
        assert Get(a.children, [x] + rest).Some?;
      }
    }
  }

  // ---- rebuilding the table ---------------------------------------------------------

  /** Puts a leaf in, making the tables on the way; nothing if a leaf is in the way. */
  function Put(table: map<string, Tree>, key: Key, value: Value): Option<map<string, Tree>>
    requires key != []
    decreases |key|
  {
    if |key| == 1 then Some(table[key[0] := Leaf(value)])
    else
      var entry := if key[0] in table then table[key[0]] else Node(map[]);
      if entry.Leaf? then None else
        var child := Put(entry.children, key[1..], value);
        if child.None? then None else Some(table[key[0] := Node(child.value)])
  }

  lemma {:induction false} PutIsWrite(table: map<string, Tree>, key: Key, value: Value)
    requires key != []
    requires forall k :: k < key ==> Get(table, k).None?
    ensures Put(table, key, value) == Some(Write(table, key, value))
    decreases |key|
  {
    if |key| > 1 {
      assert [key[0]] < key;
      assert Get(table, [key[0]]).None?;
      var entry := if key[0] in table then table[key[0]] else Node(map[]);
      forall k | k < key[1..] ensures Get(entry.children, k).None? {
        assert key == [key[0]] + key[1..];
        assert [key[0]] + k < key && ([key[0]] + k)[1..] == k;
        assert Get(table, [key[0]] + k).None?;
      }
      PutIsWrite(entry.children, key[1..], value);
    }
  }

  /** The leaves written so far and no other. */
  ghost predicate Holds(table: map<string, Tree>, history: History, keys: set<Key>)
    requires Ordinary(history) && keys <= history.Keys
  {
    Pruned(Node(table)) &&
        forall k :: k != [] ==> Get(table, k) == if k in keys then Some(Last(history[k]).value) else None
  }

  /** Rebuilds a nested table from the live settings, in any order. A leaf never stands in the
      way of another, and the table is what writing every setting in order gives. */
  method Unflatten(history: History, ghost log: seq<Entry>) returns (root: map<string, Tree>)
    requires history == HistoryOf(log)
    ensures root == WriteAll(log)
  {
    hide HistoryOf, LiveKeys, Holds, Put, Write, WriteAll, Pruned, Get, Related;
    LiveKeysNeverConflict(log);
    root := map[];
    var live := LiveKeys(history);
    LiveAreKeys(history);
    NothingHeld(history);
    var todo := live;
    assert live - todo == {};
    while todo != {}
      invariant todo <= live && Holds(root, history, live - todo)
    {
      var key :| key in todo;
      if key != [] {
        NothingInTheWay(root, history, live - todo, key);
        PutIsWrite(root, key, Last(history[key]).value);
        WriteKeepsHolding(root, history, live - todo, key);
        var next := Put(root, key, Last(history[key]).value);
        root := next.value;
      } else {
        EmptyKeyHolds(root, history, live - todo);
      }
      assert live - (todo - {key}) == (live - todo) + {key};
      todo := todo - {key};
    }
    assert live - todo == live;
    LiveIsWritten(log);
    HeldAreSame(root, WriteAll(log), history, live);
  }

  lemma LiveAreKeys(history: History)
    requires Ordinary(history)
    ensures LiveKeys(history) <= history.Keys
  {
  }

  lemma NothingHeld(history: History)
    requires Ordinary(history)
    ensures Holds(map[], history, {})
  {
  }

  lemma NothingInTheWay(table: map<string, Tree>, history: History, keys: set<Key>, key: Key)
    requires Ordinary(history) && keys <= history.Keys && Holds(table, history, keys)
    requires forall k :: k in keys ==> !Related(k, key)
    ensures forall k :: k < key ==> Get(table, k).None?
  {
    forall k | k < key ensures Get(table, k).None? { if k != [] { assert k in keys ==> !Related(k, key); } }
  }

  lemma EmptyKeyHolds(table: map<string, Tree>, history: History, keys: set<Key>)
    requires Ordinary(history) && keys <= history.Keys && [] in history && Holds(table, history, keys)
    ensures Holds(table, history, keys + {[]})
  {
    hide Pruned, Get;
  }

  lemma HeldAreSame(a: map<string, Tree>, b: map<string, Tree>, history: History, keys: set<Key>)
    requires Ordinary(history) && keys <= history.Keys && Holds(a, history, keys) && Holds(b, history, keys)
    ensures a == b
  {
    hide Pruned;
    forall k ensures Get(a, k) == Get(b, k) {}
    SameLeavesSameTable(Node(a), Node(b));
  }

  lemma WriteKeepsHolding(table: map<string, Tree>, history: History, keys: set<Key>, key: Key)
    requires Ordinary(history) && keys <= history.Keys && key in history && key != [] && Holds(table, history, keys)
    requires forall k :: k in keys ==> !Related(k, key)
    ensures Holds(Write(table, key, Last(history[key]).value), history, keys + {key})
  {
    var v := Last(history[key]).value;
    WriteKeepsPruned(table, key, v);
    forall k | k != []
        ensures Get(Write(table, key, v), k) == if k in keys + {key} then Some(Last(history[k]).value) else None {
      GetAfterWrite(table, key, v, k);
      assert Related(key, k) <==> Related(k, key);
    }
  }

  /** A key's last setting is at `i`, and no related key was set after it. */
  ghost predicate Stands(log: seq<Entry>, key: Key, i: nat) {
    LastSet(log, key, i) && forall j :: i < j < |log| ==> !Related(log[j].key, key)
  }

  lemma StandsBefore(log: seq<Entry>, key: Key, i: nat)
    requires log != []
    ensures log[|log| - 1].key != key && !Related(log[|log| - 1].key, key) ==>
        (Stands(log[..|log| - 1], key, i) <==> Stands(log, key, i))
    ensures log[|log| - 1].key != key && Related(log[|log| - 1].key, key) ==> !Stands(log, key, i)
    ensures log[|log| - 1].key == key ==> (Stands(log, key, i) <==> i == |log| - 1)
  {
    var n := |log| - 1;
    assert forall j :: 0 <= j < n ==> log[..n][j] == log[j];
  }

  lemma {:induction false} WrittenLast(log: seq<Entry>, k: Key)
    requires k != []
    ensures Get(WriteAll(log), k).Some? <==> exists i: nat :: Stands(log, k, i)
    ensures forall i: nat :: Stands(log, k, i) ==> Get(WriteAll(log), k) == Some(log[i].value)
    decreases |log|
  {
    if log != [] {
      var n := |log| - 1;
      GetAfterWrite(WriteAll(log[..n]), log[n].key, log[n].value, k);
      WrittenLast(log[..n], k);
      StandsBefore(log, k, n);
      forall i: nat | Stands(log, k, i) ensures Get(WriteAll(log), k) == Some(log[i].value) { StandsBefore(log, k, i); }
      if i: nat :| Stands(log[..n], k, i) { StandsBefore(log, k, i); }
    }
  }

  /** Step-by-step writing leaves exactly the live keys, each with its latest value. */
  lemma LiveIsWritten(log: seq<Entry>)
    ensures Ordinary(HistoryOf(log)) && Holds(WriteAll(log), HistoryOf(log), LiveKeys(HistoryOf(log)))
  {
    HistoryKeepsLast(log);
    var h := HistoryOf(log);
    WriteAllPruned(log);
    forall k | k != [] ensures Get(WriteAll(log), k) == if k in LiveKeys(h) then Some(Last(h[k]).value) else None {
      WrittenLast(log, k);
      LiveMeansLast(log, k);
    }
  }

  lemma {:induction false} WriteAllPruned(log: seq<Entry>)
    ensures Pruned(Node(WriteAll(log)))
    decreases |log|
  {
    if log != [] {
      WriteAllPruned(log[..|log| - 1]);
      WriteKeepsPruned(WriteAll(log[..|log| - 1]), log[|log| - 1].key, log[|log| - 1].value);
    }
  }

  lemma LiveMeansLast(log: seq<Entry>, k: Key)
    requires Ordinary(HistoryOf(log))
    ensures k in LiveKeys(HistoryOf(log)) <==> exists i: nat :: Stands(log, k, i)
    ensures k in LiveKeys(HistoryOf(log)) ==>
        forall i: nat :: Stands(log, k, i) ==> Last(HistoryOf(log)[k]).value == log[i].value
  {
    hide HistoryOf, Related;
    HistoryKeepsLast(log);
    var h := HistoryOf(log);
    if k in h {
      var i := Last(h[k]).seqno;
      assert LastSet(log, k, i);
      forall j | i < j < |log| && Related(log[j].key, k) ensures k !in LiveKeys(h) {
        var other := log[j].key;
        assert LastSet(log, other, Last(h[other]).seqno);
        assert Last(h[other]).seqno >= j;
      }
      assert k in LiveKeys(h) ==> Stands(log, k, i);
      forall x: nat | Stands(log, k, x) ensures x == i && k in LiveKeys(h) { StandingIsLive(log, k, x); }
    }
  }

  lemma StandingIsLive(log: seq<Entry>, k: Key, i: nat)
    requires Stands(log, k, i)
    ensures Ordinary(HistoryOf(log)) && k in LiveKeys(HistoryOf(log)) && Last(HistoryOf(log)[k]).seqno == i
  {
    hide HistoryOf, Related;
    HistoryKeepsLast(log);
    var h := HistoryOf(log);
    assert log[i].key == k && LastSet(log, k, Last(h[k]).seqno);
    forall other | other in h && Last(h[other]).seqno > i ensures !Related(other, k) {
      assert LastSet(log, other, Last(h[other]).seqno);
    }
  }

  // ---- one layer over another -------------------------------------------------------

  /** A table to walk into; secret references are values, whatever they look like. */
  predicate Walked(v: Value) { v.TableValue? && v.entries.Keys != {"secret"} }

  /** The value a table holds at a path: a leaf, never a table that is walked into. */
  function At(table: map<string, Value>, key: Key): Option<Value>
    decreases |key|
  {
    if key == [] || key[0] !in table then None
    else if Walked(table[key[0]]) then At(table[key[0]].entries, key[1..])
    else if |key| == 1 then Some(table[key[0]]) else None
  }

  /** Flattens a table into leaf key paths, in any order of its keys. */
  method Flatten(prefix: Key, v: Value) returns (out: seq<(Key, Value)>)
    requires v.TableValue?
    ensures forall k, x :: (k, x) in out <==> prefix <= k && At(v.entries, k[|prefix|..]) == Some(x)
    decreases v
  {
    out := [];
    var todo := v.entries.Keys;
    while todo != {}
      invariant todo <= v.entries.Keys
      invariant forall k, x :: (k, x) in out <==>
        prefix < k && k[|prefix|] !in todo && At(v.entries, k[|prefix|..]) == Some(x)
    {
      var name :| name in todo;
      var here, value := prefix + [name], v.entries[name];
      ghost var before := out;
      if Walked(value) {
        var inner := Flatten(here, value);
        out := out + inner;
        forall k, x ensures (k, x) in inner <==>
            prefix < k && k[|prefix|] == name && At(v.entries, k[|prefix|..]) == Some(x) {
          if prefix < k && k[|prefix|] == name { assert here <= k && k[|prefix|..][1..] == k[|here|..]; }
        }
      } else {
        out := out + [(here, value)];
        forall k, x ensures (k, x) == (here, value) <==>
            prefix < k && k[|prefix|] == name && At(v.entries, k[|prefix|..]) == Some(x) {
          if prefix < k && k[|prefix|] == name && |k| == |here| { assert k == here; }
        }
      }
      assert forall k, x ::
          (k, x) in out <==>
          (k, x) in before || (prefix < k && k[|prefix|] == name && At(v.entries, k[|prefix|..]) == Some(x));
      todo := todo - {name};
    }
  }

  /** The values on the way down a path, from the table itself. */
  ghost predicate Path(table: map<string, Value>, key: Key, way: seq<Value>) {
    && |way| == |key| + 1 && way[0] == TableValue(table)
    && forall i :: 0 <= i < |key| ==>
        way[i].TableValue? && key[i] in way[i].entries && way[i + 1] == way[i].entries[key[i]]
  }

  /** `{ secret = … }` and nothing else. */
  predicate IsSecret(v: Value) { v.TableValue? && "secret" in v.entries && |v.entries| == 1 }

  /** A path ends in a leaf: below the root it passes through tables that are no secret references,
      and it ends in a scalar, a list or a secret reference. */
  ghost predicate Ends(table: map<string, Value>, key: Key, x: Value) {
    key != [] && exists way :: Leads(table, key, x, way)
  }

  ghost predicate Leads(table: map<string, Value>, key: Key, x: Value, way: seq<Value>) {
    && Path(table, key, way) && way[|key|] == x && (x.TableValue? ==> IsSecret(x))
    && forall i :: 0 < i < |key| ==> !IsSecret(way[i])
  }

  lemma SecretsAreNotWalked(v: Value)
    ensures Walked(v) <==> v.TableValue? && !IsSecret(v)
  {
    if v.TableValue? {
      assert |v.entries| == |v.entries.Keys|;
      if IsSecret(v) {
        assert |v.entries.Keys - {"secret"}| == 0;
        assert v.entries.Keys == {"secret"};
      }
    }
  }

  /** The leaves of a table are the ends of its paths. */
  lemma {:induction false} LeavesAreEnds(table: map<string, Value>, key: Key, x: Value)
    ensures At(table, key) == Some(x) <==> Ends(table, key, x)
    decreases |key|
  {
    hide Walked, IsSecret;
    if key != [] && key[0] in table {
      var v := table[key[0]];
      SecretsAreNotWalked(v);
      SecretsAreNotWalked(x);
      if Walked(v) {
        LeavesAreEnds(v.entries, key[1..], x);
        EndsBelow(table, key, x);
      } else {
        EndsHere(table, key, x);
      }
    } else {
      if key != [] { NoWay(table, key, x); }
    }
  }

  lemma NoWay(table: map<string, Value>, key: Key, x: Value)
    requires key != [] && key[0] !in table
    ensures !Ends(table, key, x)
  {
  }

  lemma EndsHere(table: map<string, Value>, key: Key, x: Value)
    requires key != [] && key[0] in table && (table[key[0]].TableValue? ==> IsSecret(table[key[0]]))
    ensures Ends(table, key, x) <==> |key| == 1 && x == table[key[0]]
  {
    hide IsSecret;
    if |key| == 1 && x == table[key[0]] { assert Leads(table, key, x, [TableValue(table), x]); }
    if way: seq<Value> :| Leads(table, key, x, way) {
      assert way[1] == table[key[0]];
      assert |key| == 1;
    }
  }

  lemma EndsBelow(table: map<string, Value>, key: Key, x: Value)
    requires key != [] && key[0] in table && table[key[0]].TableValue? && !IsSecret(table[key[0]])
    ensures Ends(table, key, x) <==> Ends(table[key[0]].entries, key[1..], x)
  {
    hide IsSecret;
    var v := table[key[0]];
    if way: seq<Value> :| Leads(table, key, x, way) {
      assert way[1] == v;
      assert |key| == 1 ==> x == v;
      assert Leads(v.entries, key[1..], x, way[1..]);
    }
    if way: seq<Value> :| key[1..] != [] && Leads(v.entries, key[1..], x, way) {
      var longer := [TableValue(table)] + way;
      assert way[0] == v;
      assert Path(table, key, longer);
      forall i | 0 < i < |key| ensures !IsSecret(longer[i]) { assert longer[i] == way[i - 1]; }
      assert Leads(table, key, x, longer);
    }
  }

  lemma {:induction false} LeavesNeverConflict(table: map<string, Value>, a: Key, b: Key)
    requires At(table, a).Some? && At(table, b).Some?
    ensures !Related(a, b)
    decreases |a|
  {
    if a[0] == b[0] {
      if Walked(table[a[0]]) {
        LeavesNeverConflict(table[a[0]].entries, a[1..], b[1..]);
      } else {
        assert a == [a[0]] && b == [b[0]];
      }
    }
  }

  /** `layer` records exactly the leaves of `table`. */
  ghost predicate Records(layer: seq<Entry>, table: map<string, Value>) {
    && (forall i :: 0 <= i < |layer| ==> At(table, layer[i].key) == Some(layer[i].value))
    && forall k :: At(table, k).Some? ==> exists i :: 0 <= i < |layer| && layer[i].key == k
  }

  ghost predicate Touches(table: map<string, Value>, k: Key) {
    exists other :: At(table, other).Some? && Related(other, k)
  }

  /** A layer recorded over others sets its own leaves, drops what conflicts with them, and
      keeps everything else. */
  lemma LayerOverrides(log: seq<Entry>, layer: seq<Entry>, table: map<string, Value>, k: Key)
    requires Records(layer, table) && k != []
    ensures Get(WriteAll(log + layer), k) ==
      if At(table, k).Some? then At(table, k)
      else if Touches(table, k) then None
      else Get(WriteAll(log), k)
  {
    var all := log + layer;
    WrittenLast(all, k);
    WrittenLast(log, k);
    assert forall j :: 0 <= j < |layer| ==> all[|log| + j] == layer[j];
    assert forall j :: 0 <= j < |log| ==> all[j] == log[j];
    if At(table, k).Some? {
      var i := LastOf(layer, k);
      forall j | |log| + i < j < |all| ensures all[j].key != k && !Related(all[j].key, k) {
        assert all[j] == layer[j - |log|];
        LeavesNeverConflict(table, all[j].key, k);
      }
      assert Stands(all, k, |log| + i);
    } else if Touches(table, k) {
      var other :| At(table, other).Some? && Related(other, k);
      var j :| 0 <= j < |layer| && layer[j].key == other;
      forall i: nat ensures !Stands(all, k, i) { Dropped(log, layer, table, k, i, j); }
    } else {
      forall i: nat ensures Stands(all, k, i) <==> Stands(log, k, i) { Untouched(log, layer, table, k, i); }
    }
  }

  /** A layer that sets one key inside a table leaves every other key of that table as it was. */
  lemma SiblingsSurvive(log: seq<Entry>, layer: seq<Entry>, outer: string, name: string, x: Value, sibling: string)
    requires !x.TableValue? && name != "secret" && sibling != name
    requires Records(layer, map[outer := TableValue(map[name := x])])
    ensures Get(WriteAll(log + layer), [outer, name]) == Some(x)
    ensures Get(WriteAll(log + layer), [outer, sibling]) == Get(WriteAll(log), [outer, sibling])
  {
    var table := map[outer := TableValue(map[name := x])];
    assert "secret" !in table[outer].entries.Keys;
    forall k ensures At(table, k) == if k == [outer, name] then Some(x) else None {
      if k != [] && k[0] == outer { assert k == [outer] + k[1..]; }
      if |k| > 1 && k[0] == outer && k[1] == name { assert k == [outer, name] + k[2..]; }
    }
    hide At, Get, WriteAll, Records;
    LayerOverrides(log, layer, table, [outer, name]);
    LayerOverrides(log, layer, table, [outer, sibling]);
    assert [outer, name][1] != [outer, sibling][1];
    assert !Related([outer, name], [outer, sibling]);
  }

  lemma Dropped(log: seq<Entry>, layer: seq<Entry>, table: map<string, Value>, k: Key, i: nat, j: nat)
    requires Records(layer, table) && At(table, k).None? && j < |layer| && Related(layer[j].key, k)
    ensures !Stands(log + layer, k, i)
  {
    var all := log + layer;
    assert all[|log| + j] == layer[j];
    assert |log| <= i < |all| ==> all[i] == layer[i - |log|] && At(table, all[i].key).Some?;
  }

  lemma LastOf(layer: seq<Entry>, k: Key) returns (i: nat)
    requires exists j :: 0 <= j < |layer| && layer[j].key == k
    ensures i < |layer| && layer[i].key == k && forall j :: i < j < |layer| ==> layer[j].key != k
  {
    i := |layer| - 1;
    while layer[i].key != k
      invariant 0 <= i < |layer| && forall j :: i < j < |layer| ==> layer[j].key != k
      decreases i
    {
      i := i - 1;
    }
  }

  lemma Untouched(log: seq<Entry>, layer: seq<Entry>, table: map<string, Value>, k: Key, i: nat)
    requires Records(layer, table) && At(table, k).None? && !Touches(table, k)
    ensures Stands(log + layer, k, i) <==> Stands(log, k, i)
  {
    var all := log + layer;
    forall j | |log| <= j < |all| ensures all[j].key != k && !Related(all[j].key, k) {
      assert all[j] == layer[j - |log|];
    }
    assert forall j :: 0 <= j < |log| ==> all[j] == log[j];
  }
}
