/** What health checks conclude about nodes. */
module Findings {
  import opened Prelude

  datatype Status = Pass | Fail | Unknown | Skipped

  datatype Severity = Error | Warn | Info

  datatype Source = Builtin | Declarative | Probe | Plugin | Script
  {
    /** Worked out in-process from facts any host has, so never read from a record. */
    predicate Live() { Builtin? || Declarative? }
  }

  datatype Node = Node(id: string, facts: map<string, string>)

  datatype Finding = Finding(check: string, source: Source, status: Status, severity: Severity, reason: string,
      evidence: map<string, string>)

  /** A check that ran. */
  datatype CheckRun = CheckRun(id: string, source: Source, severity: Severity)

  const NOT_SELECTED := "not selected for this check"

  ghost predicate UniqueIds(nodes: seq<Node>) {
    forall i, j :: 0 <= i < j < |nodes| ==> nodes[i].id != nodes[j].id
  }

  lemma UniqueNode(nodes: seq<Node>, n: Node, m: Node)
    requires UniqueIds(nodes) && n in nodes && m in nodes && n.id == m.id
    ensures n == m
  {
    var i :| 0 <= i < |nodes| && nodes[i] == n;
    var j :| 0 <= j < |nodes| && nodes[j] == m;
  }

  function RunOf(f: Finding): CheckRun { CheckRun(f.check, f.source, f.severity) }

  /** The checks that findings come from, in order. */
  function RunsOf(findings: seq<Finding>): (r: seq<CheckRun>)
    ensures |r| == |findings| && forall i :: 0 <= i < |r| ==> r[i] == RunOf(findings[i])
  {
    seq(|findings|, i requires 0 <= i < |findings| => RunOf(findings[i]))
  }

  /** What a list of answers says about one id. */
  function AnswersFor<T>(answers: seq<(string, T)>, id: string): seq<T> {
    if answers == [] then []
    else
      var init := AnswersFor(answers[..|answers| - 1], id);
      if answers[|answers| - 1].0 == id then init + [answers[|answers| - 1].1] else init
  }

  /** The one answer about an id, if there is exactly one. */
  function OnlyAnswer<T>(answers: seq<(string, T)>, id: string): Option<T> {
    var all := AnswersFor(answers, id);
    if |all| == 1 then Some(all[0]) else None
  }

  /** Every answer is about one of the ids asked about. */
  predicate NoStranger<T(==)>(answers: seq<(string, T)>, ids: seq<string>) {
    forall i :: 0 <= i < |answers| ==> answers[i].0 in ids
  }

  /** Exactly one answer means just that: it is there, and no other answer has its id. */
  lemma {:induction false} OnlyAnswerIsOnly<T>(answers: seq<(string, T)>, id: string)
    ensures OnlyAnswer(answers, id).Some? <==> exists i: nat :: IsOnly(answers, id, i)
    ensures forall i: nat :: IsOnly(answers, id, i) ==> OnlyAnswer(answers, id) == Some(answers[i].1)
  {
    NoAnswers(answers, id);
    if answers != [] {
      var init := answers[..|answers| - 1];
      var last := |answers| - 1;
      OnlyAnswerIsOnly(init, id);
      NoAnswers(init, id);
      if answers[last].0 == id {
        if AnswersFor(init, id) == [] { assert IsOnly(answers, id, last); }
        forall i: nat | IsOnly(answers, id, i) ensures i == last && AnswersFor(init, id) == [] {}
      } else {
        if i: nat :| IsOnly(init, id, i) { assert IsOnly(answers, id, i); }
        forall i: nat | IsOnly(answers, id, i) ensures IsOnly(init, id, i) {}
      }
    }
  }

  ghost predicate IsOnly<T>(answers: seq<(string, T)>, id: string, i: nat) {
    i < |answers| && answers[i].0 == id && forall j :: 0 <= j < |answers| && answers[j].0 == id ==> j == i
  }

  lemma {:induction false} NoAnswers<T>(answers: seq<(string, T)>, id: string)
    ensures AnswersFor(answers, id) == [] <==> forall i :: 0 <= i < |answers| ==> answers[i].0 != id
  {
    if answers != [] { NoAnswers(answers[..|answers| - 1], id); }
  }
}
