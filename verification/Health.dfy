/** The health engine: every check gives every node one finding, findings give a badge, and a
    record of a run rebuilds the badges. Registered checks answer as they like. */
module Health {
  import opened Prelude
  import opened Findings
  import Probe
  import P = Pass

  datatype Health = Healthy | Warning | Failing | Unknowable

  datatype Badge = Badge(health: Health, reasons: seq<string>, findings: seq<Finding>)

  datatype Outcome = Outcome(status: Status, reason: string, evidence: map<string, string>)

  /** What the last run's record says failed, if there is one. */
  type Failures = Option<map<string, string>>

  /** A built-in or declared check: a function of the facts any host has. */
  datatype LiveCheck = LiveCheck(id: string, declared: bool, severity: Option<Severity>, applies: Node -> bool,
      judge: (Node, Failures) -> Outcome)
  {
    function Source(): Source { if declared then Declarative else Builtin }
  }

  /** What a registered check's call comes to: an error or a timeout, or answers about any ids. */
  datatype Reply = Broke(why: string) | Answered(answers: seq<(string, Outcome)>)

  datatype Plugin = Plugin(id: string, severity: Option<Severity>, applies: Node -> bool, answer: seq<Node> -> Reply)

  datatype Script = Script(id: string, severity: Option<Severity>, applies: Node -> bool, trusted: bool,
      runner: Option<seq<Node> -> Reply>)

  datatype Settings = Settings(
    live: seq<LiveCheck>, probes: seq<Probe.ProbeCheck>, plugins: seq<Plugin>, scripts: seq<Script>,
    connection: Option<Probe.Connection>, unknownCountsAs: Health)

  datatype Report = Report(badges: map<string, Badge>, checks: seq<CheckRun>, probed: Probe.ProbeRun)

  // ---- the badge rule ---------------------------------------------------------------

  predicate IsError(f: Finding) { f.status == Fail && f.severity == Error }

  predicate IsDoubt(f: Finding) { f.status == Unknown }

  predicate IsWarning(f: Finding) { f.status == Fail && f.severity == Warn }

  predicate SaysWhy(f: Finding) {
    (f.check == "built" || f.check == "tests_passed") && (f.status == Pass || f.status == Skipped) &&
        !("not selected" <= f.reason)
  }

  function Reasons(findings: seq<Finding>, pick: Finding -> bool): seq<string> {
    if findings == [] then []
    else (if pick(findings[0]) then [findings[0].reason] else []) + Reasons(findings[1..], pick)
  }

  function BadgeOf(findings: seq<Finding>, unknownCountsAs: Health): Badge {
    var errors, doubts, warnings := Reasons(findings, IsError), Reasons(findings, IsDoubt),
        Reasons(findings, IsWarning);
    if errors != [] then Badge(Failing, errors, findings)
    else if doubts != [] && unknownCountsAs == Unknowable then Badge(Unknowable, doubts, findings)
    else if doubts != [] || warnings != [] then Badge(Warning, warnings + doubts, findings)
    else if exists f :: f in findings && f.status == Pass then Badge(Healthy, Reasons(findings, SaysWhy), findings)
    else Badge(Unknowable, ["no enabled check applies to it"], findings)
  }

  lemma {:induction false} ReasonsPicked(findings: seq<Finding>, pick: Finding -> bool)
    ensures Reasons(findings, pick) != [] <==> exists f :: f in findings && pick(f)
  {
    if findings != [] {
      ReasonsPicked(findings[1..], pick);
      assert findings == [findings[0]] + findings[1..];
    }
  }

  /** What each health means: failing exactly on an error; healthy exactly when something
      passed, nothing failed above info and nothing is in doubt; a warning exactly without errors
      on a failed warning or a doubt, unless doubts count as unknowable; and unknowable otherwise. */
  lemma HealthMeans(findings: seq<Finding>, unknownCountsAs: Health)
    requires unknownCountsAs == Unknowable || unknownCountsAs == Warning
    ensures var health := BadgeOf(findings, unknownCountsAs).health;
            && (health == Failing <==> exists f :: f in findings && f.status == Fail && f.severity == Error)
            && (health == Healthy <==> (exists f :: f in findings && f.status == Pass)
                                       && forall f ::
                                           f in findings ==>
                                           f.status != Unknown && (f.status == Fail ==> f.severity == Info))
            && (health == Warning <==>
                && (forall f :: f in findings && f.status == Fail ==> f.severity != Error)
                && (exists f :: f in findings && (f.status == Unknown || (f.status == Fail && f.severity == Warn)))
                && (unknownCountsAs == Unknowable ==> forall f :: f in findings ==> f.status != Unknown))
  {
    ReasonsPicked(findings, IsError);
    ReasonsPicked(findings, IsDoubt);
    ReasonsPicked(findings, IsWarning);
    assert forall f :: f in findings ==> (IsError(f) <==> f.status == Fail && f.severity == Error);
    assert forall f :: f in findings ==> (IsDoubt(f) <==> f.status == Unknown);
    assert forall f :: f in findings ==> (IsWarning(f) <==> f.status == Fail && f.severity == Warn);
  }

  /** Exactly the reasons of the findings picked. */
  lemma {:induction false} ReasonsAre(findings: seq<Finding>, pick: Finding -> bool, reason: string)
    ensures reason in Reasons(findings, pick) <==> exists f :: f in findings && pick(f) && f.reason == reason
  {
    if findings != [] {
      ReasonsAre(findings[1..], pick, reason);
      assert findings == [findings[0]] + findings[1..];
    }
  }

  /** A badge says why: with exactly the reasons of what failed or could not decide, and when it is
      healthy those of the build and its tests. */
  lemma BadgeSaysWhy(findings: seq<Finding>, unknownCountsAs: Health, reason: string)
    ensures
      var b := BadgeOf(findings, unknownCountsAs);
      && b.findings == findings
      && (b.health == Failing ==>
            (reason in b.reasons <==>
             exists f :: f in findings && f.status == Fail && f.severity == Error && f.reason == reason))
      && (b.health == Unknowable && (exists f :: f in findings && f.status == Unknown) ==>
            (reason in b.reasons <==> exists f :: f in findings && f.status == Unknown && f.reason == reason))
      && (b.health == Warning ==>
            (reason in b.reasons <==> exists f ::
               && f in findings && f.reason == reason
               && (f.status == Unknown || (f.status == Fail && f.severity == Warn))))
      && (b.health == Healthy ==>
            (reason in b.reasons <==> exists f ::
               && f in findings && f.reason == reason && !("not selected" <= reason)
               && f.check in {"built", "tests_passed"} && f.status in {Pass, Skipped}))
  {
    ReasonsAre(findings, IsError, reason);
    ReasonsAre(findings, IsDoubt, reason);
    ReasonsPicked(findings, IsDoubt);
    ReasonsAre(findings, IsWarning, reason);
    ReasonsAre(findings, SaysWhy, reason);
    assert forall f: Finding :: IsError(f) <==> f.status == Fail && f.severity == Error;
    assert forall f: Finding :: IsDoubt(f) <==> f.status == Unknown;
    assert forall f: Finding :: IsWarning(f) <==> f.status == Fail && f.severity == Warn;
  }

  // ---- findings in process ----------------------------------------------------------

  function LiveFinding(c: LiveCheck, severity: Severity, n: Node, failures: Failures): Finding {
    if c.applies(n) then
      var o := c.judge(n, failures);
      Finding(c.id, c.Source(), o.status, severity, o.reason, o.evidence)
    else Finding(c.id, c.Source(), Skipped, severity, NOT_SELECTED, map[])
  }

  /** Every enabled in-process check's finding about a node. */
  function LiveFindings(checks: seq<LiveCheck>, n: Node, failures: Failures): (r: seq<Finding>)
    ensures forall f :: f in r ==> f.source.Live()
  {
    if checks == [] then []
    else
      var init, last := LiveFindings(checks[..|checks| - 1], n, failures), checks[|checks| - 1];
      if last.severity.Some? then init + [LiveFinding(last, last.severity.value, n, failures)] else init
  }

  function LiveRuns(checks: seq<LiveCheck>): seq<CheckRun> {
    if checks == [] then []
    else
      var init, last := LiveRuns(checks[..|checks| - 1]), checks[|checks| - 1];
      if last.severity.Some? then init + [CheckRun(last.id, last.Source(), last.severity.value)] else init
  }

  lemma {:induction false} LiveFindingsRuns(checks: seq<LiveCheck>, n: Node, failures: Failures)
    ensures RunsOf(LiveFindings(checks, n, failures)) == LiveRuns(checks)
  {
    if checks != [] { LiveFindingsRuns(checks[..|checks| - 1], n, failures); }
  }

  // ---- registered checks ------------------------------------------------------------

  function Filter(nodes: seq<Node>, keep: Node -> bool): (r: seq<Node>)
    ensures forall n :: n in r <==> n in nodes && keep(n)
  {
    if nodes == [] then [] else
      var init, last := Filter(nodes[..|nodes| - 1], keep), nodes[|nodes| - 1];
      assert nodes == nodes[..|nodes| - 1] + [last];
      if keep(last) then init + [last] else init
  }

  function IdsOf(nodes: seq<Node>): (r: seq<string>)
    ensures |r| == |nodes| && forall i :: 0 <= i < |r| ==> r[i] == nodes[i].id
  {
    seq(|nodes|, i requires 0 <= i < |nodes| => nodes[i].id)
  }

  /** What a registered check's reply says of a node it was asked about: unknown unless the
      check answered, about nothing else, and about this node exactly once. */
  function OutcomeOf(reply: Reply, asked: seq<Node>, id: string): Outcome {
    match reply
    case Broke(why) => Outcome(Unknown, why, map[])
    case Answered(answers) =>
      if !NoStranger(answers, IdsOf(asked))
          then Outcome(Unknown, "it answered about a node it wasn't asked about", map[])
      else
        var only: Option<Outcome> := OnlyAnswer(answers, id);
        if only.Some? then only.value
        else if AnswersFor(answers, id) == [] then Outcome(Unknown, "the check didn't answer about this node", map[])
        else Outcome(Unknown, "the check answered about this node more than once", map[])
  }

  /** A registered check's finding about a node. */
  function RegisteredFinding(id: string, source: Source, severity: Severity, applies: Node -> bool,
      answer: seq<Node> -> Reply,
                             nodes: seq<Node>, n: Node): Finding
  {
    if !applies(n) then Finding(id, source, Skipped, severity, NOT_SELECTED, map[])
    else
      var selected := Filter(nodes, applies);
      var o := OutcomeOf(answer(selected), selected, n.id);
      Finding(id, source, o.status, severity, o.reason, o.evidence)
  }

  type PerNode = map<string, seq<Finding>>

  method Push(perNode: PerNode, id: string, f: Finding) returns (r: PerNode)
    ensures r.Keys == perNode.Keys
    ensures forall x :: x in r ==> r[x] == if x == id then perNode[x] + [f] else perNode[x]
  {
    r := if id in perNode then perNode[id := perNode[id] + [f]] else perNode;
  }

  /** Asks a check about the nodes it is for, and adds one finding to each node. */
  method RunRegistered(id: string, source: Source, severity: Severity, applies: Node -> bool,
      answer: seq<Node> -> Reply,
                       nodes: seq<Node>, perNode: PerNode) returns (r: PerNode)
    ensures r.Keys == perNode.Keys
    ensures UniqueIds(nodes) ==> forall n :: n in nodes && n.id in r ==>
      r[n.id] == perNode[n.id] + [RegisteredFinding(id, source, severity, applies, answer, nodes, n)]
  {
    hide UniqueIds, Filter, RegisteredFinding, Extended;
    var selected, skipped := Filter(nodes, applies), Filter(nodes, n => !applies(n));
    ghost var finding := (n: Node) => RegisteredFinding(id, source, severity, applies, answer, nodes, n);
    r := perNode;
    NothingPushed(perNode, nodes, finding);
    for k := 0 to |skipped|
      invariant r.Keys == perNode.Keys
      invariant UniqueIds(nodes) ==> Extended(perNode, r, nodes, skipped[..k], finding)
    {
      assert skipped[k] in skipped && skipped[..k + 1] == skipped[..k] + [skipped[k]];
      ghost var before := r;
      r := Push(r, skipped[k].id, Finding(id, source, Skipped, severity, NOT_SELECTED, map[]));
      if UniqueIds(nodes) {
        NextIsNew(nodes, n => !applies(n), k);
        SkippedFinding(id, source, severity, applies, answer, nodes, skipped[k]);
        PushExtends(perNode, before, r, nodes, skipped[..k], skipped[k], finding);
      }
    }
    assert skipped[..|skipped|] == skipped == skipped + selected[..0];
    if selected == [] {
      if UniqueIds(nodes) { AllPushed(perNode, r, nodes, skipped, finding); }
      return;
    }
    var reply := answer(selected);
    for k := 0 to |selected|
      invariant r.Keys == perNode.Keys
      invariant UniqueIds(nodes) ==> Extended(perNode, r, nodes, skipped + selected[..k], finding)
    {
      assert selected[k] in selected && skipped + selected[..k + 1] == skipped + selected[..k] + [selected[k]];
      var o := OutcomeOf(reply, selected, selected[k].id);
      ghost var before := r;
      r := Push(r, selected[k].id, Finding(id, source, o.status, severity, o.reason, o.evidence));
      if UniqueIds(nodes) {
        NextIsNew(nodes, applies, k);
        SelectedFinding(id, source, severity, applies, answer, nodes, selected[k]);
        PushExtends(perNode, before, r, nodes, skipped + selected[..k], selected[k], finding);
      }
    }
    assert selected[..|selected|] == selected;
    if UniqueIds(nodes) { AllPushed(perNode, r, nodes, skipped + selected, finding); }
  }

  /** Each node done has one more finding, and no other node has. */
  ghost predicate Extended(before: PerNode, after: PerNode, nodes: seq<Node>, done: seq<Node>, finding: Node -> Finding)
    requires after.Keys == before.Keys
  {
    forall n :: n in nodes && n.id in after ==> after[n.id] == before[n.id] + if n in done then [finding(n)] else []
  }

  lemma NothingPushed(perNode: PerNode, nodes: seq<Node>, finding: Node -> Finding)
    ensures Extended(perNode, perNode, nodes, [], finding)
  {
  }

  lemma PushExtends(start: PerNode, before: PerNode, after: PerNode, nodes: seq<Node>, done: seq<Node>, m: Node,
      finding: Node -> Finding)
    requires before.Keys == start.Keys == after.Keys && Extended(start, before, nodes, done, finding)
    requires forall x :: x in after ==> after[x] == if x == m.id then before[x] + [finding(m)] else before[x]
    requires m !in done && forall n :: n in nodes && n.id == m.id ==> n == m
    ensures Extended(start, after, nodes, done + [m], finding)
  {
  }

  lemma AllPushed(start: PerNode, after: PerNode, nodes: seq<Node>, done: seq<Node>, finding: Node -> Finding)
    requires start.Keys == after.Keys && Extended(start, after, nodes, done, finding)
    requires forall n :: n in nodes ==> n in done
    ensures forall n :: n in nodes && n.id in after ==> after[n.id] == start[n.id] + [finding(n)]
  {
  }

  lemma SkippedFinding(id: string, source: Source, severity: Severity, applies: Node -> bool,
      answer: seq<Node> -> Reply, nodes: seq<Node>, n: Node)
    requires !applies(n)
    ensures RegisteredFinding(id, source, severity, applies, answer, nodes, n) ==
        Finding(id, source, Skipped, severity, NOT_SELECTED, map[])
  {
  }

  lemma SelectedFinding(id: string, source: Source, severity: Severity, applies: Node -> bool,
      answer: seq<Node> -> Reply, nodes: seq<Node>, n: Node)
    requires applies(n)
    ensures var selected := Filter(nodes, applies);
            var o := OutcomeOf(answer(selected), selected, n.id);
            RegisteredFinding(id, source, severity, applies, answer, nodes, n) ==
                Finding(id, source, o.status, severity, o.reason, o.evidence)
  {
    hide OutcomeOf, Filter;
  }

  /** With unique ids, the next filtered node has an id of its own. */
  lemma NextIsNew(nodes: seq<Node>, keep: Node -> bool, k: nat)
    requires UniqueIds(nodes) && k < |Filter(nodes, keep)|
    ensures Filter(nodes, keep)[k] !in Filter(nodes, keep)[..k]
    ensures forall n :: n in nodes && n.id == Filter(nodes, keep)[k].id ==> n == Filter(nodes, keep)[k]
  {
    FilterIsUnique(nodes, keep);
    var kept := Filter(nodes, keep);
    assert kept[k] in kept;
    forall n | n in nodes && n.id == kept[k].id ensures n == kept[k] { UniqueNode(nodes, n, kept[k]); }
  }

  lemma {:induction false} FilterIsUnique(nodes: seq<Node>, keep: Node -> bool)
    requires UniqueIds(nodes)
    ensures UniqueIds(Filter(nodes, keep))
  {
    if nodes != [] {
      var init, last := nodes[..|nodes| - 1], nodes[|nodes| - 1];
      FilterIsUnique(init, keep);
      var kept := Filter(init, keep);
      forall i | 0 <= i < |kept| ensures kept[i].id != last.id {
        assert kept[i] in init;
        var j :| 0 <= j < |init| && init[j] == kept[i];
        assert nodes[j] == kept[i];
      }
    }
  }

  /** A registered check passes a node only if it was asked about the node, answered about
      nothing else, and answered Pass about the node exactly once. */
  lemma RegisteredPassIsEarned(id: string, source: Source, severity: Severity, applies: Node -> bool,
      answer: seq<Node> -> Reply, nodes: seq<Node>, n: Node)
    ensures var selected := Filter(nodes, applies);
            RegisteredFinding(id, source, severity, applies, answer, nodes, n).status == Pass <==>
              && applies(n) && answer(selected).Answered? && NoStranger(answer(selected).answers, IdsOf(selected))
              && exists i: nat ::
                  IsOnly(answer(selected).answers, n.id, i) && answer(selected).answers[i].1.status == Pass
  {
    hide AnswersFor, OnlyAnswer, IsOnly;
    var selected := Filter(nodes, applies);
    if answer(selected).Answered? { OnlyAnswerIsOnly(answer(selected).answers, n.id); }
  }

  predicate AskedAbout(asked: seq<Node>, id: string) { exists m :: m in asked && m.id == id }

  /** The check answered, about nothing it was not asked about. */
  predicate AnswersOnly(reply: Reply, asked: seq<Node>) {
    reply.Answered? && forall i :: 0 <= i < |reply.answers| ==> AskedAbout(asked, reply.answers[i].0)
  }

  lemma AskedIds(asked: seq<Node>, id: string)
    ensures id in IdsOf(asked) <==> AskedAbout(asked, id)
  {
    if m :| m in asked && m.id == id {
      var i :| 0 <= i < |asked| && asked[i] == m;
      assert IdsOf(asked)[i] == id;
    }
    if i :| 0 <= i < |IdsOf(asked)| && IdsOf(asked)[i] == id { assert asked[i] in asked; }
  }

  lemma SameStrangers(reply: Reply, asked: seq<Node>)
    ensures reply.Answered? ==> (AnswersOnly(reply, asked) <==> NoStranger(reply.answers, IdsOf(asked)))
    ensures AnswersOnly(reply, asked) ==> reply.Answered?
  {
    hide IdsOf, AskedAbout;
    if reply.Answered? {
      forall i | 0 <= i < |reply.answers|
        ensures reply.answers[i].0 in IdsOf(asked) <==> AskedAbout(asked, reply.answers[i].0)
      {
        AskedIds(asked, reply.answers[i].0);
      }
    }
  }

  /** A registered check's finding is the check's own answer about the node, if it was asked about
      it, answered about nothing else, and answered about it exactly once; skipped if it is not
      for the node; and unknown in every other case. */
  lemma RegisteredIsExact(id: string, source: Source, severity: Severity, applies: Node -> bool,
      answer: seq<Node> -> Reply, nodes: seq<Node>, n: Node)
    ensures var selected := Filter(nodes, applies);
            var reply, f := answer(selected), RegisteredFinding(id, source, severity, applies, answer, nodes, n);
            && RunOf(f) == CheckRun(id, source, severity)
            && (!applies(n) ==> f.status == Skipped)
            && (applies(n) && !AnswersOnly(reply, selected) ==> f.status == Unknown)
            && (applies(n) && reply.Answered? && !(exists i: nat :: IsOnly(reply.answers, n.id, i)) ==>
                f.status == Unknown)
            && (applies(n) && AnswersOnly(reply, selected) ==>
                forall i: nat :: IsOnly(reply.answers, n.id, i) ==>
                  Outcome(f.status, f.reason, f.evidence) == reply.answers[i].1)
  {
    hide AnswersFor, OnlyAnswer, IsOnly;
    var selected := Filter(nodes, applies);
    SameStrangers(answer(selected), selected);
    hide IdsOf, NoStranger, AnswersOnly;
    if answer(selected).Answered? { OnlyAnswerIsOnly(answer(selected).answers, n.id); }
  }

  /** A script runs as a registered check only if it is trusted and there is something to run it;
      otherwise it is unknown about its nodes and skips the others. */
  lemma HeldScriptDecidesNothing(s: Script, severity: Severity, nodes: seq<Node>, n: Node)
    ensures var f := ScriptFinding(s, severity, nodes, n);
            && (!s.trusted || s.runner.None? ==> f.status == if s.applies(n) then Unknown else Skipped)
            && (s.trusted && s.runner.Some? ==>
                f == RegisteredFinding(s.id, Source.Script, severity, s.applies, s.runner.value, nodes, n))
  {
    hide RegisteredFinding;
  }

  /** The enabled in-process checks give exactly their own judgement of the nodes they are for, and
      skip the others. */
  lemma {:induction false} LiveIsExact(checks: seq<LiveCheck>, n: Node, failures: Failures, f: Finding)
    ensures f in LiveFindings(checks, n, failures) <==>
      exists k :: 0 <= k < |checks| && JudgedBy(checks[k], n, failures, f)
  {
    if checks != [] {
      var init, last := checks[..|checks| - 1], checks[|checks| - 1];
      LiveIsExact(init, n, failures, f);
      LastJudges(last, n, failures, f);
      assert f in LiveFindings(checks, n, failures) <==>
        f in LiveFindings(init, n, failures) || JudgedBy(last, n, failures, f);
      hide LiveFindings, JudgedBy;
      if k :| 0 <= k < |init| && JudgedBy(init[k], n, failures, f) { assert JudgedBy(checks[k], n, failures, f); }
      if k :| 0 <= k < |checks| && JudgedBy(checks[k], n, failures, f) {
        assert k < |init| ==> JudgedBy(init[k], n, failures, f);
      }
      assert JudgedBy(last, n, failures, f) ==> JudgedBy(checks[|checks| - 1], n, failures, f);
    }
  }

  lemma LastJudges(c: LiveCheck, n: Node, failures: Failures, f: Finding)
    ensures JudgedBy(c, n, failures, f) <==> c.severity.Some? && f == LiveFinding(c, c.severity.value, n, failures)
  {
  }

  predicate JudgedBy(c: LiveCheck, n: Node, failures: Failures, f: Finding) {
    && c.severity.Some? && f.check == c.id && f.severity == c.severity.value
    && f.source == (if c.declared then Declarative else Builtin)
    && if c.applies(n) then Outcome(f.status, f.reason, f.evidence) == c.judge(n, failures)
       else f.status == Skipped && f.reason == "not selected for this check" && f.evidence == map[]
  }

  // ---- a whole run ------------------------------------------------------------------

  function PluginFindings(plugins: seq<Plugin>, nodes: seq<Node>, n: Node): seq<Finding> {
    if plugins == [] then []
    else
      var init, p := PluginFindings(plugins[..|plugins| - 1], nodes, n), plugins[|plugins| - 1];
      if p.severity.Some?
          then init + [RegisteredFinding(p.id, Source.Plugin, p.severity.value, p.applies, p.answer, nodes, n)]
          else init
  }

  function PluginRuns(plugins: seq<Plugin>): seq<CheckRun> {
    if plugins == [] then []
    else
      var init, p := PluginRuns(plugins[..|plugins| - 1]), plugins[|plugins| - 1];
      if p.severity.Some? then init + [CheckRun(p.id, Source.Plugin, p.severity.value)] else init
  }

  /** A script that may not run, or has nothing to run it, decides nothing. */
  function ScriptFinding(s: Script, severity: Severity, nodes: seq<Node>, n: Node): Finding {
    if s.trusted && s.runner.Some?
        then RegisteredFinding(s.id, Source.Script, severity, s.applies, s.runner.value, nodes, n)
    else if s.applies(n)
        then Finding(s.id, Source.Script, Unknown, severity, if s.trusted then "scripts run elsewhere"
        else "not trusted for this project", map[])
    else Finding(s.id, Source.Script, Skipped, severity, NOT_SELECTED, map[])
  }

  function ScriptFindings(scripts: seq<Script>, nodes: seq<Node>, n: Node): seq<Finding> {
    if scripts == [] then []
    else
      var init, s := ScriptFindings(scripts[..|scripts| - 1], nodes, n), scripts[|scripts| - 1];
      if s.severity.Some? then init + [ScriptFinding(s, s.severity.value, nodes, n)] else init
  }

  function ScriptRuns(scripts: seq<Script>): seq<CheckRun> {
    if scripts == [] then []
    else
      var init, s := ScriptRuns(scripts[..|scripts| - 1]), scripts[|scripts| - 1];
      if s.severity.Some? then init + [CheckRun(s.id, Source.Script, s.severity.value)] else init
  }

  function ProbeRuns(probes: seq<Probe.ProbeCheck>): seq<CheckRun> {
    if probes == [] then []
    else
      var init, p := ProbeRuns(probes[..|probes| - 1]), probes[|probes| - 1];
      if p.severity.Some? then init + [CheckRun(p.id, Source.Probe, p.severity.value)] else init
  }

  /** What every node's findings should be, in order. */
  function Expected(s: Settings, nodes: seq<Node>, failures: Failures, probed: Probe.ProbeRun, n: Node): seq<Finding> {
    LiveFindings(s.live, n, failures) + Probe.FindingsFor(probed.findings, n.id)
    + PluginFindings(s.plugins, nodes, n) + ScriptFindings(s.scripts, nodes, n)
  }

  function AllRuns(s: Settings): seq<CheckRun> {
    LiveRuns(s.live) + ProbeRuns(s.probes) + PluginRuns(s.plugins) + ScriptRuns(s.scripts)
  }

  /** A report on nodes: each node's findings are what its checks give, under the badge rule. */
  ghost predicate IsReport(s: Settings, nodes: seq<Node>, failures: Failures, reading: P.Reading, report: Report) {
    && Probe.RanAll(Probe.Enabled(s.probes), nodes, s.connection, reading, report.probed)
    && report.checks == AllRuns(s)
    && (forall id :: id in report.badges <==> exists n :: n in nodes && n.id == id)
    && forall n ::
        n in nodes ==> report.badges[n.id] == BadgeOf(Expected(s, nodes, failures, report.probed, n), s.unknownCountsAs)
  }

  method RunPlugins(plugins: seq<Plugin>, nodes: seq<Node>, perNode: PerNode)
      returns (r: PerNode, checks: seq<CheckRun>)
    ensures r.Keys == perNode.Keys && checks == PluginRuns(plugins)
    ensures UniqueIds(nodes) ==>
        forall n :: n in nodes && n.id in r ==> r[n.id] == perNode[n.id] + PluginFindings(plugins, nodes, n)
  {
    hide RegisteredFinding, UniqueIds;
    r, checks := perNode, [];
    for k := 0 to |plugins|
      invariant r.Keys == perNode.Keys && checks == PluginRuns(plugins[..k])
      invariant UniqueIds(nodes) ==>
          forall n :: n in nodes && n.id in r ==> r[n.id] == perNode[n.id] + PluginFindings(plugins[..k], nodes, n)
    {
      var p := plugins[k];
      assert plugins[..k + 1][..k] == plugins[..k];
      if p.severity.Some? {
        r := RunRegistered(p.id, Source.Plugin, p.severity.value, p.applies, p.answer, nodes, r);
        checks := checks + [CheckRun(p.id, Source.Plugin, p.severity.value)];
      }
    }
    assert plugins[..|plugins|] == plugins;
  }

  method RunScripts(scripts: seq<Script>, nodes: seq<Node>, perNode: PerNode)
      returns (r: PerNode, checks: seq<CheckRun>)
    ensures r.Keys == perNode.Keys && checks == ScriptRuns(scripts)
    ensures UniqueIds(nodes) ==>
        forall n :: n in nodes && n.id in r ==> r[n.id] == perNode[n.id] + ScriptFindings(scripts, nodes, n)
  {
    hide RegisteredFinding, UniqueIds, ScriptFinding;
    r, checks := perNode, [];
    for k := 0 to |scripts|
      invariant r.Keys == perNode.Keys && checks == ScriptRuns(scripts[..k])
      invariant UniqueIds(nodes) ==>
          forall n :: n in nodes && n.id in r ==> r[n.id] == perNode[n.id] + ScriptFindings(scripts[..k], nodes, n)
    {
      assert scripts[..k + 1][..k] == scripts[..k];
      if scripts[k].severity.Some? {
        r := RunScript(scripts[k], scripts[k].severity.value, nodes, r);
        checks := checks + [CheckRun(scripts[k].id, Source.Script, scripts[k].severity.value)];
      }
    }
    assert scripts[..|scripts|] == scripts;
  }

  method RunScript(s: Script, severity: Severity, nodes: seq<Node>, perNode: PerNode) returns (r: PerNode)
    ensures r.Keys == perNode.Keys
    ensures UniqueIds(nodes) ==>
        forall n :: n in nodes && n.id in r ==> r[n.id] == perNode[n.id] + [ScriptFinding(s, severity, nodes, n)]
  {
    hide RegisteredFinding;
    if s.trusted && s.runner.Some? {
      r := RunRegistered(s.id, Source.Script, severity, s.applies, s.runner.value, nodes, perNode);
      return;
    }
    r := perNode;
    for k := 0 to |nodes|
      invariant r.Keys == perNode.Keys
      invariant UniqueIds(nodes) ==> forall n :: n in nodes && n.id in r ==>
        r[n.id] == perNode[n.id] + if n in nodes[..k] then [ScriptFinding(s, severity, nodes, n)] else []
    {
      assert nodes[..k + 1] == nodes[..k] + [nodes[k]];
      r := Push(r, nodes[k].id, ScriptFinding(s, severity, nodes, nodes[k]));
    }
    assert nodes[..|nodes|] == nodes;
  }

  /** Runs every check on every node. */
  method Run(s: Settings, nodes: seq<Node>, failures: Failures, reading: P.Reading) returns (report: Report)
    ensures UniqueIds(nodes) ==> IsReport(s, nodes, failures, reading, report)
  {
    hide LiveFindings, PluginFindings, ScriptFindings, LiveRuns, ProbeRuns, PluginRuns, ScriptRuns, UniqueIds;
    hide Probe.RanAll, Probe.Unmatched, Probe.Enabled, BadgeOf;
    var probed := Probe.RunAll(s.probes, nodes, s.connection, reading);
    var perNode: PerNode := map[];
    for k := 0 to |nodes|
      invariant forall id :: id in perNode <==> exists n :: n in nodes[..k] && n.id == id
      invariant UniqueIds(nodes) ==> forall n :: n in nodes[..k] ==>
        perNode[n.id] == LiveFindings(s.live, n, failures) + Probe.FindingsFor(probed.findings, n.id)
    {
      assert nodes[..k + 1] == nodes[..k] + [nodes[k]];
      if UniqueIds(nodes) { NodeIsNew(nodes, k); }
      perNode := perNode[nodes[k].id := LiveFindings(s.live, nodes[k], failures) +
          Probe.FindingsFor(probed.findings, nodes[k].id)];
    }
    assert nodes[..|nodes|] == nodes;
    var afterPlugins, pluginRuns := RunPlugins(s.plugins, nodes, perNode);
    var all, scriptRuns := RunScripts(s.scripts, nodes, afterPlugins);
    var checks := LiveRuns(s.live) + ProbeRuns(s.probes) + pluginRuns + scriptRuns;
    report := Report(map id | id in all :: BadgeOf(all[id], s.unknownCountsAs), checks, probed);
  }

  lemma NodeIsNew(nodes: seq<Node>, k: nat)
    requires UniqueIds(nodes) && k < |nodes|
    ensures forall n :: n in nodes[..k] ==> n.id != nodes[k].id
  {
  }

  // ---- one finding from each check --------------------------------------------------

  lemma {:induction false} PluginFindingsRuns(plugins: seq<Plugin>, nodes: seq<Node>, n: Node)
    ensures RunsOf(PluginFindings(plugins, nodes, n)) == PluginRuns(plugins)
    ensures forall f :: f in PluginFindings(plugins, nodes, n) ==> !f.source.Live()
  {
    hide OutcomeOf, Filter;
    if plugins != [] { PluginFindingsRuns(plugins[..|plugins| - 1], nodes, n); }
  }

  lemma {:induction false} ScriptFindingsRuns(scripts: seq<Script>, nodes: seq<Node>, n: Node)
    ensures RunsOf(ScriptFindings(scripts, nodes, n)) == ScriptRuns(scripts)
    ensures forall f :: f in ScriptFindings(scripts, nodes, n) ==> !f.source.Live()
  {
    hide OutcomeOf, Filter;
    if scripts != [] { ScriptFindingsRuns(scripts[..|scripts| - 1], nodes, n); }
  }

  lemma {:induction false} ProbeRunsOf(probes: seq<Probe.ProbeCheck>)
    ensures |ProbeRuns(probes)| == |Probe.Enabled(probes)|
    ensures forall k :: 0 <= k < |ProbeRuns(probes)| ==>
      var p := Probe.Enabled(probes)[k];
          p.severity.Some? && ProbeRuns(probes)[k] == CheckRun(p.id, Source.Probe, p.severity.value)
  {
    if probes != [] {
      ProbeRunsOf(probes[..|probes| - 1]);
      Probe.EnabledStep(probes);
    }
  }

  lemma ProbeFindingsRuns(s: Settings, nodes: seq<Node>, reading: P.Reading, probed: Probe.ProbeRun, n: Node)
    requires Probe.RanAll(Probe.Enabled(s.probes), nodes, s.connection, reading, probed) && n in nodes
    ensures RunsOf(Probe.FindingsFor(probed.findings, n.id)) == ProbeRuns(s.probes)
    ensures forall f :: f in Probe.FindingsFor(probed.findings, n.id) ==> !f.source.Live()
  {
    hide Probe.StepIsGuarded, Probe.Enabled, Probe.StatusOf, Probe.FindingsFor;
    ProbeRunsOf(s.probes);
    var fs, enabled := Probe.FindingsFor(probed.findings, n.id), Probe.Enabled(s.probes);
    forall k | 0 <= k < |fs| ensures RunOf(fs[k]) == ProbeRuns(s.probes)[k] && !fs[k].source.Live() {
      assert Probe.Concludes(enabled[k], nodes, s.connection, probed.steps[k], reading, n.id, fs[k]);
      var m :| m in nodes && m.id == n.id &&
          Probe.IsFinding(enabled[k], enabled[k].severity.value, m, s.connection, probed.steps[k], reading, fs[k]);
      assert RunOf(fs[k]).source == Source.Probe;
    }
  }

  lemma RunsOfTwo(a: seq<Finding>, b: seq<Finding>)
    ensures RunsOf(a + b) == RunsOf(a) + RunsOf(b)
  {
  }

  /** Every node in a report has exactly one finding from each check that ran, in the order the
      checks ran, and the findings not worked out live come after those that are. */
  lemma EachCheckFindsOnce(s: Settings, nodes: seq<Node>, failures: Failures, reading: P.Reading, report: Report,
      n: Node)
    requires IsReport(s, nodes, failures, reading, report) && n in nodes
    ensures RunsOf(report.badges[n.id].findings) == report.checks
    ensures LiveFindings(s.live, n, failures) <= report.badges[n.id].findings
    ensures forall i ::
        |LiveFindings(s.live, n, failures)| <= i < |report.badges[n.id].findings| ==>
        !report.badges[n.id].findings[i].source.Live()
  {
    hide LiveFindings, PluginFindings, ScriptFindings, LiveRuns, ProbeRuns, PluginRuns, ScriptRuns, Probe.RanAll,
        Probe.Enabled, Reasons;
    var live, probes, plugins, scripts := LiveFindings(s.live, n, failures),
        Probe.FindingsFor(report.probed.findings, n.id),
        PluginFindings(s.plugins, nodes, n), ScriptFindings(s.scripts, nodes, n);
    LiveFindingsRuns(s.live, n, failures);
    ProbeFindingsRuns(s, nodes, reading, report.probed, n);
    PluginFindingsRuns(s.plugins, nodes, n);
    ScriptFindingsRuns(s.scripts, nodes, n);
    BadgeKeepsFindings(Expected(s, nodes, failures, report.probed, n), s.unknownCountsAs);
    var all := report.badges[n.id].findings;
    assert all == live + probes + plugins + scripts;
    RunsOfTwo(live, probes);
    RunsOfTwo(live + probes, plugins);
    RunsOfTwo(live + probes + plugins, scripts);
    RestIsNotLive(live, probes + plugins + scripts, all);
  }

  lemma RestIsNotLive(live: seq<Finding>, rest: seq<Finding>, all: seq<Finding>)
    requires all == live + rest && forall f :: f in rest ==> !f.source.Live()
    ensures live <= all && forall i :: |live| <= i < |all| ==> !all[i].source.Live()
  {
    forall i | |live| <= i < |all| ensures !all[i].source.Live() {
      assert all[i] == rest[i - |live|] && all[i] in rest;
    }
  }

  lemma BadgeKeepsFindings(findings: seq<Finding>, unknownCountsAs: Health)
    ensures BadgeOf(findings, unknownCountsAs).findings == findings
  {
  }

  // ---- the record -------------------------------------------------------------------

  /** What a record keeps: the checks that are not worked out live, and their findings. */
  datatype Recorded = Recorded(checks: seq<CheckRun>, findings: map<string, seq<Finding>>)

  function NotLive(findings: seq<Finding>): seq<Finding> {
    if findings == [] then [] else
      var init, last := NotLive(findings[..|findings| - 1]), findings[|findings| - 1];
      if last.source.Live() then init else init + [last]
  }

  function NotLiveRuns(checks: seq<CheckRun>): seq<CheckRun> {
    if checks == [] then [] else
      var init, last := NotLiveRuns(checks[..|checks| - 1]), checks[|checks| - 1];
      if last.source.Live() then init else init + [last]
  }

  function RecordedOf(report: Report): Recorded {
    Recorded(NotLiveRuns(report.checks), map id | id in report.badges :: NotLive(report.badges[id].findings))
  }

  function FirstFrom(findings: seq<Finding>, check: string): Option<Finding> {
    if findings == [] then None else if findings[0].check == check then Some(findings[0])
        else FirstFrom(findings[1..], check)
  }

  function RecordedFinding(check: CheckRun, found: seq<Finding>): Finding {
    var first := FirstFrom(found, check.id);
    if first.Some? then first.value
        else Finding(check.id, check.source, Unknown, check.severity, "the last check run didn't cover it", map[])
  }

  /** The recorded findings about a node, one per recorded check. */
  function FindingsForNode(recorded: Recorded, id: string): (r: seq<Finding>)
    ensures |r| == |recorded.checks|
    ensures forall i ::
        0 <= i < |r| ==>
        r[i] == RecordedFinding(recorded.checks[i], if id in recorded.findings then recorded.findings[id] else [])
  {
    var found := if id in recorded.findings then recorded.findings[id] else [];
    seq(|recorded.checks|, i requires 0 <= i < |recorded.checks| => RecordedFinding(recorded.checks[i], found))
  }

  function EvaluateWith(s: Settings, n: Node, failures: Failures, recorded: Option<Recorded>): Badge {
    BadgeOf(LiveFindings(s.live, n, failures) + if recorded.Some? then FindingsForNode(recorded.value, n.id)
        else [], s.unknownCountsAs)
  }

  ghost predicate DistinctIds(checks: seq<CheckRun>) {
    forall i, j :: 0 <= i < j < |checks| ==> checks[i].id != checks[j].id
  }

  lemma {:induction false} NotLiveIs(live: seq<Finding>, rest: seq<Finding>)
    requires forall f :: f in live ==> f.source.Live()
    requires forall f :: f in rest ==> !f.source.Live()
    ensures NotLive(live + rest) == rest
  {
    if rest != [] {
      var init := rest[..|rest| - 1];
      assert (live + rest)[..|live + rest| - 1] == live + init;
      assert rest[|rest| - 1] in rest;
      NotLiveIs(live, init);
    } else if live != [] {
      var init := live[..|live| - 1];
      assert (live + rest)[..|live + rest| - 1] == init + rest;
      assert live[|live| - 1] in live;
      NotLiveIs(init, rest);
    }
  }

  lemma {:induction false} NotLiveRunsOf(findings: seq<Finding>)
    ensures NotLiveRuns(RunsOf(findings)) == RunsOf(NotLive(findings))
  {
    if findings != [] {
      var init := findings[..|findings| - 1];
      NotLiveRunsOf(init);
      assert RunsOf(findings)[..|findings| - 1] == RunsOf(init);
    }
  }

  lemma {:induction false} FirstFromIs(findings: seq<Finding>, i: nat)
    requires i < |findings| && DistinctIds(RunsOf(findings))
    ensures FirstFrom(findings, findings[i].check) == Some(findings[i])
  {
    var runs := RunsOf(findings);
    if i > 0 {
      assert runs[0].id != runs[i].id;
      assert RunsOf(findings[1..]) == runs[1..];
      FirstFromIs(findings[1..], i - 1);
    }
  }

  /** A record of a run rebuilds each node's badge: worked out from the same facts with the
      recorded findings, it is the badge the run gave. */
  lemma RecordRebuildsBadge(s: Settings, nodes: seq<Node>, failures: Failures, reading: P.Reading, report: Report,
      n: Node)
    requires IsReport(s, nodes, failures, reading, report) && n in nodes
    requires DistinctIds(RecordedOf(report).checks)
    ensures EvaluateWith(s, n, failures, Some(RecordedOf(report))) == report.badges[n.id]
  {
    hide IsReport, LiveFindings, BadgeOf, NotLive, NotLiveRuns, RunsOf, DistinctIds, RecordedFinding;
    ReportHolds(s, nodes, failures, reading, report, n);
    EachCheckFindsOnce(s, nodes, failures, reading, report, n);
    var live, all := LiveFindings(s.live, n, failures), report.badges[n.id].findings;
    var rest := all[|live|..];
    assert all == live + rest;
    NotLiveIs(live, rest);
    NotLiveRunsOf(all);
    var recorded := RecordedOf(report);
    assert recorded.checks == RunsOf(rest) && recorded.findings[n.id] == rest;
    forall i | 0 <= i < |rest| ensures FindingsForNode(recorded, n.id)[i] == rest[i] { RecordedIs(rest, i); }
    assert FindingsForNode(recorded, n.id) == rest;
  }

  lemma ReportHolds(s: Settings, nodes: seq<Node>, failures: Failures, reading: P.Reading, report: Report, n: Node)
    requires IsReport(s, nodes, failures, reading, report) && n in nodes
    ensures n.id in report.badges && report.badges[n.id] == BadgeOf(report.badges[n.id].findings, s.unknownCountsAs)
  {
    hide Probe.RanAll, Expected, Reasons;
    BadgeKeepsFindings(Expected(s, nodes, failures, report.probed, n), s.unknownCountsAs);
  }

  lemma RecordedIs(rest: seq<Finding>, i: nat)
    requires i < |rest| && DistinctIds(RunsOf(rest))
    ensures RecordedFinding(RunsOf(rest)[i], rest) == rest[i]
  {
    hide DistinctIds;
    FirstFromIs(rest, i);
  }

  /** A node newer than the record is never healthy, if the record holds any check. */
  lemma UncoveredIsNeverHealthy(s: Settings, n: Node, failures: Failures, recorded: Recorded)
    requires n.id !in recorded.findings && recorded.checks != []
    requires s.unknownCountsAs == Unknowable || s.unknownCountsAs == Warning
    ensures EvaluateWith(s, n, failures, Some(recorded)).health != Healthy
  {
    hide BadgeOf, LiveFindings;
    var all := LiveFindings(s.live, n, failures) + FindingsForNode(recorded, n.id);
    assert all[|LiveFindings(s.live, n, failures)|] == RecordedFinding(recorded.checks[0], []);
    assert all[|LiveFindings(s.live, n, failures)|] in all;
    HealthMeans(all, s.unknownCountsAs);
  }
}
