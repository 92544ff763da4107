/** Probe checks: a query reaches the warehouse only past every guard, and a probe passes only
    on one trusted answer. The warehouse answers as it likes. */
module Probe {
  import opened Prelude
  import opened Fixpoint
  import opened Findings
  import P = Pass

  type Row = map<string, string>

  datatype Target = Target(id: string, expecting: Option<string>)

  /** What a login may do on a relation. */
  datatype Access = ReadOnly | Elevated(what: string) | Unsure(why: string)

  datatype Answer = Rows(rows: seq<Row>) | NotProbed(why: string) | CannotTell(why: string)

  /** What a call to the warehouse comes to: an error or a timeout, or answers about any ids. */
  datatype Reply<T> = Failed(why: string) | Reported(login: Option<string>, answers: seq<(string, T)>)

  /** The warehouse connection. Each call is told how many probes asked before it, so its
      answers may change over a run. */
  datatype Connection = Connection(
    probe: (nat, string, seq<Target>) -> Reply<Answer>,
    privileges: Option<(nat, seq<Target>) -> Reply<Access>>,
    allowElevated: bool,
    name: Option<string>,
    relations: map<string, string>)

  datatype ProbeCheck = ProbeCheck(
    id: string, severity: Option<Severity>, applies: Node -> bool, query: Option<string>,
    readOnly: bool, trusted: bool, pass: P.Condition)

  /** Logins a run allowed although they were not shown to only read, by node id. */
  datatype ElevatedLogin = ElevatedLogin(login: Option<string>, connection: Option<string>, found: map<string, string>)

  datatype Sent = Sent(query: string, targets: seq<Target>, reply: Reply<Answer>)

  /** What one probe asked of the warehouse: the login check, and the query if it was sent. */
  datatype Exchange = Exchange(probe: ProbeCheck, asked: seq<Target>, login: Option<Reply<Access>>, sent: Option<Sent>)

  // ---- the guards -------------------------------------------------------------------

  /** Selected, with a query known to only read, trusted, and something to run it through. */
  predicate Ready(p: ProbeCheck, n: Node, connected: bool) {
    p.applies(n) && p.query.Some? && p.readOnly && p.trusted && connected
  }

  predicate IsBuilt(c: Connection, n: Node) { c.relations == map[] || n.id in c.relations }

  function ToTarget(c: Connection, n: Node): Target {
    Target(n.id, if n.id in c.relations then Some(c.relations[n.id]) else None)
  }

  function Ids(targets: seq<Target>): (r: seq<string>)
    ensures |r| == |targets| && forall i :: 0 <= i < |r| ==> r[i] == targets[i].id
  {
    seq(|targets|, i requires 0 <= i < |targets| => targets[i].id)
  }

  /** The login check answered, about nothing it was not asked, and said exactly once that the
      login can only read this relation. */
  predicate ShownReadOnly(x: Exchange, id: string) {
    && x.login.Some? && x.login.value.Reported?
    && NoStranger(x.login.value.answers, Ids(x.asked))
    && OnlyAnswer(x.login.value.answers, id) == Some(ReadOnly)
  }

  predicate MayProbe(p: ProbeCheck, n: Node, c: Connection, x: Exchange) {
    Ready(p, n, true) && IsBuilt(c, n) && (ShownReadOnly(x, n.id) || c.allowElevated)
  }

  /** The status a reply earns a node: its condition's verdict on the first row, if the reply
      is about what was asked and answers the node once. */
  function Earned(p: ProbeCheck, reply: Reply<Answer>, targets: seq<Target>, id: string, reading: P.Reading): Status {
    if reply.Failed? || !NoStranger(reply.answers, Ids(targets)) then Unknown
    else
      var only: Option<Answer> := OnlyAnswer(reply.answers, id);
      match only
      case Some(Rows(rows)) => FromVerdict(P.Evaluate(p.pass, FirstRow(rows), reading))
      case Some(NotProbed(_)) => Skipped
      case Some(CannotTell(_)) => Unknown
      case None => Unknown
  }

  function FirstRow(rows: seq<Row>): Row { if rows == [] then map[] else rows[0] }

  function FromVerdict(v: P.Verdict): Status {
    match v case Passes => Pass case Fails => Fail case Undecided => Unknown
  }

  /** What a probe concludes about a node, from what it asked, if it asked at all. */
  function StatusOf(p: ProbeCheck, n: Node, connection: Option<Connection>, x: Option<Exchange>,
      reading: P.Reading): Status {
    if !p.applies(n) then Skipped
    else if !Ready(p, n, connection.Some?) || !IsBuilt(connection.value, n) then Unknown
    else if x.None? || !MayProbe(p, n, connection.value, x.value) || x.value.sent.None? then Unknown
    else Earned(p, x.value.sent.value.reply, x.value.sent.value.targets, n.id, reading)
  }

  /** The log of a step is what was really asked and answered: the login check was asked about
      exactly the ready and built nodes, and both replies are the connection's at that time. */
  ghost predicate Asks(p: ProbeCheck, nodes: seq<Node>, c: Connection, x: Exchange, time: nat) {
    && x.asked != []
    && (forall t ::
        t in x.asked <==> exists n :: n in nodes && Ready(p, n, true) && IsBuilt(c, n) && t == ToTarget(c, n))
    && x.login == (if c.privileges.Some? then Some(c.privileges.value(time, x.asked)) else None)
    && (x.sent.Some? ==> x.sent.value.reply == c.probe(time, x.sent.value.query, x.sent.value.targets))
  }

  /** The query went out exactly for the nodes every guard lets through, as the probe chose it;
      whoever was let through only by the override is on record. */
  ghost predicate Guarded(p: ProbeCheck, nodes: seq<Node>, c: Connection, x: Exchange, elevated: Option<ElevatedLogin>,
      time: nat) {
    && x.probe == p && Asks(p, nodes, c, x, time)
    && (x.sent.Some? <==> exists n :: n in nodes && MayProbe(p, n, c, x))
    && (x.sent.Some? ==> p.query == Some(x.sent.value.query))
    && (x.sent.Some? ==>
        forall t :: t in x.sent.value.targets <==>
        exists n :: n in nodes && t == ToTarget(c, n) && MayProbe(p, n, c, x))
    && (x.sent.Some? ==> forall t :: t in x.sent.value.targets && !ShownReadOnly(x, t.id) ==> OnRecord(elevated, t.id))
  }

  ghost predicate OnRecord(elevated: Option<ElevatedLogin>, id: string) { elevated.Some? && id in elevated.value.found }

  /** The query was sent about the node although its login was not shown to only read. */
  ghost predicate Overridden(x: Exchange, id: string) {
    x.sent.Some? && id in Ids(x.sent.value.targets) && !ShownReadOnly(x, id)
  }

  /** The record of overrides only grows, and only where the run allows overrides. */
  ghost predicate Grows(before: Option<ElevatedLogin>, after: Option<ElevatedLogin>, allowed: bool) {
    (before.Some? ==> after.Some? && before.value.found.Keys <= after.value.found.Keys) &&
        (!allowed ==> after == before)
  }

  /** The probe's one finding about a node. */
  ghost predicate IsFinding(p: ProbeCheck, severity: Severity, n: Node, connection: Option<Connection>,
      x: Option<Exchange>, reading: P.Reading, f: Finding) {
    RunOf(f) == CheckRun(p.id, Source.Probe, severity) && f.status == StatusOf(p, n, connection, x, reading)
  }

  // ---- asking -----------------------------------------------------------------------

  function MakeFinding(p: ProbeCheck, severity: Severity, status: Status, reason: string,
      evidence: map<string, string>): Finding {
    Finding(p.id, Source.Probe, status, severity, reason, evidence)
  }

  /** A probe's finding about a node when a guard that needs no warehouse stops it. */
  function Held(p: ProbeCheck, severity: Severity, n: Node, connected: bool): (r: Option<Finding>)
    ensures r.None? <==> Ready(p, n, connected)
    ensures r.Some? ==>
        RunOf(r.value) == CheckRun(p.id, Source.Probe, severity) && r.value.status == if p.applies(n) then Unknown
        else Skipped
  {
    if !p.applies(n) then Some(MakeFinding(p, severity, Skipped, NOT_SELECTED, map[]))
    else if p.query.None? then Some(MakeFinding(p, severity, Unknown, "no query for this warehouse", map[]))
    else if !p.readOnly
        then Some(MakeFinding(p, severity, Unknown, "its SQL wasn't checked as one read-only query", map[]))
    else if !p.trusted then Some(MakeFinding(p, severity, Unknown, "not trusted for this project", map[]))
    else if !connected then Some(MakeFinding(p, severity, Unknown, "no connection to run probes through", map[]))
    else None
  }

  /** One answer per id, or none for an id answered twice. */
  method Collect<T>(answers: seq<(string, T)>) returns (r: map<string, Option<T>>)
    ensures forall id :: id in r <==> AnswersFor(answers, id) != []
    ensures forall id :: id in r ==> r[id] == OnlyAnswer(answers, id)
  {
    r := map[];
    for k := 0 to |answers|
      invariant forall id :: id in r <==> AnswersFor(answers[..k], id) != []
      invariant forall id :: id in r ==> r[id] == OnlyAnswer(answers[..k], id)
    {
      var id := answers[k].0;
      assert answers[..k + 1][..k] == answers[..k];
      r := r[id := if id in r then None else Some(answers[k].1)];
    }
    assert answers[..|answers|] == answers;
  }

  /** What the login may do on each target; a target it cannot tell about is unsure. */
  method LoginCheck(c: Connection, targets: seq<Target>, time: nat)
    returns (login: Option<string>, access: map<string, Access>, reply: Option<Reply<Access>>)
    ensures reply == if c.privileges.Some? then Some(c.privileges.value(time, targets)) else None
    ensures forall p, sent, t :: t in targets ==>
      (ShownReadOnly(Exchange(p, targets, reply, sent), t.id) <==> t.id in access && access[t.id] == ReadOnly)
  {
    hide OnlyAnswer, AnswersFor;
    login, access, reply := None, map t | t in targets :: t.id := Unsure("the connection can't report it"), None;
    if c.privileges.None? { return; }
    var answer := c.privileges.value(time, targets);
    reply := Some(answer);
    if answer.Failed? || !NoStranger(answer.answers, Ids(targets)) { return; }
    var collected := Collect(answer.answers);
    access := map id | id in collected ::
        if collected[id].Some? then collected[id].value else Unsure("the check answered twice");
    login := answer.login;
    forall id ensures OnlyAnswer(answer.answers, id) == Some(ReadOnly) ==> id in collected {
      OnlyIsSome(answer.answers, id);
    }
  }

  lemma OnlyIsSome<T>(answers: seq<(string, T)>, id: string)
    ensures OnlyAnswer(answers, id).Some? ==> AnswersFor(answers, id) != []
  {
  }

  /** Which targets the login check lets through, and what is refused or overridden. */
  method Admit(p: ProbeCheck, severity: Severity, c: Connection, targets: seq<Target>, login: Option<string>,
               access: map<string, Access>, elevated: Option<ElevatedLogin>)
    returns (allowed: seq<Target>, refused: map<string, Finding>, after: Option<ElevatedLogin>)
    ensures forall t :: t in allowed <==> t in targets && Lets(c, access, t)
    ensures forall id :: id in refused <==> exists t :: t in targets && t.id == id && !Lets(c, access, t)
    ensures forall id ::
        id in refused ==> RunOf(refused[id]) == CheckRun(p.id, Source.Probe, severity) && refused[id].status == Unknown
    ensures forall t :: t in allowed && !(t.id in access && access[t.id] == ReadOnly) ==> OnRecord(after, t.id)
    ensures forall id :: OnRecord(after, id) ==> OnRecord(elevated, id) || NewlyOnRecord(allowed, access, id)
    ensures Grows(elevated, after, c.allowElevated)
  {
    allowed, refused, after := [], map[], elevated;
    for k := 0 to |targets|
      invariant forall t :: t in allowed <==> t in targets[..k] && Lets(c, access, t)
      invariant forall id :: id in refused <==> exists t :: t in targets[..k] && t.id == id && !Lets(c, access, t)
      invariant forall id ::
          id in refused ==>
          RunOf(refused[id]) == CheckRun(p.id, Source.Probe, severity) && refused[id].status == Unknown
      invariant forall t :: t in allowed && !(t.id in access && access[t.id] == ReadOnly) ==> OnRecord(after, t.id)
      invariant forall id :: OnRecord(after, id) ==> OnRecord(elevated, id) || NewlyOnRecord(allowed, access, id)
      invariant Grows(elevated, after, c.allowElevated)
    {
      var t := targets[k];
      assert targets[..k + 1] == targets[..k] + [t];
      var found := if t.id in access then access[t.id] else Unsure("the check didn't report on it");
      if found == ReadOnly {
        assert Ids(allowed + [t]) == Ids(allowed) + [t.id];
        allowed := allowed + [t];
      } else {
        var what := if found.Elevated? then found.what else found.why;
        if c.allowElevated {
          var entry := if after.Some? then after.value else ElevatedLogin(None, None, map[]);
          after := Some(ElevatedLogin(if entry.login.None? then login else entry.login,
                                      if entry.connection.None? then c.name else entry.connection,
                                      entry.found[t.id := what]));
          assert Ids(allowed + [t]) == Ids(allowed) + [t.id];
          allowed := allowed + [t];
        } else {
          refused := refused[t.id :=
              MakeFinding(p, severity, Unknown, "refused: " + what, map["login_check" := "refused"])];
        }
      }
    }
    assert targets[..|targets|] == targets;
  }

  predicate NewlyOnRecord(allowed: seq<Target>, access: map<string, Access>, id: string) {
    id in Ids(allowed) && !(id in access && access[id] == ReadOnly)
  }

  predicate Lets(c: Connection, access: map<string, Access>, t: Target) {
    c.allowElevated || (t.id in access && access[t.id] == ReadOnly)
  }

  /** Judges each target the query was sent for. */
  method Judge(p: ProbeCheck, severity: Severity, targets: seq<Target>, reply: Reply<Answer>, reading: P.Reading)
    returns (found: map<string, Finding>)
    ensures forall id :: id in found <==> id in Ids(targets)
    ensures forall id ::
        id in found ==>
        RunOf(found[id]) == CheckRun(p.id, Source.Probe, severity) &&
        found[id].status == Earned(p, reply, targets, id, reading)
  {
    hide OnlyAnswer, AnswersFor;
    found := map[];
    var trusted := reply.Reported? && NoStranger(reply.answers, Ids(targets));
    var answers: map<string, Option<Answer>> := map[];
    if trusted { answers := Collect(reply.answers); }
    for k := 0 to |targets|
      invariant forall id :: id in found <==> id in Ids(targets[..k])
      invariant forall id ::
          id in found ==>
          RunOf(found[id]) == CheckRun(p.id, Source.Probe, severity) &&
          found[id].status == Earned(p, reply, targets, id, reading)
    {
      var id := targets[k].id;
      assert Ids(targets[..k + 1]) == Ids(targets[..k]) + [id];
      var status, reason := Unknown, "the probe didn't report on it";
      if trusted {
        OnlyIsSome(reply.answers, id);
        if id in answers {
          match answers[id] {
            case Some(Rows(rows)) =>
                status, reason := FromVerdict(P.Evaluate(p.pass, FirstRow(rows), reading)), "judged on its first row";
            case Some(NotProbed(why)) => status, reason := Skipped, why;
            case Some(CannotTell(why)) => status, reason := Unknown, why;
            case None => status, reason := Unknown, "the probe answered about it twice";
          }
        }
      }
      found := found[id := MakeFinding(p, severity, status, reason, map[])];
    }
    assert targets[..|targets|] == targets;
  }

  method ToTargets(c: Connection, nodes: seq<Node>) returns (targets: seq<Target>)
    ensures forall t :: t in targets <==> exists n :: n in nodes && t == ToTarget(c, n)
  {
    targets := [];
    for k := 0 to |nodes|
      invariant forall t :: t in targets <==> exists n :: n in nodes[..k] && t == ToTarget(c, n)
    {
      assert nodes[..k + 1] == nodes[..k] + [nodes[k]];
      targets := targets + [ToTarget(c, nodes[k])];
    }
    assert nodes[..|nodes|] == nodes;
  }

  /** Splits nodes by whether the build made a relation for them. */
  method Split(p: ProbeCheck, severity: Severity, nodes: seq<Node>, c: Connection)
      returns (built: seq<Node>, refused: map<string, Finding>)
    ensures forall n :: n in built <==> n in nodes && IsBuilt(c, n)
    ensures forall id :: id in refused <==> exists n :: n in nodes && n.id == id && !IsBuilt(c, n)
    ensures forall id ::
        id in refused ==> RunOf(refused[id]) == CheckRun(p.id, Source.Probe, severity) && refused[id].status == Unknown
  {
    built, refused := [], map[];
    for k := 0 to |nodes|
      invariant forall n :: n in built <==> n in nodes[..k] && IsBuilt(c, n)
      invariant forall id :: id in refused <==> exists n :: n in nodes[..k] && n.id == id && !IsBuilt(c, n)
      invariant forall id ::
          id in refused ==>
          RunOf(refused[id]) == CheckRun(p.id, Source.Probe, severity) && refused[id].status == Unknown
    {
      var n := nodes[k];
      assert nodes[..k + 1] == nodes[..k] + [n];
      if IsBuilt(c, n) {
        built := built + [n];
      } else {
        refused := refused[n.id := MakeFinding(p, severity, Unknown, "the build made no relation for it", map[])];
      }
    }
    assert nodes[..|nodes|] == nodes;
  }

  /** Whatever was put on record was overridden in this step. */
  ghost predicate AddsOverrides(before: Option<ElevatedLogin>, after: Option<ElevatedLogin>, step: Option<Exchange>) {
    forall id :: OnRecord(after, id) ==> OnRecord(before, id) || (step.Some? && Overridden(step.value, id))
  }

  /** What `IsFinding` says, for whichever node of the list has the id. */
  ghost predicate Concluded(p: ProbeCheck, severity: Severity, nodes: seq<Node>, connection: Option<Connection>,
      x: Option<Exchange>,
                            reading: P.Reading, id: string, f: Finding) {
    exists n :: n in nodes && n.id == id && IsFinding(p, severity, n, connection, x, reading, f)
  }

  ghost predicate AllConcluded(p: ProbeCheck, severity: Severity, nodes: seq<Node>, connection: Option<Connection>,
      x: Option<Exchange>,
                               reading: P.Reading, found: map<string, Finding>) {
    && (forall n :: n in nodes ==> n.id in found)
    && forall id :: id in found ==> Concluded(p, severity, nodes, connection, x, reading, id, found[id])
  }

  /** Nothing is asked only when no node is ready and built. */
  ghost predicate StepIsGuarded(p: ProbeCheck, nodes: seq<Node>, connection: Option<Connection>, step: Option<Exchange>,
      elevated: Option<ElevatedLogin>, time: nat) {
    match step
    case Some(x) => connection.Some? && Guarded(p, nodes, connection.value, x, elevated, time)
    case None => forall n :: n in nodes && Ready(p, n, connection.Some?) ==> !IsBuilt(connection.value, n)
  }

  /** Runs a probe on the nodes ready for it. */
  method RunOn(p: ProbeCheck, severity: Severity, nodes: seq<Node>, c: Connection, time: nat,
      elevated: Option<ElevatedLogin>, reading: P.Reading)
    returns (found: map<string, Finding>, after: Option<ElevatedLogin>, step: Option<Exchange>)
    requires forall n :: n in nodes ==> Ready(p, n, true)
    ensures StepIsGuarded(p, nodes, Some(c), step, after, time)
    ensures AllConcluded(p, severity, nodes, Some(c), step, reading, found)
    ensures Grows(elevated, after, c.allowElevated) && AddsOverrides(elevated, after, step)
  {
    hide ShownReadOnly, Earned, RunOf, Guarded, StatusOf, Ready, IsBuilt, Admitted, AllConcluded, Ids;
    var built, unbuilt := Split(p, severity, nodes, c);
    found, after, step := unbuilt, elevated, None;
    if built == [] {
      NothingAsked(p, severity, nodes, c, reading, built, unbuilt, elevated, time);
      return;
    }
    var targets := ToTargets(c, built);
    var login, access, reply := LoginCheck(c, targets, time);
    var allowed, refused, record := Admit(p, severity, c, targets, login, access, elevated);
    after := record;
    var x := Exchange(p, targets, reply, None);
    var judged: map<string, Finding> := map[];
    ReadyHasQuery(p, built[0]);
    assert ToTarget(c, built[0]) in targets;
    if allowed != [] {
      var answer := c.probe(time, p.query.value, allowed);
      x := x.(sent := Some(Sent(p.query.value, allowed, answer)));
      judged := Judge(p, severity, allowed, answer, reading);
    }
    step := Some(x);
    found := unbuilt + refused + judged;
    forall t | t in targets ensures Lets(c, access, t) <==> c.allowElevated || ShownReadOnly(x, t.id) {
      assert x == Exchange(p, targets, reply, x.sent);
    }
    IsAdmitted(p, nodes, c, x, built, access, allowed);
    SentIsGuarded(p, nodes, c, x, built, allowed, after, time);
    forall id | OnRecord(after, id) && !OnRecord(elevated, id) ensures Overridden(x, id) {
      var t := IdOf(allowed, id);
      assert t in targets && x == Exchange(p, targets, reply, x.sent);
    }
    AskedConcludes(p, severity, nodes, c, reading, built, allowed, unbuilt, refused, judged, x);
  }

  lemma ReadyHasQuery(p: ProbeCheck, n: Node)
    requires Ready(p, n, true)
    ensures p.query.Some?
  {
  }

  lemma NothingAsked(p: ProbeCheck, severity: Severity, nodes: seq<Node>, c: Connection, reading: P.Reading,
                     built: seq<Node>, unbuilt: map<string, Finding>, elevated: Option<ElevatedLogin>, time: nat)
    requires forall n :: n in nodes ==> Ready(p, n, true)
    requires built == [] && forall n :: n in built <==> n in nodes && IsBuilt(c, n)
    requires forall id :: id in unbuilt <==> exists n :: n in nodes && n.id == id && !IsBuilt(c, n)
    requires forall id ::
        id in unbuilt ==> RunOf(unbuilt[id]) == CheckRun(p.id, Source.Probe, severity) && unbuilt[id].status == Unknown
    ensures StepIsGuarded(p, nodes, Some(c), None, elevated, time)
    ensures AllConcluded(p, severity, nodes, Some(c), None, reading, unbuilt)
  {
    hide IsBuilt, Earned;
    forall n | n in nodes ensures !IsBuilt(c, n) { assert n !in built; }
    forall id | id in unbuilt ensures Concluded(p, severity, nodes, Some(c), None, reading, id, unbuilt[id]) {
      var n :| n in nodes && n.id == id && !IsBuilt(c, n);
      assert IsFinding(p, severity, n, Some(c), None, reading, unbuilt[id]);
    }
  }

  /** The targets allowed are those of nodes that every guard lets through. */
  ghost predicate Admitted(p: ProbeCheck, nodes: seq<Node>, c: Connection, x: Exchange, built: seq<Node>,
      allowed: seq<Target>) {
    && (forall n :: n in nodes ==> Ready(p, n, true))
    && (forall n :: n in built <==> n in nodes && IsBuilt(c, n))
    && (forall t :: t in x.asked <==> exists n :: n in built && t == ToTarget(c, n))
    && (forall t :: t in allowed <==> t in x.asked && (c.allowElevated || ShownReadOnly(x, t.id)))
  }

  lemma IsAdmitted(p: ProbeCheck, nodes: seq<Node>, c: Connection, x: Exchange, built: seq<Node>,
      access: map<string, Access>, allowed: seq<Target>)
    requires forall n :: n in nodes ==> Ready(p, n, true)
    requires forall n :: n in built <==> n in nodes && IsBuilt(c, n)
    requires forall t :: t in x.asked <==> exists n :: n in built && t == ToTarget(c, n)
    requires forall t :: t in allowed <==> t in x.asked && Lets(c, access, t)
    requires forall t :: t in x.asked ==> (Lets(c, access, t) <==> c.allowElevated || ShownReadOnly(x, t.id))
    ensures Admitted(p, nodes, c, x, built, allowed)
  {
    hide ShownReadOnly, IsBuilt, Ready, ToTarget, Lets;
  }

  lemma AdmittedMayProbe(p: ProbeCheck, nodes: seq<Node>, c: Connection, x: Exchange, built: seq<Node>,
      allowed: seq<Target>)
    requires Admitted(p, nodes, c, x, built, allowed)
    ensures forall t :: t in allowed <==> exists n :: n in nodes && t == ToTarget(c, n) && MayProbe(p, n, c, x)
    ensures forall n :: n in nodes && MayProbe(p, n, c, x) ==> ToTarget(c, n) in allowed
  {
    hide ShownReadOnly, Ready, IsBuilt;
    forall n | n in nodes && MayProbe(p, n, c, x) ensures ToTarget(c, n) in allowed {
      assert n in built;
      assert ToTarget(c, n) in x.asked;
    }
    forall t | t in allowed ensures exists n :: n in nodes && t == ToTarget(c, n) && MayProbe(p, n, c, x) {
      var n :| n in built && t == ToTarget(c, n);
      assert n in nodes && MayProbe(p, n, c, x);
    }
  }

  lemma AskedAreReady(p: ProbeCheck, nodes: seq<Node>, c: Connection, x: Exchange, built: seq<Node>,
      allowed: seq<Target>, time: nat)
    requires x.asked != [] && x.login == (if c.privileges.Some? then Some(c.privileges.value(time, x.asked)) else None)
    requires x.sent.Some? ==> x.sent.value.reply == c.probe(time, x.sent.value.query, x.sent.value.targets)
    requires Admitted(p, nodes, c, x, built, allowed)
    ensures Asks(p, nodes, c, x, time)
  {
    hide ShownReadOnly, Ready, IsBuilt, ToTarget;
  }

  lemma SentIsGuarded(p: ProbeCheck, nodes: seq<Node>, c: Connection, x: Exchange, built: seq<Node>,
      allowed: seq<Target>, elevated: Option<ElevatedLogin>, time: nat)
    requires x.asked != [] && x.login == (if c.privileges.Some? then Some(c.privileges.value(time, x.asked)) else None)
    requires x.sent.Some? ==> x.sent.value.reply == c.probe(time, x.sent.value.query, x.sent.value.targets)
    requires Admitted(p, nodes, c, x, built, allowed) && x.probe == p && p.query.Some?
    requires x.sent.Some? <==> allowed != []
    requires x.sent.Some? ==> x.sent.value.query == p.query.value && x.sent.value.targets == allowed
    requires forall t :: t in allowed && !ShownReadOnly(x, t.id) ==> OnRecord(elevated, t.id)
    ensures Guarded(p, nodes, c, x, elevated, time)
  {
    hide ShownReadOnly, MayProbe, Admitted, OnRecord, Asks;
    AskedAreReady(p, nodes, c, x, built, allowed, time);
    AdmittedMayProbe(p, nodes, c, x, built, allowed);
    if allowed != [] { assert allowed[0] in allowed; }
  }

  lemma AskedConcludes(p: ProbeCheck, severity: Severity, nodes: seq<Node>, c: Connection, reading: P.Reading,
      built: seq<Node>, allowed: seq<Target>,
                       unbuilt: map<string, Finding>, refused: map<string, Finding>, judged: map<string, Finding>,
                           x: Exchange)
    requires Admitted(p, nodes, c, x, built, allowed)
    requires x.sent.Some? <==> allowed != []
    requires x.sent.Some? ==> x.sent.value.targets == allowed
    requires forall id :: id in unbuilt <==> exists n :: n in nodes && n.id == id && !IsBuilt(c, n)
    requires forall id ::
        id in unbuilt ==> RunOf(unbuilt[id]) == CheckRun(p.id, Source.Probe, severity) && unbuilt[id].status == Unknown
    requires forall id :: id in refused <==> exists t :: t in x.asked && t.id == id && t !in allowed
    requires forall id ::
        id in refused ==> RunOf(refused[id]) == CheckRun(p.id, Source.Probe, severity) && refused[id].status == Unknown
    requires forall id :: id in judged <==> id in Ids(allowed)
    requires forall id :: id in judged ==> x.sent.Some? && RunOf(judged[id]) == CheckRun(p.id, Source.Probe, severity)
                                           && judged[id].status == Earned(p, x.sent.value.reply, allowed, id, reading)
    ensures AllConcluded(p, severity, nodes, Some(c), Some(x), reading, unbuilt + refused + judged)
  {
    hide ShownReadOnly, Ready, IsBuilt, Earned, RunOf, MayProbe, Concluded;
    var found := unbuilt + refused + judged;
    AdmittedMayProbe(p, nodes, c, x, built, allowed);
    forall n | n in nodes ensures n.id in found {
      if IsBuilt(c, n) {
        assert n in built;
        assert ToTarget(c, n) in x.asked && ToTarget(c, n).id == n.id;
        if ToTarget(c, n) in allowed { InIds(allowed, ToTarget(c, n)); }
      }
    }
    forall id | id in found ensures Concluded(p, severity, nodes, Some(c), Some(x), reading, id, found[id]) {
      if id in judged {
        var t := IdOf(allowed, id);
        var n :| n in nodes && t == ToTarget(c, n) && MayProbe(p, n, c, x);
        assert n in built by { MayProbeIsBuilt(p, n, c, x); }
        ConcludeFor(p, severity, nodes, c, x, reading, n, found[id]);
      } else if id in refused {
        var t :| t in x.asked && t.id == id && t !in allowed;
        var n :| n in built && t == ToTarget(c, n);
        ConcludeFor(p, severity, nodes, c, x, reading, n, found[id]);
      } else {
        var n :| n in nodes && n.id == id && !IsBuilt(c, n);
        ConcludeFor(p, severity, nodes, c, x, reading, n, found[id]);
      }
    }
  }

  lemma MayProbeIsBuilt(p: ProbeCheck, n: Node, c: Connection, x: Exchange)
    requires MayProbe(p, n, c, x)
    ensures IsBuilt(c, n)
  {
  }

  lemma ConcludeFor(p: ProbeCheck, severity: Severity, nodes: seq<Node>, c: Connection, x: Exchange, reading: P.Reading,
      n: Node, f: Finding)
    requires n in nodes && Ready(p, n, true) && RunOf(f) == CheckRun(p.id, Source.Probe, severity)
    requires f.status == if !IsBuilt(c, n) || !MayProbe(p, n, c, x) || x.sent.None? then Unknown
                         else Earned(p, x.sent.value.reply, x.sent.value.targets, n.id, reading)
    ensures Concluded(p, severity, nodes, Some(c), Some(x), reading, n.id, f)
  {
    hide ShownReadOnly, IsBuilt, Earned, RunOf;
    assert IsFinding(p, severity, n, Some(c), Some(x), reading, f);
  }

  lemma InIds(targets: seq<Target>, t: Target)
    requires t in targets
    ensures t.id in Ids(targets)
  {
    var i :| 0 <= i < |targets| && targets[i] == t;
    assert Ids(targets)[i] == t.id;
  }

  lemma IdOf(targets: seq<Target>, id: string) returns (t: Target)
    requires id in Ids(targets)
    ensures t in targets && t.id == id
  {
    var i :| 0 <= i < |targets| && Ids(targets)[i] == id;
    t := targets[i];
  }

  // ---- every probe ------------------------------------------------------------------

  /** The probes that are on, in order. */
  function Enabled(probes: seq<ProbeCheck>): (r: seq<ProbeCheck>)
    ensures forall p :: p in r <==> p in probes && p.severity.Some?
  {
    if probes == [] then [] else
      var init, last := Enabled(probes[..|probes| - 1]), probes[|probes| - 1];
      assert probes == probes[..|probes| - 1] + [last];
      if last.severity.Some? then init + [last] else init
  }

  function FindingsFor(findings: map<string, seq<Finding>>, id: string): seq<Finding> {
    if id in findings then findings[id] else []
  }

  /** One probe on every node: those a guard holds back are answered without asking. */
  method RunOne(p: ProbeCheck, severity: Severity, nodes: seq<Node>, connection: Option<Connection>, time: nat,
      elevated: Option<ElevatedLogin>, reading: P.Reading)
    returns (found: map<string, Finding>, after: Option<ElevatedLogin>, step: Option<Exchange>)
    ensures StepIsGuarded(p, nodes, connection, step, after, time)
    ensures AllConcluded(p, severity, nodes, connection, step, reading, found)
    ensures Grows(elevated, after, connection.Some? && connection.value.allowElevated) &&
        AddsOverrides(elevated, after, step)
  {
    hide Ready, IsBuilt, StepIsGuarded, AllConcluded, RunOf, Held;
    var held: map<string, Finding> := map[];
    var ready: seq<Node> := [];
    for k := 0 to |nodes|
      invariant forall n :: n in ready <==> n in nodes[..k] && Ready(p, n, connection.Some?)
      invariant forall id :: id in held <==> exists n :: n in nodes[..k] && n.id == id && !Ready(p, n, connection.Some?)
      invariant forall id ::
          id in held ==>
          exists n :: n in nodes[..k] && n.id == id && HeldBack(p, severity, n, connection.Some?, held[id])
    {
      assert nodes[..k + 1] == nodes[..k] + [nodes[k]];
      var h := Held(p, severity, nodes[k], connection.Some?);
      if h.Some? {
        assert HeldBack(p, severity, nodes[k], connection.Some?, h.value);
        held := held[nodes[k].id := h.value];
      } else {
        ready := ready + [nodes[k]];
      }
    }
    assert nodes[..|nodes|] == nodes;
    found, after, step := held, elevated, None;
    if connection.Some? && ready != [] {
      var answered;
      answered, after, step := RunOn(p, severity, ready, connection.value, time, elevated, reading);
      found := held + answered;
      StepOfReady(p, nodes, ready, connection.value, step, after, time);
      ReadyConcludes(p, severity, nodes, ready, connection, step, reading, held, answered);
    } else {
      NobodyReady(p, severity, nodes, ready, connection, after, reading, time);
      ReadyConcludes(p, severity, nodes, ready, connection, None, reading, held, map[]);
      assert held + map[] == held;
    }
  }

  ghost predicate HeldBack(p: ProbeCheck, severity: Severity, n: Node, connected: bool, f: Finding) {
    !Ready(p, n, connected) && RunOf(f) == CheckRun(p.id, Source.Probe, severity) && f.status == if p.applies(n)
        then Unknown else Skipped
  }

  lemma NobodyReady(p: ProbeCheck, severity: Severity, nodes: seq<Node>, ready: seq<Node>,
      connection: Option<Connection>,
                    elevated: Option<ElevatedLogin>, reading: P.Reading, time: nat)
    requires forall n :: n in ready <==> n in nodes && Ready(p, n, connection.Some?)
    requires connection.None? || ready == []
    ensures StepIsGuarded(p, nodes, connection, None, elevated, time)
    ensures AllConcluded(p, severity, ready, connection, None, reading, map[])
  {
    hide StatusOf, IsFinding;
    assert forall n :: n in nodes && Ready(p, n, connection.Some?) ==> n in ready;
  }

  lemma StepOfReady(p: ProbeCheck, nodes: seq<Node>, ready: seq<Node>, c: Connection, step: Option<Exchange>,
      elevated: Option<ElevatedLogin>, time: nat)
    requires forall n :: n in ready <==> n in nodes && Ready(p, n, true)
    requires StepIsGuarded(p, ready, Some(c), step, elevated, time)
    ensures StepIsGuarded(p, nodes, Some(c), step, elevated, time)
  {
    hide ShownReadOnly, IsBuilt, Ready, ToTarget, OnRecord;
    if step.Some? {
      var x := step.value;
      forall n ensures n in nodes && MayProbe(p, n, c, x) <==> n in ready && MayProbe(p, n, c, x) {}
      forall n ensures n in nodes && Ready(p, n, true) <==> n in ready && Ready(p, n, true) {}
    } else {
      forall n | n in nodes && Ready(p, n, true) ensures !IsBuilt(c, n) { assert n in ready; }
    }
  }

  lemma ReadyConcludes(p: ProbeCheck, severity: Severity, nodes: seq<Node>, ready: seq<Node>,
      connection: Option<Connection>, step: Option<Exchange>,
                       reading: P.Reading, held: map<string, Finding>, answered: map<string, Finding>)
    requires forall n :: n in ready <==> n in nodes && Ready(p, n, connection.Some?)
    requires forall id :: id in held <==> exists n :: n in nodes && n.id == id && !Ready(p, n, connection.Some?)
    requires forall id ::
        id in held ==> exists n :: n in nodes && n.id == id && HeldBack(p, severity, n, connection.Some?, held[id])
    requires AllConcluded(p, severity, ready, connection, step, reading, answered)
    ensures AllConcluded(p, severity, nodes, connection, step, reading, held + answered)
  {
    hide Ready, RunOf, IsBuilt, MayProbe, Earned;
    var found := held + answered;
    forall n | n in nodes ensures n.id in found { assert Ready(p, n, connection.Some?) ==> n in ready; }
    forall id | id in found ensures Concluded(p, severity, nodes, connection, step, reading, id, found[id]) {
      if id in answered {
        var n :| n in ready && n.id == id && IsFinding(p, severity, n, connection, step, reading, answered[id]);
        assert n in nodes;
      } else {
        var n :| n in nodes && n.id == id && HeldBack(p, severity, n, connection.Some?, held[id]);
        assert IsFinding(p, severity, n, connection, step, reading, held[id]);
      }
    }
  }

  /** Adds one finding to each node that has one. */
  method Publish(nodes: seq<Node>, found: map<string, Finding>, findings: map<string, seq<Finding>>)
      returns (r: map<string, seq<Finding>>)
    requires forall n :: n in nodes ==> n.id in found
    ensures forall n :: n in nodes ==> FindingsFor(r, n.id) == FindingsFor(findings, n.id) + [found[n.id]]
    ensures forall id :: (forall n :: n in nodes ==> n.id != id) ==> FindingsFor(r, id) == FindingsFor(findings, id)
  {
    hide FindingsFor;
    r := findings;
    var left := found;
    for k := 0 to |nodes|
      invariant forall id :: id in left ==> id in found && left[id] == found[id]
      invariant forall id :: id in found && id !in left ==> exists n :: n in nodes[..k] && n.id == id
      invariant forall n :: n in nodes[..k] ==> n.id !in left
      invariant forall id :: FindingsFor(r, id) == FindingsFor(findings, id) + Published(found, left, id)
    {
      assert nodes[..k + 1] == nodes[..k] + [nodes[k]];
      var id := nodes[k].id;
      if id in left {
        var next := FindingsFor(r, id) + [left[id]];
        FindingsUpdated(r, id, next);
        r := r[id := next];
        left := left - {id};
      }
    }
    assert nodes[..|nodes|] == nodes;
  }

  function Published(found: map<string, Finding>, left: map<string, Finding>, id: string): seq<Finding> {
    if id in found && id !in left then [found[id]] else []
  }

  lemma FindingsUpdated(findings: map<string, seq<Finding>>, id: string, now: seq<Finding>)
    ensures forall x :: FindingsFor(findings[id := now], x) == if x == id then now else FindingsFor(findings, x)
  {
    var updated := findings[id := now];
    forall x ensures FindingsFor(updated, x) == if x == id then now else FindingsFor(findings, x) {
      assert x in updated <==> x == id || x in findings;
    }
  }

  datatype ProbeRun = ProbeRun(findings: map<string, seq<Finding>>, elevated: Option<ElevatedLogin>,
      unmatched: seq<string>, steps: seq<Option<Exchange>>)

  /** After a run, each enabled probe has asked only past its guards, only what was overridden
      is on record, and each node has one finding from each probe, in order. */
  ghost predicate RanAll(enabled: seq<ProbeCheck>, nodes: seq<Node>, connection: Option<Connection>, reading: P.Reading,
      run: ProbeRun) {
    && |run.steps| == |enabled|
    && (forall k :: 0 <= k < |enabled| ==> StepIsGuarded(enabled[k], nodes, connection, run.steps[k], run.elevated, k))
    && (forall id ::
        OnRecord(run.elevated, id) ==>
        exists k :: 0 <= k < |run.steps| && run.steps[k].Some? && Overridden(run.steps[k].value, id))
    && (forall n :: n in nodes ==> |FindingsFor(run.findings, n.id)| == |enabled|)
    && (forall n, k :: n in nodes && 0 <= k < |enabled| ==>
          Concludes(enabled[k], nodes, connection, run.steps[k], reading, n.id, FindingsFor(run.findings, n.id)[k]))
  }

  ghost predicate Concludes(p: ProbeCheck, nodes: seq<Node>, connection: Option<Connection>, x: Option<Exchange>,
      reading: P.Reading, id: string, f: Finding) {
    p.severity.Some? && Concluded(p, p.severity.value, nodes, connection, x, reading, id, f)
  }

  ghost predicate Unmatched(enabled: seq<ProbeCheck>, nodes: seq<Node>, ids: seq<string>) {
    forall id :: id in ids <==> exists p :: p in enabled && p.id == id && forall n :: n in nodes ==> !p.applies(n)
  }

  lemma GuardsStay(p: ProbeCheck, nodes: seq<Node>, connection: Option<Connection>, step: Option<Exchange>,
                   before: Option<ElevatedLogin>, after: Option<ElevatedLogin>, allowed: bool, time: nat)
    requires StepIsGuarded(p, nodes, connection, step, before, time) && Grows(before, after, allowed)
    ensures StepIsGuarded(p, nodes, connection, step, after, time)
  {
    hide MayProbe, ShownReadOnly, IsBuilt, Ready, ToTarget;
  }

  method RunAll(probes: seq<ProbeCheck>, nodes: seq<Node>, connection: Option<Connection>, reading: P.Reading)
      returns (run: ProbeRun)
    ensures RanAll(Enabled(probes), nodes, connection, reading, run)
    ensures Unmatched(Enabled(probes), nodes, run.unmatched)
    ensures run.elevated.Some? ==> connection.Some? && connection.value.allowElevated
  {
    hide StepIsGuarded, AllConcluded, RanAll, Unmatched, FindingsFor, Grows, AddsOverrides, Enabled;
    EnabledStep(probes[..0]);
    NothingRan(nodes, connection, reading);
    run := ProbeRun(map[], None, [], []);
    for k := 0 to |probes|
      invariant RanAll(Enabled(probes[..k]), nodes, connection, reading, run)
      invariant Unmatched(Enabled(probes[..k]), nodes, run.unmatched)
      invariant run.elevated.Some? ==> connection.Some? && connection.value.allowElevated
    {
      var p := probes[k];
      EnabledStep(probes[..k + 1]);
      assert probes[..k + 1][..k] == probes[..k];
      if p.severity.Some? {
        var matched := AnyApplies(p, nodes);
        var found, elevated, step := RunOne(p, p.severity.value, nodes, connection, |run.steps|, run.elevated, reading);
        AllFound(p, p.severity.value, nodes, connection, step, reading, found);
        RanSteps(Enabled(probes[..k]), nodes, connection, reading, run);
        var findings := Publish(nodes, found, run.findings);
        var next := ProbeRun(findings, elevated, if matched then run.unmatched
            else run.unmatched + [p.id], run.steps + [step]);
        RanOneMore(Enabled(probes[..k]), p, nodes, connection, reading, run, found, next);
        UnmatchedMore(Enabled(probes[..k]), p, nodes, run.unmatched, matched, next.unmatched);
        run := next;
      }
    }
    assert probes[..|probes|] == probes;
  }

  lemma EnabledStep(probes: seq<ProbeCheck>)
    ensures Enabled([]) == []
    ensures probes != [] ==> var init, last := Enabled(probes[..|probes| - 1]), probes[|probes| - 1];
                             Enabled(probes) == if last.severity.Some? then init + [last] else init
  {
  }

  lemma NothingRan(nodes: seq<Node>, connection: Option<Connection>, reading: P.Reading)
    ensures RanAll([], nodes, connection, reading, ProbeRun(map[], None, [], []))
    ensures Unmatched([], nodes, [])
  {
  }

  lemma AllFound(p: ProbeCheck, severity: Severity, nodes: seq<Node>, connection: Option<Connection>,
      x: Option<Exchange>, reading: P.Reading, found: map<string, Finding>)
    requires AllConcluded(p, severity, nodes, connection, x, reading, found)
    ensures forall n :: n in nodes ==> n.id in found
  {
    hide Concluded;
  }

  lemma RanSteps(enabled: seq<ProbeCheck>, nodes: seq<Node>, connection: Option<Connection>, reading: P.Reading,
      run: ProbeRun)
    requires RanAll(enabled, nodes, connection, reading, run)
    ensures |run.steps| == |enabled|
  {
    hide StepIsGuarded, Concludes, FindingsFor;
  }

  lemma UnmatchedMore(enabled: seq<ProbeCheck>, p: ProbeCheck, nodes: seq<Node>, ids: seq<string>, matched: bool,
      next: seq<string>)
    requires Unmatched(enabled, nodes, ids) && (matched <==> exists n :: n in nodes && p.applies(n))
    requires next == if matched then ids else ids + [p.id]
    ensures Unmatched(enabled + [p], nodes, next)
  {
    forall id ensures id in next <==>
        exists q :: q in enabled + [p] && q.id == id && forall n :: n in nodes ==> !q.applies(n) {
      if id in ids {
        var q :| q in enabled && q.id == id && forall n :: n in nodes ==> !q.applies(n);
        assert q in enabled + [p];
      }
      if !matched { assert p in enabled + [p]; }
    }
  }

  method AnyApplies(p: ProbeCheck, nodes: seq<Node>) returns (any: bool)
    ensures any <==> exists n :: n in nodes && p.applies(n)
  {
    any := false;
    for k := 0 to |nodes|
      invariant any <==> exists n :: n in nodes[..k] && p.applies(n)
    {
      assert nodes[..k + 1] == nodes[..k] + [nodes[k]];
      if p.applies(nodes[k]) { any := true; }
    }
    assert nodes[..|nodes|] == nodes;
  }

  lemma RanOneMore(enabled: seq<ProbeCheck>, p: ProbeCheck, nodes: seq<Node>, connection: Option<Connection>,
      reading: P.Reading,
                   run: ProbeRun, found: map<string, Finding>, next: ProbeRun)
    requires RanAll(enabled, nodes, connection, reading, run) && p.severity.Some?
    requires |next.steps| == |run.steps| + 1 && next.steps[..|run.steps|] == run.steps
    requires StepIsGuarded(p, nodes, connection, next.steps[|run.steps|], next.elevated, |run.steps|)
    requires AllConcluded(p, p.severity.value, nodes, connection, next.steps[|run.steps|], reading, found)
    requires Grows(run.elevated, next.elevated, connection.Some? && connection.value.allowElevated)
    requires AddsOverrides(run.elevated, next.elevated, next.steps[|run.steps|])
    requires forall n ::
        n in nodes ==> FindingsFor(next.findings, n.id) == FindingsFor(run.findings, n.id) + [found[n.id]]
    ensures RanAll(enabled + [p], nodes, connection, reading, next)
    ensures run.elevated.Some? && !(connection.Some? && connection.value.allowElevated) ==>
        next.elevated == run.elevated
    ensures next.elevated.Some? ==> run.elevated.Some? || (connection.Some? && connection.value.allowElevated)
  {
    hide StepIsGuarded, Concluded, FindingsFor, Overridden;
    var all := enabled + [p];
    forall id | OnRecord(next.elevated, id)
        ensures exists k :: 0 <= k < |next.steps| && next.steps[k].Some? && Overridden(next.steps[k].value, id) {
      if OnRecord(run.elevated, id) {
        var k :| 0 <= k < |run.steps| && run.steps[k].Some? && Overridden(run.steps[k].value, id);
        assert next.steps[k] == next.steps[..|run.steps|][k];
      }
    }
    forall k | 0 <= k < |all| ensures StepIsGuarded(all[k], nodes, connection, next.steps[k], next.elevated, k) {
      if k < |enabled| {
        assert next.steps[k] == next.steps[..|run.steps|][k];
        GuardsStay(enabled[k], nodes, connection, run.steps[k], run.elevated, next.elevated, connection.Some? &&
            connection.value.allowElevated, k);
      }
    }
    forall n, k | n in nodes && 0 <= k < |all|
      ensures Concludes(all[k], nodes, connection, next.steps[k], reading, n.id, FindingsFor(next.findings, n.id)[k])
    {
      if k < |enabled| {
        assert next.steps[k] == next.steps[..|run.steps|][k];
        assert Concludes(enabled[k], nodes, connection, run.steps[k], reading, n.id,
            FindingsFor(run.findings, n.id)[k]);
      } else {
        assert Concluded(p, p.severity.value, nodes, connection, next.steps[k], reading, n.id, found[n.id]);
      }
    }
  }

  // ---- what a run never does --------------------------------------------------------

  /** Asked about these targets at this time, the connection says, about nothing else, and
      exactly once about this node, that its login can only read. */
  predicate SaysReadOnly(c: Connection, asked: seq<Target>, time: nat, id: string) {
    && c.privileges.Some?
    && var reply := c.privileges.value(time, asked);
       reply.Reported? && NoStranger(reply.answers, Ids(asked)) && OnlyAnswer(reply.answers, id) == Some(ReadOnly)
  }

  /** Every answer is about something asked, and exactly one is about this id and says read-only. */
  lemma ReadOnlyIsSaid(c: Connection, asked: seq<Target>, time: nat, id: string)
    ensures SaysReadOnly(c, asked, time, id) <==>
      && c.privileges.Some? && c.privileges.value(time, asked).Reported?
      && var answers := c.privileges.value(time, asked).answers;
         && (forall i :: 0 <= i < |answers| ==> answers[i].0 in Ids(asked))
         && exists i: nat :: IsOnly(answers, id, i) && answers[i].1 == ReadOnly
  {
    if c.privileges.Some? && c.privileges.value(time, asked).Reported? {
      OnlyAnswerIsOnly(c.privileges.value(time, asked).answers, id);
    }
    hide OnlyAnswer, IsOnly, Ids;
  }

  lemma ShownIsSaid(p: ProbeCheck, nodes: seq<Node>, c: Connection, x: Exchange, time: nat, id: string)
    requires Asks(p, nodes, c, x, time)
    ensures ShownReadOnly(x, id) <==> SaysReadOnly(c, x.asked, time, id)
  {
    hide OnlyAnswer, NoStranger, Ready, IsBuilt;
  }

  /** A query is sent about a node only past every guard: selected, its own query, known to
      only read, trusted, built, and under a login that the connection, asked about exactly the
      ready and built nodes, reports read-only exactly once, or that is on record as overridden. */
  lemma QueryPassesEveryGuard(enabled: seq<ProbeCheck>, nodes: seq<Node>, connection: Option<Connection>,
      reading: P.Reading,
                              run: ProbeRun, k: nat, t: Target)
    requires RanAll(enabled, nodes, connection, reading, run) && k < |enabled|
    requires run.steps[k].Some? && run.steps[k].value.sent.Some? && t in run.steps[k].value.sent.value.targets
    ensures var p, x := enabled[k], run.steps[k].value;
            && connection.Some? && p.readOnly && p.trusted && p.query == Some(x.sent.value.query)
            && Asks(p, nodes, connection.value, x, k)
            && (exists n ::
                n in nodes && t == ToTarget(connection.value, n) && p.applies(n) && IsBuilt(connection.value, n))
            && (SaysReadOnly(connection.value, x.asked, k, t.id) ||
                (connection.value.allowElevated && OnRecord(run.elevated, t.id)))
  {
    hide ShownReadOnly, IsBuilt, Concludes, OnRecord, FindingsFor, SaysReadOnly, Asks;
    var c, p, x := connection.value, enabled[k], run.steps[k].value;
    assert StepIsGuarded(p, nodes, connection, run.steps[k], run.elevated, k);
    var n :| n in nodes && t == ToTarget(c, n) && MayProbe(p, n, c, x);
    ShownIsSaid(p, nodes, c, x, k, t.id);
  }

  /** And it is sent about every such node: no guard holds back more than it says. */
  lemma EveryAllowedNodeIsAsked(enabled: seq<ProbeCheck>, nodes: seq<Node>, connection: Option<Connection>,
      reading: P.Reading, run: ProbeRun, k: nat, n: Node)
    requires RanAll(enabled, nodes, connection, reading, run) && k < |enabled| && connection.Some?
    requires n in nodes && enabled[k].applies(n)
    requires enabled[k].query.Some? && enabled[k].readOnly && enabled[k].trusted
    requires connection.value.relations == map[] || n.id in connection.value.relations
    ensures
      var c := connection.value;
      var target := Target(n.id, if n.id in c.relations then Some(c.relations[n.id]) else None);
      && run.steps[k].Some? && target in run.steps[k].value.asked
      && (SaysReadOnly(c, run.steps[k].value.asked, k, n.id) || c.allowElevated ==>
            run.steps[k].value.sent.Some? && target in run.steps[k].value.sent.value.targets)
  {
    assert Ready(enabled[k], n, true) && IsBuilt(connection.value, n);
    assert ToTarget(connection.value, n) ==
      Target(n.id, if n.id in connection.value.relations then Some(connection.value.relations[n.id]) else None);
    hide ShownReadOnly, IsBuilt, Ready, ToTarget, Concludes, OnRecord, FindingsFor, SaysReadOnly;
    assert StepIsGuarded(enabled[k], nodes, connection, run.steps[k], run.elevated, k);
    ShownIsSaid(enabled[k], nodes, connection.value, run.steps[k].value, k, n.id);
    assert SaysReadOnly(connection.value, run.steps[k].value.asked, k, n.id) || connection.value.allowElevated ==>
      MayProbe(enabled[k], n, connection.value, run.steps[k].value);
  }

  /** A step sent a query about the node under a login the connection did not report read-only. */
  ghost predicate WentOver(c: Connection, step: Option<Exchange>, k: nat, id: string) {
    && step.Some? && step.value.sent.Some? && id in Ids(step.value.sent.value.targets)
    && !SaysReadOnly(c, step.value.asked, k, id)
  }

  /** A node is on the record of overrides exactly when some query went out about it under a
      login not shown to only read: an override is never hidden, and never made up. */
  lemma OnRecordExactlyWhenOverridden(enabled: seq<ProbeCheck>, nodes: seq<Node>, c: Connection, reading: P.Reading,
      run: ProbeRun, id: string)
    requires RanAll(enabled, nodes, Some(c), reading, run)
    ensures OnRecord(run.elevated, id) <==> exists k: nat :: k < |run.steps| && WentOver(c, run.steps[k], k, id)
  {
    hide ShownReadOnly, MayProbe, Concludes, OnRecord, FindingsFor, ToTarget, SaysReadOnly, Asks;
    forall k: nat | k < |run.steps| && run.steps[k].Some?
        ensures WentOver(c, run.steps[k], k, id) <==> Overridden(run.steps[k].value, id) {
      assert StepIsGuarded(enabled[k], nodes, Some(c), run.steps[k], run.elevated, k);
      ShownIsSaid(enabled[k], nodes, c, run.steps[k].value, k, id);
    }
    if k: nat :| k < |run.steps| && WentOver(c, run.steps[k], k, id) {
      assert StepIsGuarded(enabled[k], nodes, Some(c), run.steps[k], run.elevated, k);
      var t := IdOf(run.steps[k].value.sent.value.targets, id);
    }
    if OnRecord(run.elevated, id) {
      var k :| 0 <= k < |run.steps| && run.steps[k].Some? && Overridden(run.steps[k].value, id);
      assert WentOver(c, run.steps[k], k, id);
    }
  }

  /** A node passes a probe only on one answer of the connection to the probe's own query, among
      answers about nothing else, whose first row the condition holds on. */
  lemma PassIsEarned(enabled: seq<ProbeCheck>, nodes: seq<Node>, connection: Option<Connection>, reading: P.Reading,
      run: ProbeRun, k: nat, n: Node)
    requires RanAll(enabled, nodes, connection, reading, run) && UniqueIds(nodes) && n in nodes && k < |enabled|
    requires FindingsFor(run.findings, n.id)[k].status == Pass
    ensures connection.Some? && enabled[k].query.Some? && run.steps[k].Some? && run.steps[k].value.sent.Some?
    ensures var targets := run.steps[k].value.sent.value.targets;
            var reply := connection.value.probe(k, enabled[k].query.value, targets);
            && n.id in Ids(targets) && reply.Reported? && NoStranger(reply.answers, Ids(targets))
            && exists i: nat :: IsOnly(reply.answers, n.id, i) && reply.answers[i].1.Rows?
                 && P.Evaluate(enabled[k].pass, FirstRow(reply.answers[i].1.rows), reading) == P.Passes
  {
    hide ShownReadOnly, IsBuilt, Ready, OnRecord, FindingsFor, OnlyAnswer, UniqueIds;
    var p, f := enabled[k], FindingsFor(run.findings, n.id)[k];
    assert Concludes(p, nodes, connection, run.steps[k], reading, n.id, f);
    var m :| m in nodes && m.id == n.id && IsFinding(p, p.severity.value, m, connection, run.steps[k], reading, f);
    UniqueNode(nodes, n, m);
    PassNeedsAll(p, n, connection, run.steps[k], reading);
    var sent := run.steps[k].value.sent.value;
    assert StepIsGuarded(p, nodes, connection, run.steps[k], run.elevated, k);
    assert ToTarget(connection.value, n) in sent.targets;
    InIds(sent.targets, ToTarget(connection.value, n));
    OnlyAnswerIsOnly(sent.reply.answers, n.id);
    var i: nat :| IsOnly(sent.reply.answers, n.id, i);
    assert OnlyAnswer(sent.reply.answers, n.id) == Some(sent.reply.answers[i].1);
  }

  predicate EarnsPass(p: ProbeCheck, only: Option<Answer>, reading: P.Reading) {
    only.Some? && only.value.Rows? && P.Evaluate(p.pass, FirstRow(only.value.rows), reading) == P.Passes
  }

  lemma PassNeedsAll(p: ProbeCheck, n: Node, connection: Option<Connection>, x: Option<Exchange>, reading: P.Reading)
    requires StatusOf(p, n, connection, x, reading) == Pass
    ensures connection.Some? && x.Some? && MayProbe(p, n, connection.value, x.value) && x.value.sent.Some?
    ensures var sent := x.value.sent.value;
            && sent.reply.Reported? && NoStranger(sent.reply.answers, Ids(sent.targets))
            && EarnsPass(p, OnlyAnswer(sent.reply.answers, n.id), reading)
  {
    hide ShownReadOnly, IsBuilt, OnlyAnswer;
  }

  // ---- every status -----------------------------------------------------------------

  /** What the first row of an answer comes to: the condition's verdict, no row being an empty
      one. */
  predicate Judged(p: ProbeCheck, rows: seq<Row>, reading: P.Reading, status: Status) {
    var v := P.Evaluate(p.pass, if |rows| > 0 then rows[0] else map[], reading);
    (v == P.Passes ==> status == Pass) && (v == P.Fails ==> status == Fail) && (v == P.Undecided ==> status == Unknown)
  }

  /** The status that the one answer about a node gives it. */
  predicate AnswerGives(p: ProbeCheck, answer: Answer, reading: P.Reading, status: Status) {
    match answer
    case Rows(rows) => Judged(p, rows, reading, status)
    case NotProbed(_) => status == Skipped
    case CannotTell(_) => status == Unknown
  }

  /** Everything a reply says about a node: nothing if it failed, is about something it was not
      asked about, or is not about the node exactly once. */
  ghost predicate ReplyGives(p: ProbeCheck, reply: Reply<Answer>, targets: seq<Target>, id: string,
      reading: P.Reading, status: Status) {
    && (reply.Failed? ==> status == Unknown)
    && (reply.Reported? && (exists i :: 0 <= i < |reply.answers| && reply.answers[i].0 !in Ids(targets)) ==>
          status == Unknown)
    && (reply.Reported? && !(exists i: nat :: IsOnly(reply.answers, id, i)) ==> status == Unknown)
    && (reply.Reported? && (forall i :: 0 <= i < |reply.answers| ==> reply.answers[i].0 in Ids(targets)) ==>
          forall i: nat :: IsOnly(reply.answers, id, i) ==> AnswerGives(p, reply.answers[i].1, reading, status))
  }

  lemma EarnedExactly(p: ProbeCheck, reply: Reply<Answer>, targets: seq<Target>, id: string, reading: P.Reading)
    ensures ReplyGives(p, reply, targets, id, reading, Earned(p, reply, targets, id, reading))
  {
    if reply.Reported? { OnlyAnswerIsOnly(reply.answers, id); }
    hide OnlyAnswer, IsOnly;
  }

  /** The finding of every probe about every node: skipped if the node is not selected, unknown if
      any guard held the probe back, and otherwise what the connection's reply to the query says. */
  lemma EveryStatus(enabled: seq<ProbeCheck>, nodes: seq<Node>, connection: Option<Connection>, reading: P.Reading,
      run: ProbeRun, k: nat, n: Node)
    requires RanAll(enabled, nodes, connection, reading, run) && UniqueIds(nodes) && n in nodes && k < |enabled|
    ensures |FindingsFor(run.findings, n.id)| == |enabled|
    ensures
      var p, step, status := enabled[k], run.steps[k], FindingsFor(run.findings, n.id)[k].status;
      && (!p.applies(n) ==> status == Skipped)
      && (p.applies(n) && (p.query.None? || !p.readOnly || !p.trusted || connection.None?) ==> status == Unknown)
      && (p.applies(n) && connection.Some? ==>
            (connection.value.relations != map[] && n.id !in connection.value.relations ==> status == Unknown))
      && (p.applies(n) && step.Some? && connection.Some? && !connection.value.allowElevated ==>
            (!SaysReadOnly(connection.value, step.value.asked, k, n.id) ==> status == Unknown))
      && (p.applies(n) && (step.None? || step.value.sent.None?) ==> status == Unknown)
      && (step.Some? && step.value.sent.Some? && n.id in Ids(step.value.sent.value.targets) ==>
            && connection.Some? && p.query.Some?
            && var targets := step.value.sent.value.targets;
               ReplyGives(p, connection.value.probe(k, p.query.value, targets), targets, n.id, reading, status))
  {
    hide ShownReadOnly, OnRecord, FindingsFor, UniqueIds, OnlyAnswer, SaysReadOnly, ReplyGives, Earned;
    var p, step, f := enabled[k], run.steps[k], FindingsFor(run.findings, n.id)[k];
    assert Concludes(p, nodes, connection, step, reading, n.id, f);
    var m :| m in nodes && m.id == n.id && IsFinding(p, p.severity.value, m, connection, step, reading, f);
    UniqueNode(nodes, n, m);
    assert f.status == StatusOf(p, n, connection, step, reading);
    assert StepIsGuarded(p, nodes, connection, step, run.elevated, k);
    if step.Some? && connection.Some? {
      ShownIsSaid(p, nodes, connection.value, step.value, k, n.id);
      if step.value.sent.Some? && n.id in Ids(step.value.sent.value.targets) {
        var sent := step.value.sent.value;
        EarnedExactly(p, sent.reply, sent.targets, n.id, reading);
        var i :| 0 <= i < |sent.targets| && sent.targets[i].id == n.id;
        assert sent.targets[i] in sent.targets;
        var o :| o in nodes && sent.targets[i] == ToTarget(connection.value, o) &&
            MayProbe(p, o, connection.value, step.value);
        UniqueNode(nodes, n, o);
      }
    }
  }
}
