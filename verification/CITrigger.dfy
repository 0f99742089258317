/** `tierd quality resolve-triggers`: when do the retained or fetched runs of one CI event
    agree on what triggered it, and which plans pass validation. */
module CITrigger {
  import opened Checklist
  import opened Digits
  import opened Wrappers
  import opened RepoId

  datatype Run = Run(id: int, headSha: string, attempt: int, workflow: int, event: string)

  // ---------- the run key ----------

  function Natural(n: nat): (s: string)
    ensures s != "" && ':' !in s && s[0] != '-'
    ensures n >= 10 <==> |s| >= 2
  {
    if n < 10 then [Digit(n)] else Natural(n / 10) + [Digit(n % 10)]
  }

  /** strconv's decimal form. */
  function Decimal(n: int): (s: string)
    ensures s != "" && ':' !in s
  {
    if n < 0 then "-" + Natural(-n) else Natural(n)
  }

  lemma {:induction false} NaturalInjective(a: nat, b: nat)
    requires Natural(a) == Natural(b)
    ensures a == b
  {
    var s := Natural(a);
    if a >= 10 && b >= 10 {
      assert Natural(a / 10) == s[..|s| - 1] == Natural(b / 10);
      NaturalInjective(a / 10, b / 10);
      assert Digit(a % 10) == s[|s| - 1] == Digit(b % 10);
    }
  }

  lemma DecimalInjective(a: int, b: int)
    requires Decimal(a) == Decimal(b)
    ensures a == b
  {
    DashMeansNegative(a);
    DashMeansNegative(b);
    if a < 0 {
      SameAfterDash(Natural(-a), Natural(-b));
      NaturalInjective(-a, -b);
    } else {
      NaturalInjective(a, b);
    }
  }

  lemma DashMeansNegative(n: int)
    ensures Decimal(n)[0] == '-' <==> n < 0
  {
  }

  lemma SameAfterDash(x: string, y: string)
    requires "-" + x == "-" + y
    ensures x == y
  {
    assert ("-" + x)[1..] == x && ("-" + y)[1..] == y;
  }

  /** The key runs are deduplicated by. */
  function RunKey(r: Run): string {
    Decimal(r.id) + ":" + Decimal(r.attempt) + ":" + r.event
  }

  /** Where the first ':' is, or the length. */
  function FirstColon(s: string): nat {
    if s == "" || s[0] == ':' then 0 else 1 + FirstColon(s[1..])
  }

  lemma {:induction false} FirstColonAfter(a: string, x: string)
    requires ':' !in a
    ensures FirstColon(a + ":" + x) == |a|
  {
    if a != "" {
      assert (a + ":" + x)[1..] == a[1..] + ":" + x;
      FirstColonAfter(a[1..], x);
    }
  }

  /** A field without ':' ends at the first ':'. */
  lemma FirstField(a: string, x: string, b: string, y: string)
    requires ':' !in a && ':' !in b && a + ":" + x == b + ":" + y
    ensures a == b && x == y
  {
    var s := a + ":" + x;
    FirstColonAfter(a, x);
    FirstColonAfter(b, y);
    assert a == s[..|a|] == b;
    assert x == s[|a| + 1..] == y;
  }

  /** The colon-joined key identifies id, attempt and event, whatever colons the event holds. */
  lemma RunKeyInjective(r: Run, s: Run)
    ensures RunKey(r) == RunKey(s) <==> r.id == s.id && r.attempt == s.attempt && r.event == s.event
  {
    if RunKey(r) == RunKey(s) {
      var restR, restS := Decimal(r.attempt) + ":" + r.event, Decimal(s.attempt) + ":" + s.event;
      assert RunKey(r) == Decimal(r.id) + ":" + restR && RunKey(s) == Decimal(s.id) + ":" + restS;
      FirstField(Decimal(r.id), restR, Decimal(s.id), restS);
      FirstField(Decimal(r.attempt), r.event, Decimal(s.attempt), s.event);
      DecimalInjective(r.id, s.id);
      DecimalInjective(r.attempt, s.attempt);
    }
  }

  // ---------- the trigger ----------

  /** The fixed vocabulary of trigger provenance. */
  function Normalize(event: string): string {
    if event in {"push", "pull_request", "schedule", "workflow_dispatch", "merge_group", "pull_request_target",
                 "release", "workflow_run", "repository_dispatch"}
    then event else "other"
  }

  lemma NormalizeIdempotent(event: string)
    ensures Normalize(Normalize(event)) == Normalize(event)
    ensures Normalize(event) == event || Normalize(event) == "other"
    ensures Normalize(event) == event <==>
              event in ["push", "pull_request", "pull_request_target", "merge_group", "schedule", "release",
                        "workflow_dispatch", "workflow_run", "repository_dispatch", "other"]
  {
  }

  predicate Same(r: Run, s: Run) {
    r.id == s.id && r.attempt == s.attempt && r.event == s.event
  }

  /** There are runs, every one names a run and an event, and they are all the same run. */
  predicate Agree(runs: seq<Run>) {
    && runs != []
    && (forall r :: r in runs ==> r.id > 0 && r.event != "")
    && (forall r, s :: r in runs && s in runs ==> Same(r, s))
  }

  /** uniqueTrigger: conflicting deliveries and independent runs stay unknown, even when they
      would normalize alike. */
  method UniqueTrigger(runs: seq<Run>) returns (t: Option<string>)
    ensures t == Trigger(runs)
  {
    var unique: map<string, string> := map[];
    for i := 0 to |runs|
      invariant forall j :: 0 <= j < i ==> runs[j].id > 0 && runs[j].event != "" && RunKey(runs[j]) in unique
      invariant forall k :: k in unique ==>
                exists j :: 0 <= j < i && RunKey(runs[j]) == k && unique[k] == Normalize(runs[j].event)
    {
      if runs[i].id <= 0 || runs[i].event == "" {
        assert runs[i] in runs;
        return None;
      }
      RunKeysStand(runs[..i], runs[i]);
      unique := unique[RunKey(runs[i]) := Normalize(runs[i].event)];
    }
    if |unique| != 1 {
      AgreeingRunsHaveOneKey(runs, unique.Keys);
      return None;
    }
    var key :| key in unique;
    OneKeyAgrees(runs, unique, key);
    t := Some(unique[key]);
  }

  /** The trigger a list of runs settles. */
  function Trigger(runs: seq<Run>): Option<string> {
    if Agree(runs) then Some(Normalize(runs[0].event)) else None
  }

  /** Overwriting a key stores what was stored: equal keys normalize alike. */
  lemma RunKeysStand(before: seq<Run>, r: Run)
    ensures forall s :: s in before && RunKey(s) == RunKey(r) ==> s.event == r.event
  {
    forall s | s in before && RunKey(s) == RunKey(r)
      ensures s.event == r.event
    {
      RunKeyInjective(s, r);
    }
  }

  lemma OneKeyAgrees(runs: seq<Run>, unique: map<string, string>, key: string)
    requires |unique| == 1 && key in unique
    requires forall j :: 0 <= j < |runs| ==> runs[j].id > 0 && runs[j].event != "" && RunKey(runs[j]) in unique
    requires exists j :: 0 <= j < |runs| && RunKey(runs[j]) == key && unique[key] == Normalize(runs[j].event)
    ensures Agree(runs) && unique[key] == Normalize(runs[0].event)
  {
    assert |unique.Keys - {key}| == 0;
    assert unique.Keys == {key};
    forall i, j | 0 <= i < |runs| && 0 <= j < |runs|
      ensures Same(runs[i], runs[j])
    {
      assert RunKey(runs[i]) in unique.Keys && RunKey(runs[j]) in unique.Keys;
      RunKeyInjective(runs[i], runs[j]);
    }
    var j :| 0 <= j < |runs| && RunKey(runs[j]) == key && unique[key] == Normalize(runs[j].event);
    assert Same(runs[j], runs[0]);
  }

  lemma SameRunSameKey(runs: seq<Run>, j: nat)
    requires Agree(runs) && j < |runs|
    ensures RunKey(runs[j]) == RunKey(runs[0])
  {
    assert runs[j] in runs && runs[0] in runs;
    assert Same(runs[j], runs[0]);
  }

  lemma AgreeingRunsHaveOneKey(runs: seq<Run>, keys: set<string>)
    requires forall j :: 0 <= j < |runs| ==> RunKey(runs[j]) in keys
    requires forall k :: k in keys ==> exists j :: 0 <= j < |runs| && RunKey(runs[j]) == k
    ensures Agree(runs) ==> |keys| == 1
  {
    if Agree(runs) {
      forall j | 0 <= j < |runs|
        ensures RunKey(runs[j]) == RunKey(runs[0])
      {
        SameRunSameKey(runs, j);
      }
      assert keys == {RunKey(runs[0])};
    }
  }

  /** Neither order nor repetition matters: the verdict is a function of the set of runs. */
  lemma TriggerOfSet(a: seq<Run>, b: seq<Run>)
    requires forall r :: r in a <==> r in b
    ensures Trigger(a) == Trigger(b)
  {
    if a != [] {
      assert a[0] in b && b[0] in b;
    }
    if b != [] {
      assert b[0] in a;
    }
  }

  // ---------- the plan ----------

  /** The parsed source_ref of a legacy CI event. */
  datatype CIRef = CIRef(headSha: string, workflow: string, attempt: int)

  datatype Legacy = Legacy(id: int, outcome: int, repo: string, ref: CIRef, eventType: string, mergeSha: string)

  /** A retained workflow_run delivery. */
  datatype Envelope = Envelope(action: string, run: Run, repo: string)

  datatype Source = NoSource | Payload | Api | OtherSource

  datatype Row = Row(event: Legacy, trigger: Option<string>, source: Source)

  datatype Plan = Plan(version: int, rows: seq<Row>, resolved: int, unresolved: int)

  predicate MatchesRef(run: Run, ref: CIRef) {
    run.headSha == ref.headSha && Decimal(run.workflow) == ref.workflow && run.attempt == ref.attempt
  }

  /** An event that names a repository, a workflow and an attempt of its own merge. */
  predicate Attributable(e: Legacy) {
    Canonical(e.repo).Some? && e.ref.workflow != "" && e.ref.attempt > 0 && e.ref.headSha == e.mergeSha
  }

  /** A completed run's delivery for the event's repository, workflow and attempt. */
  predicate Concerns(d: Envelope, e: Legacy) {
    && Canonical(d.repo).Some? && Canonical(d.repo) == Canonical(e.repo)
    && d.action == "completed" && MatchesRef(d.run, e.ref)
  }

  /** The retained completed runs of an event, in delivery order. */
  function Matches(retained: seq<Envelope>, e: Legacy): seq<Run> {
    if retained == [] then []
    else
      var front, last := retained[..|retained| - 1], retained[|retained| - 1];
      if Concerns(last, e) then Matches(front, e) + [last.run] else Matches(front, e)
  }

  /** The plan row of one event; fetched is what the API returns for it, None when that fails. */
  function BuiltRow(retained: seq<Envelope>, e: Legacy, fetched: Option<seq<Run>>): Option<Row> {
    if !Attributable(e) then Some(Row(e, None, NoSource))
    else
      var found := Matches(retained, e);
      if found == [] && fetched.None? then None
      else
        var t := Trigger(if found != [] then found else fetched.value);
        Some(Row(e, t, if t.None? then NoSource else if found != [] then Payload else Api))
  }

  /** The delivery reports a completed run of the event's repository and workflow, on its merge
      commit and at its attempt. */
  predicate Reports(d: Envelope, e: Legacy) {
    && d.action == "completed"
    && Canonical(d.repo).Some? && Canonical(d.repo) == Canonical(e.repo)
    && d.run.headSha == e.mergeSha && Decimal(d.run.workflow) == e.ref.workflow && d.run.attempt == e.ref.attempt
  }

  /** Whether an event can be looked up at all: its own reference names a workflow and an attempt of its merge. */
  predicate Locatable(e: Legacy) {
    e.ref.headSha == e.mergeSha && e.ref.workflow != "" && e.ref.attempt >= 1 && Canonical(e.repo) != None
  }

  /** Some retained delivery reports the event with this run. */
  ghost predicate Reported(retained: seq<Envelope>, e: Legacy, r: Run) {
    exists d :: d in retained && Reports(d, e) && d.run == r
  }

  lemma ConcernsReports(d: Envelope, e: Legacy)
    requires Locatable(e)
    ensures Concerns(d, e) <==> Reports(d, e)
  {
  }

  lemma ReportedByOneMore(front: seq<Envelope>, last: Envelope, e: Legacy, r: Run)
    ensures Reported(front + [last], e, r) <==> Reported(front, e, r) || (Reports(last, e) && last.run == r)
  {
    assert forall d :: d in front + [last] <==> d in front || d == last;
  }

  lemma {:induction false} MatchesMean(retained: seq<Envelope>, e: Legacy, r: Run)
    requires Locatable(e)
    ensures r in Matches(retained, e) <==> Reported(retained, e, r)
  {
    if retained != [] {
      var front, last := retained[..|retained| - 1], retained[|retained| - 1];
      assert retained == front + [last];
      MatchesMean(front, e, r);
      ConcernsReports(last, e);
      ReportedByOneMore(front, last, e, r);
    }
  }

  /** These runs are all one run, with an id and with an event that t normalizes. */
  ghost predicate AllOneRun(isRun: Run -> bool, t: string) {
    && (exists r :: isRun(r) && r.id > 0 && r.event != "" && t == Normalize(r.event))
    && (forall r, s :: isRun(r) && isRun(s) ==> r.id == s.id && r.attempt == s.attempt && r.event == s.event)
  }

  lemma TriggerMeans(runs: seq<Run>, isRun: Run -> bool, t: string)
    requires forall r :: r in runs <==> isRun(r)
    ensures Trigger(runs) == Some(t) <==> AllOneRun(isRun, t)
  {
    if Trigger(runs) == Some(t) {
      assert isRun(runs[0]);
      forall r, s | isRun(r) && isRun(s)
        ensures r.id == s.id && r.attempt == s.attempt && r.event == s.event
      {
        assert Same(r, s);
      }
    }
    if AllOneRun(isRun, t) {
      assert runs[0] in runs;
    }
  }

  /** The deliveries that report the event are all of one run, whose event t normalizes. */
  ghost predicate ReportedAs(retained: seq<Envelope>, e: Legacy, t: string) {
    Locatable(e) && AllOneRun(r => Reported(retained, e, r), t)
  }

  lemma ReportsSettle(retained: seq<Envelope>, e: Legacy, t: string)
    requires Locatable(e)
    ensures Trigger(Matches(retained, e)) == Some(t) <==> ReportedAs(retained, e, t)
  {
    forall r
      ensures r in Matches(retained, e) <==> Reported(retained, e, r)
    {
      MatchesMean(retained, e, r);
    }
    TriggerMeans(Matches(retained, e), r => Reported(retained, e, r), t);
  }

  lemma UnreportedHasNone(retained: seq<Envelope>, e: Legacy)
    requires Locatable(e)
    ensures Matches(retained, e) == [] <==> forall r :: !Reported(retained, e, r)
  {
    var found := Matches(retained, e);
    if found != [] {
      MatchesMean(retained, e, found[0]);
    } else {
      forall r
        ensures !Reported(retained, e, r)
      {
        MatchesMean(retained, e, r);
      }
    }
  }

  /** What a built row says.  A payload row's trigger is what the deliveries reporting its event
      agree on; an API row's is what the fetched runs agree on, where no delivery reports it; and
      a row is left unresolved exactly when neither is so.  There is no row exactly when the query
      was needed and failed. */
  lemma BuiltRowMeans(retained: seq<Envelope>, e: Legacy, fetched: Option<seq<Run>>)
    ensures var r := BuiltRow(retained, e, fetched);
            var asked := Locatable(e) && forall x :: !Reported(retained, e, x);
            && (r.None? <==> asked && fetched.None?)
            && (r.Some? && r.value.trigger.Some? ==>
                  if asked then r.value.source == Api && r.value.trigger == Trigger(fetched.value)
                  else r.value.source == Payload && ReportedAs(retained, e, r.value.trigger.value))
            && (r.Some? && r.value.trigger.None? ==>
                  && r.value.source == NoSource && (asked ==> Trigger(fetched.value).None?)
                  && forall t :: !ReportedAs(retained, e, t))
  {
    if Locatable(e) {
      UnreportedHasNone(retained, e);
      forall t
        ensures Trigger(Matches(retained, e)) == Some(t) <==> ReportedAs(retained, e, t)
      {
        ReportsSettle(retained, e, t);
      }
    }
  }

  predicate RowSound(r: Row) {
    r.trigger.Some? ==>
      Attributable(r.event) && r.trigger.value == Normalize(r.trigger.value) && (r.source == Payload || r.source == Api)
  }

  function EventId(e: Legacy): int {
    e.id
  }

  predicate IdentitiesSound(events: seq<Legacy>) {
    Identified(events, IdentitySound, EventId)
  }

  function Resolved(rows: seq<Row>): nat {
    if rows == [] then 0 else Resolved(rows[..|rows| - 1]) + if rows[|rows| - 1].trigger.Some? then 1 else 0
  }

  function EventsOf(rows: seq<Row>): (es: seq<Legacy>)
    ensures |es| == |rows|
  {
    seq(|rows|, i requires 0 <= i < |rows| => rows[i].event)
  }

  /** triggerPlan.validate. */
  predicate ValidPlan(p: Plan) {
    && p.version == 1 && IdentitiesSound(EventsOf(p.rows))
    && FirstAre(p.rows, |p.rows|, RowSound)
    && p.resolved == Resolved(p.rows) && p.unresolved == |p.rows| - Resolved(p.rows)
  }

  predicate IdentitySound(e: Legacy) {
    e.id > 0 && e.outcome > 0 && e.eventType in {"ci_pass", "ci_fail", "ci_fail_flaky"}
  }

  predicate NewIdentity(e: Legacy, seen: set<int>) {
    IdentitySound(e) && e.id !in seen
  }

  lemma RowPrefix(rows: seq<Row>, i: nat)
    requires i < |rows|
    ensures Resolved(rows[..i + 1]) == Resolved(rows[..i]) + if rows[i].trigger.Some? then 1 else 0
  {
    assert rows[..i + 1][..i] == rows[..i];
  }

  method ValidateRow(r: Row, seen: set<int>) returns (ok: bool)
    ensures ok <==> NewIdentity(r.event, seen) && RowSound(r)
  {
    if r.event.id <= 0 || r.event.outcome <= 0 || r.event.id in seen ||
        r.event.eventType !in {"ci_pass", "ci_fail", "ci_fail_flaky"} {
      return false;
    }
    if r.trigger.None? {
      return true;
    }
    var repo := Canonicalize(r.event.repo);
    ok := repo.Some? && r.event.ref.workflow != "" && r.event.ref.attempt > 0 && r.event.ref.headSha == r.event.mergeSha
          && r.trigger.value == Normalize(r.trigger.value) && (r.source == Payload || r.source == Api);
  }

  /** The first n rows of a plan have passed every check, and been counted. */
  ghost predicate Passed(p: Plan, n: nat, seen: set<int>, resolved: int, unknown: int) {
    && n <= |p.rows| && IdsPassed(EventsOf(p.rows), n, seen, IdentitySound, EventId) && FirstAre(p.rows, n, RowSound)
    && resolved == Resolved(p.rows[..n]) && unknown == n - resolved
  }

  lemma PassNext(p: Plan, n: nat, seen: set<int>, resolved: int, unknown: int)
    requires n < |p.rows| && Passed(p, n, seen, resolved, unknown)
    ensures var r := p.rows[n];
            if !(NewIdentity(r.event, seen) && RowSound(r)) then !ValidPlan(p)
            else if r.trigger.None? then Passed(p, n + 1, seen + {r.event.id}, resolved, unknown + 1)
            else Passed(p, n + 1, seen + {r.event.id}, resolved + 1, unknown)
  {
    IdsPassNext(EventsOf(p.rows), n, seen, IdentitySound, EventId);
    RowPrefix(p.rows, n);
    if RowSound(p.rows[n]) {
      FirstAreNext(p.rows, n, RowSound);
    }
  }

  lemma AllPassed(p: Plan, seen: set<int>, resolved: int, unknown: int)
    requires Passed(p, |p.rows|, seen, resolved, unknown)
    ensures ValidPlan(p) <==> p.version == 1 && resolved == p.resolved && unknown == p.unresolved
  {
    assert p.rows[..|p.rows|] == p.rows && EventsOf(p.rows)[..|p.rows|] == EventsOf(p.rows);
  }

  method Validate(p: Plan) returns (ok: bool)
    ensures ok <==> ValidPlan(p)
  {
    if p.version != 1 {
      return false;
    }
    var seen: set<int> := {};
    var resolved, unknown := 0, 0;
    for i := 0 to |p.rows|
      invariant Passed(p, i, seen, resolved, unknown)
    {
      PassNext(p, i, seen, resolved, unknown);
      var r := p.rows[i];
      var sound := ValidateRow(r, seen);
      if !sound {
        return false;
      }
      seen := seen + {r.event.id};
      if r.trigger.None? {
        unknown := unknown + 1;
      } else {
        resolved := resolved + 1;
      }
    }
    AllPassed(p, seen, resolved, unknown);
    ok := resolved == p.resolved && unknown == p.unresolved;
  }

  lemma BuiltRowSound(retained: seq<Envelope>, e: Legacy, fetched: Option<seq<Run>>)
    ensures var r := BuiltRow(retained, e, fetched); r.Some? ==> r.value.event == e && RowSound(r.value)
  {
    if Attributable(e) {
      var found := Matches(retained, e);
      if found != [] {
        NormalizeIdempotent(found[0].event);
      } else if fetched.Some? && fetched.value != [] {
        NormalizeIdempotent(fetched.value[0].event);
      }
    }
  }

  function RowAt(events: seq<Legacy>, retained: seq<Envelope>, fetched: nat -> Option<seq<Run>>): nat -> Option<Row> {
    (i: nat) => if i < |events| then BuiltRow(retained, events[i], fetched(i)) else None
  }

  /** The rows of the first n events; None once a query has failed. */
  function BuiltRows(events: seq<Legacy>, retained: seq<Envelope>, fetched: nat -> Option<seq<Run>>,
                     n: nat): Option<seq<Row>> {
    Collected(RowAt(events, retained, fetched), n)
  }

  lemma BuiltRowsAt(events: seq<Legacy>, retained: seq<Envelope>, fetched: nat -> Option<seq<Run>>, rows: seq<Row>,
                    i: nat)
    requires i < |events| && BuiltRows(events, retained, fetched, |events|) == Some(rows)
    ensures |rows| == |events| && BuiltRow(retained, events[i], fetched(i)) == Some(rows[i])
  {
    CollectedAt(RowAt(events, retained, fetched), |events|, i);
  }

  ghost predicate IsBuilt(events: seq<Legacy>, retained: seq<Envelope>, fetched: nat -> Option<seq<Run>>, p: Plan) {
    && p.version == 1 && BuiltRows(events, retained, fetched, |events|) == Some(p.rows)
    && p.resolved == Resolved(p.rows) && p.unresolved == |p.rows| - Resolved(p.rows)
  }

  /** Build implies validate: a built plan validates exactly when the events it was built
      from have distinct positive ids, positive outcome ids and CI event types. */
  lemma BuiltPlanValidates(events: seq<Legacy>, retained: seq<Envelope>, fetched: nat -> Option<seq<Run>>, p: Plan)
    requires IsBuilt(events, retained, fetched, p)
    ensures ValidPlan(p) <==>
              && (forall i :: 0 <= i < |events| ==>
                    events[i].id > 0 && events[i].outcome > 0 &&
                    events[i].eventType in {"ci_pass", "ci_fail", "ci_fail_flaky"})
              && (forall i, j :: 0 <= i < j < |events| ==> events[i].id != events[j].id)
  {
    forall i | 0 <= i < |events|
      ensures RowSound(p.rows[i]) && p.rows[i].event == events[i]
    {
      BuiltRowsAt(events, retained, fetched, p.rows, i);
      BuiltRowSound(retained, events[i], fetched(i));
    }
    assert EventsOf(p.rows) == events;
    IdentitiesMean(events);
  }

  lemma IdentitiesMean(events: seq<Legacy>)
    ensures IdentitiesSound(events) <==>
              && (forall i :: 0 <= i < |events| ==>
                    events[i].id > 0 && events[i].outcome > 0 &&
                    events[i].eventType in {"ci_pass", "ci_fail", "ci_fail_flaky"})
              && (forall i, j :: 0 <= i < j < |events| ==> events[i].id != events[j].id)
  {
    if IdentitiesSound(events) {
      forall i | 0 <= i < |events|
        ensures events[i].id > 0 && events[i].outcome > 0 &&
                events[i].eventType in {"ci_pass", "ci_fail", "ci_fail_flaky"}
      {
        assert IdentitySound(events[i]);
      }
      forall i, j | 0 <= i < j < |events|
        ensures events[i].id != events[j].id
      {
        assert EventId(events[i]) != EventId(events[j]);
      }
    }
  }

  /** The rows that have a trigger. */
  function Settled(rows: seq<Row>): set<int> {
    set i | 0 <= i < |rows| && rows[i].trigger.Some?
  }

  lemma {:induction false} ResolvedIsOfRows(rows: seq<Row>)
    ensures Resolved(rows) == |Settled(rows)|
  {
    if rows != [] {
      var n := |rows| - 1;
      ResolvedIsOfRows(rows[..n]);
      assert Settled(rows) == Settled(rows[..n]) + if rows[n].trigger.Some? then {n} else {};
    }
  }

  /** A trigger is of the vocabulary, for an event that can be located, and comes with its source. */
  predicate Attributed(r: Row) {
    r.trigger.Some? ==>
      Locatable(r.event) && Normalize(r.trigger.value) == r.trigger.value && r.source in {Payload, Api}
  }

  lemma AttributedIsSound(r: Row)
    ensures RowSound(r) <==> Attributed(r)
  {
  }

  /** What a valid plan says: version 1, each event once and identified, each trigger attributed,
      and how many there are. */
  lemma ValidPlanMeans(p: Plan)
    ensures ValidPlan(p) <==>
              && p.version == 1
              && (forall i :: 0 <= i < |p.rows| ==>
                    var e := p.rows[i].event;
                    e.id > 0 && e.outcome > 0 && e.eventType in {"ci_pass", "ci_fail", "ci_fail_flaky"})
              && (forall i, j :: 0 <= i < j < |p.rows| ==> p.rows[i].event.id != p.rows[j].event.id)
              && (forall i :: 0 <= i < |p.rows| ==> Attributed(p.rows[i]))
              && p.resolved == |Settled(p.rows)| && p.unresolved == |p.rows| - |Settled(p.rows)|
  {
    ResolvedIsOfRows(p.rows);
    IdentitiesMean(EventsOf(p.rows));
    assert forall i :: 0 <= i < |p.rows| ==> EventsOf(p.rows)[i] == p.rows[i].event;
    forall i | 0 <= i < |p.rows|
      ensures RowSound(p.rows[i]) <==> Attributed(p.rows[i])
    {
      AttributedIsSound(p.rows[i]);
    }
  }

  lemma ResolvedExtends(rows: seq<Row>, r: Row)
    ensures Resolved(rows + [r]) == Resolved(rows) + if r.trigger.Some? then 1 else 0
  {
    assert (rows + [r])[..|rows|] == rows;
  }

  /** The build has come to event i with these rows and counts. */
  predicate Building(events: seq<Legacy>, retained: seq<Envelope>, fetched: nat -> Option<seq<Run>>, i: nat,
                     rows: seq<Row>, resolved: int, unresolved: int) {
    BuiltRows(events, retained, fetched, i) == Some(rows) && resolved == Resolved(rows) &&
    unresolved == |rows| - Resolved(rows)
  }

  lemma BuildNext(events: seq<Legacy>, retained: seq<Envelope>, fetched: nat -> Option<seq<Run>>, i: nat,
                  rows: seq<Row>, resolved: int, unresolved: int)
    requires i < |events| && Building(events, retained, fetched, i, rows, resolved, unresolved)
    ensures var row := BuiltRow(retained, events[i], fetched(i));
            if row.None? then BuiltRows(events, retained, fetched, |events|).None?
            else if row.value.trigger.None? then
              Building(events, retained, fetched, i + 1, rows + [row.value], resolved, unresolved + 1)
            else Building(events, retained, fetched, i + 1, rows + [row.value], resolved + 1, unresolved)
  {
    var item := RowAt(events, retained, fetched);
    assert item(i) == BuiltRow(retained, events[i], fetched(i));
    if item(i).None? {
      CollectedStaysNone(item, i + 1, |events|);
    } else {
      ResolvedExtends(rows, item(i).value);
    }
  }

  /** buildTriggerPlan; fetched answers the API query for the i-th event, when one is made. */
  method BuildTriggerPlan(events: seq<Legacy>, retained: seq<Envelope>, fetched: nat -> Option<seq<Run>>)
    returns (r: Option<Plan>)
    ensures r.None? <==> BuiltRows(events, retained, fetched, |events|).None?
    ensures r.Some? ==> IsBuilt(events, retained, fetched, r.value)
  {
    var rows: seq<Row> := [];
    var resolved, unresolved := 0, 0;
    for i := 0 to |events|
      invariant Building(events, retained, fetched, i, rows, resolved, unresolved)
    {
      BuildNext(events, retained, fetched, i, rows, resolved, unresolved);
      var row := BuildRow(retained, events[i], fetched(i));
      if row.None? {
        return None;
      }
      rows := rows + [row.value];
      if row.value.trigger.None? {
        unresolved := unresolved + 1;
      } else {
        resolved := resolved + 1;
      }
    }
    r := Some(Plan(1, rows, resolved, unresolved));
  }

  /** The loop over the deliveries. */
  method FindMatches(retained: seq<Envelope>, e: Legacy) returns (found: seq<Run>)
    ensures found == Matches(retained, e)
  {
    found := [];
    for i := 0 to |retained|
      invariant found == Matches(retained[..i], e)
    {
      assert retained[..i + 1][..i] == retained[..i];
      if Concerns(retained[i], e) {
        found := found + [retained[i].run];
      }
    }
    assert retained[..|retained|] == retained;
  }

  /** The body of the build loop. */
  method BuildRow(retained: seq<Envelope>, e: Legacy, fetched: Option<seq<Run>>) returns (r: Option<Row>)
    ensures r == BuiltRow(retained, e, fetched)
  {
    var row := Row(e, None, NoSource);
    if Attributable(e) {
      var found := FindMatches(retained, e);
      if |found| > 0 {
        var t := UniqueTrigger(found);
        row := row.(trigger := t, source := Payload);
      } else {
        if fetched.None? {
          return None;
        }
        var t := UniqueTrigger(fetched.value);
        row := row.(trigger := t, source := Api);
      }
    }
    if row.trigger.None? {
      row := row.(source := NoSource);
    }
    return Some(row);
  }

  /** A resolved payload row still says what the retained runs settle; a built one always does. */
  lemma BuiltRowCurrent(retained: seq<Envelope>, e: Legacy, fetched: Option<seq<Run>>)
    ensures var r := BuiltRow(retained, e, fetched);
            r.Some? && r.value.trigger.Some? && r.value.source == Payload ==>
              Trigger(Matches(retained, e)) == r.value.trigger
  {
  }
}
