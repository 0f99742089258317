/** `tierd quality resolve-triggers --apply`: rechecking an approved trigger plan against the
    database, filling triggers row by row, and when the same plan may be applied again. */
module TriggerApply {
  import opened Wrappers
  import opened CITrigger

  /** A CI quality event with what the join to its outcome says: its identity, the trigger
      recorded for it, and whether its outcome's month is sealed. */
  datatype Fact = Fact(event: Legacy, trigger: Option<string>, isSealed: bool)

  type Db = map<int, Fact>

  predicate Matching(db: Db, e: Legacy) {
    e.id in db && db[e.id].event == e
  }

  /** The event is still listed as a legacy one: as it was, and without a trigger. */
  predicate Pending(db: Db, e: Legacy) {
    Matching(db, e) && db[e.id].trigger.None?
  }

  /** The row's transaction writes: an unsealed pending event, and a trigger to give it. */
  predicate Fillable(db: Db, r: Row) {
    r.trigger.Some? && r.trigger.value != "" && Pending(db, r.event) && !db[r.event.id].isSealed
  }

  /** The row's transaction succeeds, writing or not. */
  predicate Acceptable(db: Db, r: Row) {
    && r.trigger.Some? && r.trigger.value != "" && Matching(db, r.event)
    && (db[r.event.id].trigger.Some? ==> r.source == Payload && db[r.event.id].trigger == r.trigger)
  }

  datatype Answer = Filled | Kept | Refused

  /** The database after one resolved row's transaction, and what its caller is told. */
  function RowStep(db: Db, r: Row, f: Fault): (Db, Answer) {
    if f.RolledBack? || !Acceptable(db, r) then (db, Refused)
    else if !Fillable(db, r) then (db, Kept)
    else (db[r.event.id := db[r.event.id].(trigger := r.trigger)], if f.LostAck? then Refused else Filled)
  }

  class QualityDb {
    var facts: Db

    constructor (facts: Db)
      ensures this.facts == facts
    {
      this.facts := facts;
    }

    method ApplyCITrigger(r: Row, f: Fault) returns (a: Answer)
      requires r.trigger.Some?
      modifies this
      ensures (facts, a) == RowStep(old(facts), r, f)
    {
      if r.trigger.value == "" || f.RolledBack? {
        return Refused;
      }
      if r.event.id !in facts || facts[r.event.id].event != r.event {
        return Refused;
      }
      var fact := facts[r.event.id];
      if fact.trigger.Some? {
        return if r.source == Payload && fact.trigger == r.trigger then Kept else Refused;
      }
      if fact.isSealed {
        return Kept;
      }
      facts := facts[r.event.id := fact.(trigger := r.trigger)];
      a := if f.LostAck? then Refused else Filled;
    }
  }

  // ---------- rechecking ----------

  /** An API row's event is still pending; a payload row's deliveries still settle its trigger. */
  predicate RowCurrent(db: Db, retained: seq<Envelope>, r: Row) {
    && (r.trigger.Some? && r.source == Api ==> Pending(db, r.event))
    && (r.trigger.Some? && r.source == Payload ==> Trigger(Matches(retained, r.event)) == r.trigger)
  }

  predicate Current(db: Db, retained: seq<Envelope>, p: Plan) {
    forall i :: 0 <= i < |p.rows| ==> RowCurrent(db, retained, p.rows[i])
  }

  method Recheck(db: QualityDb, p: Plan, retained: seq<Envelope>) returns (ok: bool)
    ensures ok <==> Current(db.facts, retained, p)
  {
    for i := 0 to |p.rows|
      invariant forall j :: 0 <= j < i ==> RowCurrent(db.facts, retained, p.rows[j])
    {
      var same := RecheckRow(db, retained, p.rows[i]);
      if !same {
        return false;
      }
    }
    ok := true;
  }

  method RecheckRow(db: QualityDb, retained: seq<Envelope>, r: Row) returns (same: bool)
    ensures same <==> RowCurrent(db.facts, retained, r)
  {
    if r.trigger.Some? && r.source == Api && !Pending(db.facts, r.event) {
      return false;
    }
    if r.trigger.None? || r.source != Payload {
      return true;
    }
    var found := FindMatches(retained, r.event);
    var t := UniqueTrigger(found);
    same := t == r.trigger;
  }

  /** Build implies recheck: against the same deliveries, and with the events it was built from
      still pending, a built plan is current. */
  lemma BuiltPlanCurrent(events: seq<Legacy>, retained: seq<Envelope>, fetched: nat -> Option<seq<Run>>, p: Plan,
                         db: Db)
    requires IsBuilt(events, retained, fetched, p) && forall e :: e in events ==> Pending(db, e)
    ensures Current(db, retained, p)
  {
    forall i | 0 <= i < |p.rows|
      ensures RowCurrent(db, retained, p.rows[i])
    {
      BuiltRowsAt(events, retained, fetched, p.rows, i);
      BuiltRowCurrent(retained, events[i], fetched(i));
      BuiltRowSound(retained, events[i], fetched(i));
    }
  }

  // ---------- applying ----------

  /** A run under way. */
  datatype Progress = Progress(db: Db, filled: nat, failed: bool)

  function FaultAt(faults: seq<Fault>, i: nat): Fault {
    if i < |faults| then faults[i] else NoFault
  }

  /** The run after the first n rows of the plan. */
  function Ran(db: Db, rows: seq<Row>, faults: seq<Fault>, n: nat): Progress
    requires n <= |rows|
  {
    if n == 0 then Progress(db, 0, false)
    else
      var p := Ran(db, rows, faults, n - 1);
      if p.failed || rows[n - 1].trigger.None? then p
      else
        var (after, a) := RowStep(p.db, rows[n - 1], FaultAt(faults, n - 1));
        Progress(after, if a.Filled? then p.filled + 1 else p.filled, a.Refused?)
  }

  lemma {:induction false} FailureFinal(db: Db, rows: seq<Row>, faults: seq<Fault>, m: nat, n: nat)
    requires m <= n <= |rows| && Ran(db, rows, faults, m).failed
    ensures Ran(db, rows, faults, n) == Ran(db, rows, faults, m)
  {
    if m < n {
      FailureFinal(db, rows, faults, m, n - 1);
    }
  }

  datatype Report = Rejected | Stopped | Completed(filled: nat)

  /** The apply from the decoded plan on; digest is that of the plan's bytes, approved the one
      the operator signed off. */
  method ApplyTriggerPlan(db: QualityDb, p: Plan, digest: string, approved: string, retained: seq<Envelope>,
                          faults: seq<Fault>)
    returns (report: Report)
    modifies db
    ensures report.Rejected? <==> !(ValidPlan(p) && approved == digest && Current(old(db.facts), retained, p))
    ensures report.Rejected? ==> db.facts == old(db.facts)
    ensures !report.Rejected? ==>
              var run := Ran(old(db.facts), p.rows, faults, |p.rows|);
              db.facts == run.db && report == if run.failed then Stopped else Completed(run.filled)
    ensures report.Completed? ==> |Untriggered(old(db.facts))| == |Untriggered(db.facts)| + report.filled
  {
    if approved != digest {
      return Rejected;
    }
    var valid := Validate(p);
    if !valid {
      return Rejected;
    }
    var current := Recheck(db, p, retained);
    if !current {
      return Rejected;
    }
    ghost var start := db.facts;
    report := ApplyRows(db, p.rows, faults);
    FilledGained(start, p.rows, faults, |p.rows|);
  }

  method ApplyRows(db: QualityDb, rows: seq<Row>, faults: seq<Fault>) returns (report: Report)
    modifies db
    ensures var run := Ran(old(db.facts), rows, faults, |rows|);
            db.facts == run.db && report == if run.failed then Stopped else Completed(run.filled)
  {
    ghost var start := db.facts;
    var filled := 0;
    for i := 0 to |rows|
      invariant Ran(start, rows, faults, i) == Progress(db.facts, filled, false)
    {
      if rows[i].trigger.None? {
        continue;
      }
      var a := db.ApplyCITrigger(rows[i], FaultAt(faults, i));
      match a {
        case Refused =>
          FailureFinal(start, rows, faults, i + 1, |rows|);
          return Stopped;
        case Filled =>
          filled := filled + 1;
        case Kept =>
      }
    }
    report := Completed(filled);
  }

  // ---------- what a run does ----------

  /** The events whose trigger is not known. */
  function Untriggered(db: Db): set<int> {
    set k | k in db && db[k].trigger.None?
  }

  /** `filled` is the events that gained a trigger; a run that stopped may have filled one more,
      whose acknowledgement was lost. */
  lemma {:induction false} FilledGained(db: Db, rows: seq<Row>, faults: seq<Fault>, n: nat)
    requires n <= |rows|
    ensures var run := Ran(db, rows, faults, n);
            var gained := |Untriggered(db)| - |Untriggered(run.db)|;
            run.filled <= gained <= run.filled + 1 && (!run.failed ==> gained == run.filled)
  {
    if n > 0 {
      FilledGained(db, rows, faults, n - 1);
      if rows[n - 1].trigger.Some? {
        StepGains(Ran(db, rows, faults, n - 1).db, rows[n - 1], FaultAt(faults, n - 1));
      }
    }
  }

  lemma StepGains(db: Db, r: Row, f: Fault)
    ensures var (after, a) := RowStep(db, r, f);
            var gained := |Untriggered(db)| - |Untriggered(after)|;
            && (gained == 0 || gained == 1) && (a.Filled? ==> gained == 1) && (a.Kept? ==> gained == 0)
  {
    var (after, _) := RowStep(db, r, f);
    if after != db {
      assert Untriggered(after) == Untriggered(db) - {r.event.id};
    }
  }

  predicate DistinctEvents(rows: seq<Row>) {
    forall i, j :: 0 <= i < j < |rows| ==> rows[i].event.id != rows[j].event.id
  }

  lemma ValidIsDistinct(p: Plan)
    requires ValidPlan(p)
    ensures DistinctEvents(p.rows)
  {
    var events := EventsOf(p.rows);
    forall i, j | 0 <= i < j < |p.rows|
      ensures p.rows[i].event.id != p.rows[j].event.id
    {
      assert EventId(events[i]) != EventId(events[j]);
    }
  }

  /** The i-th row wrote in this run. */
  predicate Wrote(db: Db, rows: seq<Row>, faults: seq<Fault>, i: nat)
    requires i < |rows|
  {
    !Ran(db, rows, faults, i).failed && !FaultAt(faults, i).RolledBack? && Fillable(db, rows[i])
  }

  /** A run touches nothing but the triggers its rows name. */
  lemma {:induction false} RunElsewhere(db: Db, rows: seq<Row>, faults: seq<Fault>, n: nat, k: int)
    requires n <= |rows| && forall i :: 0 <= i < n ==> rows[i].event.id != k
    ensures var after := Ran(db, rows, faults, n).db; (k in after <==> k in db) && (k in db ==> after[k] == db[k])
  {
    if n > 0 {
      RunElsewhere(db, rows, faults, n - 1, k);
    }
  }

  /** What it leaves of the event of one row: a trigger filled in, or nothing changed. */
  lemma {:induction false} RunAt(db: Db, rows: seq<Row>, faults: seq<Fault>, n: nat, i: nat)
    requires n <= |rows| && i < |rows| && DistinctEvents(rows)
    ensures var after, k := Ran(db, rows, faults, n).db, rows[i].event.id;
            && (k in after <==> k in db)
            && (k in db ==>
                  after[k] == if i < n && Wrote(db, rows, faults, i) then db[k].(trigger := rows[i].trigger) else db[k])
  {
    if i >= n {
      RunElsewhere(db, rows, faults, n, rows[i].event.id);
    } else if i == n - 1 {
      RunElsewhere(db, rows, faults, i, rows[i].event.id);
    } else {
      RunAt(db, rows, faults, n - 1, i);
      assert rows[i].event.id != rows[n - 1].event.id;
    }
  }

  /** A run keeps every fact but for triggers it fills: one that was recorded stays, and no
      fact of a sealed month is touched, whatever fails. */
  lemma RunKeeps(db: Db, rows: seq<Row>, faults: seq<Fault>, k: int)
    requires DistinctEvents(rows)
    ensures var after := Ran(db, rows, faults, |rows|).db;
            && (k in after <==> k in db)
            && (k in db ==> after[k] == db[k].(trigger := after[k].trigger))
            && (k in db && (db[k].trigger.Some? || db[k].isSealed) ==> after[k] == db[k])
  {
    if i :| 0 <= i < |rows| && rows[i].event.id == k {
      RunAt(db, rows, faults, |rows|, i);
    } else {
      RunElsewhere(db, rows, faults, |rows|, k);
    }
  }

  /** The row settles this fact as it stands: the same event, unsealed and without a trigger, to
      which it gives one of the vocabulary. */
  predicate FilledBy(fact: Fact, r: Row, k: int) {
    && r.event == fact.event && r.event.id == k && fact.trigger.None? && !fact.isSealed
    && r.trigger.Some? && r.trigger.value != "" && Normalize(r.trigger.value) == r.trigger.value
    && Locatable(r.event)
  }

  lemma FilledByRow(db: Db, p: Plan, faults: seq<Fault>, k: int) returns (i: nat)
    requires ValidPlan(p) && k in db && k in Ran(db, p.rows, faults, |p.rows|).db
    requires Ran(db, p.rows, faults, |p.rows|).db[k] != db[k]
    ensures i < |p.rows| && FilledBy(db[k], p.rows[i], k)
    ensures Ran(db, p.rows, faults, |p.rows|).db[k] == db[k].(trigger := p.rows[i].trigger)
  {
    ValidIsDistinct(p);
    if forall j :: 0 <= j < |p.rows| ==> p.rows[j].event.id != k {
      RunElsewhere(db, p.rows, faults, |p.rows|, k);
    }
    i :| 0 <= i < |p.rows| && p.rows[i].event.id == k;
    RunAt(db, p.rows, faults, |p.rows|, i);
    assert RowSound(p.rows[i]);
  }

  /** Safety of the apply: whatever fails, a fact changes only by gaining the trigger that a row
      of the approved plan gives its event, unchanged, unsealed and without one before; and for a
      payload row that is what the deliveries reporting the event, on its merge commit, agree on. */
  lemma OnlySettledFilled(db: Db, retained: seq<Envelope>, p: Plan, faults: seq<Fault>, k: int)
    requires ValidPlan(p) && Current(db, retained, p) && k in db
    ensures var after := Ran(db, p.rows, faults, |p.rows|).db;
            k in after &&
            (after[k] != db[k] ==>
               exists r :: r in p.rows && FilledBy(db[k], r, k) && after[k] == db[k].(trigger := r.trigger) &&
                           (r.source == Api || (r.source == Payload && ReportedAs(retained, r.event, r.trigger.value))))
  {
    var after := Ran(db, p.rows, faults, |p.rows|).db;
    ValidIsDistinct(p);
    RunKeeps(db, p.rows, faults, k);
    if after[k] != db[k] {
      var i := FilledByRow(db, p, faults, k);
      var r := p.rows[i];
      assert r in p.rows;
      assert RowSound(r) && RowCurrent(db, retained, r);
      ReportsSettle(retained, r.event, r.trigger.value);
    }
  }

  /** Every resolved row among the first n would be accepted. */
  predicate AllAcceptable(db: Db, rows: seq<Row>, n: nat)
    requires n <= |rows|
  {
    forall i :: 0 <= i < n && rows[i].trigger.Some? ==> Acceptable(db, rows[i])
  }

  /** A faultless run completes exactly when no resolved row is stale. */
  lemma {:induction false} FaultlessCompletesIff(db: Db, rows: seq<Row>, n: nat)
    requires n <= |rows| && DistinctEvents(rows)
    ensures !Ran(db, rows, [], n).failed <==> AllAcceptable(db, rows, n)
    ensures AllAcceptable(db, rows, n) <==>
            forall i :: 0 <= i < n && rows[i].trigger.Some? ==>
              var Row(event, trigger, source) := rows[i];
              && trigger != Some("") && event.id in db && db[event.id].event == event
              && (db[event.id].trigger == None || (source == Payload && db[event.id].trigger == trigger))
  {
    if n > 0 {
      FaultlessCompletesIff(db, rows, n - 1);
      AcceptableWhenReached(db, rows, n - 1);
    }
  }

  lemma AcceptableWhenReached(db: Db, rows: seq<Row>, i: nat)
    requires i < |rows| && DistinctEvents(rows)
    ensures Acceptable(Ran(db, rows, [], i).db, rows[i]) <==> Acceptable(db, rows[i])
  {
    RunAt(db, rows, [], i, i);
  }

  // ---------- applying the same plan again ----------

  /** The run filled an API row. */
  predicate WroteApi(db: Db, rows: seq<Row>, faults: seq<Fault>, i: nat)
    requires i < |rows|
  {
    Wrote(db, rows, faults, i) && rows[i].source == Api
  }

  lemma RecheckRowAgain(db: Db, retained: seq<Envelope>, rows: seq<Row>, faults: seq<Fault>, i: nat)
    requires i < |rows| && DistinctEvents(rows) && RowCurrent(db, retained, rows[i])
    ensures RowCurrent(Ran(db, rows, faults, |rows|).db, retained, rows[i]) <==> !WroteApi(db, rows, faults, i)
  {
    RunAt(db, rows, faults, |rows|, i);
  }

  /** Exactly when the same plan may be applied again after a run that stopped anywhere or
      completed: when that run filled no API row.  A plan whose resolved rows all come from
      payloads can always be applied again; one that filled an API row never can, since the
      recheck takes the filled event for a changed one. */
  lemma AppliesAgainIff(db: Db, retained: seq<Envelope>, p: Plan, faults: seq<Fault>)
    requires ValidPlan(p) && Current(db, retained, p)
    ensures Current(Ran(db, p.rows, faults, |p.rows|).db, retained, p) <==>
            forall i: nat :: i < |p.rows| ==> !WroteApi(db, p.rows, faults, i)
  {
    ValidIsDistinct(p);
    forall i: nat | i < |p.rows|
      ensures RowCurrent(Ran(db, p.rows, faults, |p.rows|).db, retained, p.rows[i]) <==>
              !WroteApi(db, p.rows, faults, i)
    {
      RecheckRowAgain(db, retained, p.rows, faults, i);
    }
  }

  /** Where it may, the second run loses no row: what it finds acceptable is what the first did. */
  lemma AcceptableAgain(db: Db, rows: seq<Row>, faults: seq<Fault>, i: nat)
    requires i < |rows| && DistinctEvents(rows) && rows[i].trigger.Some? && !WroteApi(db, rows, faults, i)
    requires rows[i].source == Payload || rows[i].source == Api
    ensures Acceptable(Ran(db, rows, faults, |rows|).db, rows[i]) <==> Acceptable(db, rows[i])
  {
    RunAt(db, rows, faults, |rows|, i);
  }

  /** And the two runs together leave each fact as one uninterrupted run would have. */
  lemma AgainConverges(db: Db, rows: seq<Row>, faults: seq<Fault>, k: int)
    requires DistinctEvents(rows) && AllAcceptable(db, rows, |rows|)
    requires forall i: nat :: i < |rows| && rows[i].trigger.Some? ==> rows[i].source == Payload || rows[i].source == Api
    requires forall i: nat :: i < |rows| ==> !WroteApi(db, rows, faults, i)
    ensures var first, whole := Ran(db, rows, faults, |rows|).db, Ran(db, rows, [], |rows|).db;
            var second := Ran(first, rows, [], |rows|);
            !second.failed && (k in second.db <==> k in whole) && (k in whole ==> second.db[k] == whole[k])
  {
    var first := Ran(db, rows, faults, |rows|).db;
    forall i | 0 <= i < |rows| && rows[i].trigger.Some?
      ensures Acceptable(first, rows[i])
    {
      AcceptableAgain(db, rows, faults, i);
    }
    FaultlessCompletesIff(first, rows, |rows|);
    if i :| 0 <= i < |rows| && rows[i].event.id == k {
      AgainAt(db, rows, faults, i);
    } else {
      RunElsewhere(db, rows, faults, |rows|, k);
      RunElsewhere(first, rows, [], |rows|, k);
      RunElsewhere(db, rows, [], |rows|, k);
    }
  }

  lemma AgainAt(db: Db, rows: seq<Row>, faults: seq<Fault>, i: nat)
    requires DistinctEvents(rows) && i < |rows| && AllAcceptable(db, rows, |rows|)
    requires AllAcceptable(Ran(db, rows, faults, |rows|).db, rows, |rows|)
    ensures var first, whole, k := Ran(db, rows, faults, |rows|).db, Ran(db, rows, [], |rows|).db, rows[i].event.id;
            var second := Ran(first, rows, [], |rows|).db;
            (k in second <==> k in whole) && (k in whole ==> second[k] == whole[k])
  {
    var first := Ran(db, rows, faults, |rows|).db;
    RunAt(db, rows, faults, |rows|, i);
    RunAt(first, rows, [], |rows|, i);
    RunAt(db, rows, [], |rows|, i);
    FaultlessCompletesIff(db, rows, i);
    FaultlessCompletesIff(first, rows, i);
  }
}
