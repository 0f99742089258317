/** Applying an approved exclusion plan: every check before the first write, then row by row,
    each row its own transaction, so that a failed run can simply be run again. */
module RevertApply {
  import opened Wrappers
  import opened RevertPlan

  /** The audit evidence of one applied row: the approved plan's digest and the row itself. */
  datatype Approval = Approval(digest: string, row: Row)

  /** An excluded outcome, with the identity it had and the approval it was moved under. */
  datatype Moved = Moved(id: Identity, approval: Approval)

  /** live holds the outcomes by id; moved the exclusions. */
  datatype Db = Db(live: map<int, Identity>, moved: set<Moved>) {
    predicate Matches(id: Identity) {
      id.outcome in live && live[id.outcome] == id
    }

    /** The row can be applied, or already was under this very approval. */
    predicate Ready(digest: string, r: Row) {
      Matches(r.id) || Moved(r.id, Approval(digest, r)) in moved
    }
  }

  datatype Answer = Applied | Replayed | Refused

  /** The database after one row's transaction, and what its caller is told. */
  function RowStep(db: Db, digest: string, r: Row, f: Fault): (Db, Answer) {
    if f.RolledBack? then (db, Refused)
    else if db.Matches(r.id) then
      (Db(db.live - {r.id.outcome}, db.moved + {Moved(r.id, Approval(digest, r))}),
          if f.LostAck? then Refused else Applied)
    else if db.Ready(digest, r) then (db, Replayed)
    else (db, Refused)                                     // stale
  }

  class OutcomesDb {
    var live: map<int, Identity>
    var moved: set<Moved>

    function Value(): Db
      reads this
    {
      Db(live, moved)
    }

    constructor (live: map<int, Identity>)
      ensures Value() == Db(live, {})
    {
      this.live, this.moved := live, {};
    }

    method ApplyPRExclusion(digest: string, r: Row, f: Fault) returns (a: Answer)
      modifies this
      ensures (Value(), a) == RowStep(old(Value()), digest, r, f)
    {
      if f.RolledBack? {
        return Refused;
      }
      if r.id.outcome !in live || live[r.id.outcome] != r.id {
        return if Moved(r.id, Approval(digest, r)) in moved then Replayed else Refused;
      }
      live := live - {r.id.outcome};
      moved := moved + {Moved(r.id, Approval(digest, r))};
      a := if f.LostAck? then Refused else Applied;
    }
  }

  /** A run under way. */
  datatype Run = Run(db: Db, applied: nat, replayed: nat, failed: bool)

  function FaultAt(faults: seq<Fault>, i: nat): Fault {
    if i < |faults| then faults[i] else NoFault
  }

  /** The run after the first n rows of the plan. */
  function Progress(db: Db, digest: string, rows: seq<Row>, faults: seq<Fault>, n: nat): Run
    requires n <= |rows|
  {
    if n == 0 then Run(db, 0, 0, false)
    else
      var p := Progress(db, digest, rows, faults, n - 1);
      if p.failed || rows[n - 1].verdict != Exclude then p
      else
        var (after, a) := RowStep(p.db, digest, rows[n - 1], FaultAt(faults, n - 1));
        match a
        case Applied => p.(db := after, applied := p.applied + 1)
        case Replayed => p.(db := after, replayed := p.replayed + 1)
        case Refused => p.(db := after, failed := true)
  }

  datatype Report =
    | Rejected
    | Stopped(committed: nat, replayed: nat)
    | Completed(applied: nat, replayed: nat, skipped: int)

  /** The second check on the plan: what its payload rows were built from must still be there. */
  method Recheck(p: Plan, retained: seq<Evidence>) returns (ok: bool)
    ensures ok <==> Current(retained, p)
  {
    var payloads := PreferredRevertPayloads(retained);
    for i := 0 to |p.rows|
      invariant forall j :: 0 <= j < i ==> RowCurrent(retained, p.rows[j])
    {
      var same := RecheckRow(payloads, retained, p.rows[i]);
      if !same {
        assert p.rows[i] in p.rows;
        return false;
      }
    }
    ok := true;
  }

  method RecheckRow(payloads: map<Key, Evidence>, ghost retained: seq<Evidence>, r: Row) returns (same: bool)
    requires forall k :: Preferred(retained, k) == if k in payloads then Some(payloads[k]) else None
    ensures same <==> RowCurrent(retained, r)
  {
    if r.source != Payload {
      return true;
    }
    var repo := RepoId.Canonicalize(r.id.repo);
    var slug := if repo.Some? then repo.value else "";
    LookupIn(payloads, retained, slug, r.id.pr, r.id.mergeSha);
    var k := Key(slug, r.id.pr, r.id.mergeSha);
    if k !in payloads {
      k := k.(sha := "");
    }
    same := k in payloads && payloads[k].headRef == r.headRef && payloads[k].title == r.title;
  }

  /** applyRevertPlan from the decoded plan on; digest is that of the plan's bytes, approved
      the one the operator signed off. */
  method ApplyRevertPlan(db: OutcomesDb, p: Plan, digest: string, approved: string, retained: seq<Evidence>,
                         faults: seq<Fault>)
    returns (report: Report)
    modifies db
    ensures report.Rejected? <==> !(ValidPlan(p) && approved == digest && Current(retained, p))
    ensures report.Rejected? ==> db.Value() == old(db.Value())
    ensures !report.Rejected? ==>
              var run := Progress(old(db.Value()), digest, p.rows, faults, |p.rows|);
              && db.Value() == run.db
              && report == if run.failed then Stopped(run.applied, run.replayed)
                           else Completed(run.applied, run.replayed, p.counts.keep + p.counts.unknown)
    ensures report.Completed? ==> |old(db.live)| == |db.live| + report.applied
  {
    var valid := Validate(p);
    if !valid || approved != digest {
      return Rejected;
    }
    var current := Recheck(p, retained);
    if !current {
      return Rejected;
    }
    ghost var start := db.Value();
    report := ApplyRows(db, p, digest, faults);
    AppliedLeft(start, digest, p.rows, faults, |p.rows|);
  }

  /** The write phase. */
  method ApplyRows(db: OutcomesDb, p: Plan, digest: string, faults: seq<Fault>) returns (report: Report)
    modifies db
    ensures var run := Progress(old(db.Value()), digest, p.rows, faults, |p.rows|);
            && db.Value() == run.db
            && report == if run.failed then Stopped(run.applied, run.replayed)
                         else Completed(run.applied, run.replayed, p.counts.keep + p.counts.unknown)
  {
    ghost var start := db.Value();
    var applied, replayed := 0, 0;
    for i := 0 to |p.rows|
      invariant Progress(start, digest, p.rows, faults, i) == Run(db.Value(), applied, replayed, false)
    {
      if p.rows[i].verdict != Exclude {
        continue;
      }
      var a := db.ApplyPRExclusion(digest, p.rows[i], FaultAt(faults, i));
      match a {
        case Refused =>
          FailureFinal(start, digest, p.rows, faults, i + 1, |p.rows|);
          return Stopped(applied, replayed);
        case Applied =>
          applied := applied + 1;
        case Replayed =>
          replayed := replayed + 1;
      }
    }
    report := Completed(applied, replayed, p.counts.keep + p.counts.unknown);
  }

  lemma {:induction false} FailureFinal(db: Db, digest: string, rows: seq<Row>, faults: seq<Fault>, m: nat, n: nat)
    requires m <= n <= |rows| && Progress(db, digest, rows, faults, m).failed
    ensures Progress(db, digest, rows, faults, n) == Progress(db, digest, rows, faults, m)
  {
    if m < n {
      FailureFinal(db, digest, rows, faults, m, n - 1);
    }
  }

  // ---------- accounting ----------

  lemma {:induction false} AppliedPlusReplayed(db: Db, digest: string, rows: seq<Row>, faults: seq<Fault>, n: nat)
    requires n <= |rows|
    ensures var run := Progress(db, digest, rows, faults, n);
            !run.failed ==> run.applied + run.replayed == CountOf(rows[..n], Exclude)
  {
    if n > 0 {
      AppliedPlusReplayed(db, digest, rows, faults, n - 1);
      assert rows[..n][..n - 1] == rows[..n - 1];
    }
  }

  lemma {:induction false} VerdictsPartition(rows: seq<Row>)
    requires forall i :: 0 <= i < |rows| ==> !rows[i].verdict.OtherVerdict?
    ensures CountOf(rows, Exclude) + CountOf(rows, Keep) + CountOf(rows, Unknown) == |rows|
  {
    if rows != [] {
      VerdictsPartition(rows[..|rows| - 1]);
    }
  }

  /** A completed apply accounts for every row of its plan. */
  lemma CompletedAccountsForAll(db: Db, digest: string, p: Plan, faults: seq<Fault>)
    requires ValidPlan(p) && !Progress(db, digest, p.rows, faults, |p.rows|).failed
    ensures var run := Progress(db, digest, p.rows, faults, |p.rows|);
            run.applied + run.replayed + (p.counts.keep + p.counts.unknown) == p.counts.total
  {
    AppliedPlusReplayed(db, digest, p.rows, faults, |p.rows|);
    assert p.rows[..|p.rows|] == p.rows;
    VerdictsPartition(p.rows);
  }

  /** `applied` is the outcomes that left the table; a run that stopped may have moved one more,
      whose acknowledgement was lost. */
  lemma {:induction false} AppliedLeft(db: Db, digest: string, rows: seq<Row>, faults: seq<Fault>, n: nat)
    requires n <= |rows|
    ensures var run := Progress(db, digest, rows, faults, n);
            var left := |db.live| - |run.db.live|;
            run.applied <= left <= run.applied + 1 && (!run.failed ==> left == run.applied)
  {
    if n > 0 {
      AppliedLeft(db, digest, rows, faults, n - 1);
      StepLeaves(Progress(db, digest, rows, faults, n - 1).db, digest, rows[n - 1], FaultAt(faults, n - 1));
    }
  }

  lemma StepLeaves(db: Db, digest: string, r: Row, f: Fault)
    ensures var (after, a) := RowStep(db, digest, r, f);
            var left := |db.live| - |after.live|;
            && (left == 0 || left == 1) && (a.Applied? ==> left == 1) && (a.Replayed? ==> left == 0)
  {
    if db.Matches(r.id) {
      var rest := db.live - {r.id.outcome};
      assert rest.Keys == db.live.Keys - {r.id.outcome};
      assert |rest| == |rest.Keys| && |db.live| == |db.live.Keys|;
    }
  }

  // ---------- what leaves ----------

  /** The row excludes the outcome k, as it stood, and the exclusion names the row. */
  predicate LeftBy(was: Identity, after: Db, digest: string, r: Row, k: int) {
    r.verdict == Exclude && r.id == was && was.outcome == k && Moved(was, Approval(digest, r)) in after.moved
  }

  lemma {:induction false} LeftByRow(db: Db, digest: string, rows: seq<Row>, faults: seq<Fault>, n: nat, k: int)
    requires n <= |rows|
    ensures var after := Progress(db, digest, rows, faults, n).db;
            && (k in after.live ==> k in db.live && after.live[k] == db.live[k])
            && (k in db.live && k !in after.live ==>
                  exists i :: 0 <= i < n && LeftBy(db.live[k], after, digest, rows[i], k))
  {
    if n > 0 {
      LeftByRow(db, digest, rows, faults, n - 1, k);
      var before, after := Progress(db, digest, rows, faults, n - 1).db, Progress(db, digest, rows, faults, n).db;
      assert before.moved <= after.moved;
      if k in db.live && k !in after.live {
        if k in before.live {
          assert LeftBy(db.live[k], after, digest, rows[n - 1], k);
        } else {
          var i :| 0 <= i < n - 1 && LeftBy(db.live[k], before, digest, rows[i], k);
          assert LeftBy(db.live[k], after, digest, rows[i], k);
        }
      }
    }
  }

  /** What stands behind an exclude row: a qualified repository, a merge, and one of GitHub's two
      revert forms, still told by a retained delivery of that PR if that is where it came from. */
  ghost predicate Justified(retained: seq<Evidence>, r: Row) {
    && RepoId.Canonical(r.id.repo).Some? && r.id.mergeSha != ""
    && (GeneratedBranch(r.headRef) || "Revert \"" <= r.title)
    && (r.source == Api ||
        (r.source == Payload &&
         exists e :: e in retained && RepoId.Canonical(r.id.repo) == Some(e.repo) && e.pr == r.id.pr &&
                     e.mergeSha in {r.id.mergeSha, ""} && e.headRef == r.headRef && e.title == r.title))
  }

  lemma ExcludeRowJustified(retained: seq<Evidence>, r: Row)
    requires RowSound(r) && RowCurrent(retained, r) && r.verdict == Exclude
    ensures Justified(retained, r)
  {
    IsRevertMeans(r.headRef, r.title);
    LookupMeans(retained, RepoId.Canonical(r.id.repo).value, r.id.pr, r.id.mergeSha);
  }

  /** Safety of the apply: whatever fails, an outcome leaves the table only if the approved plan
      holds a justified exclude row for exactly it, unchanged; and its exclusion names that row
      and plan. */
  lemma OnlyRevertsLeave(db: Db, digest: string, p: Plan, retained: seq<Evidence>, faults: seq<Fault>, k: int)
    requires ValidPlan(p) && Current(retained, p)
    requires k in db.live && k !in Progress(db, digest, p.rows, faults, |p.rows|).db.live
    ensures var after := Progress(db, digest, p.rows, faults, |p.rows|).db;
            exists r :: r in p.rows && LeftBy(db.live[k], after, digest, r, k) && Justified(retained, r)
  {
    var after := Progress(db, digest, p.rows, faults, |p.rows|).db;
    LeftByRow(db, digest, p.rows, faults, |p.rows|, k);
    var i :| 0 <= i < |p.rows| && LeftBy(db.live[k], after, digest, p.rows[i], k);
    assert p.rows[i] in p.rows;
    assert RowSound(p.rows[i]) && RowCurrent(retained, p.rows[i]);
    ExcludeRowJustified(retained, p.rows[i]);
  }

  // ---------- resuming ----------

  /** The i-th row committed in this run. */
  predicate Acted(db: Db, digest: string, rows: seq<Row>, faults: seq<Fault>, i: nat)
    requires i < |rows|
  {
    && rows[i].verdict == Exclude && !Progress(db, digest, rows, faults, i).failed
    && !FaultAt(faults, i).RolledBack? && db.Matches(rows[i].id)
  }

  /** The outcomes the run's committed rows took out, and the exclusions they left. */
  function Gone(db: Db, digest: string, rows: seq<Row>, faults: seq<Fault>, n: nat): set<int>
    requires n <= |rows|
  {
    if n == 0 then {}
    else Gone(db, digest, rows, faults, n - 1) +
         if Acted(db, digest, rows, faults, n - 1) then {rows[n - 1].id.outcome} else {}
  }

  function Arrived(db: Db, digest: string, rows: seq<Row>, faults: seq<Fault>, n: nat): set<Moved>
    requires n <= |rows|
  {
    if n == 0 then {}
    else Arrived(db, digest, rows, faults, n - 1) +
         if Acted(db, digest, rows, faults, n - 1) then {Moved(rows[n - 1].id, Approval(digest, rows[n - 1]))} else {}
  }

  lemma {:induction false} GoneMember(db: Db, digest: string, rows: seq<Row>, faults: seq<Fault>, n: nat, i: nat)
    requires n <= |rows| && i < |rows| && IdentitiesSound(rows)
    ensures rows[i].id.outcome in Gone(db, digest, rows, faults, n) <==> i < n && Acted(db, digest, rows, faults, i)
  {
    if n > 0 {
      GoneMember(db, digest, rows, faults, n - 1, i);
      SameOutcomeSameRow(rows, n - 1, i);
    }
  }

  lemma {:induction false} ArrivedMember(db: Db, digest: string, rows: seq<Row>, faults: seq<Fault>, n: nat, i: nat)
    requires n <= |rows| && i < |rows| && IdentitiesSound(rows)
    ensures Moved(rows[i].id, Approval(digest, rows[i])) in Arrived(db, digest, rows, faults, n) <==>
            i < n && Acted(db, digest, rows, faults, i)
  {
    if n > 0 {
      ArrivedMember(db, digest, rows, faults, n - 1, i);
      SameOutcomeSameRow(rows, n - 1, i);
    }
  }

  lemma SameOutcomeSameRow(rows: seq<Row>, i: nat, j: nat)
    requires i < |rows| && j < |rows| && IdentitiesSound(rows)
    ensures rows[i].id.outcome == rows[j].id.outcome <==> i == j
  {
  }

  lemma StepEffect(db: Db, digest: string, r: Row, f: Fault, gone: set<int>, arrived: set<Moved>)
    requires r.id.outcome !in gone
    ensures RowStep(Db(db.live - gone, db.moved + arrived), digest, r, f).0 ==
            if !f.RolledBack? && db.Matches(r.id)
            then Db(db.live - (gone + {r.id.outcome}), db.moved + (arrived + {Moved(r.id, Approval(digest, r))}))
            else Db(db.live - gone, db.moved + arrived)
  {
  }

  /** The database is what the first n rows' commits make of it. */
  predicate EffectOf(db: Db, digest: string, rows: seq<Row>, faults: seq<Fault>, n: nat)
    requires n <= |rows|
  {
    Progress(db, digest, rows, faults, n).db ==
    Db(db.live - Gone(db, digest, rows, faults, n), db.moved + Arrived(db, digest, rows, faults, n))
  }

  lemma EffectNext(db: Db, digest: string, rows: seq<Row>, faults: seq<Fault>, n: nat)
    requires n < |rows| && EffectOf(db, digest, rows, faults, n)
    requires rows[n].id.outcome !in Gone(db, digest, rows, faults, n)
    ensures EffectOf(db, digest, rows, faults, n + 1)
  {
    StepEffect(db, digest, rows[n], FaultAt(faults, n),
               Gone(db, digest, rows, faults, n), Arrived(db, digest, rows, faults, n));
  }

  /** With distinct ids, a run does to the database what its committed rows do, and nothing else. */
  lemma {:induction false} RunEffect(db: Db, digest: string, rows: seq<Row>, faults: seq<Fault>, n: nat)
    requires n <= |rows| && IdentitiesSound(rows)
    ensures EffectOf(db, digest, rows, faults, n)
  {
    if n > 0 {
      RunEffect(db, digest, rows, faults, n - 1);
      GoneMember(db, digest, rows, faults, n - 1, n - 1);
      EffectNext(db, digest, rows, faults, n - 1);
    }
  }

  /** What a run leaves of one row's claim on the database. */
  lemma RowAfter(db: Db, digest: string, rows: seq<Row>, faults: seq<Fault>, n: nat, i: nat)
    requires n <= |rows| && i < |rows| && IdentitiesSound(rows)
    ensures var after, acted := Progress(db, digest, rows, faults, n).db, i < n && Acted(db, digest, rows, faults, i);
            && (after.Matches(rows[i].id) <==> db.Matches(rows[i].id) && !acted)
            && (after.Ready(digest, rows[i]) <==> db.Ready(digest, rows[i]))
  {
    RunEffect(db, digest, rows, faults, n);
    GoneMember(db, digest, rows, faults, n, i);
    ArrivedMember(db, digest, rows, faults, n, i);
  }

  /** No exclude row of the plan is stale. */
  predicate AllReady(db: Db, digest: string, rows: seq<Row>, n: nat)
    requires n <= |rows|
  {
    forall i :: 0 <= i < n && rows[i].verdict == Exclude ==> db.Ready(digest, rows[i])
  }

  /** Row i excludes an outcome that is there. */
  function Present(db: Db, rows: seq<Row>): nat -> bool {
    (i: nat) => i < |rows| && rows[i].verdict == Exclude && db.Matches(rows[i].id)
  }

  /** Row i excludes one that is not, but was moved under this very approval. */
  function MovedBefore(db: Db, digest: string, rows: seq<Row>): nat -> bool {
    (i: nat) => i < |rows| && rows[i].verdict == Exclude && !db.Matches(rows[i].id) &&
                Moved(rows[i].id, Approval(digest, rows[i])) in db.moved
  }

  /** What a completed run reports: as applied the exclude rows whose outcome it found, and as
      replayed those whose outcome was gone, moved under the same approval. */
  lemma {:induction false} CompletedCounts(db: Db, digest: string, rows: seq<Row>, faults: seq<Fault>, n: nat)
    requires n <= |rows| && IdentitiesSound(rows) && !Progress(db, digest, rows, faults, n).failed
    ensures var run := Progress(db, digest, rows, faults, n);
            && run.applied == CountTrue(Present(db, rows), n)
            && run.replayed == CountTrue(MovedBefore(db, digest, rows), n)
  {
    if n > 0 {
      CompletedCounts(db, digest, rows, faults, n - 1);
      RowAfter(db, digest, rows, faults, n - 1, n - 1);
    }
  }

  /** A faultless run completes exactly when no exclude row is stale: it never passes one,
      and never stops anywhere else. */
  lemma {:induction false} FaultlessCompletesIff(db: Db, digest: string, rows: seq<Row>, n: nat)
    requires n <= |rows| && IdentitiesSound(rows)
    ensures !Progress(db, digest, rows, [], n).failed <==> AllReady(db, digest, rows, n)
    ensures AllReady(db, digest, rows, n) <==>
            forall i :: 0 <= i < n && rows[i].verdict == Exclude ==>
              (rows[i].id.outcome in db.live && db.live[rows[i].id.outcome] == rows[i].id) ||
              Moved(rows[i].id, Approval(digest, rows[i])) in db.moved
  {
    if n > 0 {
      FaultlessCompletesIff(db, digest, rows, n - 1);
      RowAfter(db, digest, rows, [], n - 1, n - 1);
    }
  }

  /** Resumability.  After a run of the plan that stopped anywhere, for any reason, with any
      half-reported commit, running the same plan again completes if and only if the plan was
      fit to complete in the first place; and then the second run commits exactly the rows
      the first did not. */
  lemma ResumeCommitsTheRest(db: Db, digest: string, rows: seq<Row>, faults: seq<Fault>, i: nat)
    requires IdentitiesSound(rows) && i < |rows|
    ensures var first := Progress(db, digest, rows, faults, |rows|).db;
            && (!Progress(first, digest, rows, [], |rows|).failed <==> AllReady(db, digest, rows, |rows|))
            && (AllReady(db, digest, rows, |rows|) && rows[i].verdict == Exclude ==>
                  (Acted(first, digest, rows, [], i) <==>
                      db.Matches(rows[i].id) && !Acted(db, digest, rows, faults, i)))
  {
    var first := Progress(db, digest, rows, faults, |rows|).db;
    forall j | 0 <= j < |rows|
      ensures first.Ready(digest, rows[j]) <==> db.Ready(digest, rows[j])
    {
      RowAfter(db, digest, rows, faults, |rows|, j);
    }
    FaultlessCompletesIff(first, digest, rows, |rows|);
    FaultlessCompletesIff(first, digest, rows, i);
    RowAfter(db, digest, rows, faults, |rows|, i);
  }

  /** And the database ends as one uninterrupted run would have left it: one interrupted run. */
  lemma ResumesOnce(db: Db, digest: string, rows: seq<Row>, faults: seq<Fault>)
    requires IdentitiesSound(rows) && AllReady(db, digest, rows, |rows|)
    ensures var first := Progress(db, digest, rows, faults, |rows|).db;
            Progress(first, digest, rows, [], |rows|).db == Progress(db, digest, rows, [], |rows|).db
  {
    var n := |rows|;
    var first := Progress(db, digest, rows, faults, n).db;
    RunEffect(db, digest, rows, faults, n);
    RunEffect(first, digest, rows, [], n);
    RunEffect(db, digest, rows, [], n);
    forall i | 0 <= i < n && rows[i].verdict == Exclude
      ensures Acted(db, digest, rows, [], i) <==>
              Acted(db, digest, rows, faults, i) || Acted(first, digest, rows, [], i)
    {
      ResumeCommitsTheRest(db, digest, rows, faults, i);
      FaultlessCompletesIff(db, digest, rows, i);
    }
    UnionTo(db, first, digest, rows, faults, n);
  }

  lemma ReadyKept(db: Db, digest: string, rows: seq<Row>, faults: seq<Fault>)
    requires IdentitiesSound(rows) && AllReady(db, digest, rows, |rows|)
    ensures AllReady(Progress(db, digest, rows, faults, |rows|).db, digest, rows, |rows|)
  {
    forall i | 0 <= i < |rows|
      ensures Progress(db, digest, rows, faults, |rows|).db.Ready(digest, rows[i]) <==> db.Ready(digest, rows[i])
    {
      RowAfter(db, digest, rows, faults, |rows|, i);
    }
  }

  /** The database after any number of runs of the plan, each with its own faults. */
  function Attempts(db: Db, digest: string, rows: seq<Row>, runs: seq<seq<Fault>>): Db {
    if runs == [] then db
    else Progress(Attempts(db, digest, rows, runs[..|runs| - 1]), digest, rows, runs[|runs| - 1], |rows|).db
  }

  /** However many runs of the plan stopped, wherever and for whatever reason, one that meets no
      fault then completes, and leaves the database as one uninterrupted run would have. */
  lemma {:induction false} ResumeConverges(db: Db, digest: string, rows: seq<Row>, runs: seq<seq<Fault>>)
    requires IdentitiesSound(rows) && AllReady(db, digest, rows, |rows|)
    ensures var reached := Attempts(db, digest, rows, runs);
            && AllReady(reached, digest, rows, |rows|)
            && !Progress(reached, digest, rows, [], |rows|).failed
            && Progress(reached, digest, rows, [], |rows|).db == Progress(db, digest, rows, [], |rows|).db
  {
    if runs == [] {
      FaultlessCompletesIff(db, digest, rows, |rows|);
    } else {
      var before, faults := runs[..|runs| - 1], runs[|runs| - 1];
      ResumeConverges(db, digest, rows, before);
      var mid := Attempts(db, digest, rows, before);
      ReadyKept(mid, digest, rows, faults);
      ResumesOnce(mid, digest, rows, faults);
      FaultlessCompletesIff(Attempts(db, digest, rows, runs), digest, rows, |rows|);
    }
  }

  lemma {:induction false} UnionTo(db: Db, first: Db, digest: string, rows: seq<Row>, faults: seq<Fault>, n: nat)
    requires n <= |rows|
    requires forall i :: 0 <= i < n && rows[i].verdict == Exclude ==>
               (Acted(db, digest, rows, [], i) <==>
                   Acted(db, digest, rows, faults, i) || Acted(first, digest, rows, [], i))
    ensures Gone(db, digest, rows, [], n) == Gone(db, digest, rows, faults, n) + Gone(first, digest, rows, [], n)
    ensures Arrived(db, digest, rows, [], n) ==
            Arrived(db, digest, rows, faults, n) + Arrived(first, digest, rows, [], n)
  {
    if n > 0 {
      UnionTo(db, first, digest, rows, faults, n - 1);
      assert rows[n - 1].verdict != Exclude ==>
               !Acted(db, digest, rows, [], n - 1) && !Acted(db, digest, rows, faults, n - 1) &&
               !Acted(first, digest, rows, [], n - 1);
    }
  }
}
