/** What holds of every history scan, whatever the network, the store and the webhook do: prs
    are the pull requests it hands to reconstruction, in order, whichever they are. */
module HistoryTheorems {
  import opened Wrappers
  import opened OutcomeStore
  import opened HistoryScan

  predicate Tally(p: Progress) {
    if p.failed then p.stats.merged == p.stats.inserted + p.stats.skipped + p.stats.excluded + p.stats.unattributed + 1
    else p.stats.Accounted()
  }

  /** merged == inserted + skipped + excluded + unattributed at every point of the scan;
      only a failed reconstruction leaves its one PR counted and unclassified.  And merged
      is the number of PRs handed on. */
  lemma {:induction false} ScanAccounted(rows: Rows, job: Job, prs: seq<Item>, n: nat)
    requires n <= |prs|
    ensures var p := Scanned(Progress(rows, NO_STATS, false), job, prs, n);
            Tally(p) && p.stats.merged <= n && (!p.failed ==> p.stats.merged == n)
  {
    if n > 0 {
      ScanAccounted(rows, job, prs, n - 1);
    }
  }

  lemma {:induction false} ArrivedKeeps(rows: Rows, arrivals: seq<Write>)
    requires rows.Valid()
    ensures Arrived(rows, arrivals).Valid() && Keeps(rows, Arrived(rows, arrivals))
  {
    if arrivals != [] {
      var before := Arrived(rows, arrivals[..|arrivals| - 1]);
      ArrivedKeeps(rows, arrivals[..|arrivals| - 1]);
      WrittenKeeps(before, arrivals[|arrivals| - 1]);
      KeepsTrans(rows, before, Arrived(rows, arrivals));
    }
  }

  lemma ReconstructedKeeps(rows: Rows, q: Query, d: Detail, w: Weather)
    requires rows.Valid()
    ensures var after := Reconstructed(rows, q, d, w).0; after.Valid() && Keeps(rows, after)
  {
    WrittenKeeps(rows, Exclude(d.sha));
    WrittenKeeps(rows, Insert(ToOutcome(q, d)));
  }

  lemma ExaminedKeeps(p: Progress, q: Query, d: Detail, w: Weather)
    requires p.rows.Valid()
    ensures var after := Examined(p, q, d, w); after.rows.Valid() && Keeps(p.rows, after.rows)
  {
    ArrivedKeeps(p.rows, w.arrivals);
    var mid := Arrived(p.rows, w.arrivals);
    ReconstructedKeeps(mid, q, d, w);
    KeepsTrans(p.rows, mid, Reconstructed(mid, q, d, w).0);
  }

  lemma {:induction false} ScanValid(p: Progress, job: Job, prs: seq<Item>, n: nat)
    requires p.rows.Valid() && n <= |prs|
    ensures Scanned(p, job, prs, n).rows.Valid()
  {
    if n > 0 {
      ScanValid(p, job, prs, n - 1);
      ExaminedKeeps(Scanned(p, job, prs, n - 1), job.q, job.details(prs[n - 1].number), job.weather(n - 1));
    }
  }

  lemma ScanStepKeeps(p: Progress, job: Job, prs: seq<Item>, n: nat)
    requires p.rows.Valid() && n < |prs|
    ensures Keeps(Scanned(p, job, prs, n).rows, Scanned(p, job, prs, n + 1).rows)
  {
    ScanValid(p, job, prs, n);
    ExaminedKeeps(Scanned(p, job, prs, n), job.q, job.details(prs[n].number), job.weather(n));
  }

  lemma ScanKeepsNext(p: Progress, job: Job, prs: seq<Item>, before: Rows, n: nat)
    requires p.rows.Valid() && n < |prs| && Keeps(before, Scanned(p, job, prs, n).rows)
    ensures Keeps(before, Scanned(p, job, prs, n + 1).rows)
  {
    ScanStepKeeps(p, job, prs, n);
    KeepsTrans(before, Scanned(p, job, prs, n).rows, Scanned(p, job, prs, n + 1).rows);
  }

  lemma {:induction false} KeepsFrom(p: Progress, job: Job, prs: seq<Item>, before: Rows, m: nat, n: nat)
    requires p.rows.Valid() && m <= n <= |prs| && Keeps(before, Scanned(p, job, prs, m).rows)
    ensures Keeps(before, Scanned(p, job, prs, n).rows)
  {
    if m < n {
      KeepsFrom(p, job, prs, before, m, n - 1);
      ScanKeepsNext(p, job, prs, before, n - 1);
    }
  }

  /** Under any interleaving with the webhook's inserts and exclusions, what was recorded
      earlier in a scan is still there as it was, unless its merge has been excluded. */
  lemma ScanKeeps(p: Progress, job: Job, prs: seq<Item>, m: nat, n: nat)
    requires p.rows.Valid() && m <= n <= |prs|
    ensures Keeps(Scanned(p, job, prs, m).rows, Scanned(p, job, prs, n).rows)
  {
    KeepsFrom(p, job, prs, Scanned(p, job, prs, m).rows, m, n);
  }

  /** At every point of any scan: no two outcomes share a merge, no excluded merge has an
      outcome, and a row found for a merge that had one before is that very row. */
  lemma FirstRowStays(p: Progress, job: Job, prs: seq<Item>, m: nat, n: nat)
    requires p.rows.Valid() && m <= n <= |prs|
    ensures var before, after := Scanned(p, job, prs, m).rows, Scanned(p, job, prs, n).rows;
            && after.Valid()
            && forall o, r :: o in before.live && r in after.live && o.sha == r.sha != "" ==> r == o
  {
    var before, after := Scanned(p, job, prs, m).rows, Scanned(p, job, prs, n).rows;
    ScanValid(p, job, prs, n);
    ScanKeeps(p, job, prs, m, n);
    forall o, r | o in before.live && r in after.live && o.sha == r.sha != ""
      ensures r == o
    {
      RecordedStays(before, after, o, r);
    }
  }

  lemma OnlyRecordableIsFresh(rows: Rows, q: Query, d: Detail, w: Weather)
    ensures Reconstructed(rows, q, d, w).1 == Some(Fresh) ==> Recordable(q, d) && !rows.Knows(d.sha)
    ensures Recordable(q, d) && Reconstructed(rows, q, d, w).1.Some? ==> Reconstructed(rows, q, d, w).0.Knows(d.sha)
  {
    var o := ToOutcome(q, d);
    var after := Inserted(rows, o);
    if !rows.Knows(o.sha) {
      assert after.live[|rows.live|] == o;
    }
  }

  lemma {:induction false} FailureSticks(p: Progress, job: Job, prs: seq<Item>, m: nat, n: nat)
    requires m <= n <= |prs| && !Scanned(p, job, prs, n).failed
    ensures !Scanned(p, job, prs, m).failed
  {
    if m < n {
      FailureSticks(p, job, prs, m, n - 1);
    }
  }

  lemma ExaminedIsKnown(p: Progress, q: Query, d: Detail, w: Weather)
    requires Recordable(q, d) && !Examined(p, q, d, w).failed
    ensures Examined(p, q, d, w).rows.Knows(d.sha)
  {
    OnlyRecordableIsFresh(Arrived(p.rows, w.arrivals), q, d, w);
  }

  lemma KnownAfter(p: Progress, job: Job, prs: seq<Item>, i: nat)
    requires i < |prs| && !Scanned(p, job, prs, i + 1).failed
    requires Recordable(job.q, job.details(prs[i].number))
    ensures Scanned(p, job, prs, i + 1).rows.Knows(job.details(prs[i].number).sha)
  {
    ExaminedIsKnown(Scanned(p, job, prs, i), job.q, job.details(prs[i].number), job.weather(i));
  }

  lemma KnownStays(p: Progress, job: Job, prs: seq<Item>, sha: string, m: nat, n: nat)
    requires p.rows.Valid() && m <= n <= |prs| && Scanned(p, job, prs, m).rows.Knows(sha)
    ensures Scanned(p, job, prs, n).rows.Knows(sha)
  {
    ScanKeeps(p, job, prs, m, n);
    KeepsKnown(Scanned(p, job, prs, m).rows, Scanned(p, job, prs, n).rows, sha);
  }

  /** A scan that got past a recordable PR left its merge known. */
  lemma ScannedIsKnown(p: Progress, job: Job, prs: seq<Item>, i: nat, n: nat)
    requires p.rows.Valid() && i < n <= |prs| && !Scanned(p, job, prs, n).failed
    ensures var d := job.details(prs[i].number);
            Recordable(job.q, d) ==> Scanned(p, job, prs, n).rows.Knows(d.sha)
  {
    var d := job.details(prs[i].number);
    if Recordable(job.q, d) {
      FailureSticks(p, job, prs, i + 1, n);
      KnownAfter(p, job, prs, i);
      KnownStays(p, job, prs, d.sha, i + 1, n);
    }
  }

  /** Idempotence: once a scan has run to its end without an error, scanning the unchanged
      history again inserts nothing, whatever was inserted or excluded in between and whatever
      fails this time. */
  lemma {:induction false} RescanInsertsNothing(first: Rows, job: Job, prs: seq<Item>, later: Rows, again: Job, n: nat)
    requires first.Valid() && later.Valid()
    requires again == job.(weather := again.weather) && n <= |prs|
    requires var done := Scanned(Progress(first, NO_STATS, false), job, prs, |prs|);
             !done.failed && Keeps(done.rows, later)
    ensures Scanned(Progress(later, NO_STATS, false), again, prs, n).stats.inserted == 0
  {
    if n > 0 {
      RescanInsertsNothing(first, job, prs, later, again, n - 1);
      var d := job.details(prs[n - 1].number);
      if Recordable(job.q, d) {
        KnownBeforeRescan(first, job, prs, later, again, n - 1);
      }
      ExaminedInsertsNothing(Scanned(Progress(later, NO_STATS, false), again, prs, n - 1), job.q, d,
          again.weather(n - 1));
    }
  }

  lemma KnownBeforeRescan(first: Rows, job: Job, prs: seq<Item>, later: Rows, again: Job, i: nat)
    requires first.Valid() && later.Valid()
    requires again == job.(weather := again.weather) && i < |prs|
    requires Recordable(job.q, job.details(prs[i].number))
    requires var done := Scanned(Progress(first, NO_STATS, false), job, prs, |prs|);
             !done.failed && Keeps(done.rows, later)
    ensures Scanned(Progress(later, NO_STATS, false), again, prs, i).rows.Knows(job.details(prs[i].number).sha)
    ensures Scanned(Progress(later, NO_STATS, false), again, prs, i).rows.Valid()
  {
    var start, n := Progress(later, NO_STATS, false), |prs|;
    var sha := job.details(prs[i].number).sha;
    ScannedIsKnown(Progress(first, NO_STATS, false), job, prs, i, n);
    KeepsKnown(Scanned(Progress(first, NO_STATS, false), job, prs, n).rows, later, sha);
    ScanValid(start, again, prs, i);
    KnownStays(start, again, prs, sha, 0, i);
  }

  lemma ExaminedInsertsNothing(p: Progress, q: Query, d: Detail, w: Weather)
    requires Recordable(q, d) ==> p.rows.Valid() && p.rows.Knows(d.sha)
    ensures Examined(p, q, d, w).stats.inserted == p.stats.inserted
  {
    if Recordable(q, d) {
      ArrivedKeeps(p.rows, w.arrivals);
      KeepsKnown(p.rows, Arrived(p.rows, w.arrivals), d.sha);
    }
    OnlyRecordableIsFresh(Arrived(p.rows, w.arrivals), q, d, w);
  }

  // ---------- what "skipped" counts ----------

  /** Three PRs the tally counts as skipped although no row for them is present: the fetched
      author is not the owner the list named; the detail is no longer merged; and the merge was
      excluded once, as a revert, so that its insert is barred. */
  lemma SkippedWithoutConflict()
    ensures var none, barred := Rows([], {}), Rows([], {"c0ffee"});
            var calm, skipped := Weather(true, Recorded, true, []), Stats(1, 0, 0, 1, 0);
            var pr := Detail("ann", 7, At(5), "c0ffee", false, "issue-1", false);
            && Examined(Progress(none, NO_STATS, false), Query(0, "ann"), pr.(login := "bob"), calm)
               == Progress(none, skipped, false)
            && Examined(Progress(none, NO_STATS, false), Query(0, ""), pr.(merged := Null), calm)
               == Progress(none, skipped, false)
            && Examined(Progress(barred, NO_STATS, false), Query(0, ""), pr, calm)
               == Progress(barred, skipped, false)
  {
    assert !EqualFold("bob", "ann") by {
      assert Lower("bob"[0]) != Lower("ann"[0]);
    }
  }

  /** ON CONFLICT DO NOTHING: the insert meets a row for its merge. */
  predicate Conflicts(rows: Rows, q: Query, d: Detail, w: Weather) {
    InsertAttempted(q, d, w) && d.sha != "" && rows.Holds(d.sha)
  }

  /** The detail is one to insert, but its merge is excluded. */
  predicate Barred(rows: Rows, q: Query, d: Detail) {
    Recordable(q, d) && d.sha in rows.excluded
  }

  /** Exactly when one PR counted as skipped is the conflict the tally documents: its fetched
      detail confirms the list and its merge is not excluded. */
  lemma ReplayIsConflict(rows: Rows, q: Query, d: Detail, w: Weather)
    requires rows.Valid()
    ensures var c := Reconstructed(rows, q, d, w).1;
            && (c == Some(Replay) ==> (Conflicts(rows, q, d, w) <==> Confirmed(q, d) && d.sha !in rows.excluded))
            && (c == Some(Replay) ==> (InsertRefused(rows, q, d, w) <==> Confirmed(q, d)))
  {
  }

  /** Every PR examined is counted as skipped for one of three reasons, and for one only. */
  lemma ReplayReasons(rows: Rows, q: Query, d: Detail, w: Weather)
    requires rows.Valid()
    ensures var c := Reconstructed(rows, q, d, w).1;
            (if c == Some(Replay) then 1 else 0) ==
            (if Conflicts(rows, q, d, w) then 1 else 0)
            + (if c.Some? && Barred(rows, q, d) then 1 else 0)
            + (if c.Some? && !Confirmed(q, d) then 1 else 0)
  {
  }

  /** The store as PR i finds it. */
  function FoundBy(p: Progress, job: Job, prs: seq<Item>, i: nat): Rows
    requires i < |prs|
  {
    Arrived(Scanned(p, job, prs, i).rows, job.weather(i).arrivals)
  }

  /** PR i was examined without an error. */
  predicate Passed(p: Progress, job: Job, prs: seq<Item>, i: nat) {
    i < |prs| && !Scanned(p, job, prs, i + 1).failed
  }

  predicate ConflictAt(p: Progress, job: Job, prs: seq<Item>, i: nat) {
    Passed(p, job, prs, i) &&
    Conflicts(FoundBy(p, job, prs, i), job.q, job.details(prs[i].number), job.weather(i))
  }

  predicate BarredAt(p: Progress, job: Job, prs: seq<Item>, i: nat) {
    Passed(p, job, prs, i) && Barred(FoundBy(p, job, prs, i), job.q, job.details(prs[i].number))
  }

  predicate UnconfirmedAt(p: Progress, job: Job, prs: seq<Item>, i: nat) {
    Passed(p, job, prs, i) && !Confirmed(job.q, job.details(prs[i].number))
  }

  lemma SkippedStep(p: Progress, job: Job, prs: seq<Item>, i: nat)
    requires p.rows.Valid() && i < |prs|
    ensures Scanned(p, job, prs, i + 1).stats.skipped == Scanned(p, job, prs, i).stats.skipped
            + (if ConflictAt(p, job, prs, i) then 1 else 0) + (if BarredAt(p, job, prs, i) then 1 else 0)
            + (if UnconfirmedAt(p, job, prs, i) then 1 else 0)
  {
    var before, d, w := Scanned(p, job, prs, i), job.details(prs[i].number), job.weather(i);
    ScanValid(p, job, prs, i);
    ArrivedKeeps(before.rows, w.arrivals);
    ExaminedSkips(before, job.q, d, w);
  }

  lemma ExaminedSkips(p: Progress, q: Query, d: Detail, w: Weather)
    requires Arrived(p.rows, w.arrivals).Valid()
    ensures var after, rows := Examined(p, q, d, w), Arrived(p.rows, w.arrivals);
            after.stats.skipped == p.stats.skipped
            + (if !after.failed && Conflicts(rows, q, d, w) then 1 else 0)
            + (if !after.failed && Barred(rows, q, d) then 1 else 0)
            + (if !after.failed && !Confirmed(q, d) then 1 else 0)
  {
    ReplayReasons(Arrived(p.rows, w.arrivals), q, d, w);
  }

  /** PR i adds to `skipped` what the three say. */
  predicate AddsAt(p: Progress, job: Job, prs: seq<Item>, conflict: nat -> bool, barred: nat -> bool,
                   unconfirmed: nat -> bool, i: nat)
    requires i < |prs|
  {
    Scanned(p, job, prs, i + 1).stats.skipped == Scanned(p, job, prs, i).stats.skipped
    + (if conflict(i) then 1 else 0) + (if barred(i) then 1 else 0) + (if unconfirmed(i) then 1 else 0)
  }

  lemma {:induction false} SkippedAddsUp(p: Progress, job: Job, prs: seq<Item>, conflict: nat -> bool,
                                         barred: nat -> bool,
                                         unconfirmed: nat -> bool, n: nat)
    requires n <= |prs| && p.stats.skipped == 0
    requires forall i: nat :: i < |prs| ==> AddsAt(p, job, prs, conflict, barred, unconfirmed, i)
    ensures Scanned(p, job, prs, n).stats.skipped ==
            CountTrue(conflict, n) + CountTrue(barred, n) + CountTrue(unconfirmed, n)
  {
    if n > 0 {
      SkippedAddsUp(p, job, prs, conflict, barred, unconfirmed, n - 1);
      assert AddsAt(p, job, prs, conflict, barred, unconfirmed, n - 1);
    }
  }

  /** Over any scan, `skipped` is the conflicts, the barred inserts and the unconfirmed PRs together. */
  lemma SkippedCounts(p: Progress, job: Job, prs: seq<Item>, n: nat)
    requires p.rows.Valid() && n <= |prs| && p.stats.skipped == 0
    ensures Scanned(p, job, prs, n).stats.skipped ==
            CountTrue((i: nat) => ConflictAt(p, job, prs, i), n)
            + CountTrue((i: nat) => BarredAt(p, job, prs, i), n)
            + CountTrue((i: nat) => UnconfirmedAt(p, job, prs, i), n)
  {
    var conflict, barred := (i: nat) => ConflictAt(p, job, prs, i), (i: nat) => BarredAt(p, job, prs, i);
    var unconfirmed := (i: nat) => UnconfirmedAt(p, job, prs, i);
    forall i: nat | i < |prs|
      ensures AddsAt(p, job, prs, conflict, barred, unconfirmed, i)
    {
      SkippedStep(p, job, prs, i);
    }
    SkippedAddsUp(p, job, prs, conflict, barred, unconfirmed, n);
  }

  /** Exactly when `skipped` counts what it documents, the inserts that met a row already
      present, for any scan: when no PR examined had a detail that did not confirm the list,
      and none that was to be inserted had its merge excluded.  It is never less. */
  lemma SkippedIsConflictsIff(p: Progress, job: Job, prs: seq<Item>, n: nat)
    requires p.rows.Valid() && n <= |prs| && p.stats.skipped == 0
    ensures var skipped := Scanned(p, job, prs, n).stats.skipped;
            var conflicts := CountTrue((i: nat) => ConflictAt(p, job, prs, i), n);
            && conflicts <= skipped
            && (skipped == conflicts <==>
                forall i: nat :: i < n ==> !UnconfirmedAt(p, job, prs, i) && !BarredAt(p, job, prs, i))
  {
    var barred, unconfirmed := (i: nat) => BarredAt(p, job, prs, i), (i: nat) => UnconfirmedAt(p, job, prs, i);
    SkippedCounts(p, job, prs, n);
    CountTrueZero(barred, n);
    CountTrueZero(unconfirmed, n);
    assert forall i: nat :: barred(i) == BarredAt(p, job, prs, i) && unconfirmed(i) == UnconfirmedAt(p, job, prs, i);
  }

  // ---------- what the other counts are of ----------

  /** How one PR that does not fail is counted: as excluded exactly when its detail confirms the
      list and carries revert evidence; as unattributed exactly when it confirms the list, is no
      revert and has no issue or a reserved author; as inserted exactly when none of these, and
      its merge was not known. */
  lemma ExaminedTally(p: Progress, q: Query, d: Detail, w: Weather)
    requires !p.failed && !Examined(p, q, d, w).failed
    ensures var before, after, rows := p.stats, Examined(p, q, d, w).stats, Arrived(p.rows, w.arrivals);
            var unattributable := d.issue == "" || d.reservedLogin;
            && after.merged == before.merged + 1
            && after.excluded == before.excluded + (if Confirmed(q, d) && d.evidence then 1 else 0)
            && after.unattributed ==
               before.unattributed + (if Confirmed(q, d) && !d.evidence && unattributable then 1 else 0)
            && after.inserted == before.inserted +
               (if Confirmed(q, d) && !d.evidence && !unattributable && !rows.Knows(d.sha) then 1 else 0)
  {
  }

  /** What the store holds of it then: the tombstone of a revert's merge, or the one row of the
      merge, for the fetched author in the requested owner's own spelling. */
  lemma ExaminedStores(p: Progress, q: Query, d: Detail, w: Weather)
    requires !p.failed && !Examined(p, q, d, w).failed && Confirmed(q, d)
    ensures var rows := Examined(p, q, d, w).rows;
            && (d.evidence ==> d.sha in rows.excluded && !rows.Holds(d.sha))
            && (!d.evidence && Examined(p, q, d, w).stats.inserted > p.stats.inserted ==>
                  exists r :: r in rows.live && r.sha == d.sha && r.pr == d.number && r.issue == d.issue &&
                              EqualFold(d.login, r.developer) && (q.owner != "" ==> r.developer == q.owner))
  {
    var before := Arrived(p.rows, w.arrivals);
    if !d.evidence && Examined(p, q, d, w).stats.inserted > p.stats.inserted {
      var o := ToOutcome(q, d);
      assert Inserted(before, o).live[|before.live|] == o;
    }
  }

  /** Exactly when reconstruction fails: the fetch does; or, for a confirmed PR, its merge time
      does not parse, its declaration is not recorded, or the store write it needs fails; a
      revert needs a PR number besides. */
  lemma FailsIff(rows: Rows, q: Query, d: Detail, w: Weather)
    ensures var attributable := d.issue != "" && !d.reservedLogin;
            Reconstructed(rows, q, d, w).1.None? <==>
            || !w.fetched
            || (Confirmed(q, d) &&
                (|| d.merged.Unparsable? || w.declared == NotRecorded || (d.evidence && d.number <= 0)
                 || ((d.evidence || attributable) && !w.stored)))
  {
  }

  /** Whatever it is classified as, a PR writes nothing but its own: a revert's exclusion takes
      its merge out and no other, an insert adds one row at the end, and the rest write nothing. */
  lemma WritesItsOwn(rows: Rows, q: Query, d: Detail, w: Weather)
    ensures var (after, c) := Reconstructed(rows, q, d, w);
            match c
            case Some(Revert) =>
              && after.excluded == rows.excluded + {d.sha}
              && forall o :: o in after.live <==> o in rows.live && o.sha != d.sha
            case Some(Fresh) =>
              after.excluded == rows.excluded && exists o :: after.live == rows.live + [o] && o.sha == d.sha
            case _ => after == rows
  {
    if Reconstructed(rows, q, d, w).1 == Some(Fresh) {
      assert Inserted(rows, ToOutcome(q, d)).live == rows.live + [ToOutcome(q, d)];
    }
  }

  predicate RevertAt(p: Progress, job: Job, prs: seq<Item>, i: nat) {
    Passed(p, job, prs, i) && Confirmed(job.q, job.details(prs[i].number)) && job.details(prs[i].number).evidence
  }

  predicate UnattributedAt(p: Progress, job: Job, prs: seq<Item>, i: nat) {
    Passed(p, job, prs, i) &&
    var d := job.details(prs[i].number); Confirmed(job.q, d) && !d.evidence && (d.issue == "" || d.reservedLogin)
  }

  predicate InsertedAt(p: Progress, job: Job, prs: seq<Item>, i: nat) {
    Passed(p, job, prs, i) &&
    var d := job.details(prs[i].number);
    Confirmed(job.q, d) && !d.evidence && d.issue != "" && !d.reservedLogin &&
    !FoundBy(p, job, prs, i).Knows(d.sha)
  }

  lemma TallyStep(p: Progress, job: Job, prs: seq<Item>, i: nat)
    requires i < |prs|
    ensures var before, after := Scanned(p, job, prs, i).stats, Scanned(p, job, prs, i + 1).stats;
            && after.excluded == before.excluded + (if RevertAt(p, job, prs, i) then 1 else 0)
            && after.unattributed == before.unattributed + (if UnattributedAt(p, job, prs, i) then 1 else 0)
            && after.inserted == before.inserted + (if InsertedAt(p, job, prs, i) then 1 else 0)
  {
    var before, d, w := Scanned(p, job, prs, i), job.details(prs[i].number), job.weather(i);
    if Passed(p, job, prs, i) {
      ExaminedTally(before, job.q, d, w);
    }
  }

  /** The tally after i PRs, as far as there are that many. */
  function StatsAt(p: Progress, job: Job, prs: seq<Item>, i: nat): Stats {
    if i <= |prs| then Scanned(p, job, prs, i).stats else NO_STATS
  }

  /** Over any scan, `excluded` is the confirmed PRs with revert evidence, `unattributed` the
      confirmed ones without that have no issue or a reserved author, and `inserted` the rest of
      the confirmed ones, as far as their merges were not known. */
  lemma TallyCounts(rows: Rows, job: Job, prs: seq<Item>, n: nat)
    requires n <= |prs|
    ensures var p := Progress(rows, NO_STATS, false);
            var st := Scanned(p, job, prs, n).stats;
            && st.excluded == CountTrue((i: nat) => RevertAt(p, job, prs, i), n)
            && st.unattributed == CountTrue((i: nat) => UnattributedAt(p, job, prs, i), n)
            && st.inserted == CountTrue((i: nat) => InsertedAt(p, job, prs, i), n)
  {
    var p := Progress(rows, NO_STATS, false);
    forall i: nat | i < n
      ensures StatsAt(p, job, prs, i + 1).excluded ==
              StatsAt(p, job, prs, i).excluded + (if RevertAt(p, job, prs, i) then 1 else 0)
      ensures StatsAt(p, job, prs, i + 1).unattributed ==
              StatsAt(p, job, prs, i).unattributed + (if UnattributedAt(p, job, prs, i) then 1 else 0)
      ensures StatsAt(p, job, prs, i + 1).inserted ==
              StatsAt(p, job, prs, i).inserted + (if InsertedAt(p, job, prs, i) then 1 else 0)
    {
      TallyStep(p, job, prs, i);
    }
    TallyIsCount((i: nat) => StatsAt(p, job, prs, i).excluded, (i: nat) => RevertAt(p, job, prs, i), n);
    TallyIsCount((i: nat) => StatsAt(p, job, prs, i).unattributed, (i: nat) => UnattributedAt(p, job, prs, i), n);
    TallyIsCount((i: nat) => StatsAt(p, job, prs, i).inserted, (i: nat) => InsertedAt(p, job, prs, i), n);
  }
}
