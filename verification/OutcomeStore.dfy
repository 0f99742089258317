/** The outcome rows a history scan and the live webhook write, at most one a merge commit. */
module OutcomeStore {
  import opened Wrappers

  /** sha is the merge commit, "" when the writer knew none. */
  datatype Outcome = Outcome(sha: string, developer: string, issue: string, pr: int, source: string)

  /** live holds the outcomes in insertion order; excluded the merges of recognised reverts,
      whose outcomes were moved out and must never come back. */
  datatype Rows = Rows(live: seq<Outcome>, excluded: set<string>) {
    predicate Holds(sha: string) {
      exists i :: 0 <= i < |live| && live[i].sha == sha
    }

    /** No two outcomes share a merge, and an excluded merge has none.  Outcomes without a
        merge commit lie outside the unique index. */
    predicate Valid() {
      && (forall i, j :: 0 <= i < j < |live| && live[i].sha == live[j].sha ==> live[i].sha == "")
      && (forall i :: 0 <= i < |live| ==> live[i].sha !in excluded)
      && "" !in excluded
    }

    /** The scan has nothing left to insert for this merge. */
    predicate Knows(sha: string) {
      sha != "" && (sha in excluded || Holds(sha))
    }
  }

  /** INSERT ... ON CONFLICT DO NOTHING, guarded by the exclusions. */
  function Inserted(rows: Rows, o: Outcome): Rows {
    if rows.Knows(o.sha) then rows else rows.(live := rows.live + [o])
  }

  /** The outcomes of every other merge, in order. */
  function Without(live: seq<Outcome>, sha: string): (rest: seq<Outcome>)
    ensures forall o :: o in rest <==> o in live && o.sha != sha
  {
    if live == [] then []
    else
      var front, last := live[..|live| - 1], live[|live| - 1];
      assert live == front + [last];
      if last.sha == sha then Without(front, sha) else Without(front, sha) + [last]
  }

  /** Moving a merge out and leaving a tombstone; without a merge commit it is refused. */
  function Excluded(rows: Rows, sha: string): Rows {
    if sha == "" then rows else Rows(Without(rows.live, sha), rows.excluded + {sha})
  }

  lemma {:induction false} WithoutStaysUnique(live: seq<Outcome>, sha: string)
    requires Rows(live, {}).Valid()
    ensures Rows(Without(live, sha), {}).Valid()
  {
    if live != [] {
      var front, last := live[..|live| - 1], live[|live| - 1];
      assert live == front + [last];
      WithoutStaysUnique(front, sha);
      assert forall i :: 0 <= i < |Without(front, sha)| ==> Without(front, sha)[i] in front;
    }
  }

  /** At most one outcome a merge: neither writing method ever breaks it. */
  lemma InsertKeepsValid(rows: Rows, o: Outcome)
    requires rows.Valid()
    ensures Inserted(rows, o).Valid()
  {
  }

  lemma ExcludeKeepsValid(rows: Rows, sha: string)
    requires rows.Valid()
    ensures Excluded(rows, sha).Valid()
  {
    if sha != "" {
      WithoutStaysUnique(rows.live, sha);
      var rest := Without(rows.live, sha);
      assert Rows(rest, {}).Valid();
      forall i | 0 <= i < |rest|
        ensures rest[i].sha !in rows.excluded + {sha}
      {
        assert rest[i] in rest;
      }
    }
  }

  /** What any sequence of inserts and exclusions preserves: an exclusion stands, and an
      outcome stays as it was recorded unless its merge has been excluded. */
  ghost predicate Keeps(before: Rows, after: Rows) {
    before.excluded <= after.excluded && forall o :: o in before.live ==> o in after.live || o.sha in after.excluded
  }

  lemma KeepsKnown(before: Rows, after: Rows, sha: string)
    requires Keeps(before, after) && before.Knows(sha)
    ensures after.Knows(sha)
  {
    if sha !in before.excluded {
      var i :| 0 <= i < |before.live| && before.live[i].sha == sha;
      assert before.live[i] in before.live;
    }
  }

  /** Two rows for one merge, at two times, are one row: the first recorded is the one that stays. */
  lemma RecordedStays(before: Rows, after: Rows, o: Outcome, p: Outcome)
    requires Keeps(before, after) && after.Valid()
    requires o in before.live && p in after.live && o.sha == p.sha != ""
    ensures p == o
  {
    assert p.sha !in after.excluded;
  }

  lemma KeepsTrans(a: Rows, b: Rows, c: Rows)
    requires Keeps(a, b) && Keeps(b, c)
    ensures Keeps(a, c)
  {
  }

  /** One write by any of the store's callers. */
  datatype Write = Insert(o: Outcome) | Exclude(sha: string)

  function Written(rows: Rows, w: Write): Rows {
    match w
    case Insert(o) => Inserted(rows, o)
    case Exclude(sha) => Excluded(rows, sha)
  }

  lemma WrittenKeeps(rows: Rows, w: Write)
    requires rows.Valid()
    ensures Written(rows, w).Valid() && Keeps(rows, Written(rows, w))
  {
    match w
    case Insert(o) => InsertKeepsValid(rows, o);
    case Exclude(sha) => ExcludeKeepsValid(rows, sha);
  }

  class Store {
    var live: seq<Outcome>
    var excluded: set<string>

    function Value(): Rows
      reads this
    {
      Rows(live, excluded)
    }

    constructor ()
      ensures Value() == Rows([], {}) && Value().Valid()
    {
      live, excluded := [], {};
    }

    /** Records a merged PR's outcome unless its merge is already known; the first row wins. */
    method RecordPROutcome(o: Outcome) returns (inserted: bool)
      requires Value().Valid()
      modifies this
      ensures Value() == Inserted(old(Value()), o) && Value().Valid()
      ensures inserted <==>
              o.sha == "" || (o.sha !in old(excluded) && forall r :: r in old(live) ==> r.sha != o.sha)
      ensures inserted ==> o in live
      ensures Keeps(old(Value()), Value())
    {
      WrittenKeeps(Value(), Insert(o));
      if o.sha != "" && (o.sha in excluded || exists i :: 0 <= i < |live| && live[i].sha == o.sha) {
        return false;
      }
      live := live + [o];
      inserted := true;
    }

    /** Moves a recognised revert's outcome out, and keeps a tombstone even when there was none. */
    method ExcludePROutcome(sha: string) returns (ok: bool)
      requires Value().Valid()
      modifies this
      ensures ok <==> sha != ""
      ensures Value() == Excluded(old(Value()), sha) && Value().Valid()
      ensures ok ==> sha in excluded && forall o :: o in live <==> o in old(live) && o.sha != sha
      ensures Keeps(old(Value()), Value())
    {
      WrittenKeeps(Value(), Exclude(sha));
      if sha == "" {
        return false;
      }
      live := Without(live, sha);
      excluded := excluded + {sha};
      ok := true;
    }
  }
}
