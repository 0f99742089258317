/** `tierd outcomes exclude-reverts`: choosing the evidence, building the plan an operator
    approves, and validating the plan that comes back. */
module RevertPlan {
  import opened Checklist
  import opened Wrappers
  import opened RepoId

  datatype Identity = Identity(repo: string, pr: int, outcome: int, mergeSha: string)

  /** A retained pull_request delivery; repo is canonical already. */
  datatype Evidence = Evidence(repo: string, pr: int, mergeSha: string, headRef: string, title: string,
      closedMerged: bool)

  datatype Source = Payload | Api | OtherSource

  datatype Verdict = Exclude | Keep | Unknown | OtherVerdict

  datatype Reason = Recognised | NotRecognised | NoIdentity | PrMissing | PrDiffers | Incomplete | OtherReason

  datatype Row = Row(id: Identity, source: Source, headRef: string, title: string, verdict: Verdict, reason: Reason)

  datatype Counts = Counts(total: int, exclude: int, keep: int, unknown: int)

  datatype Plan = Plan(version: int, rows: seq<Row>, counts: Counts)

  // ---------- the revert forms ----------

  const REVERT_BRANCH := "revert-"
  const REVERT_TITLE := "Revert \""

  /** The rest of ^revert-[0-9]+- : at least one digit, then a dash. */
  predicate DigitsThenDash(s: string, some: bool) {
    s != "" && (if '0' <= s[0] <= '9' then DigitsThenDash(s[1..], true) else some && s[0] == '-')
  }

  /** GitHub's PR-specific revert forms: the generated branch name, or the generated title. */
  predicate IsRevert(headRef: string, title: string) {
    || (REVERT_BRANCH <= headRef && DigitsThenDash(headRef[|REVERT_BRANCH|..], false))
    || REVERT_TITLE <= title
  }

  /** A branch named revert-N-..., N one digit or more. */
  ghost predicate GeneratedBranch(headRef: string) {
    && "revert-" <= headRef
    && exists n :: 7 < n < |headRef| && headRef[n] == '-' && forall j :: 7 <= j < n ==> '0' <= headRef[j] <= '9'
  }

  lemma {:induction false} DigitsThenDashMeans(s: string, some: bool)
    ensures DigitsThenDash(s, some) <==>
            exists n :: 0 <= n < |s| && (some || n > 0) && s[n] == '-' && forall j :: 0 <= j < n ==> '0' <= s[j] <= '9'
  {
    if s != "" && '0' <= s[0] <= '9' {
      var rest := s[1..];
      DigitsThenDashMeans(rest, true);
      if n :| 0 <= n < |rest| && rest[n] == '-' && forall j :: 0 <= j < n ==> '0' <= rest[j] <= '9' {
        assert s[n + 1] == '-' && forall j :: 1 <= j < n + 1 ==> s[j] == rest[j - 1];
      }
      if n :| 0 <= n < |s| && s[n] == '-' && forall j :: 0 <= j < n ==> '0' <= s[j] <= '9' {
        assert rest[n - 1] == '-' && forall j :: 0 <= j < n - 1 ==> rest[j] == s[j + 1];
      }
    }
  }

  /** The two forms, read off the strings. */
  lemma IsRevertMeans(headRef: string, title: string)
    ensures IsRevert(headRef, title) <==> GeneratedBranch(headRef) || "Revert \"" <= title
  {
    if "revert-" <= headRef {
      var rest := headRef[7..];
      DigitsThenDashMeans(rest, false);
      if n :| 0 < n < |rest| && rest[n] == '-' && forall j :: 0 <= j < n ==> '0' <= rest[j] <= '9' {
        assert headRef[n + 7] == '-' && forall j :: 7 <= j < n + 7 ==> headRef[j] == rest[j - 7];
      }
      if n :| 7 < n < |headRef| && headRef[n] == '-' && forall j :: 7 <= j < n ==> '0' <= headRef[j] <= '9' {
        assert rest[n - 7] == '-' && forall j :: 0 <= j < n - 7 ==> rest[j] == headRef[j + 7];
      }
    }
  }

  // ---------- which delivery speaks for a PR ----------

  datatype Key = Key(repo: string, pr: int, sha: string)

  function KeyOf(e: Evidence): Key {
    Key(e.repo, e.pr, e.mergeSha)
  }

  /** Enough to classify: a recognised form, or both fields present. */
  predicate Usable(e: Evidence) {
    IsRevert(e.headRef, e.title) || (e.headRef != "" && e.title != "")
  }

  /** The first delivery that satisfies p; the list is newest first. */
  function First(retained: seq<Evidence>, p: Evidence -> bool): (r: Option<Evidence>)
    ensures r.Some? ==> p(r.value) && r.value in retained
    ensures r.None? ==> forall e :: e in retained ==> !p(e)
  {
    if retained == [] then None else if p(retained[0]) then Some(retained[0]) else First(retained[1..], p)
  }

  lemma {:induction false} FirstOfConcat(a: seq<Evidence>, b: seq<Evidence>, p: Evidence -> bool)
    ensures First(a + b, p) == if First(a, p).Some? then First(a, p) else First(b, p)
  {
    if a == [] {
      assert a + b == b;
    } else {
      assert (a + b)[1..] == a[1..] + b;
      FirstOfConcat(a[1..], b, p);
    }
  }

  /** The priority rule: for a known merge, the newest usable closed-and-merged delivery if
      there is one; otherwise the newest usable delivery. */
  function Preferred(retained: seq<Evidence>, k: Key): Option<Evidence> {
    var merged := First(retained, (e: Evidence) => Usable(e) && KeyOf(e) == k && e.closedMerged);
    if k.sha != "" && merged.Some? then merged
    else First(retained, (e: Evidence) => Usable(e) && KeyOf(e) == k)
  }

  /** One more, older, delivery. */
  lemma PreferredExtends(newer: seq<Evidence>, e: Evidence, k: Key)
    ensures Preferred(newer + [e], k) ==
            if Usable(e) && KeyOf(e) == k &&
               (Preferred(newer, k).None? || (e.mergeSha != "" && e.closedMerged &&
                   !Preferred(newer, k).value.closedMerged))
            then Some(e) else Preferred(newer, k)
  {
    FirstOfConcat(newer, [e], (e: Evidence) => Usable(e) && KeyOf(e) == k && e.closedMerged);
    FirstOfConcat(newer, [e], (e: Evidence) => Usable(e) && KeyOf(e) == k);
  }

  method PreferredRevertPayloads(retained: seq<Evidence>) returns (payloads: map<Key, Evidence>)
    ensures forall k :: Preferred(retained, k) == if k in payloads then Some(payloads[k]) else None
  {
    payloads := map[];
    for i := 0 to |retained|
      invariant forall k :: Preferred(retained[..i], k) == if k in payloads then Some(payloads[k]) else None
    {
      var e := retained[i];
      ghost var before := payloads;
      assert retained[..i + 1] == retained[..i] + [e];
      forall k {
        PreferredExtends(retained[..i], e, k);
      }
      if !IsRevert(e.headRef, e.title) && (e.headRef == "" || e.title == "") {
        continue;
      }
      var k := KeyOf(e);
      if k !in payloads || (e.mergeSha != "" && e.closedMerged && !payloads[k].closedMerged) {
        payloads := payloads[k := e];
      }
    }
    assert retained[..|retained|] == retained;
  }

  /** Later edits never displace the delivery of the merge itself: prepending newer
      deliveries of which none is closed and merged leaves a closed-and-merged choice alone. */
  lemma LaterEditsIgnored(edits: seq<Evidence>, retained: seq<Evidence>, k: Key)
    requires k.sha != "" && forall e :: e in edits ==> !e.closedMerged
    requires Preferred(retained, k).Some? && Preferred(retained, k).value.closedMerged
    ensures Preferred(edits + retained, k) == Preferred(retained, k)
  {
    FirstOfConcat(edits, retained, (e: Evidence) => Usable(e) && KeyOf(e) == k && e.closedMerged);
  }

  /** The delivery that speaks for a stored outcome: its exact merge first, else one that
      named no merge. */
  function Lookup(retained: seq<Evidence>, repo: string, pr: int, sha: string): (r: Option<Evidence>)
    ensures r.Some? ==> Usable(r.value)
  {
    var exact := Preferred(retained, Key(repo, pr, sha));
    if exact.Some? then exact else Preferred(retained, Key(repo, pr, ""))
  }

  lemma LookupIn(payloads: map<Key, Evidence>, retained: seq<Evidence>, repo: string, pr: int, sha: string)
    requires forall k :: Preferred(retained, k) == if k in payloads then Some(payloads[k]) else None
    ensures var k := if Key(repo, pr, sha) in payloads then Key(repo, pr, sha) else Key(repo, pr, "");
            Lookup(retained, repo, pr, sha) == if k in payloads then Some(payloads[k]) else None
  {
    assert Preferred(retained, Key(repo, pr, sha)).Some? <==> Key(repo, pr, sha) in payloads;
  }

  /** The delivery at i is the newest one that satisfies p. */
  predicate NewestAt(retained: seq<Evidence>, p: Evidence -> bool, i: nat) {
    i < |retained| && p(retained[i]) && forall j :: 0 <= j < i ==> !p(retained[j])
  }

  lemma {:induction false} FirstIsNewest(retained: seq<Evidence>, p: Evidence -> bool) returns (i: nat)
    requires First(retained, p).Some?
    ensures NewestAt(retained, p, i) && First(retained, p) == Some(retained[i])
  {
    if p(retained[0]) {
      i := 0;
    } else {
      var n := FirstIsNewest(retained[1..], p);
      i := n + 1;
      assert forall j :: 0 < j < i ==> retained[j] == retained[1..][j - 1];
    }
  }

  /** The delivery is of this PR and merge, and says enough to classify it. */
  predicate Tells(e: Evidence, k: Key) {
    && e.repo == k.repo && e.pr == k.pr && e.mergeSha == k.sha
    && (IsRevert(e.headRef, e.title) || (e.headRef != "" && e.title != ""))
  }

  /** The rule, delivery by delivery: none speaks only if none tells; and the one that does is
      the newest that tells, or, once a known merge has closed-and-merged ones, the newest of those. */
  lemma PreferredMeans(retained: seq<Evidence>, k: Key)
    ensures Preferred(retained, k).None? <==> forall e :: e in retained ==> !Tells(e, k)
    ensures var merged := k.sha != "" && exists e :: e in retained && Tells(e, k) && e.closedMerged;
            Preferred(retained, k).Some? ==>
              exists i: nat ::
                NewestAt(retained, (e: Evidence) => Tells(e, k) && (merged ==> e.closedMerged), i) &&
                Preferred(retained, k) == Some(retained[i])
  {
    var merged := k.sha != "" && exists e :: e in retained && Tells(e, k) && e.closedMerged;
    var closed, any := (e: Evidence) => Usable(e) && KeyOf(e) == k && e.closedMerged,
        (e: Evidence) => Usable(e) && KeyOf(e) == k;
    if Preferred(retained, k).Some? {
      var i: nat;
      if merged {
        i := FirstIsNewest(retained, closed);
      } else {
        i := FirstIsNewest(retained, any);
      }
      assert NewestAt(retained, (e: Evidence) => Tells(e, k) && (merged ==> e.closedMerged), i);
    }
  }

  /** What the lookup finds: a delivery of the stored merge, or, when none of those tells, one of
      the PR that named no merge; nothing only if neither kind tells. */
  lemma LookupMeans(retained: seq<Evidence>, repo: string, pr: int, sha: string)
    ensures var r, exact, bare := Lookup(retained, repo, pr, sha), Key(repo, pr, sha), Key(repo, pr, "");
            && (r.Some? ==> r.value in retained && (Tells(r.value, exact) || Tells(r.value, bare)))
            && (r.Some? && !Tells(r.value, exact) ==> forall e :: e in retained ==> !Tells(e, exact))
            && (r.None? ==> forall e :: e in retained ==> !Tells(e, exact) && !Tells(e, bare))
  {
    PreferredMeans(retained, Key(repo, pr, sha));
    PreferredMeans(retained, Key(repo, pr, ""));
  }

  // ---------- building ----------

  datatype Reply = NotFound | Failed | Found(number: int, sha: string, headRef: string, title: string)

  function Classified(id: Identity, source: Source, headRef: string, title: string, reason: Reason): Row {
    if IsRevert(headRef, title) then Row(id, source, headRef, title, Exclude, Recognised)
    else if headRef != "" && title != "" then Row(id, source, headRef, title, Keep, NotRecognised)
    else Row(id, source, headRef, title, Unknown, if reason == NoIdentity then Incomplete else reason)
  }

  /** The plan row of one candidate; None when the evidence fetch fails and the build aborts. */
  function BuiltRow(retained: seq<Evidence>, id: Identity, reply: Reply): Option<Row> {
    BuiltRowIn(retained, Canonical(id.repo), id, reply)
  }

  /** The same, given the candidate's canonical repository. */
  function BuiltRowIn(retained: seq<Evidence>, repo: Option<string>, id: Identity, reply: Reply): Option<Row> {
    if repo.None? || id.mergeSha == "" then Some(Row(id, Api, "", "", Unknown, NoIdentity))
    else
      var e := Lookup(retained, repo.value, id.pr, id.mergeSha);
      if e.Some? then Some(Classified(id, Payload, e.value.headRef, e.value.title, NoIdentity))
      else
        match reply
        case Failed => None
        case NotFound => Some(Classified(id, Api, "", "", PrMissing))
        case Found(number, sha, headRef, title) =>
          if (number != 0 && number != id.pr) || sha != id.mergeSha then Some(Classified(id, Api, "", "", PrDiffers))
          else Some(Classified(id, Api, headRef, title, NoIdentity))
  }

  /** Where a candidate's evidence comes from: the delivery that speaks for it, else the fetched
      PR, when it is the stored one; and from nowhere without a repository or a merge. */
  function Evidenced(retained: seq<Evidence>, repo: Option<string>, id: Identity, reply: Reply):
      Option<(string, string)> {
    if repo.None? || id.mergeSha == "" then None
    else
      var e := Lookup(retained, repo.value, id.pr, id.mergeSha);
      if e.Some? then Some((e.value.headRef, e.value.title))
      else if reply.Found? && reply.number in {0, id.pr} && reply.sha == id.mergeSha then
        Some((reply.headRef, reply.title))
      else None
  }

  /** What a built row says.  It excludes exactly on revert evidence and keeps exactly on complete
      evidence of none; its reason names the one thing that was missing, and the source the
      delivery, if one spoke.  There is no row exactly when a fetch was needed and failed. */
  lemma BuiltRowMeans(retained: seq<Evidence>, repo: Option<string>, id: Identity, reply: Reply)
    ensures var r, found := BuiltRowIn(retained, repo, id, reply), Evidenced(retained, repo, id, reply);
            var qualified := repo.Some? && id.mergeSha != "";
            var spoken := qualified && Lookup(retained, repo.value, id.pr, id.mergeSha).Some?;
            && (r.None? <==> qualified && !spoken && reply.Failed?)
            && (r.Some? ==>
                  var Row(_, source, headRef, title, verdict, reason) := r.value;
                  && r.value.id == id && source == (if spoken then Payload else Api)
                  && (headRef, title) == (if found.Some? then found.value else ("", ""))
                  && (verdict == Exclude <==> found.Some? && IsRevert(headRef, title))
                  && (verdict == Keep <==> found.Some? && !IsRevert(headRef, title) && headRef != "" && title != "")
                  && (reason == NoIdentity <==> !qualified)
                  && (reason == PrMissing <==> qualified && !spoken && reply.NotFound?)
                  && (reason == PrDiffers <==> qualified && !spoken && reply.Found? && found.None?)
                  && (reason == Incomplete <==> found.Some? && verdict == Unknown))
  {
    EmptyIsNoRevert();
  }

  function CountOf(rows: seq<Row>, v: Verdict): (n: nat)
    ensures n <= |rows|
  {
    if rows == [] then 0 else CountOf(rows[..|rows| - 1], v) + if rows[|rows| - 1].verdict == v then 1 else 0
  }

  /** The counts a plan of these rows should carry. */
  function Counted(rows: seq<Row>): Counts {
    Counts(|rows|, CountOf(rows, Exclude), CountOf(rows, Keep), CountOf(rows, Unknown))
  }

  function RowAt(ids: seq<Identity>, retained: seq<Evidence>, reply: nat -> Reply): nat -> Option<Row> {
    (i: nat) => if i < |ids| then BuiltRow(retained, ids[i], reply(i)) else None
  }

  /** The rows of the first n candidates; None once a fetch has failed. */
  function BuiltRows(ids: seq<Identity>, retained: seq<Evidence>, reply: nat -> Reply, n: nat): Option<seq<Row>> {
    Collected(RowAt(ids, retained, reply), n)
  }

  lemma BuiltRowsAt(ids: seq<Identity>, retained: seq<Evidence>, reply: nat -> Reply, rows: seq<Row>, i: nat)
    requires i < |ids| && BuiltRows(ids, retained, reply, |ids|) == Some(rows)
    ensures |rows| == |ids| && BuiltRow(retained, ids[i], reply(i)) == Some(rows[i])
  {
    CollectedAt(RowAt(ids, retained, reply), |ids|, i);
  }

  ghost predicate IsBuilt(ids: seq<Identity>, retained: seq<Evidence>, reply: nat -> Reply, p: Plan) {
    p.version == 1 && BuiltRows(ids, retained, reply, |ids|) == Some(p.rows) && p.counts == Counted(p.rows)
  }

  /** The build has come to candidate i with these rows and counts. */
  predicate Building(ids: seq<Identity>, retained: seq<Evidence>, reply: nat -> Reply, i: nat, rows: seq<Row>,
                     counts: Counts) {
    BuiltRows(ids, retained, reply, i) == Some(rows) && counts == Counted(rows)
  }

  lemma BuildNext(ids: seq<Identity>, retained: seq<Evidence>, reply: nat -> Reply, i: nat, rows: seq<Row>,
                  counts: Counts)
    requires i < |ids| && Building(ids, retained, reply, i, rows, counts)
    ensures var row := BuiltRow(retained, ids[i], reply(i));
            if row.None? then BuiltRows(ids, retained, reply, |ids|).None?
            else Building(ids, retained, reply, i + 1, rows + [row.value], Bumped(counts, row.value.verdict))
  {
    var item := RowAt(ids, retained, reply);
    assert item(i) == BuiltRow(retained, ids[i], reply(i));
    if item(i).None? {
      CollectedStaysNone(item, i + 1, |ids|);
    } else {
      CountedExtends(rows, item(i).value);
    }
  }

  /** buildRevertPlan; reply answers the API fetch for the i-th candidate, when one is made. */
  method BuildRevertPlan(ids: seq<Identity>, retained: seq<Evidence>, reply: nat -> Reply) returns (r: Option<Plan>)
    ensures r.None? <==> BuiltRows(ids, retained, reply, |ids|).None?
    ensures r.Some? ==> IsBuilt(ids, retained, reply, r.value)
  {
    var payloads := PreferredRevertPayloads(retained);
    var rows: seq<Row> := [];
    var counts := Counts(0, 0, 0, 0);
    for i := 0 to |ids|
      invariant Building(ids, retained, reply, i, rows, counts)
    {
      BuildNext(ids, retained, reply, i, rows, counts);
      var row := BuildRow(payloads, retained, ids[i], reply(i));
      if row.None? {
        return None;
      }
      rows, counts := rows + [row.value], Bumped(counts, row.value.verdict);
    }
    r := Some(Plan(1, rows, counts));
  }

  function Bumped(c: Counts, v: Verdict): Counts {
    var total := c.total + 1;
    match v
    case Exclude => c.(total := total, exclude := c.exclude + 1)
    case Keep => c.(total := total, keep := c.keep + 1)
    case Unknown => c.(total := total, unknown := c.unknown + 1)
    case OtherVerdict => c.(total := total)
  }

  lemma CountedExtends(rows: seq<Row>, r: Row)
    ensures forall v :: CountOf(rows + [r], v) == CountOf(rows, v) + if r.verdict == v then 1 else 0
    ensures Counted(rows + [r]) == Bumped(Counted(rows), r.verdict)
  {
    assert (rows + [r])[..|rows|] == rows;
  }

  /** The body of the build loop. */
  method BuildRow(payloads: map<Key, Evidence>, ghost retained: seq<Evidence>, id: Identity, reply: Reply)
    returns (r: Option<Row>)
    requires forall k :: Preferred(retained, k) == if k in payloads then Some(payloads[k]) else None
    ensures r == BuiltRow(retained, id, reply)
    ensures r.Some? ==> !r.value.verdict.OtherVerdict?
  {
    var row := Row(id, Api, "", "", Unknown, NoIdentity);
    var repo := Canonicalize(id.repo);
    if repo.Some? && id.mergeSha != "" {
      var k := Key(repo.value, id.pr, id.mergeSha);
      if k !in payloads {
        k := Key(repo.value, id.pr, "");
      }
      if k in payloads {
        row := row.(source := Payload, headRef := payloads[k].headRef, title := payloads[k].title);
      } else {
        match reply {
          case Failed =>
            return None;
          case NotFound =>
            row := row.(reason := PrMissing);
          case Found(number, sha, headRef, title) =>
            if (number != 0 && number != id.pr) || sha != id.mergeSha {
              row := row.(reason := PrDiffers);
            } else {
              row := row.(headRef := headRef, title := title);
            }
        }
      }
      if IsRevert(row.headRef, row.title) {
        row := row.(verdict := Exclude, reason := Recognised);
      } else if row.headRef != "" && row.title != "" {
        row := row.(verdict := Keep, reason := NotRecognised);
      } else if row.reason == NoIdentity {
        row := row.(reason := Incomplete);
      }
    }
    return Some(row);
  }

  // ---------- validating ----------

  /** What one row of a plan must satisfy on its own. */
  predicate RowSound(r: Row) {
    RowSoundIn(Canonical(r.id.repo).Some?, r)
  }

  predicate RowSoundIn(qualified: bool, r: Row) {
    match r.verdict
    case Exclude =>
      && qualified && r.id.mergeSha != "" && (r.source == Payload || r.source == Api)
      && IsRevert(r.headRef, r.title) && r.reason == Recognised
    case Keep =>
      !IsRevert(r.headRef, r.title) && r.headRef != "" && r.title != "" && r.reason == NotRecognised
    case Unknown =>
      !IsRevert(r.headRef, r.title) && (r.headRef == "" || r.title == "") &&
          r.reason in {NoIdentity, PrMissing, PrDiffers, Incomplete}
    case OtherVerdict => false
  }

  predicate PositiveIds(r: Row) {
    r.id.outcome > 0 && r.id.pr > 0
  }

  function OutcomeOf(r: Row): int {
    r.id.outcome
  }

  predicate IdentitiesSound(rows: seq<Row>) {
    Identified(rows, PositiveIds, OutcomeOf)
  }

  /** A plan that may be applied. */
  predicate ValidPlan(p: Plan) {
    && p.version == 1
    && IdentitiesSound(p.rows)
    && FirstAre(p.rows, |p.rows|, RowSound)
    && p.counts == Counted(p.rows)
  }

  predicate NewIdentity(r: Row, seen: set<int>) {
    PositiveIds(r) && r.id.outcome !in seen
  }

  lemma PrefixExtends(rows: seq<Row>, i: nat)
    requires i < |rows|
    ensures Counted(rows[..i + 1]) == Bumped(Counted(rows[..i]), rows[i].verdict)
  {
    assert rows[..i + 1] == rows[..i] + [rows[i]] && rows[..i + 1][..i] == rows[..i];
    CountedExtends(rows[..i], rows[i]);
  }

  /** The checks on one row, in the order they are made. */
  method ValidateRow(r: Row, seen: set<int>) returns (ok: bool)
    ensures ok <==> NewIdentity(r, seen) && RowSound(r)
  {
    if r.id.outcome <= 0 || r.id.pr <= 0 || r.id.outcome in seen {
      return false;
    }
    match r.verdict {
      case Exclude =>
        var repo := Canonicalize(r.id.repo);
        if repo.None? || r.id.mergeSha == "" || (r.source != Payload && r.source != Api) ||
            !IsRevert(r.headRef, r.title) {
          return false;
        }
        return r.reason == Recognised;
      case Keep =>
        if IsRevert(r.headRef, r.title) || r.headRef == "" || r.title == "" || r.reason != NotRecognised {
          return false;
        }
        return true;
      case Unknown =>
        if IsRevert(r.headRef, r.title) || (r.headRef != "" && r.title != "") {
          return false;
        }
        return r.reason in {NoIdentity, PrMissing, PrDiffers, Incomplete};
      case OtherVerdict =>
        return false;
    }
  }

  /** The first n rows of a plan have passed every check, and been counted. */
  ghost predicate Passed(p: Plan, n: nat, seen: set<int>, counts: Counts) {
    n <= |p.rows| && IdsPassed(p.rows, n, seen, PositiveIds, OutcomeOf) && FirstAre(p.rows, n, RowSound) &&
    counts == Counted(p.rows[..n])
  }

  lemma PassNext(p: Plan, n: nat, seen: set<int>, counts: Counts)
    requires n < |p.rows| && Passed(p, n, seen, counts)
    ensures var r := p.rows[n];
            if NewIdentity(r, seen) && RowSound(r)
            then Passed(p, n + 1, seen + {r.id.outcome}, Bumped(counts, r.verdict))
            else !ValidPlan(p)
  {
    IdsPassNext(p.rows, n, seen, PositiveIds, OutcomeOf);
    PrefixExtends(p.rows, n);
    if RowSound(p.rows[n]) {
      FirstAreNext(p.rows, n, RowSound);
    }
  }

  lemma AllPassed(p: Plan, seen: set<int>, counts: Counts)
    requires Passed(p, |p.rows|, seen, counts)
    ensures ValidPlan(p) <==> p.version == 1 && counts == p.counts
  {
    assert p.rows[..|p.rows|] == p.rows;
  }

  method Validate(p: Plan) returns (ok: bool)
    ensures ok <==> ValidPlan(p)
  {
    if p.version != 1 {
      return false;
    }
    var counts := Counts(0, 0, 0, 0);
    var seen: set<int> := {};
    for i := 0 to |p.rows|
      invariant Passed(p, i, seen, counts)
    {
      PassNext(p, i, seen, counts);
      var r := p.rows[i];
      var sound := ValidateRow(r, seen);
      if !sound {
        return false;
      }
      seen := seen + {r.id.outcome};
      counts := Bumped(counts, r.verdict);
    }
    AllPassed(p, seen, counts);
    ok := counts == p.counts;
  }

  function IsAt(rows: seq<Row>, v: Verdict): nat -> bool {
    (i: nat) => i < |rows| && rows[i].verdict == v
  }

  function CountBelow(rows: seq<Row>, v: Verdict): nat -> int {
    (i: nat) => if i <= |rows| then CountOf(rows[..i], v) else 0
  }

  /** How many rows of the plan have this verdict. */
  function With(rows: seq<Row>, v: Verdict): nat {
    CountTrue(IsAt(rows, v), |rows|)
  }

  lemma CountIsOfRows(rows: seq<Row>, v: Verdict)
    ensures CountOf(rows, v) == With(rows, v)
  {
    forall i: nat | i < |rows|
      ensures CountBelow(rows, v)(i + 1) == CountBelow(rows, v)(i) + if IsAt(rows, v)(i) then 1 else 0
    {
      assert rows[..i + 1][..i] == rows[..i];
    }
    TallyIsCount(CountBelow(rows, v), IsAt(rows, v), |rows|);
    assert rows[..|rows|] == rows;
  }

  /** The row carries the evidence its verdict needs, and no other. */
  ghost predicate Evident(r: Row) {
    var reverts := GeneratedBranch(r.headRef) || "Revert \"" <= r.title;
    var complete := r.headRef != "" && r.title != "";
    && r.verdict == (if reverts then Exclude else if complete then Keep else Unknown)
    && (if reverts then
          Canonical(r.id.repo).Some? && r.id.mergeSha != "" && r.source in {Payload, Api} && r.reason == Recognised
        else if complete then r.reason == NotRecognised
        else r.reason in {NoIdentity, PrMissing, PrDiffers, Incomplete})
  }

  lemma EvidentIsSound(r: Row)
    ensures RowSound(r) <==> Evident(r)
  {
    IsRevertMeans(r.headRef, r.title);
  }

  lemma IdentitiesMean(rows: seq<Row>)
    ensures IdentitiesSound(rows) <==>
              && (forall i :: 0 <= i < |rows| ==> rows[i].id.outcome > 0 && rows[i].id.pr > 0)
              && (forall i, j :: 0 <= i < j < |rows| ==> rows[i].id.outcome != rows[j].id.outcome)
  {
    if IdentitiesSound(rows) {
      forall i | 0 <= i < |rows|
        ensures rows[i].id.outcome > 0 && rows[i].id.pr > 0
      {
        assert PositiveIds(rows[i]);
      }
      forall i, j | 0 <= i < j < |rows|
        ensures rows[i].id.outcome != rows[j].id.outcome
      {
        assert OutcomeOf(rows[i]) != OutcomeOf(rows[j]);
      }
    }
  }

  /** What a valid plan says: version 1, each outcome once and identified, each verdict with its
      own evidence, and true counts of the rows with each. */
  lemma ValidPlanMeans(p: Plan)
    ensures ValidPlan(p) <==>
              && p.version == 1
              && (forall i :: 0 <= i < |p.rows| ==> p.rows[i].id.outcome > 0 && p.rows[i].id.pr > 0)
              && (forall i, j :: 0 <= i < j < |p.rows| ==> p.rows[i].id.outcome != p.rows[j].id.outcome)
              && (forall i :: 0 <= i < |p.rows| ==> Evident(p.rows[i]))
              && p.counts == Counts(|p.rows|, With(p.rows, Exclude), With(p.rows, Keep), With(p.rows, Unknown))
  {
    IdentitiesMean(p.rows);
    CountIsOfRows(p.rows, Exclude);
    CountIsOfRows(p.rows, Keep);
    CountIsOfRows(p.rows, Unknown);
    forall i | 0 <= i < |p.rows|
      ensures RowSound(p.rows[i]) <==> Evident(p.rows[i])
    {
      EvidentIsSound(p.rows[i]);
    }
  }

  lemma EmptyIsNoRevert()
    ensures !IsRevert("", "")
  {
  }

  lemma ClassifiedSound(id: Identity, source: Source, headRef: string, title: string, reason: Reason)
    requires id.mergeSha != "" && (source == Payload || source == Api) && reason in {NoIdentity, PrMissing, PrDiffers}
    ensures RowSoundIn(true, Classified(id, source, headRef, title, reason))
  {
  }

  lemma BuiltRowInSound(retained: seq<Evidence>, repo: Option<string>, id: Identity, reply: Reply)
    ensures var r := BuiltRowIn(retained, repo, id, reply);
            r.Some? ==> RowSoundIn(repo.Some?, r.value) && r.value.id == id
  {
    if repo.None? || id.mergeSha == "" {
      EmptyIsNoRevert();
    } else {
      var e := Lookup(retained, repo.value, id.pr, id.mergeSha);
      if e.Some? {
        ClassifiedSound(id, Payload, e.value.headRef, e.value.title, NoIdentity);
      } else {
        ClassifiedSound(id, Api, "", "", PrMissing);
        ClassifiedSound(id, Api, "", "", PrDiffers);
        if reply.Found? {
          ClassifiedSound(id, Api, reply.headRef, reply.title, NoIdentity);
        }
      }
    }
  }

  /** Every row the builder writes is sound, whatever the payloads and the API say. */
  lemma BuiltRowSound(retained: seq<Evidence>, id: Identity, reply: Reply)
    ensures var r := BuiltRow(retained, id, reply); r.Some? ==> RowSound(r.value) && r.value.id == id
  {
    BuiltRowInSound(retained, Canonical(id.repo), id, reply);
  }

  lemma BuiltRowIsSound(ids: seq<Identity>, retained: seq<Evidence>, reply: nat -> Reply, p: Plan, i: nat)
    requires IsBuilt(ids, retained, reply, p) && i < |ids|
    ensures |p.rows| == |ids| && RowSound(p.rows[i]) && p.rows[i].id == ids[i]
  {
    BuiltRowsAt(ids, retained, reply, p.rows, i);
    BuiltRowSound(retained, ids[i], reply(i));
  }

  lemma SameIdentities(ids: seq<Identity>, rows: seq<Row>)
    requires |rows| == |ids| && forall i :: 0 <= i < |ids| ==> rows[i].id == ids[i]
    ensures IdentitiesSound(rows) <==>
              && (forall i :: 0 <= i < |ids| ==> ids[i].outcome > 0 && ids[i].pr > 0)
              && (forall i, j :: 0 <= i < j < |ids| ==> ids[i].outcome != ids[j].outcome)
  {
    IdentitiesMean(rows);
  }

  /** Build implies validate: a built plan validates exactly when the candidates it was
      built from carry distinct positive ids and positive PR numbers. */
  lemma BuiltPlanValidates(ids: seq<Identity>, retained: seq<Evidence>, reply: nat -> Reply, p: Plan)
    requires IsBuilt(ids, retained, reply, p)
    ensures ValidPlan(p) <==>
              && (forall i :: 0 <= i < |ids| ==> ids[i].outcome > 0 && ids[i].pr > 0)
              && (forall i, j :: 0 <= i < j < |ids| ==> ids[i].outcome != ids[j].outcome)
  {
    forall i | 0 <= i < |ids|
      ensures RowSound(p.rows[i]) && p.rows[i].id == ids[i]
    {
      BuiltRowIsSound(ids, retained, reply, p, i);
    }
    SameIdentities(ids, p.rows);
  }

  // ---------- rechecking ----------

  /** A payload row still says what the retained deliveries say. */
  predicate RowCurrent(retained: seq<Evidence>, r: Row) {
    r.source == Payload ==> SaysSame(retained, Canonical(r.id.repo), r)
  }

  predicate SaysSame(retained: seq<Evidence>, repo: Option<string>, r: Row) {
    var e := Lookup(retained, if repo.Some? then repo.value else "", r.id.pr, r.id.mergeSha);
    e.Some? && e.value.headRef == r.headRef && e.value.title == r.title
  }

  predicate Current(retained: seq<Evidence>, p: Plan) {
    forall r :: r in p.rows ==> RowCurrent(retained, r)
  }

  lemma BuiltRowInCurrent(retained: seq<Evidence>, repo: Option<string>, id: Identity, reply: Reply)
    ensures var r := BuiltRowIn(retained, repo, id, reply);
            r.Some? && r.value.source == Payload ==> SaysSame(retained, repo, r.value)
  {
  }

  /** Build implies recheck: against unchanged deliveries a built plan is current. */
  lemma BuiltPlanCurrent(ids: seq<Identity>, retained: seq<Evidence>, reply: nat -> Reply, p: Plan)
    requires IsBuilt(ids, retained, reply, p)
    ensures Current(retained, p)
  {
    forall i | 0 <= i < |p.rows|
      ensures RowCurrent(retained, p.rows[i])
    {
      BuiltRowsAt(ids, retained, reply, p.rows, i);
      BuiltRowSound(retained, ids[i], reply(i));
      BuiltRowInCurrent(retained, Canonical(ids[i].repo), ids[i], reply(i));
    }
  }
}
