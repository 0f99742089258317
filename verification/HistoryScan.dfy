/** tierd backfill's scan of a repository's merged pull requests: pages newest-updated first,
    an early stop, and one reconstructed outcome for each merge in the window. */
module HistoryScan {
  import opened Wrappers
  import opened OutcomeStore

  const PER_PAGE := 100
  const MAX_PAGES := 10000

  /** A timestamp field: null, text that does not parse, or an instant. */
  datatype Stamp = Null | Unparsable | At(instant: int)

  datatype Item = Item(number: int, login: string, updated: Stamp, merged: Stamp)

  function Lower(c: char): char {
    if 'A' <= c <= 'Z' then 'a' + (c - 'A') else c
  }

  /** strings.EqualFold on the ASCII logins GitHub allows. */
  predicate EqualFold(a: string, b: string) {
    |a| == |b| && forall i :: 0 <= i < |a| ==> Lower(a[i]) == Lower(b[i])
  }

  /** Logins that differ in case alone are one login. */
  lemma LoginsFold(a: string, b: string, c: string)
    ensures EqualFold(a, a) && (EqualFold(a, b) ==> EqualFold(b, a))
    ensures EqualFold(a, b) && EqualFold(b, c) ==> EqualFold(a, c)
    ensures EqualFold("Ann-Z", "aNN-z") && !EqualFold("ann", "bob")
  {
    assert EqualFold("Ann-Z", "aNN-z") by {
      assert forall i :: 0 <= i < 5 ==> Lower("Ann-Z"[i]) == Lower("aNN-z"[i]);
    }
    assert !EqualFold("ann", "bob") by {
      assert Lower("ann"[0]) != Lower("bob"[0]);
    }
  }

  /** What one scan is asked for; owner is "" when every author counts. */
  datatype Query = Query(since: int, owner: string) {
    /** In this updated-descending list, nothing from here on can have merged in the window. */
    predicate Stops(it: Item) {
      it.updated.At? && it.updated.instant < since
    }

    predicate Wants(it: Item) {
      it.merged.At? && it.merged.instant >= since && (owner == "" || EqualFold(it.login, owner))
    }
  }

  /** The items the query wants, in list order. */
  function Wanted(items: seq<Item>, q: Query): (ws: seq<Item>)
    ensures |ws| <= |items|
  {
    if items == [] then []
    else
      var front, it := items[..|items| - 1], items[|items| - 1];
      if q.Wants(it) then Wanted(front, q) + [it] else Wanted(front, q)
  }

  lemma {:induction false} WantedConcat(a: seq<Item>, b: seq<Item>, q: Query)
    ensures Wanted(a + b, q) == Wanted(a, q) + Wanted(b, q)
  {
    if b == [] {
      assert a + b == a;
    } else {
      var front, it := b[..|b| - 1], b[|b| - 1];
      assert (a + b)[..|a + b| - 1] == a + front;
      WantedConcat(a, front, q);
    }
  }

  lemma {:induction false} WantedIsWanted(items: seq<Item>, q: Query, it: Item)
    ensures it in Wanted(items, q) <==> it in items && q.Wants(it)
  {
    if items != [] {
      var front, last := items[..|items| - 1], items[|items| - 1];
      assert items == front + [last];
      WantedIsWanted(front, q, it);
    }
  }

  /** The first item the scan stops at, or the length of the list. */
  function StopAt(items: seq<Item>, q: Query): (n: nat)
    ensures n <= |items|
    ensures forall i :: 0 <= i < n ==> !q.Stops(items[i])
    ensures n < |items| ==> q.Stops(items[n])
  {
    if items == [] then 0
    else if q.Stops(items[0]) then 0
    else
      var n := StopAt(items[1..], q);
      assert forall i :: 0 < i < 1 + n ==> items[i] == items[1..][i - 1];
      1 + n
  }

  /** How far a scan reads that meets no error: to the stop, or to the page ceiling. */
  function Horizon(items: seq<Item>, q: Query): (n: nat)
    ensures n <= |items|
  {
    var stop := StopAt(items, q);
    if stop < MAX_PAGES * PER_PAGE then stop else MAX_PAGES * PER_PAGE
  }

  /** Page p of the server's list, as GitHub serves it. */
  function PageOf(items: seq<Item>, p: nat): (page: seq<Item>)
    requires p >= 1
    ensures var lo := (p - 1) * PER_PAGE;
            && |page| <= PER_PAGE
            && (|page| < PER_PAGE ==> lo + |page| >= |items|)
            && (|page| > 0 ==> lo + |page| <= |items| && page == items[lo..lo + |page|])
  {
    var lo, hi := (p - 1) * PER_PAGE, p * PER_PAGE;
    if lo >= |items| then [] else if hi >= |items| then items[lo..] else items[lo..hi]
  }

  // ---------- completeness ----------

  /** The contract GitHub's list endpoint promises: sorted by update time, newest first, and
      no merge later than its own last update. */
  predicate NewestUpdatedFirst(items: seq<Item>) {
    && (forall i :: 0 <= i < |items| ==> items[i].updated.At?)
    && (forall i, j :: 0 <= i < j < |items| ==> items[j].updated.instant <= items[i].updated.instant)
    && (forall i :: 0 <= i < |items| && items[i].merged.At? ==> items[i].merged.instant <= items[i].updated.instant)
  }

  /** What the early stop leaves unread is exactly what the scan misses. */
  lemma ScanMissesExactly(items: seq<Item>, q: Query)
    ensures var n := Horizon(items, q);
            && Wanted(items, q) == Wanted(items[..n], q) + Wanted(items[n..], q)
            && (Wanted(items[..n], q) == Wanted(items, q) <==> forall i :: n <= i < |items| ==> !q.Wants(items[i]))
  {
    var n := Horizon(items, q);
    assert items == items[..n] + items[n..];
    WantedConcat(items[..n], items[n..], q);
    forall i | n <= i < |items|
      ensures items[i] in Wanted(items[n..], q) <==> q.Wants(items[i])
    {
      assert items[i] == items[n..][i - n];
      WantedIsWanted(items[n..], q, items[i]);
    }
    if Wanted(items[n..], q) != [] {
      WantedIsWanted(items[n..], q, Wanted(items[n..], q)[0]);
    }
  }

  /** Completeness: under the list's contract and below the page ceiling, the early stop
      loses no merge in the window. */
  lemma ScanComplete(items: seq<Item>, q: Query)
    requires NewestUpdatedFirst(items) && |items| <= MAX_PAGES * PER_PAGE
    ensures Wanted(items[..Horizon(items, q)], q) == Wanted(items, q)
    ensures forall it :: it in Wanted(items[..Horizon(items, q)], q) <==>
                         it in items && it.merged.At? && it.merged.instant >= q.since &&
                         (q.owner == "" || EqualFold(it.login, q.owner))
  {
    ScanMissesExactly(items, q);
    forall it {
      WantedIsWanted(items, q, it);
    }
    var n := Horizon(items, q);
    forall i | n <= i < |items|
      ensures !q.Wants(items[i])
    {
      assert q.Stops(items[n]);
    }
  }

  /** Each once: distinct PR numbers in the list are handed on distinct. */
  lemma {:induction false} WantedDistinct(items: seq<Item>, q: Query)
    requires forall i, j :: 0 <= i < j < |items| ==> items[i].number != items[j].number
    ensures var ws := Wanted(items, q); forall i, j :: 0 <= i < j < |ws| ==> ws[i].number != ws[j].number
  {
    if items != [] {
      var front, it := items[..|items| - 1], items[|items| - 1];
      WantedDistinct(front, q);
      var ws := Wanted(front, q);
      forall i | 0 <= i < |ws|
        ensures ws[i].number != it.number
      {
        WantedIsWanted(front, q, ws[i]);
        var j :| 0 <= j < |front| && front[j] == ws[i];
      }
    }
  }

  // ---------- reconstruction ----------

  /** A pull request's detail, as far as reconstruction branches on it: evidence is the
      recognised revert form, issue the derived primary issue id. */
  datatype Detail = Detail(login: string, number: int, merged: Stamp, sha: string, evidence: bool,
                           issue: string, reservedLogin: bool)

  datatype Declared = Recorded | Ignored | NotRecorded

  /** What the network and the store do while one PR is reconstructed; arrivals are what the
      live webhook writes in the meantime: outcomes, and exclusions of reverts. */
  datatype Weather = Weather(fetched: bool, declared: Declared, stored: bool, arrivals: seq<Write>)

  datatype Class = Fresh | Replay | Revert | Unattributed

  function Arrived(rows: Rows, arrivals: seq<Write>): Rows {
    if arrivals == [] then rows
    else Written(Arrived(rows, arrivals[..|arrivals| - 1]), arrivals[|arrivals| - 1])
  }

  /** The classification of a PR that reaches the store, and the store after it; None is an error. */
  function Reconstructed(rows: Rows, q: Query, d: Detail, w: Weather): (Rows, Option<Class>) {
    if !w.fetched then (rows, None)
    else if q.owner != "" && !EqualFold(d.login, q.owner) then (rows, Some(Replay))
    else if d.merged.Null? || d.sha == "" then (rows, Some(Replay))
    else if d.merged.Unparsable? then (rows, None)
    else if w.declared.NotRecorded? then (rows, None)
    else if d.evidence then
      if d.number <= 0 || !w.stored then (rows, None) else (Excluded(rows, d.sha), Some(Revert))
    else if d.issue == "" || d.reservedLogin then (rows, Some(Unattributed))
    else if !w.stored then (rows, None)
    else (Inserted(rows, ToOutcome(q, d)), Some(if rows.Knows(d.sha) then Replay else Fresh))
  }

  /** The fetched detail still says what the list said: merged, and by the owner asked for. */
  predicate Confirmed(q: Query, d: Detail) {
    (q.owner == "" || EqualFold(d.login, q.owner)) && !d.merged.Null? && d.sha != ""
  }

  /** A detail that some weather turns into an insert is one every faultless weather stores. */
  predicate Recordable(q: Query, d: Detail) {
    Confirmed(q, d) && d.merged.At? && !d.evidence && d.issue != "" && !d.reservedLogin
  }

  predicate InsertAttempted(q: Query, d: Detail, w: Weather) {
    w.fetched && !w.declared.NotRecorded? && w.stored && Recordable(q, d)
  }

  /** An insert is attempted and writes nothing: the merge is already known. */
  predicate InsertRefused(rows: Rows, q: Query, d: Detail, w: Weather) {
    InsertAttempted(q, d, w) && rows.Knows(d.sha)
  }

  /** The owner's own spelling replaces the fetched login in a personal scan. */
  function ToOutcome(q: Query, d: Detail): Outcome {
    Outcome(d.sha, if q.owner != "" then q.owner else d.login, d.issue, d.number, "backfill")
  }

  datatype Stats = Stats(merged: nat, inserted: nat, excluded: nat, skipped: nat, unattributed: nat) {
    predicate Accounted() {
      merged == inserted + skipped + excluded + unattributed
    }
  }

  const NO_STATS := Stats(0, 0, 0, 0, 0)

  function Tallied(st: Stats, c: Class): Stats {
    match c
    case Revert => st.(excluded := st.excluded + 1)
    case Unattributed => st.(unattributed := st.unattributed + 1)
    case Fresh => st.(inserted := st.inserted + 1)
    case Replay => st.(skipped := st.skipped + 1)
  }

  /** A scan under way: the store, the tally, and whether a reconstruction has failed. */
  datatype Progress = Progress(rows: Rows, stats: Stats, failed: bool)

  function Examined(p: Progress, q: Query, d: Detail, w: Weather): Progress {
    if p.failed then p
    else
      var (rows, c) := Reconstructed(Arrived(p.rows, w.arrivals), q, d, w);
      var counted := p.stats.(merged := p.stats.merged + 1);
      if c.None? then Progress(rows, counted, true) else Progress(rows, Tallied(counted, c.value), false)
  }

  /** One scan's surroundings: the query, the server's list, the repository's history by PR
      number, and the weather by how many PRs were examined before. */
  datatype Job = Job(q: Query, items: seq<Item>, details: int -> Detail, weather: nat -> Weather) {
    /** The PRs the scan hands to reconstruction when nothing fails. */
    function Handed(): seq<Item> {
      Wanted(items[..Horizon(items, q)], q)
    }
  }

  /** The scan after the first n of the PRs handed on. */
  function Scanned(p: Progress, job: Job, prs: seq<Item>, n: nat): Progress
    requires n <= |prs|
  {
    if n == 0 then p
    else Examined(Scanned(p, job, prs, n - 1), job.q, job.details(prs[n - 1].number), job.weather(n - 1))
  }

  /** refused records whether the store turned down an insert. */
  method ReconstructOutcome(store: Store, q: Query, d: Detail, w: Weather)
    returns (c: Option<Class>, ghost refused: bool)
    requires store.Value().Valid()
    modifies store
    ensures (store.Value(), c) == Reconstructed(old(store.Value()), q, d, w) && store.Value().Valid()
    ensures refused <==> InsertRefused(old(store.Value()), q, d, w)
    ensures c == Some(Replay) ==> (refused <==> Confirmed(q, d))
    ensures c == Some(Fresh) ==> ToOutcome(q, d) in store.live
  {
    if !w.fetched {
      return None, false;
    }
    if q.owner != "" && !EqualFold(d.login, q.owner) {
      return Some(Replay), false;
    }
    if d.merged.Null? || d.sha == "" {
      return Some(Replay), false;
    }
    if d.merged.Unparsable? || w.declared.NotRecorded? {
      return None, false;
    }
    if d.evidence {
      if d.number <= 0 || !w.stored {
        return None, false;
      }
      var excluded := store.ExcludePROutcome(d.sha);
      return if excluded then Some(Revert) else None, false;
    }
    if d.issue == "" || d.reservedLogin {
      return Some(Unattributed), false;
    }
    if !w.stored {
      return None, false;
    }
    var inserted := store.RecordPROutcome(ToOutcome(q, d));
    c, refused := Some(if inserted then Fresh else Replay), !inserted;
  }

  /** The webhook's own writes, between two reconstructions. */
  method Receive(store: Store, arrivals: seq<Write>)
    requires store.Value().Valid()
    modifies store
    ensures store.Value() == Arrived(old(store.Value()), arrivals) && store.Value().Valid()
  {
    for i := 0 to |arrivals|
      invariant store.Value() == Arrived(old(store.Value()), arrivals[..i]) && store.Value().Valid()
    {
      assert arrivals[..i + 1][..i] == arrivals[..i];
      match arrivals[i] {
        case Insert(o) => var _ := store.RecordPROutcome(o);
        case Exclude(sha) => var _ := store.ExcludePROutcome(sha);
      }
    }
    assert arrivals[..|arrivals|] == arrivals;
  }

  /** The scan stands before item i of the list, with nothing failed. */
  ghost predicate StandsAt(job: Job, start: Progress, i: nat, rows: Rows, stats: Stats, handed: nat) {
    && i <= Horizon(job.items, job.q)
    && rows.Valid()
    && handed == |Wanted(job.items[..i], job.q)| <= |job.Handed()|
    && Progress(rows, stats, false) == Scanned(start, job, job.Handed(), handed)
  }

  /** A scan that stands at the end of the list or at the page ceiling has handed everything on. */
  lemma StandsAtEnd(job: Job, start: Progress, i: nat, rows: Rows, stats: Stats, handed: nat)
    requires StandsAt(job, start, i, rows, stats, handed)
    requires i >= |job.items| || i >= MAX_PAGES * PER_PAGE
    ensures handed == |job.Handed()|
  {
  }

  /** Reading one more item below the horizon adds it to the wanted ones, or not. */
  lemma WantedPrefix(job: Job, i: nat)
    requires i < Horizon(job.items, job.q)
    ensures var next := if job.q.Wants(job.items[i]) then [job.items[i]] else [];
            Wanted(job.items[..i + 1], job.q) == Wanted(job.items[..i], job.q) + next
    ensures Wanted(job.items[..i + 1], job.q) <= job.Handed()
  {
    var items, n := job.items, Horizon(job.items, job.q);
    assert items[..i + 1][..i] == items[..i];
    assert items[..n] == items[..i + 1] + items[i + 1..n];
    WantedConcat(items[..i + 1], items[i + 1..n], job.q);
  }

  lemma SkippedStands(job: Job, start: Progress, i: nat, rows: Rows, stats: Stats, handed: nat)
    requires StandsAt(job, start, i, rows, stats, handed)
    requires i < Horizon(job.items, job.q) && !job.q.Wants(job.items[i])
    ensures StandsAt(job, start, i + 1, rows, stats, handed)
  {
    WantedPrefix(job, i);
  }

  /** A wanted item is the next one handed on. */
  lemma WantedIsNext(job: Job, i: nat)
    requires i < Horizon(job.items, job.q) && job.q.Wants(job.items[i])
    ensures var n := |Wanted(job.items[..i], job.q)|;
            && |Wanted(job.items[..i + 1], job.q)| == n + 1 <= |job.Handed()|
            && job.Handed()[n] == job.items[i]
  {
    WantedPrefix(job, i);
    var more := Wanted(job.items[..i + 1], job.q);
    assert more[|more| - 1] == job.items[i];
  }

  /** The branches of the scan before it counts a PR. */
  method Skips(q: Query, it: Item) returns (skip: bool)
    ensures skip <==> !q.Wants(it)
  {
    if it.merged.Null? {
      return true;
    }
    if it.merged.Unparsable? {
      return true;
    }
    if it.merged.instant < q.since {
      return true;
    }
    skip := q.owner != "" && !EqualFold(it.login, q.owner);
  }

  /** The scan stopped at a reconstruction that failed, having counted it. */
  predicate FailedAt(job: Job, start: Progress, rows: Rows, stats: Stats, handed: nat) {
    0 < handed <= |job.Handed()| && Progress(rows, stats, true) == Scanned(start, job, job.Handed(), handed)
  }

  lemma WantedExamined(job: Job, start: Progress, i: nat, rows: Rows, stats: Stats, handed: nat, after: Progress)
    requires StandsAt(job, start, i, rows, stats, handed) && after.rows.Valid()
    requires i < Horizon(job.items, job.q) && job.q.Wants(job.items[i])
    requires var d := job.details(job.items[i].number);
             after == Examined(Progress(rows, stats, false), job.q, d, job.weather(handed))
    ensures if after.failed then FailedAt(job, start, after.rows, after.stats, handed + 1)
            else StandsAt(job, start, i + 1, after.rows, after.stats, handed + 1)
  {
    WantedIsNext(job, i);
  }

  /** One wanted PR: counted, reconstructed and tallied. */
  method ExamineItem(store: Store, q: Query, d: Detail, w: Weather, stats: Stats) returns (stats': Stats, failed: bool)
    requires store.Value().Valid()
    modifies store
    ensures store.Value().Valid()
    ensures Progress(store.Value(), stats', failed) == Examined(Progress(old(store.Value()), stats, false), q, d, w)
  {
    stats' := stats.(merged := stats.merged + 1);
    Receive(store, w.arrivals);
    var c, _ := ReconstructOutcome(store, q, d, w);
    failed := c.None?;
    if !failed {
      stats' := Tallied(stats', c.value);
    }
  }

  /** One item below the horizon: skipped, or examined. */
  method ScanItem(store: Store, job: Job, it: Item, stats: Stats, handed: nat, ghost start: Progress, ghost i: nat)
    returns (stats': Stats, handed': nat, failed: bool)
    requires StandsAt(job, start, i, store.Value(), stats, handed)
    requires i < Horizon(job.items, job.q) && it == job.items[i]
    modifies store
    ensures store.Value().Valid()
    ensures failed ==> FailedAt(job, start, store.Value(), stats', handed')
    ensures !failed ==> StandsAt(job, start, i + 1, store.Value(), stats', handed')
  {
    var skip := Skips(job.q, it);
    if skip {
      SkippedStands(job, start, i, store.Value(), stats, handed);
      return stats, handed, false;
    }
    ghost var before := store.Value();
    stats', failed := ExamineItem(store, job.q, job.details(it.number), job.weather(handed), stats);
    WantedExamined(job, start, i, before, stats, handed, Progress(store.Value(), stats', failed));
    handed' := handed + 1;
  }

  /** One page: stops at the first item updated before the window, and at the first failure. */
  method ScanPage(store: Store, job: Job, listed: seq<Item>, base: nat, stats: Stats, handed: nat,
                  ghost start: Progress)
    returns (stats': Stats, handed': nat, windowEnd: bool, failed: bool)
    requires base + |listed| <= |job.items| && listed == job.items[base..base + |listed|]
    requires base + |listed| <= MAX_PAGES * PER_PAGE
    requires StandsAt(job, start, base, store.Value(), stats, handed)
    modifies store
    ensures store.Value().Valid()
    ensures failed ==> FailedAt(job, start, store.Value(), stats', handed')
    ensures !failed && windowEnd ==> StandsAt(job, start, Horizon(job.items, job.q), store.Value(), stats', handed')
    ensures !failed && windowEnd ==> StopAt(job.items, job.q) < base + |listed|
    ensures !failed && !windowEnd ==> StandsAt(job, start, base + |listed|, store.Value(), stats', handed')
  {
    stats', handed', windowEnd, failed := stats, handed, false, false;
    for i := 0 to |listed|
      invariant StandsAt(job, start, base + i, store.Value(), stats', handed')
    {
      var it := listed[i];
      assert it == job.items[base + i];
      if it.updated.At? && it.updated.instant < job.q.since {
        assert Horizon(job.items, job.q) == StopAt(job.items, job.q) == base + i;
        windowEnd := true;
        return;
      }
      stats', handed', failed := ScanItem(store, job, it, stats', handed', start, base + i);
      if failed {
        return;
      }
    }
  }

  /** Fetching and scanning one page; done when it was the last one to read. */
  method ScanNextPage(store: Store, job: Job, page: nat, stats: Stats, handed: nat, ghost start: Progress)
    returns (stats': Stats, handed': nat, done: bool, failed: bool)
    requires 1 <= page <= MAX_PAGES
    requires StandsAt(job, start, (page - 1) * PER_PAGE, store.Value(), stats, handed)
    modifies store
    ensures store.Value().Valid() && handed' <= |job.Handed()|
    ensures failed ==> Progress(store.Value(), stats', true) == Scanned(start, job, job.Handed(), handed')
    ensures !failed ==> Progress(store.Value(), stats', false) == Scanned(start, job, job.Handed(), handed')
    ensures !failed && done ==> handed' == |job.Handed()| && StopAt(job.items, job.q) < page * PER_PAGE
    ensures !failed && !done ==> StandsAt(job, start, page * PER_PAGE, store.Value(), stats', handed')
  {
    var base := (page - 1) * PER_PAGE;
    var listed := PageOf(job.items, page);
    if |listed| == 0 {
      StandsAtEnd(job, start, base, store.Value(), stats, handed);
      return stats, handed, true, false;
    }
    var windowEnd;
    stats', handed', windowEnd, failed := ScanPage(store, job, listed, base, stats, handed, start);
    done := windowEnd || |listed| < PER_PAGE;
    if !failed && done && !windowEnd {
      StandsAtEnd(job, start, base + |listed|, store.Value(), stats', handed');
    }
  }

  /** An uninterrupted scan lists this page: it is within the ceiling, and no earlier page
      held the stop or the end of the list. */
  predicate Reaches(job: Job, page: nat) {
    1 <= page <= MAX_PAGES && (page - 1) * PER_PAGE <= StopAt(job.items, job.q)
  }

  datatype Ending = Done | ListFailed(page: nat) | ReconstructFailed

  /** backfillOutcomes.  failPage is the first page whose listing fails, 0 for none; the
      scan reports its tally, how it ended, and how many wanted PRs it handed on. */
  method BackfillOutcomes(store: Store, job: Job, failPage: nat)
    returns (stats: Stats, ending: Ending, handed: nat)
    requires store.Value().Valid()
    modifies store
    ensures store.Value().Valid() && handed <= |job.Handed()|
    ensures Progress(store.Value(), stats, ending.ReconstructFailed?)
            == Scanned(Progress(old(store.Value()), NO_STATS, false), job, job.Handed(), handed)
    ensures ending.Done? ==> handed == |job.Handed()| && !Reaches(job, failPage)
    ensures ending.ListFailed? ==> ending.page == failPage && Reaches(job, failPage)
    ensures ending.ListFailed? ==> (failPage - 1) * PER_PAGE <= |job.items| &&
                                   handed == |Wanted(job.items[..(failPage - 1) * PER_PAGE], job.q)|
  {
    ghost var start := Progress(store.Value(), NO_STATS, false);
    stats, handed := NO_STATS, 0;
    var page := 1;
    while true
      invariant 1 <= page <= MAX_PAGES + 1 && (failPage == 0 || page <= failPage)
      invariant StandsAt(job, start, (page - 1) * PER_PAGE, store.Value(), stats, handed)
      decreases MAX_PAGES + 1 - page
    {
      if page > MAX_PAGES {
        StandsAtEnd(job, start, (page - 1) * PER_PAGE, store.Value(), stats, handed);
        return stats, Done, handed;
      }
      if page == failPage {
        return stats, ListFailed(page), handed;
      }
      var done, failed;
      stats, handed, done, failed := ScanNextPage(store, job, page, stats, handed, start);
      if failed {
        return stats, ReconstructFailed, handed;
      }
      if done {
        return stats, Done, handed;
      }
      page := page + 1;
    }
  }
}
