/** One pass of the subscription-fee reconciler, and the loop that repeats it. */
module FeeReconciler {
  import opened Wrappers
  import opened Periods
  import opened FeeLedger

  /** The active_since setting: not given, not of the form YYYY-MM, or a period. */
  datatype ActiveSince = Absent | Malformed | Since(period: Month)

  datatype Subscription = Subscription(route: string, org: string, fee: int, activeSince: ActiveSince) {
    /** The org the fee posts under: the configured one, else the route without one trailing '/'. */
    function OrgKey(): string {
      if org != "" then org
      else if route != "" && route[|route| - 1] == '/' then route[..|route| - 1]
      else route
    }

    /** active_since names a usable range up to current. */
    predicate RangeUsable(current: Month) {
      activeSince.Since? && activeSince.period <= current && current - activeSince.period < MAX_PERIOD_RANGE
    }

    function Periods(current: Month, backfill: bool): seq<Month> {
      if backfill && RangeUsable(current) then Span(activeSince.period, current) else [current]
    }

    /** The posts one pass makes for this subscription, in order: closed periods are
        filled, the current one converges. */
    function Posts(current: Month, backfill: bool): (ps: seq<Post>)
      ensures |ps| == |Periods(current, backfill)|
    {
      var months := Periods(current, backfill);
      seq(|months|, j requires 0 <= j < |months| =>
        Post(route, OrgKey(), months[j], fee, if months[j] == current then Converging else Filling))
    }

    function Cell(period: Month): Key {
      Key(OrgKey(), period, SpendSource(route))
    }

    /** A plan owes nothing before the period its operator says it began. */
    predicate Owes(period: Month) {
      activeSince.Since? ==> activeSince.period <= period
    }
  }

  /** The org is the configured one; without one, the route less a single '/' at its end. */
  lemma OrgKeyMeans(s: Subscription)
    ensures s.org != "" ==> s.OrgKey() == s.org
    ensures s.org == "" ==>
              s.route == s.OrgKey() + "/" ||
              (s.route == s.OrgKey() && (s.route == "" || s.route[|s.route| - 1] != '/'))
  {
  }

  /** What config validation guarantees the reconciler: positive fees, usable keys, and no
      route prefix that is a prefix of another. */
  predicate ValidConfig(subs: seq<Subscription>) {
    && (forall s :: s in subs ==> s.route != "" && s.OrgKey() != "" && s.fee > 0)
    && (forall i, j :: 0 <= i < j < |subs| ==> !(subs[i].route <= subs[j].route) && !(subs[j].route <= subs[i].route))
  }

  function AllPosts(subs: seq<Subscription>, current: Month, backfill: bool): seq<Post> {
    if subs == [] then []
    else AllPosts(subs[..|subs| - 1], current, backfill) + subs[|subs| - 1].Posts(current, backfill)
  }

  /** What the outside world does during one pass: when the context is first seen
      cancelled (counted in posts attempted), and what befalls each attempted post. */
  datatype Weather = Weather(cancelAt: Option<nat>, faults: seq<Fault>) {
    predicate Cancelled(attempts: nat) {
      cancelAt.Some? && cancelAt.value <= attempts
    }

    function FaultAt(n: nat): Fault {
      if n < |faults| then faults[n] else NoFault
    }
  }

  /** The ledger after the first n posts were attempted. */
  function After(rows: Rows, posts: seq<Post>, w: Weather, n: nat): Rows
    requires n <= |posts|
  {
    if n == 0 then rows else Step(After(rows, posts, w, n - 1), posts[n - 1], w.FaultAt(n - 1))
  }

  /** How many posts the pass attempts: the cancellation check precedes each one. */
  function Attempted(posts: seq<Post>, w: Weather): (n: nat)
    ensures n <= |posts|
  {
    if w.cancelAt.Some? && w.cancelAt.value < |posts| then w.cancelAt.value else |posts|
  }

  function PassRows(rows: Rows, posts: seq<Post>, w: Weather): Rows {
    After(rows, posts, w, Attempted(posts, w))
  }

  predicate Answered(rows: Rows, posts: seq<Post>, w: Weather, i: nat)
    requires i < |posts|
  {
    Answer(After(rows, posts, w, i), posts[i], w.FaultAt(i)).Ok?
  }

  /** The pass attempted every post, none failed, and it was not cancelled even after the last. */
  predicate Clean(rows: Rows, posts: seq<Post>, w: Weather) {
    !w.Cancelled(|posts|) && AnsweredThrough(rows, posts, w, |posts|)
  }

  predicate OwnPostsAt(posts: seq<Post>, base: nat, own: seq<Post>) {
    base + |own| <= |posts| && forall j :: 0 <= j < |own| ==> posts[base + j] == own[j]
  }

  /** No check before the n-th post saw the context cancelled. */
  predicate NotYetCancelled(w: Weather, n: nat) {
    n > 0 ==> !w.Cancelled(n - 1)
  }

  /** None of the first n posts failed. */
  predicate AnsweredThrough(rows: Rows, posts: seq<Post>, w: Weather, n: nat)
    requires n <= |posts|
  {
    n == 0 || (AnsweredThrough(rows, posts, w, n - 1) && Answered(rows, posts, w, n - 1))
  }

  predicate Backfilled(s: Subscription, current: Month, backfill: bool) {
    backfill && s.RangeUsable(current)
  }

  /** f bounds what a clean pass vouches for: the current period as soon as one subscription
      was not backfilled, and otherwise the earliest active_since. */
  ghost predicate VouchesFrom(subs: seq<Subscription>, current: Month, backfill: bool, f: Month) {
    if exists s :: s in subs && !Backfilled(s, current, backfill) then f == current
    else
      && (exists s :: s in subs && s.activeSince == Since(f))
      && (forall s :: s in subs ==> f <= s.activeSince.period)
  }

  /** What `first` and `since` hold once the subscriptions in subs were visited. */
  ghost predicate BoundsSoFar(subs: seq<Subscription>, current: Month, backfill: bool,
                              first: Option<Month>, since: Option<Month>) {
    && (first.Some? <==> exists s :: s in subs && !Backfilled(s, current, backfill))
    && (first.Some? ==> first.value == current)
    && (since.Some? <==> exists s :: s in subs && Backfilled(s, current, backfill))
    && (since.Some? ==>
          exists s :: s in subs && Backfilled(s, current, backfill) && s.activeSince == Since(since.value))
    && (since.Some? ==>
          forall s :: s in subs && Backfilled(s, current, backfill) ==> since.value <= s.activeSince.period)
  }

  lemma BoundsVouch(subs: seq<Subscription>, current: Month, backfill: bool, first: Option<Month>, since: Option<Month>)
    requires BoundsSoFar(subs, current, backfill, first, since)
    ensures var f := if first.Some? then first else since;
            (f.Some? <==> subs != []) && (f.Some? ==> VouchesFrom(subs, current, backfill, f.value))
  {
    if subs != [] {
      assert subs[0] in subs;
    }
  }

  lemma BoundsExtend(subs: seq<Subscription>, s: Subscription, current: Month, backfill: bool,
                     first: Option<Month>, since: Option<Month>, first': Option<Month>, since': Option<Month>)
    requires BoundsSoFar(subs, current, backfill, first, since)
    requires if Backfilled(s, current, backfill)
             then first' == first && since'.Some? &&
                  since'.value ==
                  (if since.Some? && since.value < s.activeSince.period then since.value else s.activeSince.period)
             else since' == since && first' == Some(current)
    ensures BoundsSoFar(subs + [s], current, backfill, first', since')
  {
    assert s in subs + [s];
    assert forall t :: t in subs + [s] <==> t in subs || t == s;
    if since.Some? && since' == since {
      var t :| t in subs && Backfilled(t, current, backfill) && t.activeSince == Since(since.value);
      assert t in subs + [s];
    }
  }

  /** Splitting the posts of a pass at one subscription. */
  lemma {:induction false} AllPostsSplit(subs: seq<Subscription>, current: Month, backfill: bool, i: nat)
    requires i < |subs|
    ensures AllPosts(subs[..i + 1], current, backfill) ==
            AllPosts(subs[..i], current, backfill) + subs[i].Posts(current, backfill)
    ensures AllPosts(subs[..i + 1], current, backfill) <= AllPosts(subs, current, backfill)
    decreases |subs|
  {
    assert subs[..i + 1][..i] == subs[..i];
    if i + 1 == |subs| {
      assert subs[..i + 1] == subs;
    } else {
      var front := subs[..|subs| - 1];
      AllPostsSplit(front, current, backfill, i);
      assert front[..i] == subs[..i] && front[..i + 1] == subs[..i + 1];
    }
  }

  /** The periods the startup pass reconciles for one subscription. */
  method SubscriptionPeriods(s: Subscription, current: Month) returns (r: Result<seq<Month>, ()>)
    ensures r.Ok? <==> s.activeSince.Absent? || s.RangeUsable(current)
    ensures r.Ok? ==> r.value == s.Periods(current, true)
  {
    match s.activeSince
    case Absent =>
      return Ok([current]);
    case Malformed =>
      return Err(());
    case Since(start) =>
      r := PeriodRange(start, current);
  }

  /** Attempts one subscription's posts, checking for cancellation before each.  The
      attempt counter only indexes the weather. */
  method PostPeriods(ledger: Ledger, s: Subscription, current: Month, periods: seq<Month>, w: Weather,
                     base: nat, okBefore: bool, ghost start: Rows, ghost posts: seq<Post>, ghost backfill: bool)
    returns (ok: bool, cancelled: bool)
    requires periods == s.Periods(current, backfill) && OwnPostsAt(posts, base, s.Posts(current, backfill))
    requires Progressed(start, posts, w, base, ledger.rows, okBefore)
    modifies ledger
    ensures cancelled ==> w.Cancelled(|posts|) && ledger.rows == PassRows(start, posts, w)
    ensures !cancelled ==> Progressed(start, posts, w, base + |periods|, ledger.rows, ok)
  {
    ok := okBefore;
    for j := 0 to |periods|
      invariant Progressed(start, posts, w, base + j, ledger.rows, ok)
    {
      if w.Cancelled(base + j) {
        return false, true;
      }
      assert posts[base + j] == s.Posts(current, backfill)[j];
      var r: Result<int, ()>;
      if periods[j] != current {
        r := ledger.PostSubscriptionFeeIfUnposted(s.route, s.OrgKey(), periods[j], s.fee, w.FaultAt(base + j));
      } else {
        r := ledger.ReconcileSubscriptionFee(s.route, s.OrgKey(), periods[j], s.fee, w.FaultAt(base + j));
      }
      assert r.Ok? <==> Answered(start, posts, w, base + j);
      if r.Err? {
        ok := false;
      }
    }
    cancelled := false;
  }

  /** max over period strings, where no period yet is the empty string, below them all. */
  function Later(m: Option<Month>, p: Month): Month {
    if m.Some? && p < m.value then m.value else p
  }

  /** min over period strings, where no period yet takes the other's place. */
  function Earlier(m: Option<Month>, p: Month): Month {
    if m.Some? && m.value < p then m.value else p
  }

  /** The head of a pass's outer loop: one subscription's periods, and the running bounds. */
  method VisitPeriods(s: Subscription, current: Month, backfill: bool, first: Option<Month>, since: Option<Month>,
                      ghost visited: seq<Subscription>)
    returns (periods: seq<Month>, first': Option<Month>, since': Option<Month>)
    requires BoundsSoFar(visited, current, backfill, first, since)
    ensures periods == s.Periods(current, backfill)
    ensures BoundsSoFar(visited + [s], current, backfill, first', since')
  {
    var fromActiveSince := false;
    periods, first', since' := [current], first, since;
    if backfill {
      var r := SubscriptionPeriods(s, current);
      fromActiveSince := r.Ok? && !s.activeSince.Absent?;
      if r.Ok? {
        periods := r.value;
      }
    }
    if fromActiveSince {
      since' := Some(Earlier(since, periods[0]));
    } else {
      first' := Some(Later(first, periods[0]));
    }
    BoundsExtend(visited, s, current, backfill, first, since, first', since');
  }

  /** The pass so far: n posts attempted, with no check having seen a cancellation. */
  predicate Progressed(start: Rows, posts: seq<Post>, w: Weather, n: nat, rows: Rows, ok: bool) {
    && n <= |posts|
    && rows == After(start, posts, w, n)
    && (ok <==> AnsweredThrough(start, posts, w, n))
    && NotYetCancelled(w, n)
  }

  /** Standing before the i-th subscription, with the pass not cancelled. */
  ghost predicate StandsAt(subs: seq<Subscription>, current: Month, backfill: bool, w: Weather, start: Rows, i: nat,
                           rows: Rows, first: Option<Month>, since: Option<Month>, attempts: nat, ok: bool)
    requires i <= |subs|
  {
    && attempts == |AllPosts(subs[..i], current, backfill)|
    && Progressed(start, AllPosts(subs, current, backfill), w, attempts, rows, ok)
    && BoundsSoFar(subs[..i], current, backfill, first, since)
  }

  /** Having made one subscription's posts. */
  lemma StandsNext(subs: seq<Subscription>, current: Month, backfill: bool, w: Weather, start: Rows, i: nat,
                   rows: Rows, first: Option<Month>, since: Option<Month>, base: nat, periods: seq<Month>, ok: bool)
    requires i < |subs| && base == |AllPosts(subs[..i], current, backfill)| &&
             periods == subs[i].Periods(current, backfill)
    requires Progressed(start, AllPosts(subs, current, backfill), w, base + |periods|, rows, ok)
    requires BoundsSoFar(subs[..i] + [subs[i]], current, backfill, first, since)
    ensures StandsAt(subs, current, backfill, w, start, i + 1, rows, first, since, base + |periods|, ok)
  {
    PostsThrough(subs, current, backfill, i);
    assert subs[..i + 1] == subs[..i] + [subs[i]];
  }

  lemma PostsThrough(subs: seq<Subscription>, current: Month, backfill: bool, i: nat)
    requires i < |subs|
    ensures |AllPosts(subs[..i + 1], current, backfill)| ==
            |AllPosts(subs[..i], current, backfill)| + |subs[i].Periods(current, backfill)|
  {
    AllPostsSplit(subs, current, backfill, i);
  }

  /** The body of a pass's outer loop. */
  method VisitSubscription(ledger: Ledger, subs: seq<Subscription>, i: nat, current: Month, backfill: bool, w: Weather,
                           first: Option<Month>, since: Option<Month>, attempts: nat, ok: bool, ghost start: Rows)
    returns (first': Option<Month>, since': Option<Month>, attempts': nat, ok': bool, cancelled: bool)
    requires i < |subs| && StandsAt(subs, current, backfill, w, start, i, ledger.rows, first, since, attempts, ok)
    modifies ledger
    ensures cancelled ==> w.Cancelled(|AllPosts(subs, current, backfill)|) &&
                          ledger.rows == PassRows(start, AllPosts(subs, current, backfill), w)
    ensures !cancelled ==>
              StandsAt(subs, current, backfill, w, start, i + 1, ledger.rows, first', since', attempts', ok')
  {
    var s := subs[i];
    var periods;
    periods, first', since' := VisitPeriods(s, current, backfill, first, since, subs[..i]);
    PostsAt(subs, current, backfill, i, attempts);
    ok', cancelled :=
      PostPeriods(ledger, s, current, periods, w, attempts, ok, start, AllPosts(subs, current, backfill), backfill);
    if !cancelled {
      StandsNext(subs, current, backfill, w, start, i, ledger.rows, first', since', attempts, periods, ok');
    }
    attempts' := attempts + |periods|;
  }

  /** One reconcile pass over every subscription. */
  method ReconcileOnce(ledger: Ledger, subs: seq<Subscription>, current: Month, backfill: bool, w: Weather)
    returns (first: Option<Month>, ok: bool)
    modifies ledger
    ensures ledger.rows == PassRows(old(ledger.rows), AllPosts(subs, current, backfill), w)
    ensures ok <==> Clean(old(ledger.rows), AllPosts(subs, current, backfill), w)
    ensures ok ==> (first.Some? <==> subs != []) && (subs != [] ==> VouchesFrom(subs, current, backfill, first.value))
  {
    ghost var start := ledger.rows;
    ok, first := true, None;
    var since: Option<Month> := None;
    var attempts := 0;
    for i := 0 to |subs|
      invariant StandsAt(subs, current, backfill, w, start, i, ledger.rows, first, since, attempts, ok)
    {
      var cancelled;
      first, since, attempts, ok, cancelled :=
        VisitSubscription(ledger, subs, i, current, backfill, w, first, since, attempts, ok, start);
      if cancelled {
        return first, false;
      }
    }
    assert subs[..|subs|] == subs;
    ok := ok && !w.Cancelled(attempts);
    BoundsVouch(subs, current, backfill, first, since);
    first := if first.Some? then first else since;
  }

  /** Where one subscription's posts sit among all of them. */
  lemma PostsAt(subs: seq<Subscription>, current: Month, backfill: bool, i: nat, base: nat)
    requires i < |subs| && base == |AllPosts(subs[..i], current, backfill)|
    ensures OwnPostsAt(AllPosts(subs, current, backfill), base, subs[i].Posts(current, backfill))
  {
    AllPostsSplit(subs, current, backfill, i);
    var own := subs[i].Posts(current, backfill);
    var before := AllPosts(subs[..i], current, backfill);
    forall j | 0 <= j < |own|
      ensures AllPosts(subs, current, backfill)[base + j] == own[j]
    {
      assert AllPosts(subs[..i + 1], current, backfill)[base + j] == (before + own)[base + j];
    }
  }
}
