/** What holds of the fee reconciler over every history. */
module FeeTheorems {
  import opened Wrappers
  import opened Periods
  import opened FeeLedger
  import opened FeeReconciler
  import opened FeeHistory

  // ---------- one pass, seen from one cell of the ledger ----------

  /** A pass only ever appends. */
  lemma {:induction false} AfterGrows(rows: Rows, posts: seq<Post>, w: Weather, m: nat, n: nat, k: Key)
    requires m <= n <= |posts|
    ensures Entries(After(rows, posts, w, m), k) <= Entries(After(rows, posts, w, n), k)
  {
    if m < n {
      AfterGrows(rows, posts, w, m, n - 1, k);
      StepFrame(After(rows, posts, w, n - 1), posts[n - 1], w.FaultAt(n - 1), k);
    }
  }

  predicate CellsDistinct(posts: seq<Post>) {
    forall i, j :: 0 <= i < j < |posts| ==> posts[i].Cell() != posts[j].Cell()
  }

  /** A cell no attempted post names keeps its entries. */
  lemma {:induction false} AfterElsewhere(rows: Rows, posts: seq<Post>, w: Weather, n: nat, k: Key)
    requires n <= |posts| && forall i :: 0 <= i < n ==> posts[i].Cell() != k
    ensures Entries(After(rows, posts, w, n), k) == Entries(rows, k)
  {
    if n > 0 {
      AfterElsewhere(rows, posts, w, n - 1, k);
      StepFrame(After(rows, posts, w, n - 1), posts[n - 1], w.FaultAt(n - 1), k);
    }
  }

  /** With distinct cells, each post acts once, on the entries it found before the pass. */
  lemma {:induction false} AfterAtCell(rows: Rows, posts: seq<Post>, w: Weather, n: nat, i: nat)
    requires CellsDistinct(posts) && n <= |posts| && i < |posts|
    ensures var k := posts[i].Cell();
            Entries(After(rows, posts, w, n), k) ==
            if n <= i then Entries(rows, k) else Posted(Entries(rows, k), posts[i], w.FaultAt(i))
  {
    if n > 0 {
      AfterAtCell(rows, posts, w, n - 1, i);
      StepFrame(After(rows, posts, w, n - 1), posts[n - 1], w.FaultAt(n - 1), posts[i].Cell());
    }
  }

  lemma {:induction false} AnsweredThroughAt(rows: Rows, posts: seq<Post>, w: Weather, n: nat, i: nat)
    requires i < n <= |posts| && AnsweredThrough(rows, posts, w, n)
    ensures Answered(rows, posts, w, i)
  {
    if i < n - 1 {
      AnsweredThroughAt(rows, posts, w, n - 1, i);
    }
  }

  /** A clean pass leaves a row under the cell of every post it planned. */
  lemma CleanPassPosts(rows: Rows, posts: seq<Post>, w: Weather, i: nat)
    requires Clean(rows, posts, w) && i < |posts| && posts[i].fee > 0
    ensures Entries(PassRows(rows, posts, w), posts[i].Cell()) != []
  {
    AnsweredThroughAt(rows, posts, w, |posts|, i);
    var before := After(rows, posts, w, i);
    PostCommitsOrNot(before, posts[i], w.FaultAt(i));
    PostSettles(Entries(before, posts[i].Cell()), posts[i]);
    StepFrame(before, posts[i], NoFault, posts[i].Cell());
    AfterGrows(rows, posts, w, i + 1, |posts|, posts[i].Cell());
  }

  // ---------- the posts of a pass ----------

  lemma {:induction false} AllPostsMember(subs: seq<Subscription>, current: Month, backfill: bool, p: Post)
    ensures p in AllPosts(subs, current, backfill) <==> exists s :: s in subs && p in s.Posts(current, backfill)
  {
    if subs != [] {
      var front, last := subs[..|subs| - 1], subs[|subs| - 1];
      assert subs == front + [last];
      AllPostsMember(front, current, backfill, p);
      assert forall s :: s in subs <==> s in front || s == last;
    }
  }

  /** Each period of a subscription has its post. */
  lemma OwnPost(s: Subscription, current: Month, backfill: bool, period: Month)
    requires period in s.Periods(current, backfill)
    ensures Post(s.route, s.OrgKey(), period, s.fee, if period == current then Converging else Filling)
            in s.Posts(current, backfill)
  {
    var months := s.Periods(current, backfill);
    var j :| 0 <= j < |months| && months[j] == period;
    assert s.Posts(current, backfill)[j].period == period;
  }

  lemma SourcesDiffer(a: string, b: string)
    requires a != b
    ensures SpendSource(a) != SpendSource(b)
  {
    assert SpendSource(a)[|SOURCE_PREFIX|..] == a;
    assert SpendSource(b)[|SOURCE_PREFIX|..] == b;
  }

  /** A valid configuration posts to each cell at most once a pass. */
  lemma {:induction false} ValidCellsDistinct(subs: seq<Subscription>, current: Month, backfill: bool)
    requires ValidConfig(subs)
    ensures CellsDistinct(AllPosts(subs, current, backfill))
  {
    if subs != [] {
      var front, last := subs[..|subs| - 1], subs[|subs| - 1];
      assert subs == front + [last];
      ValidCellsDistinct(front, current, backfill);
      var before, own := AllPosts(front, current, backfill), last.Posts(current, backfill);
      OwnCellsDistinct(last, current, backfill);
      forall i, j | 0 <= i < |before| && 0 <= j < |own|
        ensures before[i].Cell() != own[j].Cell()
      {
        EarlierPostElsewhere(subs, current, backfill, before[i], own[j]);
      }
      DistinctJoin(before, own);
    }
  }

  /** Posts of different routes go to different cells. */
  lemma EarlierPostElsewhere(subs: seq<Subscription>, current: Month, backfill: bool, p: Post, q: Post)
    requires subs != [] && ValidConfig(subs)
    requires p in AllPosts(subs[..|subs| - 1], current, backfill) && q in subs[|subs| - 1].Posts(current, backfill)
    ensures p.Cell() != q.Cell()
  {
    var front, last := subs[..|subs| - 1], subs[|subs| - 1];
    AllPostsMember(front, current, backfill, p);
    var s :| s in front && p in s.Posts(current, backfill);
    var n :| 0 <= n < |front| && front[n] == s;
    assert subs[n] == s;
    SourcesDiffer(s.route, last.route);
  }

  lemma OwnCellsDistinct(s: Subscription, current: Month, backfill: bool)
    ensures CellsDistinct(s.Posts(current, backfill))
  {
    var months := s.Periods(current, backfill);
    assert forall i, j :: 0 <= i < j < |months| ==> months[i] != months[j];
  }

  lemma DistinctJoin(before: seq<Post>, own: seq<Post>)
    requires CellsDistinct(before) && CellsDistinct(own)
    requires forall i, j :: 0 <= i < |before| && 0 <= j < |own| ==> before[i].Cell() != own[j].Cell()
    ensures CellsDistinct(before + own)
  {
  }

  /** Where a pass plans the post of one subscription's month. */
  lemma PlannedPost(subs: seq<Subscription>, current: Month, backfill: bool, s: Subscription, m: Month) returns (i: nat)
    requires s in subs && m in s.Periods(current, backfill)
    ensures i < |AllPosts(subs, current, backfill)|
    ensures AllPosts(subs, current, backfill)[i] ==
            Post(s.route, s.OrgKey(), m, s.fee, if m == current then Converging else Filling)
  {
    var posts := AllPosts(subs, current, backfill);
    OwnPost(s, current, backfill, m);
    var p := Post(s.route, s.OrgKey(), m, s.fee, if m == current then Converging else Filling);
    AllPostsMember(subs, current, backfill, p);
    i :| 0 <= i < |posts| && posts[i] == p;
  }

  // ---------- settled soundness ----------

  /** The fee of s for this period has a posting. */
  predicate IsPosted(rows: Rows, s: Subscription, period: Month) {
    Entries(rows, s.Cell(period)) != []
  }

  /** Every fee the announcement speaks of is posted. */
  ghost predicate Honoured(rows: Rows, e: Settlement) {
    forall s, m :: s in e.subs && e.window.start <= m < e.window.end && s.Owes(m) ==> IsPosted(rows, s, m)
  }

  /** Every period of an announcement that a subscription owes is one its pass posted. */
  lemma AnnouncedIsPlanned(world: World, t: Tick, s: Subscription, m: Month)
    requires s in world.subs && Announcement(world, t).Some?
    requires var a := Announcement(world, t).value; a.start <= m < a.end && s.Owes(m)
    ensures m in s.Periods(t.current, world.backfill)
  {
    var f := FirstVouched(world.subs, t.current, world.backfill);
    if !Backfilled(s, t.current, world.backfill) {
      assert f == t.current;
    } else {
      assert s.Periods(t.current, world.backfill)[m - s.activeSince.period] == m;
    }
  }

  lemma AnnouncedIsPosted(world: World, t: Tick, s: Subscription, m: Month)
    requires ValidConfig(world.subs) && Announcement(world, t).Some? && s in world.subs
    requires var a := Announcement(world, t).value; a.start <= m < a.end && s.Owes(m)
    ensures IsPosted(Next(world, Pass(t)).rows, s, m)
  {
    AnnouncedIsPlanned(world, t, s, m);
    var i := PlannedPost(world.subs, t.current, world.backfill, s, m);
    CleanPassPosts(world.rows, world.Posts(t.current), t.weather, i);
  }

  lemma AnnouncementHonoured(world: World, t: Tick)
    requires ValidConfig(world.subs) && Announcement(world, t).Some?
    ensures Honoured(Next(world, Pass(t)).rows, Settlement(world.subs, Announcement(world, t).value))
  {
    var a := Announcement(world, t).value;
    forall s, m | s in world.subs && a.start <= m < a.end && s.Owes(m)
      ensures IsPosted(Next(world, Pass(t)).rows, s, m)
    {
      AnnouncedIsPosted(world, t, s, m);
    }
  }

  lemma NextGrows(world: World, e: Event, k: Key)
    ensures Entries(world.rows, k) <= Entries(Next(world, e).rows, k)
  {
    if e.Pass? {
      var posts := world.Posts(e.tick.current);
      AfterGrows(world.rows, posts, e.tick.weather, 0, Attempted(posts, e.tick.weather), k);
    }
  }

  lemma VouchedNotLater(subs: seq<Subscription>, current: Month, backfill: bool)
    requires subs != []
    ensures FirstVouched(subs, current, backfill) <= current
  {
    assert subs[0] in subs;
  }

  /** What a pass announces, and when: one settlement for its configuration, from the bound it
      vouches from through the current month, if it is clean and there is anything to post for;
      nothing otherwise. */
  lemma PassAnnounces(world: World, t: Tick)
    ensures var before, after := world.settled, Next(world, Pass(t)).settled;
            if world.PassClean(t) && world.subs != [] then
              exists f :: VouchesFrom(world.subs, t.current, world.backfill, f) && f <= t.current &&
                          after == before + [Settlement(world.subs, Window(f, t.current + 1))]
            else after == before
  {
    if world.PassClean(t) && world.subs != [] {
      VouchedNotLater(world.subs, t.current, world.backfill);
      assert Announcement(world, t) == Some(Window(FirstVouched(world.subs, t.current, world.backfill), t.current + 1));
    }
  }

  lemma {:induction false} AllAnswered(rows: Rows, posts: seq<Post>, w: Weather, n: nat)
    requires n <= |posts|
    ensures AnsweredThrough(rows, posts, w, n) <==> forall i: nat :: i < n ==> Answered(rows, posts, w, i)
  {
    if n > 0 {
      AllAnswered(rows, posts, w, n - 1);
    }
  }

  /** The i-th post of a pass does not fail: it does not roll back, and if its acknowledgement is
      lost there was nothing to write. */
  predicate Succeeds(world: World, t: Tick, i: nat) {
    var posts := world.Posts(t.current);
    i < |posts| ==>
      var fault := t.weather.FaultAt(i);
      var found := Entries(After(world.rows, posts, t.weather, i), posts[i].Cell());
      fault == NoFault ||
      (fault == LostAck && if posts[i].kind.Converging? then Net(found) == posts[i].fee else found != [])
  }

  lemma AnsweredSucceeds(world: World, t: Tick, i: nat)
    requires ValidConfig(world.subs) && i < |world.Posts(t.current)|
    ensures Answered(world.rows, world.Posts(t.current), t.weather, i) <==> Succeeds(world, t, i)
  {
    AllPostsMember(world.subs, t.current, world.backfill, world.Posts(t.current)[i]);
  }

  /** Exactly when a pass is clean: none of its posts fails, and the context is not cancelled at
      any check, not even at the one after the last post. */
  lemma CleanMeans(world: World, t: Tick)
    requires ValidConfig(world.subs)
    ensures world.PassClean(t) <==>
            && (forall i: nat :: Succeeds(world, t, i))
            && (t.weather.cancelAt.Some? ==> t.weather.cancelAt.value > |world.Posts(t.current)|)
  {
    var posts := world.Posts(t.current);
    AllAnswered(world.rows, posts, t.weather, |posts|);
    forall i: nat | i < |posts|
      ensures Answered(world.rows, posts, t.weather, i) <==> Succeeds(world, t, i)
    {
      AnsweredSucceeds(world, t, i);
    }
  }

  lemma {:induction false} PostsOfTick(subs: seq<Subscription>, current: Month)
    ensures var posts := AllPosts(subs, current, false);
            |posts| == |subs| &&
            forall i :: 0 <= i < |subs| ==>
              posts[i] == Post(subs[i].route, subs[i].OrgKey(), current, subs[i].fee, Converging)
  {
    if subs != [] {
      PostsOfTick(subs[..|subs| - 1], current);
    }
  }

  lemma {:induction false} StaysCaughtUp(world: World, later: seq<Event>)
    requires !world.backfill && forall e :: e in later ==> e.Pass?
    ensures Play(world, later).subs == world.subs && !Play(world, later).backfill
  {
    if later != [] {
      var before, e := later[..|later| - 1], later[|later| - 1];
      assert later == before + [e];
      assert forall x :: x in before ==> x in later;
      StaysCaughtUp(world, before);
      assert e in later;
    }
  }

  /** After a clean pass the catch-up is over: until the next start, a pass in any month plans
      one converging post for each subscription, to that month, and no other. */
  lemma CleanPassEndsCatchUp(world: World, t: Tick, later: seq<Event>, current: Month)
    requires world.PassClean(t) && forall e :: e in later ==> e.Pass?
    ensures var posts := Play(Next(world, Pass(t)), later).Posts(current);
            |posts| == |world.subs| &&
            forall i :: 0 <= i < |posts| ==>
              posts[i] == Post(world.subs[i].route, world.subs[i].OrgKey(), current, world.subs[i].fee, Converging)
  {
    StaysCaughtUp(Next(world, Pass(t)), later);
    PostsOfTick(world.subs, current);
  }

  predicate ValidEvents(events: seq<Event>) {
    forall e :: e in events && e.Start? ==> ValidConfig(e.subs)
  }

  /** A fresh install: no process yet, so no subscription and no announcement. */
  function Fresh(rows: Rows): World {
    World(rows, [], true, [])
  }

  /** Settled soundness over every run.  However processes start, tick, fail, lose
      acknowledgements, are cancelled or jump over months, every announcement made so far
      is true of the ledger now. */
  lemma {:induction false} SettledSound(rows: Rows, events: seq<Event>)
    requires ValidEvents(events)
    ensures var world := Play(Fresh(rows), events);
            ValidConfig(world.subs) && forall e :: e in world.settled ==> Honoured(world.rows, e)
  {
    if events != [] {
      var before, e := events[..|events| - 1], events[|events| - 1];
      assert events == before + [e];
      assert ValidEvents(before) by {
        assert forall x :: x in before ==> x in events;
      }
      SettledSound(rows, before);
      var world := Play(Fresh(rows), before);
      if e.Pass? && Announcement(world, e.tick).Some? {
        AnnouncementHonoured(world, e.tick);
      }
      forall x | x in world.settled
        ensures Honoured(Next(world, e).rows, x)
      {
        forall s, m | s in x.subs && x.window.start <= m < x.window.end && s.Owes(m)
          ensures IsPosted(Next(world, e).rows, s, m)
        {
          NextGrows(world, e, s.Cell(m));
          assert IsPosted(world.rows, s, m);
        }
      }
    }
  }

  // ---------- the current period, and closed ones ----------

  /** The converging post every pass plans for each subscription. */
  lemma CurrentPost(subs: seq<Subscription>, current: Month, backfill: bool, s: Subscription) returns (i: nat)
    requires s in subs
    ensures i < |AllPosts(subs, current, backfill)|
    ensures AllPosts(subs, current, backfill)[i] == Post(s.route, s.OrgKey(), current, s.fee, Converging)
  {
    var periods := s.Periods(current, backfill);
    assert periods[|periods| - 1] == current;
    i := PlannedPost(subs, current, backfill, s, current);
  }

  /** A clean pass leaves each planned post's cell as the faultless post would. */
  lemma CleanPassAtCell(rows: Rows, posts: seq<Post>, w: Weather, i: nat)
    requires CellsDistinct(posts) && Clean(rows, posts, w) && i < |posts|
    ensures var k := posts[i].Cell();
            Entries(PassRows(rows, posts, w), k) == Posted(Entries(rows, k), posts[i], NoFault)
  {
    var p, f, before := posts[i], w.FaultAt(i), After(rows, posts, w, i);
    AfterAtCell(rows, posts, w, |posts|, i);
    AfterAtCell(rows, posts, w, i, i);
    AnsweredThroughAt(rows, posts, w, |posts|, i);
    PostCommitsOrNot(before, p, f);
    StepFrame(before, p, f, p.Cell());
    StepFrame(before, p, NoFault, p.Cell());
  }

  /** After a clean pass the current period's net is exactly the configured fee, for every subscription. */
  lemma CurrentNetIsFee(world: World, t: Tick, s: Subscription)
    requires ValidConfig(world.subs) && world.PassClean(t) && s in world.subs
    ensures Net(Entries(Next(world, Pass(t)).rows, s.Cell(t.current))) == s.fee
  {
    var posts := world.Posts(t.current);
    var i := CurrentPost(world.subs, t.current, world.backfill, s);
    ValidCellsDistinct(world.subs, t.current, world.backfill);
    CleanPassAtCell(world.rows, posts, t.weather, i);
    PostSettles(Entries(world.rows, s.Cell(t.current)), posts[i]);
  }

  /** A post to a period that is not current leaves a posted cell alone. */
  lemma {:induction false} PassKeepsPosted(rows: Rows, posts: seq<Post>, w: Weather, n: nat, k: Key)
    requires n <= |posts| && Entries(rows, k) != []
    requires forall i :: 0 <= i < n && posts[i].Cell() == k ==> posts[i].kind.Filling?
    ensures Entries(After(rows, posts, w, n), k) == Entries(rows, k)
  {
    if n > 0 {
      PassKeepsPosted(rows, posts, w, n - 1, k);
      StepFrame(After(rows, posts, w, n - 1), posts[n - 1], w.FaultAt(n - 1), k);
    }
  }

  /** Whatever a step does, it changes a posted cell only in the period it takes to be current. */
  lemma StepKeepsClosed(world: World, e: Event, k: Key)
    requires Entries(world.rows, k) != []
    requires e.Pass? ==> e.tick.current != k.period
    ensures Entries(Next(world, e).rows, k) == Entries(world.rows, k)
  {
    if e.Pass? {
      var t := e.tick;
      var posts := world.Posts(t.current);
      forall i | 0 <= i < |posts| && posts[i].Cell() == k
        ensures posts[i].kind.Filling?
      {
        AllPostsMember(world.subs, t.current, world.backfill, posts[i]);
      }
      PassKeepsPosted(world.rows, posts, t.weather, Attempted(posts, t.weather), k);
    }
  }

  /** Exactly when a clean pass restates a posted month: the month is the current one and
      its net is not the configured fee. */
  lemma CleanPassRestates(world: World, t: Tick, s: Subscription, m: Month)
    requires ValidConfig(world.subs) && world.PassClean(t) && s in world.subs && IsPosted(world.rows, s, m)
    ensures Entries(Next(world, Pass(t)).rows, s.Cell(m)) != Entries(world.rows, s.Cell(m)) <==>
            m == t.current && Net(Entries(world.rows, s.Cell(m))) != s.fee
  {
    if m != t.current {
      StepKeepsClosed(world, Pass(t), s.Cell(m));
    } else {
      CurrentNetIsFee(world, t, s);
      if Net(Entries(world.rows, s.Cell(m))) == s.fee {
        SettledCellKept(world, t, s);
      }
    }
  }

  /** A current period already at its fee is left alone. */
  lemma SettledCellKept(world: World, t: Tick, s: Subscription)
    requires ValidConfig(world.subs) && s in world.subs
    requires Net(Entries(world.rows, s.Cell(t.current))) == s.fee
    ensures Entries(Next(world, Pass(t)).rows, s.Cell(t.current)) == Entries(world.rows, s.Cell(t.current))
  {
    var posts := world.Posts(t.current);
    var i := CurrentPost(world.subs, t.current, world.backfill, s);
    ValidCellsDistinct(world.subs, t.current, world.backfill);
    AfterAtCell(world.rows, posts, t.weather, Attempted(posts, t.weather), i);
  }

  /** No pass takes month m to be the current one. */
  predicate NeverCurrent(events: seq<Event>, m: Month) {
    forall e :: e in events && e.Pass? ==> e.tick.current != m
  }

  /** Closed months are never restated: once a period has a posting and no later pass takes it
      to be current, as under a clock that has moved past it for good, no fee edit, restart,
      failure or retry ever changes its entries. */
  lemma {:induction false} ClosedNeverRestated(world: World, later: seq<Event>, k: Key)
    requires Entries(world.rows, k) != [] && NeverCurrent(later, k.period)
    ensures Entries(Play(world, later).rows, k) == Entries(world.rows, k)
  {
    if later != [] {
      var before, e := later[..|later| - 1], later[|later| - 1];
      assert later == before + [e];
      assert NeverCurrent(before, k.period) by {
        assert forall x :: x in before ==> x in later;
      }
      ClosedNeverRestated(world, before, k);
      StepKeepsClosed(Play(world, before), e, k);
    }
  }

  /** The i-th post of a pass restates this posted cell: it converges it, with a fee that is
      not its net, and it is attempted and commits. */
  predicate RestatesAt(world: World, t: Tick, k: Key, i: nat) {
    var posts := world.Posts(t.current);
    && i < Attempted(posts, t.weather) && posts[i].Cell() == k && posts[i].kind.Converging?
    && !t.weather.FaultAt(i).RolledBack? && posts[i].fee != Net(Entries(world.rows, k))
  }

  ghost predicate Restates(world: World, e: Event, k: Key) {
    e.Pass? && exists i :: RestatesAt(world, e.tick, k, i)
  }

  lemma PassRestatesAt(world: World, t: Tick, k: Key, i: nat)
    requires ValidConfig(world.subs) && Entries(world.rows, k) != []
    requires i < |world.Posts(t.current)| && world.Posts(t.current)[i].Cell() == k
    ensures Entries(Next(world, Pass(t)).rows, k) != Entries(world.rows, k) <==> RestatesAt(world, t, k, i)
  {
    var posts := world.Posts(t.current);
    ValidCellsDistinct(world.subs, t.current, world.backfill);
    AllPostsMember(world.subs, t.current, world.backfill, posts[i]);
    AfterAtCell(world.rows, posts, t.weather, Attempted(posts, t.weather), i);
  }

  /** Exactly when one event restates a posted cell, clean pass or broken. */
  lemma EventRestates(world: World, e: Event, k: Key)
    requires ValidConfig(world.subs) && Entries(world.rows, k) != []
    ensures Entries(Next(world, e).rows, k) != Entries(world.rows, k) <==> Restates(world, e, k)
    ensures Restates(world, e, k) ==> e.tick.current == k.period
  {
    if e.Pass? {
      var t, posts := e.tick, world.Posts(e.tick.current);
      if i :| 0 <= i < |posts| && posts[i].Cell() == k {
        PassRestatesAt(world, t, k, i);
        ValidCellsDistinct(world.subs, t.current, world.backfill);
        AllPostsMember(world.subs, t.current, world.backfill, posts[i]);
      } else {
        AfterElsewhere(world.rows, posts, t.weather, Attempted(posts, t.weather), k);
      }
    }
  }

  /** Some event of this history restates the cell. */
  ghost predicate EverRestated(world: World, later: seq<Event>, k: Key) {
    later != [] &&
    (EverRestated(world, later[..|later| - 1], k) || Restates(Play(world, later[..|later| - 1]), later[|later| - 1], k))
  }

  /** Exactly when a posted cell changes over a history: when some pass of it takes the month to
      be current and commits a converging post with a fee that is not the net it finds. */
  lemma {:induction false} ChangedIffRestated(world: World, later: seq<Event>, k: Key)
    requires ValidConfig(world.subs) && ValidEvents(later) && Entries(world.rows, k) != []
    ensures var after := Play(world, later);
            && ValidConfig(after.subs) && Entries(world.rows, k) <= Entries(after.rows, k)
            && (Entries(after.rows, k) != Entries(world.rows, k) <==> EverRestated(world, later, k))
  {
    if later != [] {
      var before, e := later[..|later| - 1], later[|later| - 1];
      assert later == before + [e];
      assert ValidEvents(before) by {
        assert forall x :: x in before ==> x in later;
      }
      ChangedIffRestated(world, before, k);
      EventRestates(Play(world, before), e, k);
      NextGrows(Play(world, before), e, k);
    }
  }

  /** The clock is what protects them: after a raise, one pass under a clock set back into
      a closed month restates it. */
  lemma ClockSetBackRestates()
    ensures var plan := Subscription("glm@h", "acme", 100, Absent);
            var raised := plan.(fee := 120);
            var calm := Weather(None, []);
            var past := [Start([plan]), Pass(Tick(5, calm)), Pass(Tick(6, calm)), Start([raised])];
            var before := Play(Fresh(map[]), past);
            var after := Play(before, [Pass(Tick(5, calm))]);
            Net(Entries(before.rows, plan.Cell(5))) == 100 && Net(Entries(after.rows, plan.Cell(5))) == 120
  {
    var plan := Subscription("glm@h", "acme", 100, Absent);
    var raised := plan.(fee := 120);
    var calm := Weather(None, []);
    var k := plan.Cell(5);
    var e0, e1, e2, e3 := Start([plan]), Pass(Tick(5, calm)), Pass(Tick(6, calm)), Start([raised]);
    var start := Fresh(map[]);
    var w0, w1 := Next(start, e0), Next(Next(start, e0), e1);
    PlayFour(start, e0, e1, e2, e3);
    var before := Play(start, [e0, e1, e2, e3]);
    SinglePass(w0, plan, 5);
    StepKeepsClosed(w1, e2, k);
    SinglePass(before, raised, 5);
    PlayAppend(before, [], Pass(Tick(5, calm)));
    assert [] + [Pass(Tick(5, calm))] == [Pass(Tick(5, calm))];
  }

  lemma PlayAppend(world: World, events: seq<Event>, e: Event)
    ensures Play(world, events + [e]) == Next(Play(world, events), e)
  {
    assert (events + [e])[..|events|] == events;
  }

  lemma PlayFour(world: World, a: Event, b: Event, c: Event, d: Event)
    ensures Play(world, [a, b, c, d]) == Next(Next(Next(Next(world, a), b), c), d)
  {
    PlayAppend(world, [], a);
    PlayAppend(world, [a], b);
    PlayAppend(world, [a, b], c);
    PlayAppend(world, [a, b, c], d);
    assert [] + [a] == [a] && [a] + [b] == [a, b] && [a, b] + [c] == [a, b, c] && [a, b, c] + [d] == [a, b, c, d];
  }

  /** One calm pass over one subscription without active_since brings its current net to the fee. */
  lemma SinglePass(world: World, s: Subscription, current: Month)
    requires world.subs == [s] && ValidConfig([s])
    ensures Net(Entries(Next(world, Pass(Tick(current, Weather(None, [])))).rows, s.Cell(current))) == s.fee
  {
    var t := Tick(current, Weather(None, []));
    CalmIsClean(world.rows, world.Posts(current), |world.Posts(current)|, world.subs, current, world.backfill);
    CurrentNetIsFee(world, t, s);
  }

  /** In calm weather a valid configuration's pass is clean. */
  lemma {:induction false} CalmIsClean(rows: Rows, posts: seq<Post>, n: nat, subs: seq<Subscription>, current: Month,
                                       backfill: bool)
    requires ValidConfig(subs) && posts == AllPosts(subs, current, backfill) && n <= |posts|
    ensures AnsweredThrough(rows, posts, Weather(None, []), n)
  {
    if n > 0 {
      CalmIsClean(rows, posts, n - 1, subs, current, backfill);
      AllPostsMember(subs, current, backfill, posts[n - 1]);
    }
  }

  // ---------- crash-resume confluence ----------

  /** One uninterrupted, faultless startup pass. */
  function Ideal(rows: Rows, subs: seq<Subscription>, current: Month): Rows {
    PassRows(rows, AllPosts(subs, current, true), Weather(None, []))
  }

  /** Each cell of `rows` is as it was in `start` or as in `goal`. */
  ghost predicate Between(start: Rows, rows: Rows, goal: Rows) {
    forall k :: Entries(rows, k) == Entries(start, k) || Entries(rows, k) == Entries(goal, k)
  }

  ghost predicate SameLedger(a: Rows, b: Rows) {
    forall k :: Entries(a, k) == Entries(b, k)
  }

  /** A tick's posts are among the startup pass's. */
  lemma TickPostIsPlanned(subs: seq<Subscription>, current: Month, backfill: bool, p: Post)
    requires p in AllPosts(subs, current, backfill)
    ensures p in AllPosts(subs, current, true)
  {
    AllPostsMember(subs, current, backfill, p);
    var s :| s in subs && p in s.Posts(current, backfill);
    var j :| 0 <= j < |s.Posts(current, backfill)| && s.Posts(current, backfill)[j] == p;
    var full := s.Periods(current, true);
    assert full[|full| - 1] == current;
    assert p.period in full;
    OwnPost(s, current, true, p.period);
    AllPostsMember(subs, current, true, p);
  }

  /** What the ideal pass makes of the cell of one planned post. */
  lemma IdealAtCell(rows: Rows, subs: seq<Subscription>, current: Month, p: Post)
    requires ValidConfig(subs) && p in AllPosts(subs, current, true)
    ensures Entries(Ideal(rows, subs, current), p.Cell()) == Posted(Entries(rows, p.Cell()), p, NoFault)
    ensures p.Accepted() && p.fee > 0
  {
    var posts := AllPosts(subs, current, true);
    var i :| 0 <= i < |posts| && posts[i] == p;
    ValidCellsDistinct(subs, current, true);
    AfterAtCell(rows, posts, Weather(None, []), |posts|, i);
    AllPostsMember(subs, current, true, p);
  }

  /** A pass, however broken, moves a cell only from where it started to where the ideal
      pass puts it; a clean startup pass moves every cell there. */
  lemma PassStaysBetween(start: Rows, rows: Rows, subs: seq<Subscription>, current: Month, backfill: bool, w: Weather,
                         k: Key)
    requires ValidConfig(subs) && Between(start, rows, Ideal(start, subs, current))
    ensures var posts, goal := AllPosts(subs, current, backfill), Ideal(start, subs, current);
            var after := Entries(PassRows(rows, posts, w), k);
            && (after == Entries(rows, k) || after == Entries(goal, k))
            && (Entries(rows, k) == Entries(goal, k) ==> after == Entries(goal, k))
            && (backfill && Clean(rows, posts, w) ==> after == Entries(goal, k))
  {
    var posts, goal := AllPosts(subs, current, backfill), Ideal(start, subs, current);
    var n := Attempted(posts, w);
    ValidCellsDistinct(subs, current, backfill);
    if i :| 0 <= i < |posts| && posts[i].Cell() == k {
      var p := posts[i];
      TickPostIsPlanned(subs, current, backfill, p);
      IdealAtCell(start, subs, current, p);
      AfterAtCell(rows, posts, w, n, i);
      AfterAtCell(rows, posts, w, i, i);
      PostSettles(Entries(start, k), p);
      PostCommitsOrNot(rows, p, w.FaultAt(i));
      if Clean(rows, posts, w) {
        CleanPassAtCell(rows, posts, w, i);
      }
    } else {
      AfterElsewhere(rows, posts, w, n, k);
      if backfill {
        AfterElsewhere(start, posts, Weather(None, []), |posts|, k);
      }
    }
  }

  /** Nothing but passes in one month, and restarts with one configuration. */
  predicate Steady(events: seq<Event>, subs: seq<Subscription>, current: Month) {
    forall e :: e in events ==> if e.Start? then e.subs == subs else e.tick.current == current
  }

  /** Some pass of the history was clean with catch-up still due. */
  predicate CaughtUp(start: World, events: seq<Event>) {
    if events == [] then false
    else
      var before, e := events[..|events| - 1], events[|events| - 1];
      CaughtUp(start, before) ||
      (e.Pass? && Play(start, before).backfill && Play(start, before).PassClean(e.tick))
  }

  /** Crash-resume confluence.  In one month under one configuration, any mixture of failed,
      half-committed, cancelled and clean passes and of restarts keeps every cell between
      where it started and where one uninterrupted pass would put it; and once some
      catch-up pass was clean, the ledger is exactly the uninterrupted one's, for good. */
  lemma {:induction false} Confluence(rows: Rows, subs: seq<Subscription>, current: Month, events: seq<Event>)
    requires ValidConfig(subs) && Steady(events, subs, current)
    ensures var start, goal := World(rows, subs, true, []), Ideal(rows, subs, current);
            var world := Play(start, events);
            && world.subs == subs
            && Between(rows, world.rows, goal)
            && (CaughtUp(start, events) ==> SameLedger(world.rows, goal))
            && (!world.backfill ==> CaughtUp(start, events))
  {
    var start, goal := World(rows, subs, true, []), Ideal(rows, subs, current);
    if events != [] {
      var before, e := events[..|events| - 1], events[|events| - 1];
      assert events == before + [e];
      assert Steady(before, subs, current) by {
        assert forall x :: x in before ==> x in events;
      }
      Confluence(rows, subs, current, before);
      var world := Play(start, before);
      if e.Pass? {
        PassStep(rows, world, current, e.tick);
      }
    }
  }

  /** One pass of Confluence's induction. */
  lemma PassStep(rows: Rows, world: World, current: Month, t: Tick)
    requires ValidConfig(world.subs) && t.current == current
    requires Between(rows, world.rows, Ideal(rows, world.subs, current))
    ensures var goal, after := Ideal(rows, world.subs, current), Next(world, Pass(t)).rows;
            && Between(rows, after, goal)
            && (SameLedger(world.rows, goal) || (world.backfill && world.PassClean(t)) ==> SameLedger(after, goal))
  {
    forall k {
      PassStaysBetween(rows, world.rows, world.subs, current, world.backfill, t.weather, k);
    }
  }

  /** After it, a further pass changes nothing at all ... */
  lemma {:induction false} CaughtUpChangesNothing(start: Rows, rows: Rows, subs: seq<Subscription>, current: Month,
                                                  backfill: bool,
                                                  posts: seq<Post>, w: Weather, n: nat)
    requires ValidConfig(subs) && SameLedger(rows, Ideal(start, subs, current))
    requires posts == AllPosts(subs, current, backfill) && n <= |posts|
    ensures After(rows, posts, w, n) == rows
  {
    if n > 0 {
      CaughtUpChangesNothing(start, rows, subs, current, backfill, posts, w, n - 1);
      NothingWanted(start, rows, subs, current, backfill, posts[n - 1]);
      StepOfNothing(rows, posts[n - 1], w.FaultAt(n - 1));
    }
  }

  lemma StepOfNothing(rows: Rows, p: Post, f: Fault)
    requires p.Accepted() && p.Wanted(Entries(rows, p.Cell())).None?
    ensures Step(rows, p, f) == rows && (Answer(rows, p, f).Ok? ==> Answer(rows, p, f) == Ok(0))
  {
  }

  /** ... and every post it makes reports a zero delta. */
  lemma CaughtUpPostsZero(start: Rows, rows: Rows, subs: seq<Subscription>, current: Month, backfill: bool,
                          w: Weather, i: nat)
    requires ValidConfig(subs) && SameLedger(rows, Ideal(start, subs, current))
    requires i < |AllPosts(subs, current, backfill)|
    ensures var posts := AllPosts(subs, current, backfill);
            Answered(rows, posts, w, i) ==> Answer(After(rows, posts, w, i), posts[i], w.FaultAt(i)) == Ok(0)
  {
    var posts := AllPosts(subs, current, backfill);
    CaughtUpChangesNothing(start, rows, subs, current, backfill, posts, w, i);
    NothingWanted(start, rows, subs, current, backfill, posts[i]);
    StepOfNothing(rows, posts[i], w.FaultAt(i));
  }

  lemma NothingWanted(start: Rows, rows: Rows, subs: seq<Subscription>, current: Month, backfill: bool, p: Post)
    requires ValidConfig(subs) && SameLedger(rows, Ideal(start, subs, current))
    requires p in AllPosts(subs, current, backfill)
    ensures p.Accepted() && p.Wanted(Entries(rows, p.Cell())).None?
  {
    TickPostIsPlanned(subs, current, backfill, p);
    IdealAtCell(start, subs, current, p);
    PostSettles(Entries(start, p.Cell()), p);
  }
}
