/** The reconciler's loop, and whole histories of it: processes start with some configuration,
    tick, fail, are cancelled, and start again over the same ledger. */
module FeeHistory {
  import opened Wrappers
  import opened Periods
  import opened FeeLedger
  import opened FeeReconciler

  /** A settled announcement: every fee owed from `start` up to but not including `end` is posted. */
  datatype Window = Window(start: Month, end: Month)

  datatype Tick = Tick(current: Month, weather: Weather)

  /** Start is a process starting with this configuration; Pass is one pass of its loop. */
  datatype Event = Start(subs: seq<Subscription>) | Pass(tick: Tick)

  /** An announcement, with the configuration of the process that made it. */
  datatype Settlement = Settlement(subs: seq<Subscription>, window: Window)

  datatype World = World(rows: Rows, subs: seq<Subscription>, backfill: bool, settled: seq<Settlement>) {
    function Posts(current: Month): seq<Post> {
      AllPosts(subs, current, backfill)
    }

    predicate PassClean(t: Tick) {
      Clean(rows, Posts(t.current), t.weather)
    }
  }

  function EarliestSince(subs: seq<Subscription>): (m: Month)
    requires subs != [] && forall s :: s in subs ==> s.activeSince.Since?
    ensures exists s :: s in subs && s.activeSince == Since(m)
    ensures forall s :: s in subs ==> m <= s.activeSince.period
  {
    var last := subs[|subs| - 1];
    var front := subs[..|subs| - 1];
    assert subs == front + [last];
    if front == [] then last.activeSince.period
    else
      var rest := EarliestSince(front);
      if last.activeSince.period < rest then last.activeSince.period else rest
  }

  /** The period a clean pass announces from. */
  function FirstVouched(subs: seq<Subscription>, current: Month, backfill: bool): (f: Month)
    requires subs != []
    ensures VouchesFrom(subs, current, backfill, f)
  {
    if forall s :: s in subs ==> Backfilled(s, current, backfill) then EarliestSince(subs) else current
  }

  lemma VouchesFromUnique(subs: seq<Subscription>, current: Month, backfill: bool, f: Month, g: Month)
    requires VouchesFrom(subs, current, backfill, f) && VouchesFrom(subs, current, backfill, g)
    ensures f == g
  {
    if forall s :: s in subs ==> Backfilled(s, current, backfill) {
      var s :| s in subs && s.activeSince == Since(f);
      var t :| t in subs && t.activeSince == Since(g);
      assert f <= t.activeSince.period && g <= s.activeSince.period;
    }
  }

  function Announcement(world: World, t: Tick): Option<Window> {
    if world.PassClean(t) && world.subs != [] then
      Some(Window(FirstVouched(world.subs, t.current, world.backfill), t.current + 1))
    else None
  }

  function Next(world: World, e: Event): World {
    match e
    case Start(subs) => world.(subs := subs, backfill := true)
    case Pass(t) =>
      var a := Announcement(world, t);
      World(PassRows(world.rows, world.Posts(t.current), t.weather), world.subs,
            world.backfill && !world.PassClean(t),
            if a.Some? then world.settled + [Settlement(world.subs, a.value)] else world.settled)
  }

  function Play(world: World, events: seq<Event>): World {
    if events == [] then world else Next(Play(world, events[..|events| - 1]), events[|events| - 1])
  }

  /** The goroutine: one pass at once, then one per tick until the context is done. */
  class Reconciler {
    const ledger: Ledger
    const subs: seq<Subscription>
    var backfill: bool

    constructor (ledger: Ledger, subs: seq<Subscription>)
      ensures this.ledger == ledger && this.subs == subs && backfill
    {
      this.ledger, this.subs, this.backfill := ledger, subs, true;
    }

    function State(settled: seq<Settlement>): World
      reads this, ledger
    {
      World(ledger.rows, subs, backfill, settled)
    }

    method Pass(t: Tick, log: seq<Settlement>) returns (log': seq<Settlement>)
      modifies this, ledger
      ensures State(log') == Next(old(State(log)), Event.Pass(t))
      ensures if old(State(log)).PassClean(t) && subs != [] then
                exists f :: VouchesFrom(subs, t.current, old(backfill), f) &&
                            log' == log + [Settlement(subs, Window(f, t.current + 1))]
              else log' == log
    {
      var first, ok := ReconcileOnce(ledger, subs, t.current, backfill, t.weather);
      if ok && first.Some? {
        VouchesFromUnique(subs, t.current, backfill, first.value, FirstVouched(subs, t.current, backfill));
        log' := log + [Settlement(subs, Window(first.value, t.current + 1))];
      } else {
        log' := log;
      }
      backfill := backfill && !ok;
    }

    method Run(ticks: seq<Tick>) returns (log: seq<Settlement>)
      modifies this, ledger
      ensures State(log) == Play(old(State([])), seq(|ticks|, i requires 0 <= i < |ticks| => Event.Pass(ticks[i])))
    {
      ghost var events := seq(|ticks|, i requires 0 <= i < |ticks| => Event.Pass(ticks[i]));
      log := [];
      for i := 0 to |ticks|
        invariant State(log) == Play(old(State([])), events[..i])
      {
        assert events[..i + 1][..i] == events[..i];
        log := Pass(ticks[i], log);
      }
      assert events[..|ticks|] == events;
    }
  }
}
