/** The fee reconciler behind the seal gate: a certified month is a month whose fees are posted. */
module SealedFees {
  import opened Wrappers
  import opened Periods
  import opened FeeLedger
  import opened FeeReconciler
  import opened FeeHistory
  import opened FeeTheorems
  import SourceWatermark

  /** A history together with the watermark its announcements advance.  `recorded` says
      whether the watermark write behind an announcement took effect: a failed one leaves
      the row where it was, and the next clean pass tries again. */
  datatype Gated = Gated(world: World, mark: SourceWatermark.Watermark)

  datatype Moment = Moment(event: Event, recorded: bool)

  function GateNext(g: Gated, m: Moment): Gated {
    var after := Next(g.world, m.event);
    var a := if m.event.Pass? then Announcement(g.world, m.event.tick) else None;
    if m.recorded && a.Some? && a.value.start <= a.value.end
    then Gated(after, SourceWatermark.Advanced(g.mark, a.value.start, a.value.end))
    else g.(world := after)
  }

  function GatePlay(rows: Rows, moments: seq<Moment>): Gated {
    if moments == [] then Gated(Fresh(rows), SourceWatermark.UNSETTLED)
    else GateNext(GatePlay(rows, moments[..|moments| - 1]), moments[|moments| - 1])
  }

  function EventsOf(moments: seq<Moment>): seq<Event> {
    seq(|moments|, i requires 0 <= i < |moments| => moments[i].event)
  }

  function Spans(settled: seq<Settlement>): seq<SourceWatermark.Span> {
    seq(|settled|, i requires 0 <= i < |settled| =>
      SourceWatermark.Span(settled[i].window.start, settled[i].window.end))
  }

  /** Recorded or not, the watermark covers only what was announced. */
  lemma {:induction false} GateFollowsAnnouncements(rows: Rows, moments: seq<Moment>)
    ensures var g := GatePlay(rows, moments);
            g.world == Play(Fresh(rows), EventsOf(moments)) &&
            SourceWatermark.RunsProved(g.mark, Spans(g.world.settled))
  {
    if moments != [] {
      var before, m := moments[..|moments| - 1], moments[|moments| - 1];
      GateFollowsAnnouncements(rows, before);
      assert EventsOf(moments)[..|before|] == EventsOf(before);
      GateStep(GatePlay(rows, before), m);
    }
  }

  lemma GateStep(g: Gated, m: Moment)
    requires SourceWatermark.RunsProved(g.mark, Spans(g.world.settled))
    ensures var after := GateNext(g, m);
            after.world == Next(g.world, m.event) && SourceWatermark.RunsProved(after.mark, Spans(after.world.settled))
  {
    var a := if m.event.Pass? then Announcement(g.world, m.event.tick) else None;
    if a.Some? {
      var d := SourceWatermark.Span(a.value.start, a.value.end);
      assert Spans(Next(g.world, m.event).settled) == Spans(g.world.settled) + [d];
      if m.recorded && d.start <= d.end {
        SourceWatermark.AdvancedProved(g.mark, Spans(g.world.settled), d);
      } else {
        ProvedKept(g.mark, Spans(g.world.settled), d);
      }
    }
  }

  lemma ProvedKept(w: SourceWatermark.Watermark, log: seq<SourceWatermark.Span>, d: SourceWatermark.Span)
    requires SourceWatermark.RunsProved(w, log)
    ensures SourceWatermark.RunsProved(w, log + [d])
  {
    forall x | SourceWatermark.Proved(log, x)
      ensures SourceWatermark.Proved(log + [d], x)
    {
      var e :| e in log && e.Includes(x);
      assert e in log + [d];
    }
  }

  /** End to end: if the gate certifies a month for the subscription-fee source, then some
      process announced it, and every subscription of that process's configuration that
      owes the month has its posting in the ledger now. */
  lemma CertifiedMonthIsPosted(rows: Rows, moments: seq<Moment>, month: Month)
    requires ValidEvents(EventsOf(moments))
    requires GatePlay(rows, moments).mark.Covers(month, month + 1)
    ensures var world := GatePlay(rows, moments).world;
            exists e :: e in world.settled && e.window.start <= month < e.window.end &&
                        forall s :: s in e.subs && s.Owes(month) ==> IsPosted(world.rows, s, month)
  {
    GateFollowsAnnouncements(rows, moments);
    SettledSound(rows, EventsOf(moments));
    var g := GatePlay(rows, moments);
    var spans := Spans(g.world.settled);
    assert SourceWatermark.Proved(spans, month);
    var d :| d in spans && d.Includes(month);
    var i :| 0 <= i < |spans| && spans[i] == d;
    assert g.world.settled[i] in g.world.settled;
  }

  // ---------- and what was caught up is certified ----------

  /** No pass of these took a later month to be the current one: the clock was not ahead. */
  predicate NeverAhead(moments: seq<Moment>, current: Month) {
    forall m :: m in moments && m.event.Pass? ==> m.event.tick.current <= current
  }

  lemma {:induction false} GateValid(rows: Rows, moments: seq<Moment>)
    ensures GatePlay(rows, moments).mark.Valid()
  {
    if moments != [] {
      GateValid(rows, moments[..|moments| - 1]);
    }
  }

  /** The mark does not reach past the last month a pass took to be current. */
  lemma {:induction false} MarkNeverAhead(rows: Rows, moments: seq<Moment>, current: Month)
    requires NeverAhead(moments, current)
    ensures var run := GatePlay(rows, moments).mark.run; run.Some? ==> run.value.start <= run.value.end <= current + 1
  {
    if moments != [] {
      var before, m := moments[..|moments| - 1], moments[|moments| - 1];
      assert moments == before + [m];
      assert NeverAhead(before, current) by {
        assert forall x :: x in before ==> x in moments;
      }
      MarkNeverAhead(rows, before, current);
      assert m in moments;
    }
  }

  /** Exactly when a clean pass whose watermark write took effect is certified, from the bound it
      vouches from through its month: unless the run that is open began after that month, as
      only under a clock set back, and no run covered it before. */
  lemma CleanPassCertifies(g: Gated, t: Tick, f: Month)
    requires g.mark.Valid() && g.world.PassClean(t) && g.world.subs != []
    requires VouchesFrom(g.world.subs, t.current, g.world.backfill, f)
    ensures var after := GateNext(g, Moment(Pass(t), true)).mark;
            after.Covers(f, t.current + 1) <==>
            || g.mark.run.None? || g.mark.run.value.start <= t.current + 1
            || g.mark.Covers(f, t.current + 1)
  {
    VouchesFromUnique(g.world.subs, t.current, g.world.backfill, f,
                      FirstVouched(g.world.subs, t.current, g.world.backfill));
    assert g.world.subs[0] in g.world.subs;
    SourceWatermark.OwnSpanJoins(g.mark, f, t.current + 1);
    if g.mark.Covers(f, t.current + 1) {
      SourceWatermark.CoversKept(g.mark, f, t.current + 1, f, t.current + 1);
    }
  }

  lemma {:induction false} CertificateStays(rows: Rows, moments: seq<Moment>, i: nat, start: int, end: int)
    requires i <= |moments| && GatePlay(rows, moments[..i]).mark.Covers(start, end)
    ensures GatePlay(rows, moments).mark.Covers(start, end)
  {
    if i < |moments| {
      var before := moments[..|moments| - 1];
      assert before[..i] == moments[..i];
      CertificateStays(rows, before, i, start, end);
      MomentKeepsCertificate(GatePlay(rows, before), moments[|moments| - 1], start, end);
    } else {
      assert moments[..i] == moments;
    }
  }

  lemma MomentKeepsCertificate(g: Gated, m: Moment, start: int, end: int)
    requires g.mark.Covers(start, end)
    ensures GateNext(g, m).mark.Covers(start, end)
  {
    var a := if m.event.Pass? then Announcement(g.world, m.event.tick) else None;
    if m.recorded && a.Some? && a.value.start <= a.value.end {
      SourceWatermark.CoversKept(g.mark, a.value.start, a.value.end, start, end);
    }
  }

  /** Moment i is a clean pass whose watermark write took effect. */
  predicate CleanAt(rows: Rows, moments: seq<Moment>, i: nat) {
    && i < |moments| && moments[i].recorded && moments[i].event.Pass?
    && GatePlay(rows, moments[..i]).world.PassClean(moments[i].event.tick)
  }

  /** What a clean pass vouched for stays certified, if no pass before it was under a clock ahead of its own. */
  lemma CertifiedFromThenOn(rows: Rows, moments: seq<Moment>, i: nat, f: Month)
    requires CleanAt(rows, moments, i) && NeverAhead(moments[..i], moments[i].event.tick.current)
    requires var world := GatePlay(rows, moments[..i]).world;
             world.subs != [] && VouchesFrom(world.subs, moments[i].event.tick.current, world.backfill, f)
    ensures GatePlay(rows, moments).mark.Covers(f, moments[i].event.tick.current + 1)
  {
    var t := moments[i].event.tick;
    GateValid(rows, moments[..i]);
    MarkNeverAhead(rows, moments[..i], t.current);
    CleanPassCertifies(GatePlay(rows, moments[..i]), t, f);
    assert moments[..i + 1][..i] == moments[..i];
    CertificateStays(rows, moments, i + 1, f, t.current + 1);
  }

  /** Since moment j, where a process started, up to moment i, every pass failed. */
  ghost predicate Retrying(rows: Rows, moments: seq<Moment>, j: nat, i: nat) {
    && j < i <= |moments| && moments[j].event.Start?
    && forall n :: j < n < i ==>
         moments[n].event.Pass? && !GatePlay(rows, moments[..n]).world.PassClean(moments[n].event.tick)
  }

  lemma {:induction false} RetryingBackfills(rows: Rows, moments: seq<Moment>, j: nat, i: nat)
    requires Retrying(rows, moments, j, i)
    ensures var world := GatePlay(rows, moments[..i]).world; world.backfill && world.subs == moments[j].event.subs
    decreases i
  {
    assert moments[..i][..i - 1] == moments[..i - 1];
    if i > j + 1 {
      RetryingBackfills(rows, moments, j, i - 1);
    }
  }

  /** Catching up pays off.  A process starts, its passes fail any number of times, and then one
      is clean, with every subscription's active_since in range and the clock not behind what it
      was: from then on, whatever happens, every month from each subscription's active_since
      through that pass's month is certified, and the subscription's fee for it is posted. */
  lemma CatchUpCertified(rows: Rows, moments: seq<Moment>, j: nat, i: nat, s: Subscription, m: Month)
    requires ValidEvents(EventsOf(moments)) && Retrying(rows, moments, j, i) && CleanAt(rows, moments, i)
    requires NeverAhead(moments[..i], moments[i].event.tick.current)
    requires var subs := moments[j].event.subs;
             s in subs && forall x :: x in subs ==> x.RangeUsable(moments[i].event.tick.current)
    requires s.activeSince.period <= m <= moments[i].event.tick.current
    ensures var g := GatePlay(rows, moments); g.mark.Covers(m, m + 1) && IsPosted(g.world.rows, s, m)
  {
    var subs, t := moments[j].event.subs, moments[i].event.tick;
    RetryingBackfills(rows, moments, j, i);
    var f := FirstVouched(subs, t.current, true);
    CertifiedFromThenOn(rows, moments, i, f);
    CaughtUpIsPosted(rows, moments, i, s, m);
  }

  lemma {:induction false} PostingStays(rows: Rows, moments: seq<Moment>, i: nat, s: Subscription, m: Month)
    requires i <= |moments| && IsPosted(GatePlay(rows, moments[..i]).world.rows, s, m)
    ensures IsPosted(GatePlay(rows, moments).world.rows, s, m)
  {
    if i < |moments| {
      var before, last := moments[..|moments| - 1], moments[|moments| - 1];
      assert before[..i] == moments[..i];
      PostingStays(rows, before, i, s, m);
      NextGrows(GatePlay(rows, before).world, last.event, s.Cell(m));
    } else {
      assert moments[..i] == moments;
    }
  }

  lemma EarlierEventsValid(moments: seq<Moment>, i: nat)
    requires i <= |moments| && ValidEvents(EventsOf(moments))
    ensures ValidEvents(EventsOf(moments[..i]))
  {
    forall e | e in EventsOf(moments[..i])
      ensures e in EventsOf(moments)
    {
      var n :| 0 <= n < i && EventsOf(moments[..i])[n] == e;
      assert EventsOf(moments)[n] == e;
    }
  }

  lemma PostedByPass(world: World, t: Tick, s: Subscription, m: Month)
    requires ValidConfig(world.subs) && world.backfill && world.PassClean(t) && s in world.subs
    requires forall x :: x in world.subs ==> x.RangeUsable(t.current)
    requires s.RangeUsable(t.current) && s.activeSince.period <= m <= t.current
    ensures IsPosted(Next(world, Pass(t)).rows, s, m)
  {
    AnnouncedIsPosted(world, t, s, m);
  }

  lemma GateConfigValid(rows: Rows, moments: seq<Moment>)
    requires ValidEvents(EventsOf(moments))
    ensures ValidConfig(GatePlay(rows, moments).world.subs)
  {
    GateFollowsAnnouncements(rows, moments);
    SettledSound(rows, EventsOf(moments));
  }

  lemma OneMoreMoment(rows: Rows, moments: seq<Moment>, i: nat)
    requires i < |moments|
    ensures GatePlay(rows, moments[..i + 1]).world == Next(GatePlay(rows, moments[..i]).world, moments[i].event)
  {
    assert moments[..i + 1][..i] == moments[..i];
  }

  lemma CaughtUpIsPosted(rows: Rows, moments: seq<Moment>, i: nat, s: Subscription, m: Month)
    requires ValidEvents(EventsOf(moments)) && CleanAt(rows, moments, i)
    requires var world, current := GatePlay(rows, moments[..i]).world, moments[i].event.tick.current;
             world.backfill && s in world.subs && forall x :: x in world.subs ==> x.RangeUsable(current)
    requires s.RangeUsable(moments[i].event.tick.current)
    requires s.activeSince.period <= m <= moments[i].event.tick.current
    ensures IsPosted(GatePlay(rows, moments).world.rows, s, m)
  {
    var world, t := GatePlay(rows, moments[..i]).world, moments[i].event.tick;
    EarlierEventsValid(moments, i);
    GateConfigValid(rows, moments[..i]);
    PostedByPass(world, t, s, m);
    OneMoreMoment(rows, moments, i);
    PostingStays(rows, moments, i + 1, s, m);
  }
}
