/** The settled-through watermark the seal gate reads: a source's gap-free runs of
    successful passes.  Instants are integers; a span is half-open. */
module SourceWatermark {
  import opened Wrappers

  datatype Span = Span(start: int, end: int) {
    predicate Includes(x: int) {
      start <= x < end
    }
  }

  /** The source_watermark row and its source_run rows.  run is the current gap-free run,
      gapFrom where the run before it ended, earlier the closed runs by their start. */
  datatype Watermark = Watermark(run: Option<Span>, gapFrom: Option<int>, earlier: map<int, int>) {
    /** One run covers all of start..end. */
    predicate Covers(start: int, end: int) {
      || (run.Some? && run.value.start <= start && end <= run.value.end)
      || (exists c :: c in earlier && c <= start && end <= earlier[c])
    }

    /** A recorded gap lies before the run that follows it, and no run is inverted. */
    predicate Valid() {
      && (run.Some? ==> run.value.start <= run.value.end)
      && (gapFrom.Some? ==> run.Some? && gapFrom.value < run.value.start)
    }
  }

  const UNSETTLED := Watermark(None, None, map[])

  /** The row after a pass that proved f..t complete. */
  function Advanced(w: Watermark, f: int, t: int): Watermark
    requires f <= t
  {
    if w.run.None? then w.(run := Some(Span(f, t)))
    else
      var Span(c, s) := w.run.value;
      if f > s then
        var closed := if c in w.earlier && s < w.earlier[c] then w.earlier[c] else s;
        Watermark(Some(Span(f, t)), Some(s), w.earlier[c := closed])
      else
        var start := if t >= c && f < c then f else c;
        var end := if s < t then t else s;
        var gap := if t >= c && w.gapFrom.Some? && f <= w.gapFrom.value then None else w.gapFrom;
        Watermark(Some(Span(start, end)), gap, w.earlier)
  }

  lemma AdvancedValid(w: Watermark, f: int, t: int)
    requires w.Valid() && f <= t
    ensures Advanced(w, f, t).Valid()
  {
  }

  /** No advance ever takes a certificate away. */
  lemma CoversKept(w: Watermark, f: int, t: int, start: int, end: int)
    requires f <= t && w.Covers(start, end)
    ensures Advanced(w, f, t).Covers(start, end)
  {
    var after := Advanced(w, f, t);
    if w.run.Some? && w.run.value.start <= start && end <= w.run.value.end {
      if f > w.run.value.end {
        assert w.run.value.start in after.earlier;
      }
    } else {
      var c :| c in w.earlier && c <= start && end <= w.earlier[c];
      assert c in after.earlier;
    }
  }

  /** The pass's own span joins the current run, except exactly when it ended before that
      run began and so cannot be joined to it without certifying the hole between. */
  lemma OwnSpanJoins(w: Watermark, f: int, t: int)
    requires w.Valid() && f <= t
    ensures var run := Advanced(w, f, t).run;
            run.Some? &&
            (run.value.start <= f && t <= run.value.end <==>
             w.run.None? || w.run.value.end < f || w.run.value.start <= t)
  {
  }

  /** The recorded gap is the hole before the current run: it begins where the run before ended
      when a pass leaves one, and is forgotten exactly when the run comes to reach back over it. */
  lemma GapIsTheHole(w: Watermark, f: int, t: int)
    requires w.Valid() && f <= t
    ensures var after := Advanced(w, f, t);
            if w.run.Some? && w.run.value.end < f
            then after.gapFrom == Some(w.run.value.end) && after.Covers(w.run.value.start, w.run.value.end)
            else after.gapFrom ==
                 if w.gapFrom.Some? && after.run.value.start <= w.gapFrom.value then None else w.gapFrom
  {
    if w.run.Some? {
      CoversKept(w, f, t, w.run.value.start, w.run.value.end);
    }
  }

  function Replay(log: seq<Span>): Watermark
    requires forall d :: d in log ==> d.start <= d.end
  {
    if log == [] then UNSETTLED
    else
      var front, d := log[..|log| - 1], log[|log| - 1];
      assert forall x :: x in front ==> x in log;
      Advanced(Replay(front), d.start, d.end)
  }

  ghost predicate Proved(log: seq<Span>, x: int) {
    exists d :: d in log && d.Includes(x)
  }

  /** Every instant of every run was proved by some pass. */
  ghost predicate RunsProved(w: Watermark, log: seq<Span>) {
    && (forall x :: w.run.Some? && w.run.value.Includes(x) ==> Proved(log, x))
    && (forall c, x :: c in w.earlier && c <= x < w.earlier[c] ==> Proved(log, x))
  }

  lemma AdvancedProved(w: Watermark, log: seq<Span>, d: Span)
    requires RunsProved(w, log) && d.start <= d.end
    ensures RunsProved(Advanced(w, d.start, d.end), log + [d])
  {
    var after := Advanced(w, d.start, d.end);
    assert d in log + [d];
    forall x | Proved(log, x) || d.Includes(x)
      ensures Proved(log + [d], x)
    {
      if !d.Includes(x) {
        var e :| e in log && e.Includes(x);
        assert e in log + [d];
      }
    }
    forall x | after.run.value.Includes(x)
      ensures Proved(log + [d], x)
    {
      assert d.Includes(x) || (w.run.Some? && w.run.value.Includes(x));
    }
    forall c, x | c in after.earlier && c <= x < after.earlier[c]
      ensures Proved(log + [d], x)
    {
      assert (c in w.earlier && x < w.earlier[c]) || (w.run.Some? && w.run.value.Includes(x));
    }
  }

  /** No gap is ever certified: whatever passes a source made, in whatever order, every
      instant the watermark covers was proved by one of them. */
  lemma {:induction false} CoversSound(log: seq<Span>)
    requires forall d :: d in log ==> d.start <= d.end
    ensures RunsProved(Replay(log), log) && Replay(log).Valid()
    ensures forall start, end, x :: Replay(log).Covers(start, end) && start <= x < end ==> Proved(log, x)
  {
    if log != [] {
      var front, d := log[..|log| - 1], log[|log| - 1];
      assert log == front + [d];
      assert forall x :: x in front ==> x in log;
      CoversSound(front);
      AdvancedProved(Replay(front), front, d);
      AdvancedValid(Replay(front), d.start, d.end);
    }
  }

  class WatermarkRow {
    var run: Option<Span>
    var gapFrom: Option<int>
    var earlier: map<int, int>

    function Value(): Watermark
      reads this
    {
      Watermark(run, gapFrom, earlier)
    }

    constructor ()
      ensures Value() == UNSETTLED
    {
      run, gapFrom, earlier := None, None, map[];
    }

    /** Closes the current run when the new one starts past its end, then updates the row;
        every right-hand side reads the row as it was. */
    method Advance(f: int, t: int) returns (ok: bool)
      modifies this
      ensures ok <==> f <= t
      ensures Value() == if f <= t then Advanced(old(Value()), f, t) else old(Value())
    {
      if t < f {
        return false;
      }
      if run.Some? && f > run.value.end {
        var c, s := run.value.start, run.value.end;
        earlier := earlier[c := if c in earlier && s < earlier[c] then earlier[c] else s];
      }
      gapFrom, run :=
        (if run.None? then gapFrom
         else if f > run.value.end then Some(run.value.end)
         else if t >= run.value.start && gapFrom.Some? && f <= gapFrom.value then None
         else gapFrom),
        Some(Span(
          if run.None? || f > run.value.end then f
          else if t >= run.value.start && f < run.value.start then f
          else run.value.start,
          if run.None? || f > run.value.end || run.value.end < t then t else run.value.end));
      ok := true;
    }
  }
}
