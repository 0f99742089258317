/** The k-anonymity floor: what a group of labeled rows must satisfy to be published. */
module KAnonymity {
  const MIN_K := 3
  const OTHER := "other"

  /** One developer's score over the part of a window spent in one group. */
  datatype Score = Score(developer: string, outcomeN: int, sampleN: int, points: real, cost: real, paid: real,
      coverage: real) {
    predicate Contributes() {
      outcomeN != 0 || sampleN != 0 || points != 0.0 || cost != 0.0 || paid != 0.0
    }

    /** Contributing without counting paid spend. */
    predicate HasActivity() {
      outcomeN != 0 || sampleN != 0 || points != 0.0 || cost != 0.0
    }

    /** The row publishes a non-zero figure for this measure. */
    predicate Carries(m: Measure) {
      match m
      case Points => outcomeN != 0 || sampleN != 0 || points != 0.0
      case Cost => cost != 0.0
      case Realtime => cost != 0.0 && coverage != 0.0
      case NonRealtime => cost != 0.0 && coverage != 100.0
      case Paid => paid != 0.0
    }
  }

  datatype Measure = Points | Cost | Realtime | NonRealtime | Paid

  datatype Row = Row(team: string, score: Score)

  /** One window's counting rule: who is not a counted person, which rows' cost shares no
      collector captured, and which ids are no persons at all. */
  datatype Census = Census(uncounted: string -> bool, uncaptured: (Score, bool) -> bool, pseudo: string -> bool) {
    predicate Captured(d: Score, m: Measure) {
      match m
      case Points => true
      case Cost => !uncaptured(d, true) || !uncaptured(d, false)
      case Realtime => !uncaptured(d, true)
      case NonRealtime => !uncaptured(d, false)
      case Paid => true
    }

    predicate IsPerson(d: Score) {
      !uncounted(d.developer) && d.HasActivity()
    }

    /** The row's counted person fills this measure's seat; an invoice fills its own even
        without activity. */
    predicate FillsSeat(d: Score, m: Measure) {
      !uncounted(d.developer) && d.Carries(m) && (m == Paid || (d.HasActivity() && Captured(d, m)))
    }

    /** The row makes its group publish a figure for this measure. */
    predicate Publishes(d: Score, m: Measure) {
      d.Carries(m) && !(pseudo(d.developer) && (m == Realtime || m == NonRealtime))
    }
  }

  /** One window: its rows and its counting rule.  A group is a set of row positions. */
  datatype Window = Window(rows: seq<Row>, census: Census) {
    function All(): set<nat> {
      set i: nat {:trigger rows[i]} | i < |rows|
    }

    function Group(team: string): set<nat> {
      set i: nat | i < |rows| && rows[i].team == team
    }

    function Labels(): set<string> {
      set i: nat | i < |rows| :: rows[i].team
    }

    /** The distinct counted people of a group, however many rows each brings. */
    function People(g: set<nat>): set<string> {
      set i: nat | i in g && i < |rows| && census.IsPerson(rows[i].score) :: rows[i].score.developer
    }

    function Carriers(g: set<nat>, m: Measure): set<string> {
      set i: nat | i in g && i < |rows| && census.FillsSeat(rows[i].score, m) :: rows[i].score.developer
    }

    predicate Shows(g: set<nat>, m: Measure) {
      exists i: nat :: i in g && i < |rows| && census.Publishes(rows[i].score, m)
    }

    predicate Measured(g: set<nat>) {
      exists i: nat :: i in g && i < |rows| && rows[i].score.Contributes()
    }

    predicate MeasureClears(g: set<nat>, k: int, m: Measure) {
      Shows(g, m) ==> |Carriers(g, m)| >= k
    }

    /** k counted people, and k of them behind every measure the group publishes. */
    predicate Clears(g: set<nat>, k: int) {
      && |People(g)| >= k
      && MeasureClears(g, k, Points) && MeasureClears(g, k, Cost) && MeasureClears(g, k, Realtime)
      && MeasureClears(g, k, NonRealtime) && MeasureClears(g, k, Paid)
    }

    /** Publishing the group's aggregate singles nobody out: it clears the floor, or nothing
        in it is measured at all. */
    predicate Safe(g: set<nat>, k: int) {
      Clears(g, k) || !Measured(g)
    }

    /** A label that may have a row of its own in this window. */
    predicate Eligible(team: string, k: int) {
      team != OTHER && team != "" && Clears(Group(team), k)
    }
  }

  function Floor(k: int): (floor: int)
    ensures floor >= MIN_K && floor >= k && (floor == k || floor == MIN_K)
  {
    if k < MIN_K then MIN_K else k
  }

  lemma CardinalityMonotone(a: set<string>, b: set<string>)
    requires a <= b
    ensures |a| <= |b|
  {
    assert b == a + (b - a);
  }

  lemma MeasureClearsUnion(w: Window, g: set<nat>, h: set<nat>, k: int, m: Measure)
    requires w.MeasureClears(g, k, m) && w.MeasureClears(h, k, m)
    ensures w.MeasureClears(g + h, k, m)
  {
    CardinalityMonotone(w.Carriers(g, m), w.Carriers(g + h, m));
    CardinalityMonotone(w.Carriers(h, m), w.Carriers(g + h, m));
  }

  lemma UnmeasuredShowsNothing(w: Window, g: set<nat>, m: Measure)
    requires !w.Measured(g)
    ensures !w.Shows(g, m)
  {
  }

  /** Safe groups merge into safe groups: adding people cannot fall below the floor, and a
      group with nothing measured adds nothing to be floored. */
  lemma SafeUnion(w: Window, g: set<nat>, h: set<nat>, k: int)
    requires w.Safe(g, k) && w.Safe(h, k)
    ensures w.Safe(g + h, k)
  {
    if w.Measured(g + h) {
      forall m
        ensures w.MeasureClears(g + h, k, m)
      {
        EachMeasureClears(w, g, k, m);
        EachMeasureClears(w, h, k, m);
        MeasureClearsUnion(w, g, h, k, m);
      }
      CardinalityMonotone(w.People(g), w.People(g + h));
      CardinalityMonotone(w.People(h), w.People(g + h));
    }
  }

  lemma EachMeasureClears(w: Window, g: set<nat>, k: int, m: Measure)
    requires w.Safe(g, k)
    ensures w.MeasureClears(g, k, m)
  {
    if !w.Measured(g) {
      UnmeasuredShowsNothing(w, g, m);
    }
  }

  // ---------- who stands behind a published figure ----------

  /** A counted developer's row stands behind its group's figure for the measure: it has a
      figure of its own, and if that is a cost, one a shared collector captured. */
  predicate Backs(c: Census, d: Score, m: Measure) {
    !c.uncounted(d.developer) &&
    match m
    case Points => d.outcomeN != 0 || d.sampleN != 0 || d.points != 0.0
    case Cost => d.cost != 0.0 && !(c.uncaptured(d, true) && c.uncaptured(d, false))
    case Realtime => d.cost != 0.0 && d.coverage != 0.0 && !c.uncaptured(d, true)
    case NonRealtime => d.cost != 0.0 && d.coverage != 100.0 && !c.uncaptured(d, false)
    case Paid => d.paid != 0.0
  }

  /** The row gives its group a figure for the measure, whoever it is; what a pseudo id cost
      is no one's realtime share. */
  predicate Figures(c: Census, d: Score, m: Measure) {
    match m
    case Points => d.outcomeN != 0 || d.sampleN != 0 || d.points != 0.0
    case Cost => d.cost != 0.0
    case Realtime => d.cost != 0.0 && d.coverage != 0.0 && !c.pseudo(d.developer)
    case NonRealtime => d.cost != 0.0 && d.coverage != 100.0 && !c.pseudo(d.developer)
    case Paid => d.paid != 0.0
  }

  /** The row is all zeros. */
  predicate Idle(d: Score) {
    d.outcomeN == 0 && d.sampleN == 0 && d.points == 0.0 && d.cost == 0.0 && d.paid == 0.0
  }

  /** The developer has a row in the group that stands behind its figure for the measure. */
  ghost predicate Behind(w: Window, g: set<nat>, m: Measure, who: string) {
    exists i: nat :: i in g && i < |w.rows| && w.rows[i].score.developer == who && Backs(w.census, w.rows[i].score, m)
  }

  /** The developer is counted and did something in the group. */
  ghost predicate Active(w: Window, g: set<nat>, who: string) {
    !w.census.uncounted(who) &&
    exists i: nat :: i in g && i < |w.rows| && w.rows[i].score.developer == who &&
                     !Idle(w.rows[i].score.(paid := 0.0))
  }

  ghost predicate AtLeast(k: int, holds: string -> bool) {
    exists devs: set<string> :: |devs| >= k && forall who :: who in devs ==> holds(who)
  }

  /** If the group shows a figure for the measure, k of its counted developers stand behind it. */
  ghost predicate Backed(w: Window, g: set<nat>, k: int, m: Measure) {
    (exists i: nat :: i in g && i < |w.rows| && Figures(w.census, w.rows[i].score, m)) ==>
      AtLeast(k, who => Behind(w, g, m, who))
  }

  ghost predicate Staffed(w: Window, g: set<nat>, k: int) {
    AtLeast(k, who => Active(w, g, who))
  }

  /** k counted developers were active in the group, and behind each figure it shows there are
      k counted developers of the group with such a figure of their own. */
  ghost predicate StandsOn(w: Window, g: set<nat>, k: int) {
    && Staffed(w, g, k)
    && Backed(w, g, k, Points) && Backed(w, g, k, Cost) && Backed(w, g, k, Realtime)
    && Backed(w, g, k, NonRealtime) && Backed(w, g, k, Paid)
  }

  /** Counting a set that says who is in it. */
  lemma AtLeastIff(k: int, holds: string -> bool, all: set<string>)
    requires forall who :: who in all <==> holds(who)
    ensures AtLeast(k, holds) <==> |all| >= k
  {
    if devs: set<string> :| |devs| >= k && forall who :: who in devs ==> holds(who) {
      CardinalityMonotone(devs, all);
    }
  }

  lemma PeopleAreActive(w: Window, g: set<nat>, who: string)
    ensures who in w.People(g) <==> Active(w, g, who)
  {
  }

  lemma CarriersAreBehind(w: Window, g: set<nat>, m: Measure, who: string)
    ensures who in w.Carriers(g, m) <==> Behind(w, g, m, who)
  {
  }

  lemma ShowsMeans(w: Window, g: set<nat>, m: Measure)
    ensures w.Shows(g, m) <==> exists i: nat :: i in g && i < |w.rows| && Figures(w.census, w.rows[i].score, m)
  {
  }

  lemma MeasureMeans(w: Window, g: set<nat>, k: int, m: Measure)
    ensures w.MeasureClears(g, k, m) <==> Backed(w, g, k, m)
  {
    ShowsMeans(w, g, m);
    forall who
      ensures who in w.Carriers(g, m) <==> Behind(w, g, m, who)
    {
      CarriersAreBehind(w, g, m, who);
    }
    AtLeastIff(k, who => Behind(w, g, m, who), w.Carriers(g, m));
  }

  lemma PeopleMean(w: Window, g: set<nat>, k: int)
    ensures |w.People(g)| >= k <==> Staffed(w, g, k)
  {
    forall who
      ensures who in w.People(g) <==> Active(w, g, who)
    {
      PeopleAreActive(w, g, who);
    }
    AtLeastIff(k, who => Active(w, g, who), w.People(g));
  }

  /** What the floor means: a group clears it exactly when it stands on k counted developers. */
  lemma ClearsMeans(w: Window, g: set<nat>, k: int)
    ensures w.Clears(g, k) <==> StandsOn(w, g, k)
  {
    PeopleMean(w, g, k);
    MeasureMeans(w, g, k, Points);
    MeasureMeans(w, g, k, Cost);
    MeasureMeans(w, g, k, Realtime);
    MeasureMeans(w, g, k, NonRealtime);
    MeasureMeans(w, g, k, Paid);
  }

  /** The group stands on k counted developers, or is all zeros. */
  ghost predicate Publishable(w: Window, g: set<nat>, k: int) {
    StandsOn(w, g, k) || forall i: nat :: i in g && i < |w.rows| ==> Idle(w.rows[i].score)
  }

  lemma SafeMeans(w: Window, g: set<nat>, k: int)
    ensures w.Safe(g, k) <==> Publishable(w, g, k)
  {
    ClearsMeans(w, g, k);
  }
}
