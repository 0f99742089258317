/** The two-window comparison of /scores/compare in an anonymized mode: which groups it
    names, when it withholds everything, and what a reader of every published row could
    reconstruct from them. */
module CompareTeams {
  import opened KAnonymity

  /** Nothing withheld, or how many counted people were, under which floor. */
  datatype Suppression = Nothing | Withheld(developers: nat, k: int)

  // ---------- one window's own rows ----------

  function OwnNamed(w: Window, k: int): set<string> {
    set team | team in w.Labels() && w.Eligible(team, k)
  }

  /** The positions whose label has no row of its own among `named`. */
  function Rest(w: Window, named: set<string>): set<nat> {
    set i: nat | i < |w.rows| && w.rows[i].team !in named
  }

  function OwnRest(w: Window, k: int): set<nat> {
    Rest(w, OwnNamed(w, k))
  }

  function RestSuppression(w: Window, rest: set<nat>, k: int): Suppression {
    if w.Safe(rest, k) then Nothing else Withheld(|w.People(rest)|, k)
  }

  /** The positions visited so far whose label earned no row. */
  function RestSoFar(w: Window, todo: set<string>, named: set<string>): set<nat> {
    set i: nat | i < |w.rows| && w.rows[i].team !in todo && w.rows[i].team !in named
  }

  lemma RestGrows(w: Window, todo: set<string>, goal: set<string>, team: string)
    requires team in todo
    ensures RestSoFar(w, todo - {team}, goal) == RestSoFar(w, todo, goal) + if team in goal then {} else w.Group(team)
  {
  }

  lemma NamedGrows(goal: set<string>, todo: set<string>, team: string)
    requires team in todo
    ensures goal - (todo - {team}) == goal - todo + if team in goal then {team} else {}
  {
  }

  /** What the fold holds for one window while `todo` is still to be visited. */
  predicate Folded(w: Window, goal: set<string>, todo: set<string>, named: set<string>, rest: set<nat>) {
    named == goal - todo && rest == RestSoFar(w, todo, goal)
  }

  lemma FoldStarts(w: Window, goal: set<string>, todo: set<string>)
    requires w.Labels() <= todo && goal <= todo
    ensures Folded(w, goal, todo, {}, {})
  {
    assert forall i :: 0 <= i < |w.rows| ==> w.rows[i].team in w.Labels();
  }

  lemma FoldNext(w: Window, goal: set<string>, todo: set<string>, named: set<string>, rest: set<nat>, team: string)
    requires Folded(w, goal, todo, named, rest) && team in todo
    ensures if team in goal then Folded(w, goal, todo - {team}, named + {team}, rest)
            else Folded(w, goal, todo - {team}, named, rest + w.Group(team))
  {
    NamedGrows(goal, todo, team);
    RestGrows(w, todo, goal, team);
  }

  lemma FoldEnds(w: Window, goal: set<string>, named: set<string>, rest: set<nat>)
    requires Folded(w, goal, {}, named, rest)
    ensures named == goal && rest == Rest(w, goal)
  {
  }

  /** Whether a residual may be published, as the code decides it: an empty one is not judged. */
  method JudgeRest(w: Window, rest: set<nat>, k: int) returns (unsafe: bool)
    ensures unsafe <==> !w.Safe(rest, k)
  {
    unsafe := rest != {} && !w.Clears(rest, k) && w.Measured(rest);
  }

  /** The fold: eligible labels are named, the rows of every other go to the residual.  The
      labels are visited in no particular order. */
  method FoldLabels(w: Window, eligible: string -> bool, ghost goal: set<string>)
    returns (named: set<string>, rest: set<nat>)
    requires goal <= w.Labels() && forall team :: team in w.Labels() ==> (team in goal <==> eligible(team))
    ensures named == goal && rest == Rest(w, goal)
  {
    named, rest := {}, {};
    var todo := w.Labels();
    FoldStarts(w, goal, todo);
    while todo != {}
      invariant todo <= w.Labels() && Folded(w, goal, todo, named, rest)
      decreases |todo|
    {
      var team :| team in todo;
      FoldNext(w, goal, todo, named, rest, team);
      todo := todo - {team};
      if eligible(team) {
        named := named + {team};
      } else {
        rest := rest + w.Group(team);
      }
    }
    FoldEnds(w, goal, named, rest);
  }

  /** AggregateLabeledKAnon: one window's own rows. */
  method AggregateLabeledKAnon(w: Window, k0: int) returns (named: set<string>, rest: set<nat>, sup: Suppression)
    ensures named == OwnNamed(w, Floor(k0)) && rest == OwnRest(w, Floor(k0))
    ensures sup == RestSuppression(w, OwnRest(w, Floor(k0)), Floor(k0))
  {
    var k := if k0 < MIN_K then MIN_K else k0;
    named, rest := FoldLabels(w, team => w.Eligible(team, k), OwnNamed(w, k));
    var unsafe := JudgeRest(w, rest, k);
    sup := if unsafe then Withheld(|w.People(rest)|, k) else Nothing;
  }

  // ---------- the comparison ----------

  /** A group is named only when it clears the floor in both windows. */
  function BothNamed(a: Window, b: Window, k: int): set<string> {
    set team | team in a.Labels() + b.Labels() && a.Eligible(team, k) && b.Eligible(team, k)
  }

  function Max(m: nat, n: nat): (r: nat)
    ensures r >= m && r >= n && (r == m || r == n)
  {
    if m < n then n else m
  }

  function CompareSuppression(a: Window, b: Window, k: int): Suppression {
    var named := BothNamed(a, b, k);
    var restA, restB := Rest(a, named), Rest(b, named);
    if a.Safe(restA, k) && b.Safe(restB, k) then Nothing
    else Withheld(Max(|a.People(restA)|, |b.People(restB)|), k)
  }

  /** The fold over both windows at once: a label that is not eligible goes to the residual
      on both sides. */
  method FoldBoth(a: Window, b: Window, teams: set<string>, eligible: string -> bool, ghost goal: set<string>)
    returns (named: set<string>, restA: set<nat>, restB: set<nat>)
    requires a.Labels() <= teams && b.Labels() <= teams
    requires goal <= teams && forall team :: team in teams ==> (team in goal <==> eligible(team))
    ensures named == goal && restA == Rest(a, goal) && restB == Rest(b, goal)
  {
    named, restA, restB := {}, {}, {};
    var todo := teams;
    FoldStarts(a, goal, todo);
    FoldStarts(b, goal, todo);
    while todo != {}
      invariant todo <= teams
      invariant Folded(a, goal, todo, named, restA) && Folded(b, goal, todo, named, restB)
      decreases |todo|
    {
      var team :| team in todo;
      FoldNext(a, goal, todo, named, restA, team);
      FoldNext(b, goal, todo, named, restB, team);
      todo := todo - {team};
      if eligible(team) {
        named := named + {team};
      } else {
        restA, restB := restA + a.Group(team), restB + b.Group(team);
      }
    }
    FoldEnds(a, goal, named, restA);
    FoldEnds(b, goal, named, restB);
  }

  /** CompareLabeledKAnon. */
  method CompareLabeledKAnon(a: Window, b: Window, k0: int) returns (named: set<string>, sup: Suppression)
    ensures named == BothNamed(a, b, Floor(k0)) && sup == CompareSuppression(a, b, Floor(k0))
  {
    var k := if k0 < MIN_K then MIN_K else k0;
    var restA, restB;
    named, restA, restB :=
      FoldBoth(a, b, a.Labels() + b.Labels(), team => a.Eligible(team, k) && b.Eligible(team, k), BothNamed(a, b, k));
    var unsafeA := JudgeRest(a, restA, k);
    var unsafeB := JudgeRest(b, restB, k);
    sup := if unsafeA || unsafeB then Withheld(Max(|a.People(restA)|, |b.People(restB)|), k) else Nothing;
  }

  /** The three suppressions a comparison weighs: its own, and each window's. */
  function Weighed(a: Window, b: Window, k: int): (ss: seq<Suppression>)
    ensures |ss| == 3
  {
    [CompareSuppression(a, b, k), RestSuppression(a, OwnRest(a, k), k), RestSuppression(b, OwnRest(b, k), k)]
  }

  /** Nothing when all are nothing; else one that holds, with the largest count. */
  predicate IsLargest(s: Suppression, ss: seq<Suppression>) {
    if s.Nothing? then forall x :: x in ss ==> x.Nothing?
    else s in ss && forall x :: x in ss && x.Withheld? ==> x.developers <= s.developers
  }

  /** The largest so far, of one suppression more. */
  function Larger(s: Suppression, own: Suppression): Suppression {
    if own.Withheld? && (s.Nothing? || own.developers > s.developers) then own else s
  }

  lemma LargestOfOne(s: Suppression)
    ensures IsLargest(s, [s])
  {
  }

  lemma LargestExtends(s: Suppression, ss: seq<Suppression>, own: Suppression)
    requires IsLargest(s, ss)
    ensures IsLargest(Larger(s, own), ss + [own])
  {
  }

  lemma WeighNext(s: Suppression, ss: seq<Suppression>, i: nat)
    requires 0 < i < |ss| && IsLargest(s, ss[..i])
    ensures IsLargest(Larger(s, ss[i]), ss[..i + 1])
  {
    LargestExtends(s, ss[..i], ss[i]);
    assert ss[..i + 1] == ss[..i] + [ss[i]];
  }

  lemma ClearedIsPresent(w: Window, team: string, k: int)
    requires w.Eligible(team, k) && k > 0
    ensures team in w.Labels()
  {
    assert w.People(w.Group(team)) != {};
  }

  /** A group has a row of its own in the comparison exactly when, in both windows, it stands on
      k counted developers; the residual's label and the empty one never do. */
  lemma NamedIffStandsOnK(a: Window, b: Window, k: int, team: string)
    requires k >= MIN_K
    ensures team in BothNamed(a, b, k) <==>
            team != "other" && team != "" && StandsOn(a, a.Group(team), k) && StandsOn(b, b.Group(team), k)
  {
    ClearsMeans(a, a.Group(team), k);
    ClearsMeans(b, b.Group(team), k);
    if a.Eligible(team, k) {
      ClearedIsPresent(a, team, k);
    }
  }

  /** n counted developers were active in the group. */
  ghost predicate ActiveCount(w: Window, g: set<nat>, n: nat) {
    exists devs: set<string> :: |devs| == n && forall who :: who in devs <==> Active(w, g, who)
  }

  lemma PeopleCount(w: Window, g: set<nat>)
    ensures ActiveCount(w, g, |w.People(g)|)
  {
    forall who
      ensures who in w.People(g) <==> Active(w, g, who)
    {
      PeopleAreActive(w, g, who);
    }
  }

  /** What is declared withheld: the active counted developers of the unsafe residual, and for a
      comparison those of the side that has more; and the floor. */
  lemma DeclaredIsActive(a: Window, b: Window, k: int)
    ensures var own, joint := RestSuppression(a, OwnRest(a, k), k), CompareSuppression(a, b, k);
            var restA, restB := Rest(a, BothNamed(a, b, k)), Rest(b, BothNamed(a, b, k));
            && (own.Withheld? ==> own.k == k && ActiveCount(a, OwnRest(a, k), own.developers))
            && (joint.Withheld? ==>
                  exists m: nat, n: nat :: ActiveCount(a, restA, m) && ActiveCount(b, restB, n) &&
                                 joint == Withheld(if m < n then n else m, k))
  {
    PeopleCount(a, OwnRest(a, k));
    PeopleCount(a, Rest(a, BothNamed(a, b, k)));
    PeopleCount(b, Rest(b, BothNamed(a, b, k)));
  }

  /** Everything a published comparison shows is publishable: its rows and both residuals. */
  ghost predicate ShowsPublishable(a: Window, b: Window, k: int) {
    var named := BothNamed(a, b, k);
    && (forall team :: team in named ==> StandsOn(a, a.Group(team), k) && StandsOn(b, b.Group(team), k))
    && Publishable(a, Rest(a, named), k) && Publishable(b, Rest(b, named), k)
  }

  lemma UnsuppressedIsPublishable(a: Window, b: Window, k: int)
    requires k >= MIN_K && CompareSuppression(a, b, k).Nothing?
    ensures ShowsPublishable(a, b, k)
  {
    var named := BothNamed(a, b, k);
    forall team | team in named
      ensures StandsOn(a, a.Group(team), k) && StandsOn(b, b.Group(team), k)
    {
      NamedIffStandsOnK(a, b, k, team);
    }
    SafeMeans(a, Rest(a, named), k);
    SafeMeans(b, Rest(b, named), k);
  }

  /** compareTeams: the named rows, published with the residual when nothing is suppressed;
      and otherwise the suppression to declare.  The whole comparison is withheld as soon as
      the comparison's residual or either window's own is unsafe, and the declared count is
      the largest of those that were, whichever window comes first. */
  method CompareTeams(a: Window, b: Window, k: int) returns (published: set<string>, sup: Suppression)
    ensures IsLargest(sup, Weighed(a, b, Floor(k)))
    ensures published == if sup.Withheld? then {} else BothNamed(a, b, Floor(k))
    ensures sup.Nothing? ==> ShowsPublishable(a, b, Floor(k))
  {
    ghost var weighed := Weighed(a, b, Floor(k));
    var named;
    named, sup := CompareLabeledKAnon(a, b, k);
    LargestOfOne(sup);
    assert weighed[..1] == [sup];
    var sides := [a, b];
    for i := 0 to 2
      invariant IsLargest(sup, weighed[..i + 1])
    {
      var _, _, own := AggregateLabeledKAnon(sides[i], k);
      WeighNext(sup, weighed, i + 1);
      if own.Withheld? && (sup.Nothing? || own.developers > sup.developers) {
        sup := own;
      }
    }
    assert weighed[..3] == weighed;
    published := if sup.Withheld? then {} else named;
    if sup.Nothing? {
      assert weighed[0] in weighed;
      UnsuppressedIsPublishable(a, b, Floor(k));
    }
  }

  /** The declaration does not depend on which window is called the first. */
  lemma CountIgnoresOrder(a: Window, b: Window, k: int, s: Suppression, t: Suppression)
    requires IsLargest(s, Weighed(a, b, k)) && IsLargest(t, Weighed(b, a, k))
    ensures s.Nothing? <==> t.Nothing?
    ensures s.Withheld? ==> s.developers == t.developers
  {
    assert BothNamed(a, b, k) == BothNamed(b, a, k);
    var ss, ts := Weighed(a, b, k), Weighed(b, a, k);
    assert ss[0] == ts[0] && ss[1] == ts[2] && ss[2] == ts[1];
    assert forall x :: x in ss <==> x in ts;
  }

  // ---------- what a reader can reconstruct ----------

  /** A group of rows a reader can form from what is published about one window, by adding,
      subtracting and intersecting: the window's own named rows, residual and total, and the
      named rows and residual of any number of comparisons, each with its other window. */
  datatype Derivation =
    | OwnRow(team: string)
    | OwnOther
    | CompareRow(other: Window, team: string)
    | CompareOther(other: Window)
    | Total
    | Plus(left: Derivation, right: Derivation)
    | Minus(left: Derivation, right: Derivation)
    | Common(left: Derivation, right: Derivation)
  {
    function Rows(w: Window, k: int): set<nat> {
      match this
      case OwnRow(team) => w.Group(team)
      case OwnOther => OwnRest(w, k)
      case CompareRow(_, team) => w.Group(team)
      case CompareOther(other) => Rest(w, BothNamed(w, other, k))
      case Total => w.All()
      case Plus(l, r) => l.Rows(w, k) + r.Rows(w, k)
      case Minus(l, r) => l.Rows(w, k) - r.Rows(w, k)
      case Common(l, r) => l.Rows(w, k) * r.Rows(w, k)
    }

    /** It starts from rows that are published when nothing is suppressed. */
    predicate FromPublished(w: Window, k: int) {
      match this
      case OwnRow(team) => team in OwnNamed(w, k)
      case OwnOther => true
      case CompareRow(other, team) => team in BothNamed(w, other, k)
      case CompareOther(_) => true
      case Total => true
      case Plus(l, r) => l.FromPublished(w, k) && r.FromPublished(w, k)
      case Minus(l, r) => l.FromPublished(w, k) && r.FromPublished(w, k)
      case Common(l, r) => l.FromPublished(w, k) && r.FromPublished(w, k)
    }

    /** It uses only the window's named rows and its comparison with v: what would still be
        published if an unsafe residual of the window's own did not withhold that comparison. */
    ghost predicate FromComparison(v: Window) {
      match this
      case OwnRow(_) => true
      case OwnOther => false
      case CompareRow(other, _) => other == v
      case CompareOther(other) => other == v
      case Total => false
      case Plus(l, r) => l.FromComparison(v) && r.FromComparison(v)
      case Minus(l, r) => l.FromComparison(v) && r.FromComparison(v)
      case Common(l, r) => l.FromComparison(v) && r.FromComparison(v)
    }
  }

  /** The finest cells the published rows cut a window into: each own named group, and the
      window's own residual. */
  function CellOf(w: Window, k: int, i: nat): set<nat>
    requires i < |w.rows|
  {
    if w.rows[i].team in OwnNamed(w, k) then w.Group(w.rows[i].team) else OwnRest(w, k)
  }

  ghost predicate MadeOfCells(w: Window, k: int, g: set<nat>) {
    g <= w.All() && forall i: nat :: i in g ==> CellOf(w, k, i) <= g
  }

  lemma BothNamedIsOwnNamed(w: Window, v: Window, k: int)
    requires k > 0
    ensures BothNamed(w, v, k) <= OwnNamed(w, k)
  {
    forall team | team in BothNamed(w, v, k)
      ensures team in OwnNamed(w, k)
    {
      ClearedIsPresent(w, team, k);
    }
  }

  /** Whatever is derived is a union of cells: a cell is never split. */
  lemma {:induction false} DerivedIsMadeOfCells(w: Window, k: int, d: Derivation)
    requires k > 0 && d.FromPublished(w, k)
    ensures MadeOfCells(w, k, d.Rows(w, k))
  {
    match d
    case OwnRow(_) =>
    case OwnOther =>
    case CompareRow(other, _) =>
      BothNamedIsOwnNamed(w, other, k);
    case CompareOther(other) =>
      BothNamedIsOwnNamed(w, other, k);
    case Total =>
    case Plus(l, r) =>
      DerivedIsMadeOfCells(w, k, l);
      DerivedIsMadeOfCells(w, k, r);
    case Minus(l, r) =>
      DerivedIsMadeOfCells(w, k, l);
      DerivedIsMadeOfCells(w, k, r);
      MinusKeepsCells(w, k, l.Rows(w, k), r.Rows(w, k));
    case Common(l, r) =>
      DerivedIsMadeOfCells(w, k, l);
      DerivedIsMadeOfCells(w, k, r);
  }

  lemma SameCell(w: Window, k: int, i: nat, j: nat)
    requires i < |w.rows| && j in CellOf(w, k, i)
    ensures j < |w.rows| && CellOf(w, k, j) == CellOf(w, k, i) && i in CellOf(w, k, j)
  {
  }

  lemma MinusKeepsCells(w: Window, k: int, g: set<nat>, h: set<nat>)
    requires MadeOfCells(w, k, g) && MadeOfCells(w, k, h)
    ensures MadeOfCells(w, k, g - h)
  {
    forall i: nat, j: nat | i in g - h && j in CellOf(w, k, i)
      ensures j in g - h
    {
      SameCell(w, k, i, j);
    }
  }

  /** Every cell is safe once the window's own residual is. */
  lemma CellSafe(w: Window, k: int, i: nat)
    requires i < |w.rows| && w.Safe(OwnRest(w, k), k)
    ensures w.Safe(CellOf(w, k, i), k)
  {
  }

  /** One cell taken off a union of cells. */
  lemma TakeCell(w: Window, k: int, g: set<nat>, i: nat)
    requires MadeOfCells(w, k, g) && i in g && w.Safe(OwnRest(w, k), k)
    ensures MadeOfCells(w, k, g - CellOf(w, k, i)) && g - CellOf(w, k, i) < g
    ensures w.Safe(g - CellOf(w, k, i), k) ==> w.Safe(g, k)
  {
    var cell := CellOf(w, k, i);
    assert i in cell;
    CellMadeOfCells(w, k, i);
    MinusKeepsCells(w, k, g, cell);
    CellSafe(w, k, i);
    if w.Safe(g - cell, k) {
      SafeUnion(w, cell, g - cell, k);
      assert cell + (g - cell) == g;
    }
  }

  lemma {:induction false} UnionOfCellsSafe(w: Window, k: int, g: set<nat>)
    requires MadeOfCells(w, k, g) && w.Safe(OwnRest(w, k), k)
    ensures w.Safe(g, k)
    decreases g
  {
    if g == {} {
      assert !w.Measured(g);
    } else {
      var i :| i in g;
      TakeCell(w, k, g, i);
      UnionOfCellsSafe(w, k, g - CellOf(w, k, i));
    }
  }

  lemma CellMadeOfCells(w: Window, k: int, i: nat)
    requires i < |w.rows|
    ensures MadeOfCells(w, k, CellOf(w, k, i))
  {
    forall j: nat | j in CellOf(w, k, i)
      ensures CellOf(w, k, j) <= CellOf(w, k, i)
    {
      SameCell(w, k, i, j);
    }
  }

  /** The k floor on joint publication.  When a window's own residual is safe, as it is in any
      comparison that is published, every group of rows that can be formed from the window's own
      rows, its total and the rows of any number of its comparisons, by any sums, differences
      and intersections, clears the floor measure by measure or holds nothing measured. */
  lemma NothingSubKDerivable(w: Window, k: int, d: Derivation)
    requires k >= MIN_K && RestSuppression(w, OwnRest(w, k), k).Nothing? && d.FromPublished(w, k)
    ensures w.Safe(d.Rows(w, k), k)
  {
    DerivedIsMadeOfCells(w, k, d);
    UnionOfCellsSafe(w, k, d.Rows(w, k));
  }

  /** What that comes to, person by person: each such group stands on k counted developers, with
      k of them behind each figure it shows, or it is all zeros. */
  lemma DerivedStandsOnK(w: Window, k: int, d: Derivation)
    requires k >= MIN_K && RestSuppression(w, OwnRest(w, k), k).Nothing? && d.FromPublished(w, k)
    ensures Publishable(w, d.Rows(w, k), k)
  {
    NothingSubKDerivable(w, k, d);
    SafeMeans(w, d.Rows(w, k), k);
  }

  /** Why the comparison must be withheld with it: if a window's own residual is unsafe, its
      rows are exactly the comparison's residual less named rows that are published anyway. */
  lemma UnsafeRestWouldBeDerivable(w: Window, v: Window, k: int) returns (d: Derivation)
    requires k >= MIN_K && RestSuppression(w, OwnRest(w, k), k).Withheld?
    ensures d.FromComparison(v) && d.FromPublished(w, k)
    ensures d.Rows(w, k) == OwnRest(w, k) && !w.Safe(d.Rows(w, k), k)
  {
    var named := BothNamed(w, v, k);
    BothNamedIsOwnNamed(w, v, k);
    d := SubtractRows(w, v, k, CompareOther(v), named, OwnNamed(w, k) - named);
    assert named + (OwnNamed(w, k) - named) == OwnNamed(w, k);
  }

  /** Taking named rows off a residual, one after the other. */
  lemma {:induction false} SubtractRows(w: Window, v: Window, k: int, from: Derivation, named: set<string>,
                                        teams: set<string>)
    returns (d: Derivation)
    requires teams <= OwnNamed(w, k) && from.FromComparison(v) && from.FromPublished(w, k)
    requires from.Rows(w, k) == Rest(w, named)
    ensures d.FromComparison(v) && d.FromPublished(w, k) && d.Rows(w, k) == Rest(w, named + teams)
    decreases teams
  {
    if teams == {} {
      d := from;
      assert named + teams == named;
    } else {
      var team :| team in teams;
      RestShrinks(w, named, team);
      d := SubtractRows(w, v, k, Minus(from, OwnRow(team)), named + {team}, teams - {team});
      assert named + {team} + (teams - {team}) == named + teams;
    }
  }

  lemma RestShrinks(w: Window, named: set<string>, team: string)
    ensures Rest(w, named) - w.Group(team) == Rest(w, named + {team})
  {
  }

  /** No group of rows a reader can form from the window's named rows and this comparison falls
      short of the floor. */
  ghost predicate NothingLeaks(w: Window, v: Window, k: int) {
    forall d: Derivation :: d.FromComparison(v) && d.FromPublished(w, k) ==> w.Safe(d.Rows(w, k), k)
  }

  lemma OwnRestDecides(w: Window, v: Window, k: int)
    requires k >= MIN_K
    ensures RestSuppression(w, OwnRest(w, k), k).Nothing? <==> NothingLeaks(w, v, k)
    ensures RestSuppression(w, OwnRest(w, k), k).Nothing? ==> w.Safe(Rest(w, BothNamed(w, v, k)), k)
  {
    if RestSuppression(w, OwnRest(w, k), k).Nothing? {
      forall d: Derivation | d.FromPublished(w, k)
        ensures w.Safe(d.Rows(w, k), k)
      {
        NothingSubKDerivable(w, k, d);
      }
      NothingSubKDerivable(w, k, CompareOther(v));
    } else {
      var d := UnsafeRestWouldBeDerivable(w, v, k);
    }
  }

  /** The comparison is published exactly when that gives nothing away: its three checks all
      pass if and only if, in each window, whatever its rows and the named rows combine to is
      safe.  (So the comparison's own check never fails alone.) */
  lemma PublishedIffNothingLeaks(a: Window, b: Window, k: int)
    requires k >= MIN_K
    ensures (forall s :: s in Weighed(a, b, k) ==> s.Nothing?) <==> NothingLeaks(a, b, k) && NothingLeaks(b, a, k)
  {
    assert BothNamed(a, b, k) == BothNamed(b, a, k);
    OwnRestDecides(a, b, k);
    OwnRestDecides(b, a, k);
    var ss := Weighed(a, b, k);
    assert ss[0] in ss && ss[1] in ss && ss[2] in ss;
  }

  /** The comparison's own check never fails alone: an unsafe joint residual always comes with
      an unsafe residual of one of the windows. */
  lemma OwnCheckNeverFailsAlone(a: Window, b: Window, k: int)
    requires k >= MIN_K && CompareSuppression(a, b, k).Withheld?
    ensures RestSuppression(a, OwnRest(a, k), k).Withheld? || RestSuppression(b, OwnRest(b, k), k).Withheld?
  {
    assert BothNamed(a, b, k) == BothNamed(b, a, k);
    OwnRestDecides(a, b, k);
    OwnRestDecides(b, a, k);
  }

  // ---------- totals ----------

  /** The cost of the rows of g among the first n. */
  function CostTo(w: Window, g: set<nat>, n: nat): real
    requires n <= |w.rows|
  {
    if n == 0 then 0.0 else CostTo(w, g, n - 1) + if n - 1 in g then w.rows[n - 1].score.cost else 0.0
  }

  function CostOf(w: Window, g: set<nat>): real {
    CostTo(w, g, |w.rows|)
  }

  lemma {:induction false} CostOfDisjoint(w: Window, g: set<nat>, h: set<nat>, n: nat)
    requires n <= |w.rows| && g !! h
    ensures CostTo(w, g + h, n) == CostTo(w, g, n) + CostTo(w, h, n)
  {
    if n > 0 {
      CostOfDisjoint(w, g, h, n - 1);
    }
  }

  function RowsCost(w: Window, teams: seq<string>): real {
    if teams == [] then 0.0 else RowsCost(w, teams[..|teams| - 1]) + CostOf(w, w.Group(teams[|teams| - 1]))
  }

  lemma RestGains(w: Window, front: seq<string>, last: string)
    requires last !in front
    ensures CostOf(w, Rest(w, set team | team in front)) ==
            CostOf(w, Rest(w, set team | team in front + [last])) + CostOf(w, w.Group(last))
  {
    var less, more := Rest(w, set team | team in front + [last]), Rest(w, set team | team in front);
    assert more == less + w.Group(last);
    CostOfDisjoint(w, less, w.Group(last), |w.rows|);
  }

  /** The named rows and the residual add up to the total: what makes rows and total
      reconcile when nothing is withheld, and what would make the difference of a published
      total and the named rows the withheld cohort's exact cost. */
  lemma {:induction false} TotalLessNamedIsRest(w: Window, teams: seq<string>)
    requires forall i, j :: 0 <= i < j < |teams| ==> teams[i] != teams[j]
    ensures CostOf(w, w.All()) - RowsCost(w, teams) == CostOf(w, Rest(w, set team | team in teams))
  {
    if teams == [] {
      assert w.All() == Rest(w, set team | team in teams);
    } else {
      var front, last := teams[..|teams| - 1], teams[|teams| - 1];
      TotalLessNamedIsRest(w, front);
      RestGains(w, front, last);
      assert teams == front + [last];
    }
  }
}
