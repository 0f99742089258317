/** org_actual_spend as the subscription-fee reconciler sees it: an append-only list of
    signed amounts under each (org, period, source).  The two posting methods are the
    reconciler's whole authority over it. */
module FeeLedger {
  import opened Wrappers
  import opened Periods

  const SOURCE_PREFIX := "subscription:"

  /** The source tag of a route's own rows. */
  function SpendSource(route: string): string {
    SOURCE_PREFIX + route
  }

  datatype Key = Key(org: string, period: Month, source: string)

  type Rows = map<Key, seq<int>>

  function Entries(rows: Rows, k: Key): seq<int> {
    if k in rows then rows[k] else []
  }

  function Net(entries: seq<int>): int {
    if entries == [] then 0 else Net(entries[..|entries| - 1]) + entries[|entries| - 1]
  }

  /** Converging posts the difference to the fee; Filling posts the fee only where this
      source has no row at all. */
  datatype Kind = Converging | Filling

  datatype Post = Post(route: string, org: string, period: Month, fee: int, kind: Kind) {
    function Cell(): Key {
      Key(org, period, SpendSource(route))
    }

    /** The argument checks both methods make before they open a transaction. */
    predicate Accepted() {
      route != "" && org != "" && (kind.Filling? ==> fee > 0)
    }

    /** The row this post writes over the entries it finds; None when there is nothing to write. */
    function Wanted(entries: seq<int>): Option<int> {
      match kind
      case Converging => if fee - Net(entries) == 0 then None else Some(fee - Net(entries))
      case Filling => if entries != [] then None else Some(fee)
    }
  }

  /** The ledger after one post. */
  function Step(rows: Rows, p: Post, f: Fault): Rows {
    var found := Entries(rows, p.Cell());
    if !p.Accepted() || f.RolledBack? || p.Wanted(found).None? then rows
    else rows[p.Cell() := found + [p.Wanted(found).value]]
  }

  /** What the caller of one post is told: the amount posted, or an error. */
  function Answer(rows: Rows, p: Post, f: Fault): Result<int, ()> {
    var wanted := p.Wanted(Entries(rows, p.Cell()));
    if !p.Accepted() || f.RolledBack? then Err(())
    else if wanted.None? then Ok(0)
    else if f.LostAck? then Err(())
    else Ok(wanted.value)
  }

  /** What one post makes of the entries under its own key. */
  function Posted(entries: seq<int>, p: Post, f: Fault): seq<int> {
    if !p.Accepted() || f.RolledBack? || p.Wanted(entries).None? then entries else entries + [p.Wanted(entries).value]
  }

  /** A post touches no key but its own, and only ever appends there. */
  lemma StepFrame(rows: Rows, p: Post, f: Fault, k: Key)
    ensures Entries(rows, k) <= Entries(Step(rows, p, f), k)
    ensures Entries(Step(rows, p, f), k) == if k == p.Cell() then Posted(Entries(rows, k), p, f) else Entries(rows, k)
  {
  }

  /** Whatever the caller is told, the entries are either as they were or as the faultless
      post leaves them; and they are the latter whenever the caller is told it succeeded. */
  lemma PostCommitsOrNot(rows: Rows, p: Post, f: Fault)
    ensures var entries := Entries(rows, p.Cell());
            Posted(entries, p, f) == entries || Posted(entries, p, f) == Posted(entries, p, NoFault)
    ensures Answer(rows, p, f).Ok? ==> Step(rows, p, f) == Step(rows, p, NoFault)
  {
  }

  lemma NetOfAppended(entries: seq<int>, x: int)
    ensures Net(entries + [x]) == Net(entries) + x
  {
    assert (entries + [x])[..|entries|] == entries;
  }

  /** After a faultless post with a positive fee the period has a row, the net of a
      converging one is the fee, and the same post again writes nothing. */
  lemma PostSettles(entries: seq<int>, p: Post)
    requires p.fee > 0 && p.Accepted()
    ensures var after := Posted(entries, p, NoFault);
            && after != []
            && (p.kind.Converging? ==> Net(after) == p.fee)
            && p.Wanted(after).None?
  {
    NetOfAppended(entries, p.fee - Net(entries));
  }

  class Ledger {
    var rows: Rows

    constructor ()
      ensures rows == map[]
    {
      rows := map[];
    }

    /** Brings the period's net to fee by posting the difference. */
    method ReconcileSubscriptionFee(route: string, org: string, period: Month, fee: int, fault: Fault)
      returns (r: Result<int, ()>)
      modifies this
      ensures var p := Post(route, org, period, fee, Converging);
              rows == Step(old(rows), p, fault) && r == Answer(old(rows), p, fault)
      ensures r.Ok? ==> Net(Entries(rows, Key(org, period, SpendSource(route)))) == fee
      ensures route == "" || org == "" ==> r.Err? && rows == old(rows)
    {
      if route == "" || org == "" || fault.RolledBack? {
        return Err(());
      }
      var k := Key(org, period, SpendSource(route));
      var found := Entries(rows, k);
      var delta := fee - Net(found);
      if delta == 0 {
        return Ok(0);
      }
      NetOfAppended(found, delta);
      rows := rows[k := found + [delta]];
      r := if fault.LostAck? then Err(()) else Ok(delta);
    }

    /** Posts the whole fee where this route has never posted a row, and nowhere else. */
    method PostSubscriptionFeeIfUnposted(route: string, org: string, period: Month, fee: int, fault: Fault)
      returns (r: Result<int, ()>)
      modifies this
      ensures var p := Post(route, org, period, fee, Filling);
              rows == Step(old(rows), p, fault) && r == Answer(old(rows), p, fault)
      ensures var k := Key(org, period, SpendSource(route));
              old(Entries(rows, k)) != [] ==> rows == old(rows)
      ensures route == "" || org == "" || fee <= 0 ==> r.Err? && rows == old(rows)
    {
      if route == "" || org == "" || fee <= 0 || fault.RolledBack? {
        return Err(());
      }
      var k := Key(org, period, SpendSource(route));
      if Entries(rows, k) != [] {
        return Ok(0);
      }
      assert Entries(rows, k) + [fee] == [fee];
      rows := rows[k := [fee]];
      r := if fault.LostAck? then Err(()) else Ok(fee);
    }
  }
}
