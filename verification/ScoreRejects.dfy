/** The preflight on argument lists the parser rejects.  The parser stops at the argument it
    rejects and the scan does not, so arguments that are never parsed can sway the verdict;
    here is exactly when. */
module ScoreRejects {
  import opened Wrappers
  import opened ScoreFlags

  // ---------- how far the parser reads ----------

  /** How many arguments the parser takes as flags and their values before it stops or rejects one. */
  function Accepted(fs: FlagSet, args: seq<string>): (n: nat)
    ensures n <= |args|
    decreases |args|
  {
    if args == [] || !DefinedFlag(fs, args[0]) || Width(fs, args[0]) > |args| ||
        !fs[TokenOf(args[0]).name].accepts(Stored(fs, args))
    then 0
    else Width(fs, args[0]) + Accepted(fs, args[Width(fs, args[0])..])
  }

  /** Parsing fails exactly when what it comes to next is neither the end nor a stop. */
  lemma {:induction false} FailsIff(fs: FlagSet, args: seq<string>, values: map<string, string>)
    ensures Parse(fs, args, values).Failed? <==> Accepted(fs, args) < |args| && !Ends(args[Accepted(fs, args)])
    decreases |args|
  {
    if args != [] {
      SameStop(args[0]);
      if DefinedFlag(fs, args[0]) {
        SameToken(args[0]);
        if Width(fs, args[0]) <= |args| {
          ParseFront(fs, args, values);
          FailsIff(fs, args[Width(fs, args[0])..], values[TokenOf(args[0]).name := Stored(fs, args)]);
        }
      }
    }
  }

  /** How many arguments the parser reads of a list it accepts no flag of: the one it rejects,
      and the value it rejects with it. */
  function Rejected(fs: FlagSet, args: seq<string>): (n: nat)
    ensures n <= |args|
  {
    if args == [] || Ends(args[0]) then 0
    else if DefinedFlag(fs, args[0]) && Width(fs, args[0]) <= |args| then Width(fs, args[0])
    else 1
  }

  /** How many arguments the parser reads as flags and values before it stops or fails. */
  function ReadBy(fs: FlagSet, args: seq<string>): (n: nat)
    ensures n <= |args|
  {
    Accepted(fs, args) + Rejected(fs, args[Accepted(fs, args)..])
  }

  lemma AcceptedFront(fs: FlagSet, args: seq<string>)
    requires Accepted(fs, args) > 0
    ensures args != [] && DefinedFlag(fs, args[0]) && !Ends(args[0]) && Width(fs, args[0]) <= |args|
    ensures var n := Width(fs, args[0]); Accepted(fs, args) == n + Accepted(fs, args[n..])
  {
    SameToken(args[0]);
  }

  lemma DropTwice(args: seq<string>, n: nat, m: nat)
    requires n + m <= |args|
    ensures args[n..][m..] == args[n + m..]
  {
  }

  lemma ReadFront(fs: FlagSet, args: seq<string>)
    requires Accepted(fs, args) > 0
    ensures args != [] && DefinedFlag(fs, args[0]) && !Ends(args[0]) && Width(fs, args[0]) <= |args|
    ensures var n := Width(fs, args[0]); ReadBy(fs, args) == n + ReadBy(fs, args[n..])
  {
    AcceptedFront(fs, args);
    var n := Width(fs, args[0]);
    DropTwice(args, n, Accepted(fs, args[n..]));
  }

  // ---------- where the scan runs on ----------

  /** Where the scan stops, as seen from where the parser has accepted the last flag. */
  lemma {:induction false} StopsFrom(fs: FlagSet, args: seq<string>)
    ensures StopsAt(fs, args) == Accepted(fs, args) + StopsAt(fs, args[Accepted(fs, args)..])
    decreases |args|
  {
    var a := Accepted(fs, args);
    if a == 0 {
      assert args[0..] == args;
    } else {
      AcceptedFront(fs, args);
      var n := Width(fs, args[0]);
      DropTwice(args, n, Accepted(fs, args[n..]));
      StopsFrom(fs, args[n..]);
      if n == |args| {
        assert args[n..] == [];
      }
    }
  }

  /** The scan never stops short of the parser, and runs on past what the parser read exactly
      when parsing fails with arguments left, of which the next is not a stop, or the rejected
      one is malformed but spelled like a flag that takes it for its value. */
  lemma RunsOnIff(fs: FlagSet, args: seq<string>, values: map<string, string>)
    ensures StopsAt(fs, args) >= ReadBy(fs, args)
    ensures var a, r := Accepted(fs, args), ReadBy(fs, args);
            StopsAt(fs, args) > r <==>
            Parse(fs, args, values).Failed? && r < |args| && (!Ends(args[r]) || a + Width(fs, args[a]) > r)
  {
    FailsIff(fs, args, values);
    StopsFrom(fs, args);
    RunsOnFrom(fs, args, Accepted(fs, args), StopsAt(fs, args), Parse(fs, args, values).Failed?);
  }

  lemma RunsOnFrom(fs: FlagSet, args: seq<string>, a: nat, stop: nat, failed: bool)
    requires a <= |args| && stop == a + StopsAt(fs, args[a..])
    requires failed <==> a < |args| && !Ends(args[a])
    ensures var r := a + Rejected(fs, args[a..]);
            && stop >= r
            && (stop > r <==> failed && r < |args| && (!Ends(args[r]) || a + Width(fs, args[a]) > r))
  {
    if a < |args| {
      RejectRunsOnIff(fs, args[a..]);
    }
  }

  lemma RejectRunsOnIff(fs: FlagSet, rest: seq<string>)
    requires rest != []
    ensures var r := Rejected(fs, rest);
            && StopsAt(fs, rest) >= r
            && (StopsAt(fs, rest) > r <==> !Ends(rest[0]) && r < |rest| && (!Ends(rest[r]) || Width(fs, rest[0]) > r))
  {
    var r, n := Rejected(fs, rest), Width(fs, rest[0]);
    if !Ends(rest[0]) && n < |rest| {
      assert rest[n..][0] == rest[n];
    }
  }

  // ---------- what the scan makes of the flags it takes ----------

  /** The flags the scan takes, in order. */
  function Taken(fs: FlagSet, args: seq<string>): seq<string>
    decreases |args|
  {
    if args == [] || Ends(args[0]) then []
    else if Width(fs, args[0]) < |args| then [args[0]] + Taken(fs, args[Width(fs, args[0])..])
    else [args[0]]
  }

  function NameOf(arg: string): string {
    Cut(TrimDashes(arg)).0
  }

  /** What an --outcomes turns personal mode to. */
  function SwitchedTo(arg: string): bool {
    var (_, value, equals) := Cut(TrimDashes(arg));
    if equals then ParseBool(value) == Some(true) else true
  }

  /** The last --outcomes among these flags. */
  function LastSwitch(flags: seq<string>): Option<bool> {
    if flags == [] then None
    else if LastSwitch(flags[1..]).Some? then LastSwitch(flags[1..])
    else if NameOf(flags[0]) == "outcomes" then Some(SwitchedTo(flags[0]))
    else None
  }

  /** --developer, or a flag that is not defined and does not ask for help. */
  predicate Refusable(fs: FlagSet, name: string) {
    name !in {"", "h", "help"} && (name !in fs || name == "developer")
  }

  /** The first refusable name among these flags, "" for none. */
  function FirstRefusable(fs: FlagSet, flags: seq<string>): string {
    if flags == [] then ""
    else if Refusable(fs, NameOf(flags[0])) then NameOf(flags[0])
    else FirstRefusable(fs, flags[1..])
  }

  function Updated(fs: FlagSet, flags: seq<string>, seen: Seen): Seen {
    var last := LastSwitch(flags);
    Seen(if last.Some? then last.value else seen.on,
         if seen.forbidden != "" then seen.forbidden else FirstRefusable(fs, flags))
  }

  /** The verdict, read off the flags taken: the last --outcomes decides the mode, and the
      first refusable flag is the one named. */
  lemma {:induction false} ScanMeans(fs: FlagSet, args: seq<string>, seen: Seen)
    ensures Scan(fs, args, seen) == Updated(fs, Taken(fs, args), seen)
    decreases |args|
  {
    if args != [] && !Ends(args[0]) {
      var n := Width(fs, args[0]);
      if n < |args| {
        ScanMeans(fs, args[n..], Noted(fs, args[0], seen));
        UpdatedFront(fs, args[0], Taken(fs, args[n..]), seen);
      } else {
        UpdatedFront(fs, args[0], [], seen);
        assert [args[0]] + [] == [args[0]];
      }
    }
  }

  lemma UpdatedFront(fs: FlagSet, flag: string, rest: seq<string>, seen: Seen)
    ensures Updated(fs, [flag] + rest, seen) == Updated(fs, rest, Noted(fs, flag, seen))
  {
    assert ([flag] + rest)[1..] == rest;
  }

  lemma {:induction false} UpdatedSplit(fs: FlagSet, front: seq<string>, rest: seq<string>, seen: Seen)
    ensures Updated(fs, front + rest, seen) == Updated(fs, rest, Updated(fs, front, seen))
  {
    if front == [] {
      assert front + rest == rest;
    } else {
      var flag, more := front[0], front[1..];
      assert front == [flag] + more && front + rest == [flag] + (more + rest);
      UpdatedFront(fs, flag, more + rest, seen);
      UpdatedSplit(fs, more, rest, Noted(fs, flag, seen));
      UpdatedFront(fs, flag, more, seen);
    }
  }

  // ---------- when unread arguments sway the verdict ----------

  lemma TakenFront(fs: FlagSet, args: seq<string>)
    requires args != [] && !Ends(args[0])
    ensures var n := Width(fs, args[0]);
            Taken(fs, args) == if n < |args| then [args[0]] + Taken(fs, args[n..]) else [args[0]]
  {
  }

  lemma DropOfTake(args: seq<string>, n: nat, m: nat)
    requires n <= m <= |args|
    ensures args[..m][n..] == args[n..][..m - n]
  {
  }

  /** The first r arguments end after a flag the scan takes, or in the place of its value. */
  predicate AfterFlag(fs: FlagSet, args: seq<string>, r: nat)
    decreases |args|
  {
    r == 0 ||
    (args != [] && !Ends(args[0]) && r <= |args| &&
     (r == 1 || (Width(fs, args[0]) <= r && AfterFlag(fs, args[Width(fs, args[0])..], r - Width(fs, args[0])))))
  }

  lemma FrontTakenFirst(fs: FlagSet, args: seq<string>, r: nat)
    requires args != [] && !Ends(args[0]) && 0 < r <= |args|
    requires var n := Width(fs, args[0]); n < r ==> Taken(fs, args[n..][..r - n]) <= Taken(fs, args[n..])
    ensures Taken(fs, args[..r]) <= Taken(fs, args)
  {
    var n := Width(fs, args[0]);
    assert args[..r][0] == args[0];
    TakenFront(fs, args);
    TakenFront(fs, args[..r]);
    if n < r {
      DropOfTake(args, n, r);
    }
  }

  /** Cutting there loses none of the flags before. */
  lemma {:induction false} TakenFirst(fs: FlagSet, args: seq<string>, r: nat)
    requires AfterFlag(fs, args, r) && r <= |args|
    ensures Taken(fs, args[..r]) <= Taken(fs, args)
    decreases |args|
  {
    if r > 0 {
      var n := Width(fs, args[0]);
      if n < r {
        TakenFirst(fs, args[n..], r - n);
      }
      FrontTakenFirst(fs, args, r);
    }
  }

  lemma {:induction false} ReadEndsAfterFlag(fs: FlagSet, args: seq<string>)
    ensures AfterFlag(fs, args, ReadBy(fs, args))
    decreases |args|
  {
    if Accepted(fs, args) == 0 {
      assert args[0..] == args;
      var r := Rejected(fs, args);
      if r == 2 {
        assert AfterFlag(fs, args[2..], 0);
      }
    } else {
      ReadFront(fs, args);
      ReadEndsAfterFlag(fs, args[Width(fs, args[0])..]);
    }
  }

  /** The flags of what the parser read come first among those the scan takes. */
  lemma ReadTakenFirst(fs: FlagSet, args: seq<string>)
    ensures Taken(fs, args[..ReadBy(fs, args)]) <= Taken(fs, args)
  {
    ReadEndsAfterFlag(fs, args);
    TakenFirst(fs, args, ReadBy(fs, args));
  }

  /** The flags the scan takes beyond what the parser read. */
  function Unread(fs: FlagSet, args: seq<string>): seq<string> {
    var read := |Taken(fs, args[..ReadBy(fs, args)])|;
    if read <= |Taken(fs, args)| then Taken(fs, args)[read..] else []
  }

  lemma ReadThenUnread(fs: FlagSet, args: seq<string>)
    ensures Taken(fs, args) == Taken(fs, args[..ReadBy(fs, args)]) + Unread(fs, args)
  {
    ReadTakenFirst(fs, args);
  }

  lemma UnreadAdds(fs: FlagSet, args: seq<string>, seen: Seen)
    ensures Scan(fs, args, seen) == Updated(fs, Unread(fs, args), Scan(fs, args[..ReadBy(fs, args)], seen))
  {
    var front := args[..ReadBy(fs, args)];
    ReadThenUnread(fs, args);
    ScanSplits(fs, args, front, Unread(fs, args), seen);
  }

  lemma ScanSplits(fs: FlagSet, args: seq<string>, front: seq<string>, unread: seq<string>, seen: Seen)
    requires Taken(fs, args) == Taken(fs, front) + unread
    ensures Scan(fs, args, seen) == Updated(fs, unread, Scan(fs, front, seen))
  {
    ScanMeans(fs, args, seen);
    ScanMeans(fs, front, seen);
    UpdatedSplit(fs, Taken(fs, front), unread, seen);
  }

  /** Exactly when arguments the parser never reads sway the verdict: the last --outcomes among
      the flags taken from them turns the mode from what was read; or it is on, nothing read
      is refusable, and one of them is. */
  lemma UnreadSwaysIff(fs: FlagSet, args: seq<string>, seen: Seen)
    ensures var read, unread := Scan(fs, args[..ReadBy(fs, args)], seen), Unread(fs, args);
            Verdict(Scan(fs, args, seen)) != Verdict(read) <==>
            || (LastSwitch(unread).Some? && LastSwitch(unread).value != read.on)
            || (read.on && read.forbidden == "" && FirstRefusable(fs, unread) != "")
  {
    UnreadAdds(fs, args, seen);
  }

  /** Where the scan does not run on, its findings are those of the arguments read. */
  lemma ReadDecides(fs: FlagSet, args: seq<string>, seen: Seen)
    requires StopsAt(fs, args) == ReadBy(fs, args)
    ensures Scan(fs, args, seen) == Scan(fs, args[..ReadBy(fs, args)], seen)
  {
    StopDecides(fs, args, seen);
  }

  /** So on every list the parser accepts, arguments it does not read never enable or refuse. */
  lemma UnreadIgnoredWhenParsed(fs: FlagSet, args: seq<string>, values: map<string, string>, seen: Seen)
    requires Parse(fs, args, values).Parsed?
    ensures StopsAt(fs, args) == ReadBy(fs, args)
    ensures Scan(fs, args, seen) == Scan(fs, args[..ReadBy(fs, args)], seen)
  {
    RunsOnIff(fs, args, values);
    ReadDecides(fs, args, seen);
  }

  lemma {:induction false} StopDecides(fs: FlagSet, args: seq<string>, seen: Seen)
    ensures Scan(fs, args, seen) == Scan(fs, args[..StopsAt(fs, args)], seen)
    decreases |args|
  {
    var k := StopsAt(fs, args);
    if args != [] && !Ends(args[0]) {
      var n := Width(fs, args[0]);
      if n < |args| {
        ScanFront(fs, args, seen);
        StopDecides(fs, args[n..], Noted(fs, args[0], seen));
        assert args[..k][0] == args[0] && args[..k][n..] == args[n..][..k - n];
        if n == k {
          assert args[..k][n..] == [];
        }
      } else {
        assert args[..k] == args;
      }
    }
  }

  /** An undashed word, with two dashes before it, is a flag of that name. */
  lemma WordFlag(word: string)
    requires word != "" && '=' !in word && '-' !in word
    ensures TokenOf("--" + word) == Flag(word, "", false) && Cut(TrimDashes("--" + word)) == (word, "", false)
    ensures !Ends("--" + word)
  {
    var s := "--" + word;
    assert s[2..] == word && s[1..] == "-" + word && s[1..][1..] == word && word[0] != '-';
    assert TrimDashes(word) == word;
    assert TrimDashes(s[1..]) == word;
    assert Cut(word) == (word, "", false);
    assert s != "--" by {
      assert |s| > 2;
    }
  }

  /** An undefined flag: the parser fails there. */
  lemma RejectedFirst(fs: FlagSet, reject: string, name: string, rest: seq<string>, values: map<string, string>)
    requires TokenOf(reject) == Flag(name, "", false) && name !in fs && !Ends(reject)
    ensures var args := [reject] + rest; Parse(fs, args, values).Failed? && ReadBy(fs, args) == 1
  {
    var args := [reject] + rest;
    assert Accepted(fs, args) == 0 && args[0..] == args;
  }

  /** A bare --outcomes after an undefined flag: the scan takes both. */
  lemma ScannedBoth(fs: FlagSet, reject: string, name: string, on: string)
    requires Cut(TrimDashes(reject)) == (name, "", false) && !Ends(reject)
    requires Cut(TrimDashes(on)) == ("outcomes", "", false) && !Ends(on)
    requires name !in {"", "h", "help", "outcomes"} && name !in fs && "outcomes" in fs && fs["outcomes"].isBool
    ensures var args, none := [reject, on], Seen(false, "");
            && StopsAt(fs, args) == 2
            && Scan(fs, [reject], none) == Seen(false, name) && Scan(fs, args, none) == Seen(true, name)
  {
    var args := [reject, on];
    assert args[1..] == [on];
  }

  /** The parser fails at the first argument; that one alone is no personal mode, and with the
      second, which is never parsed, it is one to refuse. */
  predicate SecondEnables(fs: FlagSet, first: string, name: string, second: string, values: map<string, string>) {
    var args, none := [first, second], Seen(false, "");
    && Parse(fs, args, values).Failed? && ReadBy(fs, args) == 1 && StopsAt(fs, args) == 2
    && Verdict(Scan(fs, [first], none)) == (false, None)
    && Verdict(Scan(fs, args, none)) == (true, Some(name))
  }

  lemma RejectedThenSwitch(fs: FlagSet, reject: string, name: string, on: string, values: map<string, string>)
    requires TokenOf(reject) == Flag(name, "", false) && Cut(TrimDashes(reject)) == (name, "", false) && !Ends(reject)
    requires Cut(TrimDashes(on)) == ("outcomes", "", false) && !Ends(on)
    requires name !in {"", "h", "help", "outcomes"} && name !in fs && "outcomes" in fs && fs["outcomes"].isBool
    ensures SecondEnables(fs, reject, name, on, values)
  {
    assert [reject] + [on] == [reject, on];
    RejectedFirst(fs, reject, name, [on], values);
    ScannedBoth(fs, reject, name, on);
  }

  /** An argument the parser never reads both enables and refuses: it fails at an undefined
      flag, say --bogus, and an --outcomes after it turns the verdict from letting the parser
      report that into a refusal in personal mode. */
  lemma UnreadEnables(fs: FlagSet, bogus: string, values: map<string, string>)
    requires ScoreFlagSet(fs) && bogus !in fs && bogus !in {"", "h", "help"} && '=' !in bogus && '-' !in bogus
    ensures SecondEnables(fs, "--" + bogus, bogus, "--outcomes", values)
  {
    WordFlag(bogus);
    OutcomesFlag();
    RejectedThenSwitch(fs, "--" + bogus, bogus, "--outcomes", values);
  }

  lemma OutcomesFlag()
    ensures Cut(TrimDashes("--outcomes")) == ("outcomes", "", false) && !Ends("--outcomes")
  {
    assert "--outcomes" == "--" + "outcomes";
    WordFlag("outcomes");
  }
}
