/** The preflight scan of `tierd score`'s arguments beside Go's own flag parser.  The scan
    re-implements the parser's traversal so as to decide before parsing; the two must
    agree wherever parsing succeeds. */
module ScoreFlags {
  import opened Wrappers

  /** One defined flag: whether it stands alone as a boolean, and which values its Set accepts. */
  datatype FlagDef = FlagDef(isBool: bool, accepts: string -> bool)

  type FlagSet = map<string, FlagDef>

  /** strconv.ParseBool. */
  function ParseBool(v: string): Option<bool> {
    if v in {"1", "t", "T", "TRUE", "true", "True"} then Some(true)
    else if v in {"0", "f", "F", "FALSE", "false", "False"} then Some(false)
    else None
  }

  function Capital(c: char): char {
    if 'a' <= c <= 'z' then 'A' + (c - 'a') else c
  }

  function Capitals(s: string): string {
    seq(|s|, i requires 0 <= i < |s| => Capital(s[i]))
  }

  /** A word in lower case, in upper case, or with a capital. */
  predicate Spells(v: string, word: string)
    requires word != ""
  {
    v == word || v == Capitals(word) || v == Capitals(word[..1]) + word[1..]
  }

  lemma SpellsOneOf(v: string, word: string, upper: string, title: string)
    requires word != "" && Capitals(word) == upper && title == Capitals(word[..1]) + word[1..]
    ensures Spells(v, word) <==> v in {word, upper, title}
  {
  }

  /** What counts as true and what as false: 1 and 0, and the initials and words in three
      spellings; nothing else is a boolean. */
  lemma ParseBoolMeans(v: string)
    ensures ParseBool(v) == Some(true) <==> v == "1" || Spells(v, "t") || Spells(v, "true")
    ensures ParseBool(v) == Some(false) <==> v == "0" || Spells(v, "f") || Spells(v, "false")
  {
    SpellsOneOf(v, "t", "T", "T");
    SpellsOneOf(v, "f", "F", "F");
    assert "true"[..1] == "t" && "false"[..1] == "f";
    SpellsOneOf(v, "true", "TRUE", "True");
    SpellsOneOf(v, "false", "FALSE", "False");
  }

  /** The score command defines --outcomes as a boolean flag, and --developer. */
  ghost predicate ScoreFlagSet(fs: FlagSet) {
    && "outcomes" in fs && fs["outcomes"].isBool && (forall v :: fs["outcomes"].accepts(v) <==> ParseBool(v).Some?)
    && "developer" in fs
  }

  /** strings.Cut at the first '='. */
  function Cut(s: string): (r: (string, string, bool))
    ensures !r.2 ==> r.0 == s && '=' !in s
    ensures r.2 ==> s == r.0 + "=" + r.1 && '=' !in r.0
  {
    if s == "" then ("", "", false)
    else if s[0] == '=' then ("", s[1..], true)
    else
      var (name, value, found) := Cut(s[1..]);
      if found then (s[..1] + name, value, true) else (s, "", false)
  }

  function TrimDashes(s: string): string {
    if s != "" && s[0] == '-' then TrimDashes(s[1..]) else s
  }

  // ---------- Go's flag.Parse ----------

  /** The values set, last one winning, and the arguments left over; or a failure.  `flag:
      help requested` is a failure too. */
  datatype Parsed = Parsed(values: map<string, string>, rest: seq<string>) | Failed

  /** What parseOne makes of the first argument: not a flag, a terminator, a syntax error, or
      a flag with or without an attached value. */
  datatype Token = NotAFlag | Terminator | BadSyntax | Flag(name: string, value: string, attached: bool)

  function TokenOf(s: string): Token {
    if |s| < 2 || s[0] != '-' then NotAFlag
    else if s == "--" then Terminator
    else
      var name := if s[1] == '-' then s[2..] else s[1..];
      if name == "" || name[0] == '-' || name[0] == '=' then BadSyntax
      else
        var (n, v, found) := Cut(name);
        Flag(n, v, found)
  }

  function Parse(fs: FlagSet, args: seq<string>, values: map<string, string>): Parsed
    decreases |args|
  {
    if args == [] then Parsed(values, [])
    else
      match TokenOf(args[0])
      case NotAFlag => Parsed(values, args)
      case Terminator => Parsed(values, args[1..])
      case BadSyntax => Failed
      case Flag(name, value, attached) =>
        if name !in fs then Failed
        else if fs[name].isBool then
          var v := if attached then value else "true";
          if fs[name].accepts(v) then Parse(fs, args[1..], values[name := v]) else Failed
        else if attached then
          if fs[name].accepts(value) then Parse(fs, args[1..], values[name := value]) else Failed
        else if |args| == 1 then Failed
        else if fs[name].accepts(args[1]) then Parse(fs, args[2..], values[name := args[1]])
        else Failed
  }

  /** The parsed --outcomes: its last value, false when never given. */
  function OutcomesOf(values: map<string, string>): bool {
    "outcomes" in values && ParseBool(values["outcomes"]) == Some(true)
  }

  // ---------- the preflight ----------

  /** What the scan knows: whether --outcomes is on, and the first name it would refuse ("" for none). */
  datatype Seen = Seen(on: bool, forbidden: string)

  /** Where the scan stops reading. */
  predicate Ends(arg: string) {
    arg == "--" || arg == "-" || arg == "" || arg[0] != '-'
  }

  function Noted(fs: FlagSet, arg: string, seen: Seen): Seen {
    var (name, value, equals) := Cut(TrimDashes(arg));
    var on := if name != "outcomes" then seen.on else if equals then ParseBool(value) == Some(true) else true;
    var refuse := name != "h" && name != "help" && (name !in fs || name == "developer") && seen.forbidden == "";
    Seen(on, if refuse then name else seen.forbidden)
  }

  /** How many arguments the flag at the front takes up: a known flag that is no boolean and
      carries no value takes the next one too. */
  function Width(fs: FlagSet, arg: string): (n: nat)
    ensures 1 <= n <= 2
  {
    var (name, _, equals) := Cut(TrimDashes(arg));
    if name in fs && !equals && !fs[name].isBool then 2 else 1
  }

  function Scan(fs: FlagSet, args: seq<string>, seen: Seen): Seen
    decreases |args|
  {
    if args == [] || Ends(args[0]) then seen
    else if Width(fs, args[0]) < |args| then Scan(fs, args[Width(fs, args[0])..], Noted(fs, args[0], seen))
    else Noted(fs, args[0], seen)
  }

  /** What the scan's findings come to: whether personal mode is on, and the flag name it is
      refused for. */
  function Verdict(seen: Seen): (bool, Option<string>) {
    (seen.on, if seen.on && seen.forbidden != "" then Some(seen.forbidden) else None)
  }

  /** personalScoreFlags. */
  method PersonalScoreFlags(fs: FlagSet, args: seq<string>) returns (personal: bool, refused: Option<string>)
    ensures (personal, refused) == Verdict(Scan(fs, args, Seen(false, "")))
  {
    var on, forbidden := false, "";
    var i := 0;
    while i < |args|
      invariant Scan(fs, args, Seen(false, "")) ==
                (if i <= |args| then Scan(fs, args[i..], Seen(on, forbidden)) else Seen(on, forbidden))
      decreases |args| - i
    {
      if args[i] == "--" || args[i] == "-" || args[i] == "" || args[i][0] != '-' {
        break;
      }
      ghost var rest := args[i..];
      var (name, value, equals) := Cut(TrimDashes(args[i]));
      if name == "outcomes" {
        on := true;
        if equals {
          on := ParseBool(value) == Some(true);
        }
      }
      if name != "h" && name != "help" && (name !in fs || name == "developer") && forbidden == "" {
        forbidden := name;
      }
      var step := 1;
      if name in fs && !equals {
        if !fs[name].isBool {
          step := 2;
        }
      }
      assert i + step <= |args| ==> args[i + step..] == rest[step..];
      i := i + step;
    }
    if on && forbidden != "" {
      return true, Some(forbidden);
    }
    return on, None;
  }

  // ---------- agreement ----------

  /** A well-formed flag reads the same to both: the dashes and the first '=' come off alike. */
  lemma SameToken(s: string)
    requires TokenOf(s).Flag?
    ensures !Ends(s)
    ensures var (name, value, equals) := Cut(TrimDashes(s)); TokenOf(s) == Flag(name, value, equals)
    ensures TokenOf(s).name != ""
  {
    var body := if s[1] == '-' then s[2..] else s[1..];
    assert TrimDashes(body) == body;
    assert TrimDashes(s[1..]) == body by {
      if s[1] == '-' {
        assert s[1..][1..] == s[2..];
      }
    }
    assert body[0] != '=' ==> Cut(body).0 != "";
  }

  lemma SameStop(s: string)
    ensures TokenOf(s).NotAFlag? || TokenOf(s).Terminator? <==> Ends(s)
  {
    if |s| == 1 && s[0] == '-' {
      assert s == "-";
    }
  }

  /** The scan's state, read off what the parser has stored. */
  predicate Agrees(values: map<string, string>, seen: Seen) {
    && seen.on == OutcomesOf(values)
    && seen.forbidden == (if "developer" in values then "developer" else "")
  }

  /** Agreement on every argument list the parser accepts: the scan finds personal mode on
      exactly when the parsed --outcomes (the last one given) is true, and finds a flag to
      refuse exactly when --developer was set, which it names. */
  lemma {:induction false} ScanAgreesWithParse(fs: FlagSet, args: seq<string>, values: map<string, string>, seen: Seen)
    requires ScoreFlagSet(fs) && Agrees(values, seen) && Parse(fs, args, values).Parsed?
    ensures Agrees(Parse(fs, args, values).values, Scan(fs, args, seen))
    decreases |args|
  {
    if args != [] {
      SameStop(args[0]);
      if TokenOf(args[0]).Flag? {
        SameToken(args[0]);
        var Flag(name, value, attached) := TokenOf(args[0]);
        var n := Width(fs, args[0]);
        var stored := if attached then value else if fs[name].isBool then "true" else args[1];
        assert Parse(fs, args, values) == Parse(fs, args[n..], values[name := stored]);
        NotedAgrees(fs, args[0], values, seen, stored);
        ScanAgreesWithParse(fs, args[n..], values[name := stored], Noted(fs, args[0], seen));
        if n == |args| {
          assert args[n..] == [];
        }
      }
    }
  }

  lemma NotedAgrees(fs: FlagSet, arg: string, values: map<string, string>, seen: Seen, stored: string)
    requires ScoreFlagSet(fs) && Agrees(values, seen) && TokenOf(arg).Flag? && TokenOf(arg).name in fs
    requires fs[TokenOf(arg).name].isBool ==> stored == if TokenOf(arg).attached then TokenOf(arg).value else "true"
    ensures Agrees(values[TokenOf(arg).name := stored], Noted(fs, arg, seen))
  {
    SameToken(arg);
  }

  /** The preflight's verdict, for every flag set and every argument list that parses: it
      turns personal mode on if and only if parsing will, and refuses if and only if
      personal mode is on and --developer was given. */
  lemma PreflightAgrees(fs: FlagSet, args: seq<string>)
    requires ScoreFlagSet(fs) && Parse(fs, args, map[]).Parsed?
    ensures var seen, parsed := Scan(fs, args, Seen(false, "")), Parse(fs, args, map[]);
            && seen.on == OutcomesOf(parsed.values)
            && (seen.on && seen.forbidden != "" <==> OutcomesOf(parsed.values) && "developer" in parsed.values)
            && (seen.forbidden != "" ==> seen.forbidden == "developer")
  {
    ScanAgreesWithParse(fs, args, map[], Seen(false, ""));
  }

  /** The position of the first argument the scan does not read as a flag or a flag's value. */
  function StopsAt(fs: FlagSet, args: seq<string>): (n: nat)
    ensures n <= |args|
    decreases |args|
  {
    if args == [] || Ends(args[0]) then 0
    else if Width(fs, args[0]) < |args| then Width(fs, args[0]) + StopsAt(fs, args[Width(fs, args[0])..])
    else |args|
  }

  /** The scan stops exactly where the parser does: the arguments the parser leaves over are
      those from the stop on, less the "--" that ended the flags. */
  lemma {:induction false} StopsWhereParseStops(fs: FlagSet, args: seq<string>, values: map<string, string>)
    requires Parse(fs, args, values).Parsed?
    ensures var left := args[StopsAt(fs, args)..];
            Parse(fs, args, values).rest == if left != [] && left[0] == "--" then left[1..] else left
    decreases |args|
  {
    if args != [] {
      SameStop(args[0]);
      if TokenOf(args[0]).Flag? {
        SameToken(args[0]);
        var Flag(name, value, attached) := TokenOf(args[0]);
        var n := Width(fs, args[0]);
        var stored := if attached then value else if fs[name].isBool then "true" else args[1];
        assert Parse(fs, args, values) == Parse(fs, args[n..], values[name := stored]);
        StopsWhereParseStops(fs, args[n..], values[name := stored]);
        assert args[n..][StopsAt(fs, args[n..])..] == args[n + StopsAt(fs, args[n..])..];
      }
    }
  }

  lemma ScanFront(fs: FlagSet, args: seq<string>, seen: Seen)
    requires args != [] && !Ends(args[0]) && Width(fs, args[0]) < |args|
    ensures Scan(fs, args, seen) == Scan(fs, args[Width(fs, args[0])..], Noted(fs, args[0], seen))
  {
  }

  lemma CutScan(fs: FlagSet, args: seq<string>, tail: seq<string>, seen: Seen)
    requires StopsAt(fs, args) < |args| && !Ends(args[0]) && Width(fs, args[0]) < |args|
    ensures var rest := args[Width(fs, args[0])..];
            Scan(fs, args[..StopsAt(fs, args) + 1] + tail, seen) ==
            Scan(fs, rest[..StopsAt(fs, rest) + 1] + tail, Noted(fs, args[0], seen))
  {
    var other := args[..StopsAt(fs, args) + 1] + tail;
    assert other[0] == args[0];
    CutFront(fs, args, tail);
    ScanFront(fs, other, seen);
  }

  /** What follows the stop never matters: on any arguments at all, parseable or not, the
      verdict depends only on those up to and including the one the scan stopped at. */
  lemma {:induction false} TailIgnored(fs: FlagSet, args: seq<string>, tail: seq<string>, seen: Seen)
    requires StopsAt(fs, args) < |args|
    ensures Scan(fs, args[..StopsAt(fs, args) + 1] + tail, seen) == Scan(fs, args, seen)
    decreases |args|
  {
    if Ends(args[0]) {
      assert (args[..StopsAt(fs, args) + 1] + tail)[0] == args[0];
    } else {
      StopsNext(fs, args);
      CutScan(fs, args, tail, seen);
      ScanFront(fs, args, seen);
      TailIgnored(fs, args[Width(fs, args[0])..], tail, Noted(fs, args[0], seen));
    }
  }

  /** What a defined flag at the front stores, when it does not need an argument that is missing. */
  function Stored(fs: FlagSet, args: seq<string>): string
    requires args != [] && TokenOf(args[0]).Flag? && TokenOf(args[0]).name in fs && Width(fs, args[0]) <= |args|
  {
    SameToken(args[0]);
    var Flag(name, value, attached) := TokenOf(args[0]);
    if attached then value else if fs[name].isBool then "true" else args[1]
  }

  /** One defined flag parsed off the front. */
  lemma ParseFront(fs: FlagSet, args: seq<string>, values: map<string, string>)
    requires args != [] && TokenOf(args[0]).Flag? && TokenOf(args[0]).name in fs && Width(fs, args[0]) <= |args|
    ensures var name, stored := TokenOf(args[0]).name, Stored(fs, args);
            Parse(fs, args, values) ==
            if fs[name].accepts(stored) then Parse(fs, args[Width(fs, args[0])..], values[name := stored]) else Failed
  {
    SameToken(args[0]);
  }

  predicate SameValues(p: Parsed, q: Parsed) {
    (p.Parsed? <==> q.Parsed?) && (p.Parsed? ==> p.values == q.values)
  }

  /** Where no defined flag is at the front, the rest does not matter. */
  lemma FrontDecides(fs: FlagSet, a: seq<string>, b: seq<string>, values: map<string, string>)
    requires a != [] && b != [] && a[0] == b[0] && !(TokenOf(a[0]).Flag? && TokenOf(a[0]).name in fs)
    ensures SameValues(Parse(fs, a, values), Parse(fs, b, values))
  {
  }

  predicate DefinedFlag(fs: FlagSet, arg: string) {
    TokenOf(arg).Flag? && TokenOf(arg).name in fs
  }

  lemma StopsNext(fs: FlagSet, args: seq<string>)
    requires StopsAt(fs, args) < |args| && !Ends(args[0])
    ensures Width(fs, args[0]) < |args|
    ensures StopsAt(fs, args) == Width(fs, args[0]) + StopsAt(fs, args[Width(fs, args[0])..])
  {
  }

  /** The cut list takes up the same arguments for its front flag, and goes on as the cut of the rest. */
  lemma CutFront(fs: FlagSet, args: seq<string>, tail: seq<string>)
    requires StopsAt(fs, args) < |args| && !Ends(args[0])
    ensures var n := Width(fs, args[0]);
            var other := args[..StopsAt(fs, args) + 1] + tail;
            && n < |args| && n < |other| && other[..n] == args[..n]
            && other[n..] == args[n..][..StopsAt(fs, args[n..]) + 1] + tail
  {
    StopsNext(fs, args);
    DropTake(args, tail, Width(fs, args[0]), StopsAt(fs, args) + 1);
  }

  lemma SameStored(fs: FlagSet, a: seq<string>, b: seq<string>)
    requires a != [] && DefinedFlag(fs, a[0]) && Width(fs, a[0]) <= |a| && Width(fs, a[0]) <= |b|
    requires a[..Width(fs, a[0])] == b[..Width(fs, a[0])]
    ensures a[0] == b[0] && Stored(fs, a) == Stored(fs, b)
  {
    var n := Width(fs, a[0]);
    assert a[0] == a[..n][0] == b[..n][0] == b[0];
    if n == 2 {
      assert a[1] == a[..n][1] == b[..n][1] == b[1];
    }
    SameToken(a[0]);
  }

  /** Nor for the parser: it succeeds or fails, and stores what it stores, by the arguments up
      to and including the one it stopped at alone. */
  lemma {:induction false} ParseTailIgnored(fs: FlagSet, args: seq<string>, tail: seq<string>,
                                            values: map<string, string>)
    requires StopsAt(fs, args) < |args|
    ensures SameValues(Parse(fs, args[..StopsAt(fs, args) + 1] + tail, values), Parse(fs, args, values))
    decreases |args|
  {
    var other := args[..StopsAt(fs, args) + 1] + tail;
    if DefinedFlag(fs, args[0]) {
      var name, n := TokenOf(args[0]).name, Width(fs, args[0]);
      SameStop(args[0]);
      CutFront(fs, args, tail);
      SameStored(fs, args, other);
      ParseFront(fs, args, values);
      ParseFront(fs, other, values);
      ParseTailIgnored(fs, args[n..], tail, values[name := Stored(fs, args)]);
    } else {
      FrontDecides(fs, other, args, values);
    }
  }

  lemma DropTake(args: seq<string>, tail: seq<string>, n: nat, m: nat)
    requires n <= m <= |args|
    ensures (args[..m] + tail)[..n] == args[..n] && (args[..m] + tail)[n..] == args[n..][..m - n] + tail
  {
  }
}
