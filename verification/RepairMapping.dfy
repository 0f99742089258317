/** `tierd repair-repo`: merging --map pairs and --map-file lines into one session mapping. */
module RepairMapping {
  import opened Wrappers
  import RepoId
  import ScoreFlags

  function TrimSpace(s: string): string {
    RepoId.Trim(s, RepoId.IsSpace)
  }

  /** One "<session-id>=<owner/repo>" entry, or None when it is malformed. */
  function Parsed(entry: string): Option<(string, string)> {
    var (session, slug, found) := ScoreFlags.Cut(entry);
    var canon := RepoId.Canonical(TrimSpace(slug));
    if !found || TrimSpace(session) == "" || TrimSpace(slug) == "" || canon.None? then None
    else Some((TrimSpace(session), canon.value))
  }

  /** What an entry that parses says: the session before the first '=', in no white space, and the
      canonical slug of what follows it. */
  lemma ParsedMeans(entry: string, session: string, slug: string, left: string, right: string)
    requires entry == left + "=" + right && '=' !in left
    ensures Parsed(entry) == Some((session, slug)) <==>
            && TrimSpace(left) == session != "" && TrimSpace(right) != ""
            && RepoId.Canonical(TrimSpace(right)) == Some(slug)
    ensures Parsed(entry) == Some((session, slug)) ==>
              !RepoId.IsSpace(session[0]) && !RepoId.IsSpace(session[|session| - 1]) &&
              RepoId.Canonical(slug) == Some(slug)
  {
    CutAt(left, right);
    if Parsed(entry) == Some((session, slug)) {
      RepoId.CanonicalIdempotent(TrimSpace(right));
    }
  }

  lemma {:induction false} CutAt(left: string, right: string)
    requires '=' !in left
    ensures ScoreFlags.Cut(left + "=" + right) == (left, right, true)
  {
    if left != "" {
      assert (left + "=" + right)[1..] == left[1..] + "=" + right;
      CutAt(left[1..], right);
      assert left[..1] + left[1..] == left;
      assert (left + "=" + right)[..1] == left[..1];
    } else {
      assert ("" + "=" + right)[1..] == right;
    }
  }

  /** An entry without '=' does not parse. */
  lemma NeedsEquals(entry: string)
    requires '=' !in entry
    ensures Parsed(entry) == None
  {
  }

  /** Of trimmed lines, the entries: blank lines and whole-line comments are not. */
  function Kept(trimmed: seq<string>): seq<string> {
    if trimmed == [] then []
    else
      var line := trimmed[|trimmed| - 1];
      Kept(trimmed[..|trimmed| - 1]) + if line == "" || line[0] == '#' then [] else [line]
  }

  function EntriesOf(lines: seq<string>): seq<string> {
    Kept(seq(|lines|, i requires 0 <= i < |lines| => TrimSpace(lines[i])))
  }

  lemma {:induction false} KeptAreEntries(trimmed: seq<string>, e: string)
    ensures e in Kept(trimmed) <==> e in trimmed && e != "" && e[0] != '#'
  {
    if trimmed != [] {
      var front, last := trimmed[..|trimmed| - 1], trimmed[|trimmed| - 1];
      assert trimmed == front + [last];
      KeptAreEntries(front, e);
    }
  }

  type Entry = Option<(string, string)>

  function ParseAll(entries: seq<string>): seq<Entry> {
    seq(|entries|, i requires 0 <= i < |entries| => Parsed(entries[i]))
  }

  predicate WellFormed(es: seq<Entry>) {
    None !in es
  }

  /** No session is mapped to two repositories. */
  ghost predicate Unambiguous(es: seq<Entry>) {
    forall session, x, y :: Some((session, x)) in es && Some((session, y)) in es ==> x == y
  }

  /** The mapping says what the entries say, and nothing else. */
  ghost predicate Says(m: map<string, string>, es: seq<Entry>) {
    && (forall session, slug :: Some((session, slug)) in es ==> session in m && m[session] == slug)
    && (forall session :: session in m ==> Some((session, m[session])) in es)
  }

  method AddRepairMapping(out: map<string, string>, e: Entry, ghost before: seq<Entry>)
    returns (r: Option<map<string, string>>)
    requires WellFormed(before) && Unambiguous(before) && Says(out, before)
    ensures r.Some? <==> WellFormed(before + [e]) && Unambiguous(before + [e])
    ensures r.Some? ==> Says(r.value, before + [e])
  {
    ghost var after := before + [e];
    assert forall x :: x in after <==> x in before || x == e;
    if e.None? {
      return None;
    }
    var (session, canon) := e.value;
    if session in out && out[session] != canon {
      assert Some((session, out[session])) in after && Some((session, canon)) in after;
      return None;
    }
    r := Some(out[session := canon]);
  }

  /** Adds the entries one by one, the pairs first and then the file's; the first that is
      malformed or contradicts an earlier one ends it. */
  method MergeEntries(es: seq<Entry>) returns (r: Option<map<string, string>>)
    ensures r.Some? <==> WellFormed(es) && Unambiguous(es)
    ensures r.Some? ==> Says(r.value, es)
  {
    var out: map<string, string> := map[];
    for i := 0 to |es|
      invariant WellFormed(es[..i]) && Unambiguous(es[..i]) && Says(out, es[..i])
    {
      var added := AddRepairMapping(out, es[i], es[..i]);
      assert es[..i + 1] == es[..i] + [es[i]];
      if added.None? {
        assert forall e :: e in es[..i + 1] ==> e in es;
        return None;
      }
      out := added.value;
    }
    assert es[..|es|] == es;
    r := Some(out);
  }

  /** loadRepairMapping: it succeeds exactly when every entry is well formed and no session
      has two repositories, and then says exactly what the entries say. */
  method LoadRepairMapping(pairs: seq<string>, lines: seq<string>) returns (r: Option<map<string, string>>)
    ensures var es := ParseAll(pairs + EntriesOf(lines));
            && (r.Some? <==> WellFormed(es) && Unambiguous(es))
            && (r.Some? ==> Says(r.value, es))
  {
    r := MergeEntries(ParseAll(pairs + EntriesOf(lines)));
  }

  /** The order of the entries, and repeating them, changes neither success nor the result. */
  lemma OrderIndependent(a: seq<Entry>, b: seq<Entry>, m: map<string, string>, n: map<string, string>)
    requires forall e :: e in a <==> e in b
    ensures WellFormed(a) && Unambiguous(a) <==> WellFormed(b) && Unambiguous(b)
    ensures Says(m, a) && Says(n, b) ==> m == n
  {
    if Says(m, a) && Says(n, b) {
      assert m.Keys == n.Keys;
    }
  }
}
