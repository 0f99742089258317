/** Canonical repository slugs: the join key between cost rows and outcome rows. */
module RepoId {
  import opened Wrappers

  const UNQUALIFIED := "unqualified"
  const MAX_LEN := 256
  const GIT_SUFFIX := ".git"

  /** Length in UTF-8 bytes, which is what the length bound counts. */
  function ByteLen(s: string): (n: nat)
    ensures n >= |s|
  {
    if s == "" then 0
    else
      var c := s[|s| - 1] as int;
      ByteLen(s[..|s| - 1]) + (if c < 0x80 then 1 else if c < 0x800 then 2 else if c < 0x10000 then 3 else 4)
  }

  /** unicode.IsSpace. */
  predicate IsSpace(c: char) {
    || '\t' <= c <= '\r' || c == ' ' || c == '\U{85}' || c == '\U{A0}' || c == '\U{1680}'
    || '\U{2000}' <= c <= '\U{200A}' || c == '\U{2028}' || c == '\U{2029}' || c == '\U{202F}' || c == '\U{205F}' ||
        c == '\U{3000}'
  }

  /** unicode.ToLower as far as it can yield a valid character: two letters outside ASCII
      lower to ASCII ones, every other stays outside ASCII and is rejected later. */
  function Lower(c: char): char {
    if 'A' <= c <= 'Z' then 'a' + (c - 'A')
    else if c == '\U{130}' then 'i'
    else if c == '\U{212A}' then 'k'
    else c
  }

  function ToLower(s: string): (t: string)
    ensures |t| == |s|
  {
    seq(|s|, i requires 0 <= i < |s| => Lower(s[i]))
  }

  function TrimLeft(s: string, drop: char -> bool): (t: string)
    ensures t == s || |t| < |s|
    ensures t != "" ==> !drop(t[0])
    ensures s != "" && !drop(s[0]) ==> t == s
  {
    if s != "" && drop(s[0]) then TrimLeft(s[1..], drop) else s
  }

  function TrimRight(s: string, drop: char -> bool): (t: string)
    ensures t <= s
    ensures t != "" ==> !drop(t[|t| - 1])
    ensures s != "" && !drop(s[|s| - 1]) ==> t == s
  {
    if s != "" && drop(s[|s| - 1]) then TrimRight(s[..|s| - 1], drop) else s
  }

  function Trim(s: string, drop: char -> bool): (t: string)
    ensures t == s || |t| < |s|
    ensures t != "" ==> !drop(t[0]) && !drop(t[|t| - 1])
    ensures s != "" && !drop(s[0]) && !drop(s[|s| - 1]) ==> t == s
  {
    TrimRight(TrimLeft(s, drop), drop)
  }

  predicate HasSuffix(s: string, suffix: string) {
    |suffix| <= |s| && s[|s| - |suffix|..] == suffix
  }

  /** One round of the loop: slashes off both ends, then one ".git". */
  function Peeled(s: string): (t: string)
    ensures |t| <= |s|
  {
    var t := Trim(s, c => c == '/');
    if HasSuffix(t, GIT_SUFFIX) then t[..|t| - |GIT_SUFFIX|] else t
  }

  /** Rounds until nothing changes. */
  function PeeledFully(s: string): (t: string)
    ensures Peeled(t) == t && |t| <= |s|
    decreases |s|
  {
    var t := Peeled(s);
    if t == s then s
    else
      PeelShortens(s);
      PeeledFully(t)
  }

  lemma PeelShortens(s: string)
    ensures Peeled(s) != s ==> |Peeled(s)| < |s|
  {
  }

  predicate ValidChar(c: char) {
    'a' <= c <= 'z' || '0' <= c <= '9' || c == '.' || c == '_' || c == '-'
  }

  /** strings.Split at '/'. */
  function Segments(s: string): (segs: seq<string>)
    ensures |segs| >= 1
  {
    if s == "" then [""]
    else if s[0] == '/' then [""] + Segments(s[1..])
    else
      var rest := Segments(s[1..]);
      [s[..1] + rest[0]] + rest[1..]
  }

  predicate ValidSegment(seg: string) {
    seg != "" && seg != "." && seg != ".." && forall i :: 0 <= i < |seg| ==> ValidChar(seg[i])
  }

  predicate ValidSlug(s: string) {
    && s != "" && s != UNQUALIFIED
    && |Segments(s)| >= 2
    && forall i :: 0 <= i < |Segments(s)| ==> ValidSegment(Segments(s)[i])
  }

  /** The canonical form of a slug-shaped name, or None. */
  function Canonical(raw: string): (r: Option<string>)
  {
    var s := Trim(raw, IsSpace);
    if s == "" || ByteLen(s) > MAX_LEN then None
    else
      var t := PeeledFully(ToLower(s));
      if ValidSlug(t) then Some(t) else None
  }

  method Canonicalize(raw: string) returns (r: Option<string>)
    ensures r == Canonical(raw)
  {
    var s := Trim(raw, IsSpace);
    if s == "" || ByteLen(s) > MAX_LEN {
      return None;
    }
    s := ToLower(s);
    ghost var lowered := s;
    while true
      invariant PeeledFully(s) == PeeledFully(lowered)
      decreases |s|
    {
      var before := s;
      PeelShortens(s);
      s := Trim(s, c => c == '/');
      if HasSuffix(s, GIT_SUFFIX) {
        s := s[..|s| - |GIT_SUFFIX|];
      }
      assert s == Peeled(before);
      if s == before {
        break;
      }
    }
    if ValidSlug(s) {
      r := Some(s);
    } else {
      r := None;
    }
  }

  /** Valid segments leave only lower-case ASCII and slashes in the whole. */
  lemma {:induction false} SegmentChars(s: string)
    requires forall i :: 0 <= i < |Segments(s)| ==>
               forall j :: 0 <= j < |Segments(s)[i]| ==> ValidChar(Segments(s)[i][j])
    ensures forall i :: 0 <= i < |s| ==> ValidChar(s[i]) || s[i] == '/'
  {
    if s != "" {
      var rest := Segments(s[1..]);
      var all := Segments(s);
      if s[0] == '/' {
        assert forall i :: 0 <= i < |rest| ==> rest[i] == all[i + 1];
      } else {
        assert all[0][0] == s[0];
        forall i, j | 0 <= i < |rest| && 0 <= j < |rest[i]|
          ensures ValidChar(rest[i][j])
        {
          if i == 0 {
            assert all[0][j + 1] == rest[0][j];
          } else {
            assert all[i] == rest[i];
          }
        }
      }
      SegmentChars(s[1..]);
      assert forall i :: 0 < i < |s| ==> s[i] == s[1..][i - 1];
    }
  }

  lemma {:induction false} AsciiByteLen(s: string)
    requires forall i :: 0 <= i < |s| ==> s[i] as int < 0x80
    ensures ByteLen(s) == |s|
  {
    if s != "" {
      AsciiByteLen(s[..|s| - 1]);
    }
  }

  /** The canonical form is a fixed point: what any caller stores as a join key canonicalizes
      to itself, so two producers that canonicalize once and twice still meet. */
  lemma CanonicalIdempotent(raw: string)
    requires Canonical(raw).Some?
    ensures Canonical(Canonical(raw).value) == Canonical(raw)
  {
    var t := Canonical(raw).value;
    SlugIsFixed(t);
  }

  lemma SlugIsFixed(t: string)
    requires ValidSlug(t) && Peeled(t) == t && |t| <= MAX_LEN
    ensures Canonical(t) == Some(t)
  {
    SegmentChars(t);
    AsciiByteLen(t);
    assert !IsSpace(t[0]) && !IsSpace(t[|t| - 1]);
    assert Trim(t, IsSpace) == t;
    assert forall i :: 0 <= i < |t| ==> Lower(t[i]) == t[i];
    assert ToLower(t) == t;
  }

  // ---------- which spellings meet ----------

  lemma {:induction false} OneSegment(s: string)
    requires '/' !in s
    ensures Segments(s) == [s]
  {
    if s != "" {
      OneSegment(s[1..]);
      assert s[..1] + s[1..] == s;
    }
  }

  /** What a canonical slug looks like: lower-case letters, digits and ".-_" in segments between
      single slashes, at least two of them, none at either end and no ".git" after the last. */
  lemma CanonicalShape(raw: string)
    requires Canonical(raw).Some?
    ensures var t := Canonical(raw).value;
            && 0 < |t| <= 256 && t != "unqualified" && '/' in t && t[0] != '/' && t[|t| - 1] != '/'
            && !HasSuffix(t, ".git")
            && forall i :: 0 <= i < |t| ==>
                 'a' <= t[i] <= 'z' || '0' <= t[i] <= '9' || t[i] in {'.', '_', '-', '/'}
  {
    var t := Canonical(raw).value;
    assert ValidSlug(t) && Peeled(t) == t;
    SlugChars(t);
    if '/' !in t {
      OneSegment(t);
    }
    PeeledEnds(t);
  }

  lemma SlugChars(t: string)
    requires ValidSlug(t)
    ensures forall i :: 0 <= i < |t| ==> ValidChar(t[i]) || t[i] == '/'
  {
    SegmentChars(t);
  }

  lemma PeeledEnds(t: string)
    requires t != "" && Peeled(t) == t
    ensures t[0] != '/' && t[|t| - 1] != '/' && !HasSuffix(t, ".git")
  {
  }

  lemma TrimOfDecorated(t: string, tail: string)
    requires t != "" && t[0] != '/' && t[|t| - 1] != '/' && tail in {"", "/"}
    ensures Trim(t + tail, c => c == '/') == t
  {
    var drop := (c: char) => c == '/';
    assert (t + tail)[0] == t[0];
    assert TrimLeft(t + tail, drop) == t + tail;
    if tail == "/" {
      assert (t + tail)[..|t + tail| - 1] == t;
      assert TrimRight(t, drop) == t;
    } else {
      assert t + tail == t;
    }
  }

  /** A clone suffix, a slash at the end, or both, make no difference. */
  lemma PeelsDecorations(t: string)
    requires t != "" && Peeled(t) == t
    ensures Peeled(t + ".git") == t && Peeled(t + "/") == t && Peeled(t + ".git/") == t
  {
    TrimOfDecorated(t, "/");
    TrimOfDecorated(t + ".git", "");
    TrimOfDecorated(t + ".git", "/");
    assert t + ".git" + "" == t + ".git" && t + ".git" + "/" == t + ".git/";
  }

  lemma PeeledToTheEnd(t: string, s: string)
    requires Peeled(t) == t && Peeled(s) == t
    ensures PeeledFully(s) == t
  {
    PeelShortens(s);
  }

  predicate Plain(s: string) {
    forall i :: 0 <= i < |s| ==> ValidChar(s[i]) || s[i] == '/'
  }

  lemma PlainTrims(s: string)
    requires s != "" && Plain(s)
    ensures Trim(s, IsSpace) == s
  {
    assert !IsSpace(s[0]) && !IsSpace(s[|s| - 1]);
  }

  lemma PlainLowers(s: string)
    requires Plain(s)
    ensures ToLower(s) == s
  {
    assert forall i :: 0 <= i < |s| ==> Lower(s[i]) == s[i];
  }

  /** Lower-case ASCII is trimmed and lowered to itself. */
  lemma PlainIsFixed(s: string)
    requires s != "" && Plain(s)
    ensures Trim(s, IsSpace) == s && ToLower(s) == s && ByteLen(s) == |s|
  {
    PlainTrims(s);
    PlainLowers(s);
    AsciiByteLen(s);
  }

  lemma PlainDecorated(t: string)
    requires Plain(t)
    ensures Plain(t + ".git") && Plain(t + "/") && Plain(t + ".git/")
  {
  }

  /** A clone suffix, a slash at the end, or both, lead to the same slug, within the length bound. */
  lemma DecoratedMeets(t: string, tail: string)
    requires Canonical(t) == Some(t) && |t| + |tail| <= MAX_LEN && tail in {".git", "/", ".git/"}
    ensures Canonical(t + tail) == Some(t)
  {
    CanonicalShape(t);
    PlainDecorated(t);
    PlainIsFixed(t);
    PlainIsFixed(t + tail);
    SlugOf(t);
    PeelsDecorations(t);
    PeeledToTheEnd(t, t + tail);
  }

  lemma SlugOf(t: string)
    requires Canonical(t) == Some(t)
    ensures ValidSlug(t) && Peeled(t) == t
  {
  }

  /** A name of letters, digits and ".-_" that is not a dot or two. */
  predicate Name(s: string) {
    && s !in {"", ".", ".."}
    && forall i :: 0 <= i < |s| ==> 'a' <= s[i] <= 'z' || '0' <= s[i] <= '9' || s[i] in {'.', '_', '-'}
  }

  lemma {:induction false} SegmentsOfTwo(a: string, b: string)
    requires '/' !in a && '/' !in b
    ensures Segments(a + "/" + b) == [a, b]
  {
    if a == "" {
      assert ("" + "/" + b)[1..] == b;
      OneSegment(b);
    } else {
      assert (a + "/" + b)[1..] == a[1..] + "/" + b;
      SegmentsOfTwo(a[1..], b);
      assert (a + "/" + b)[..1] == a[..1] && a[..1] + a[1..] == a;
    }
  }

  lemma NoSuffixPeels(s: string)
    requires s != "" && s[0] != '/' && s[|s| - 1] != '/' && !HasSuffix(s, ".git")
    ensures Peeled(s) == s
  {
  }

  lemma PlainOfTwo(owner: string, repo: string)
    requires Name(owner) && Name(repo)
    ensures Plain(owner + "/" + repo) && '/' !in owner && '/' !in repo
  {
  }

  lemma NameIsSegment(s: string)
    requires Name(s)
    ensures ValidSegment(s)
  {
  }

  lemma UnqualifiedIsOneSegment()
    ensures |Segments(UNQUALIFIED)| == 1
  {
    OneSegment(UNQUALIFIED);
  }

  lemma TwoNamesAreSlug(owner: string, repo: string)
    requires Name(owner) && Name(repo)
    ensures ValidSlug(owner + "/" + repo)
  {
    PlainOfTwo(owner, repo);
    SegmentsOfTwo(owner, repo);
    NameIsSegment(owner);
    NameIsSegment(repo);
    UnqualifiedIsOneSegment();
  }

  /** An owner and a repository of such names are canonical as they stand, within the length
      bound, unless the repository ends in ".git". */
  lemma OwnerRepoStands(owner: string, repo: string)
    requires Name(owner) && Name(repo) && |owner| + 1 + |repo| <= 256
    ensures Canonical(owner + "/" + repo) == Some(owner + "/" + repo) <==> !HasSuffix(repo, ".git")
  {
    var s := owner + "/" + repo;
    PlainOfTwo(owner, repo);
    TwoNamesAreSlug(owner, repo);
    SuffixOfRepo(owner, repo);
    if HasSuffix(repo, ".git") {
      if Canonical(s) == Some(s) {
        CanonicalShape(s);
      }
    } else {
      NoSuffixPeels(s);
      SlugIsFixed(s);
    }
  }

  lemma SuffixOfRepo(owner: string, repo: string)
    requires Name(repo)
    ensures HasSuffix(owner + "/" + repo, ".git") <==> HasSuffix(repo, ".git")
  {
    var s := owner + "/" + repo;
    if |repo| >= 4 {
      assert s[|s| - 4..] == repo[|repo| - 4..];
    } else if |s| >= 4 {
      assert s[|s| - |repo| - 1] == '/';
      assert s[|s| - 4..][3 - |repo|] == '/';
    }
  }

  lemma {:induction false} TrimLeftLowered(s: string)
    ensures TrimLeft(ToLower(s), IsSpace) == ToLower(TrimLeft(s, IsSpace))
  {
    if s != "" {
      assert ToLower(s)[1..] == ToLower(s[1..]);
      assert IsSpace(Lower(s[0])) <==> IsSpace(s[0]);
      TrimLeftLowered(s[1..]);
    }
  }

  lemma {:induction false} TrimRightLowered(s: string)
    ensures TrimRight(ToLower(s), IsSpace) == ToLower(TrimRight(s, IsSpace))
  {
    if s != "" {
      assert ToLower(s)[..|s| - 1] == ToLower(s[..|s| - 1]);
      assert IsSpace(Lower(s[|s| - 1])) <==> IsSpace(s[|s| - 1]);
      TrimRightLowered(s[..|s| - 1]);
    }
  }

  lemma {:induction false} LoweredNoLonger(s: string)
    ensures ByteLen(ToLower(s)) <= ByteLen(s)
  {
    if s != "" {
      assert ToLower(s)[..|s| - 1] == ToLower(s[..|s| - 1]);
      LoweredNoLonger(s[..|s| - 1]);
    }
  }

  lemma LowerTwice(s: string)
    ensures ToLower(ToLower(s)) == ToLower(s)
  {
    assert forall i :: 0 <= i < |s| ==> Lower(Lower(s[i])) == Lower(s[i]);
  }

  /** Spellings that differ in case alone are one repository, within the length bound. */
  lemma CaseMeets(raw: string)
    requires ByteLen(Trim(raw, IsSpace)) <= MAX_LEN
    ensures Canonical(ToLower(raw)) == Canonical(raw)
  {
    var s := Trim(raw, IsSpace);
    TrimLeftLowered(raw);
    TrimRightLowered(TrimLeft(raw, IsSpace));
    LoweredNoLonger(s);
    LowerTwice(s);
  }
}
