/** Reading the output of `svn info` and the branch encoded in a Subversion
    repository URL. */
module RcsSvn {
  import opened Wrappers
  import opened Text
  import Assoc

  const UNPARSABLE_LINE := "found unparsable svn info line"
  const NO_BRANCH_IN_URL := "could not extract branch from svn URL"

  /** The separator between a key and its value on a line of `svn info`. */
  const KEY_SEPARATOR := ": "

  // ---------------------------------------------------------------------
  // svn info

  /** strings.SplitN(line, ": ", 2) when it gives two parts: the key before
      the first ": " and the value after it. */
  function KeyValue(line: string): Option<(string, string)>
  {
    var kv := SplitFirst(line, KEY_SEPARATOR);
    if |kv| != 2 then None else Some((kv[0], kv[1]))
  }

  /** The map built from the lines read so far: empty lines are skipped,
      each other line assigns its value to its key, and a line without a
      separator fails the whole parse. */
  function InfoOf(lines: seq<string>): Result<map<string, string>>
    decreases |lines|
  {
    if |lines| == 0 then Success(map[])
    else
      match InfoOf(lines[..|lines| - 1])
      case Failure(e) => Failure(e)
      case Success(info) =>
        var line := lines[|lines| - 1];
        if line == "" then Success(info)
        else
          match KeyValue(line)
          case None => Failure(UNPARSABLE_LINE)
          case Some(kv) => Success(info[kv.0 := kv.1])
  }

  /** ParseSvnInfo: splits the output into lines and fills the map line by
      line, stopping at the first unparsable line.  (Split gives at least one
      line, so the code's "no lines" error cannot occur.) */
  method ParseSvnInfo(svnOut: string) returns (r: Result<map<string, string>>)
    ensures r == InfoOf(Split(svnOut, "\n"))
  {
    var lines := Split(svnOut, "\n");
    var info: map<string, string> := map[];
    var i := 0;
    while i < |lines|
      invariant 0 <= i <= |lines|
      invariant InfoOf(lines[..i]) == Success(info)
    {
      var line := lines[i];
      assert lines[..i + 1][..i] == lines[..i];
      if line != "" {
        var kv := SplitFirst(line, KEY_SEPARATOR);
        if |kv| != 2 {
          FailureSticks(lines, i + 1);
          return Failure(UNPARSABLE_LINE);
        }
        info := info[kv[0] := kv[1]];
      }
      i := i + 1;
    }
    assert lines[..i] == lines;
    return Success(info);
  }

  /** Once a prefix of the lines fails, the whole parse fails. */
  lemma {:induction false} FailureSticks(lines: seq<string>, n: nat)
    requires n <= |lines| && InfoOf(lines[..n]) == Failure(UNPARSABLE_LINE)
    ensures InfoOf(lines) == Failure(UNPARSABLE_LINE)
    decreases |lines|
  {
    if |lines| == n {
      assert lines[..n] == lines;
    } else {
      var init := lines[..|lines| - 1];
      assert init[..n] == lines[..n];
      FailureSticks(init, n);
    }
  }

  /** Every non-empty line can be read as a key and a value. */
  predicate Parsable(lines: seq<string>)
  {
    forall i :: 0 <= i < |lines| && lines[i] != "" ==> KeyValue(lines[i]).Some?
  }

  /** The key/value pairs of the non-empty readable lines, in order. */
  function Entries(lines: seq<string>): seq<(string, string)>
    decreases |lines|
  {
    if |lines| == 0 then []
    else
      var line := lines[|lines| - 1];
      match KeyValue(line)
      case Some(kv) => if line == "" then Entries(lines[..|lines| - 1]) else Entries(lines[..|lines| - 1]) + [kv]
      case None => Entries(lines[..|lines| - 1])
  }

  /** The parse succeeds exactly when every non-empty line has a separator,
      and then the map is the one left by assigning the lines' pairs in
      order, so a repeated key keeps its last value (Assoc.AssignLast). */
  lemma {:induction false} InfoIsAssign(lines: seq<string>)
    ensures InfoOf(lines).Success? <==> Parsable(lines)
    ensures InfoOf(lines).Success? ==> InfoOf(lines).value == Assoc.Assign(Entries(lines))
    ensures InfoOf(lines).Failure? ==> InfoOf(lines) == Failure(UNPARSABLE_LINE)
    decreases |lines|
  {
    if |lines| > 0 {
      var init := lines[..|lines| - 1];
      var line := lines[|lines| - 1];
      InfoIsAssign(init);
      assert forall i :: 0 <= i < |init| ==> init[i] == lines[i];
      if line != "" && KeyValue(line).Some? {
        Assoc.AssignSnoc(Entries(init), KeyValue(line).value.0, KeyValue(line).value.1);
      }
      if !Parsable(init) {
        var i :| 0 <= i < |init| && init[i] != "" && KeyValue(init[i]).None?;
        assert lines[i] == init[i];
      }
    }
  }

  /** A line reads as the key before its first ": " and the value after it;
      the key contains no separator, and a line reads at all exactly when it
      contains one. */
  lemma {:induction false} KeyValueSplit(line: string)
    ensures KeyValue(line).Some? <==> Contains(line, KEY_SEPARATOR)
    ensures KeyValue(line).Some? ==>
              var (k, v) := KeyValue(line).value;
              line == k + KEY_SEPARATOR + v && !Contains(k, KEY_SEPARATOR)
  {
    if Contains(line, KEY_SEPARATOR) {
      var i := IndexOf(line, KEY_SEPARATOR).value;
      Reassemble(line, i, KEY_SEPARATOR);
      UpToFree(line, KEY_SEPARATOR);
    }
  }

  /** A line `<key>: <value>` whose key has no colon reads as that pair,
      whatever the value holds. */
  lemma {:induction false} KeyValueOf(k: string, v: string)
    requires ':' !in k
    ensures KeyValue(k + KEY_SEPARATOR + v) == Some((k, v))
  {
    var line := k + KEY_SEPARATOR + v;
    IndexOfAfter(k, KEY_SEPARATOR, v);
    assert line[|k| + |KEY_SEPARATOR|..] == v;
  }

  /** Empty lines, such as the one after a final line break, are skipped. */
  lemma {:induction false} EmptyLineSkipped(lines: seq<string>)
    ensures InfoOf(lines + [""]) == InfoOf(lines)
  {
    assert (lines + [""])[..|lines|] == lines;
  }

  /** A final line break does not change the parse. */
  lemma {:induction false} TrailingNewline(svnOut: string)
    ensures InfoOf(Split(svnOut + "\n", "\n")) == InfoOf(Split(svnOut, "\n"))
  {
    SplitTrailing(svnOut, '\n');
    EmptyLineSkipped(Split(svnOut, "\n"));
  }

  /** A later line for a key overrides any earlier value of that key. */
  lemma {:induction false} LaterLineWins(lines: seq<string>, k: string, v: string)
    requires InfoOf(lines).Success? && ':' !in k
    ensures InfoOf(lines + [k + KEY_SEPARATOR + v]) == Success(InfoOf(lines).value[k := v])
    ensures k in InfoOf(lines + [k + KEY_SEPARATOR + v]).value
  {
    KeyValueOf(k, v);
    assert (lines + [k + KEY_SEPARATOR + v])[..|lines|] == lines;
  }

  /** A non-empty line without a separator fails the parse, whatever lines
      come before or after it. */
  lemma {:induction false} UnparsableLineFails(before: seq<string>, line: string, after: seq<string>)
    requires line != "" && !Contains(line, KEY_SEPARATOR)
    ensures InfoOf(before + [line] + after) == Failure(UNPARSABLE_LINE)
  {
    KeyValueSplit(line);
    var lines := before + [line] + after;
    var n := |before| + 1;
    assert lines[..n][..|before|] == before;
    InfoIsAssign(before);
    FailureSticks(lines, n);
  }

  // ---------------------------------------------------------------------
  // The branch in a repository URL

  /** The four patterns of ParseBranchFromSvnUrl: `<marker>([^/]+)`, whose
      group is the non-empty segment after the marker, and a fixed text
      (anywhere, or at the end of the URL) whose group is `group`. */
  datatype Pattern =
    | Segment(marker: string)
    | Fixed(text: string, group: string, atEnd: bool)

  const BRANCHES := "/branches/"
  const TAGS := "/tags/"
  const TRUNK := "trunk"

  /** The patterns, in the order they are tried. */
  const PATTERNS: seq<Pattern> :=
    [Segment(BRANCHES), Fixed("/trunk/", TRUNK, false), Fixed("/trunk", TRUNK, true), Segment(TAGS)]

  /** `<marker>([^/]+)` matches at `j`: the marker followed by a character
      other than `/`. */
  predicate SegmentAt(url: string, marker: string, j: int)
  {
    OccursAt(url, marker, j) && j + |marker| < |url| && url[j + |marker|] != '/'
  }

  /** The leftmost position at or after `from` where `<marker>([^/]+)` matches. */
  function LeftmostSegment(url: string, marker: string, from: nat): (r: Option<nat>)
    ensures r.Some? ==> from <= r.value && SegmentAt(url, marker, r.value)
    ensures r.Some? ==> forall j :: from <= j < r.value ==> !SegmentAt(url, marker, j)
    ensures r.None? ==> forall j :: from <= j ==> !SegmentAt(url, marker, j)
    decreases |url| - from
  {
    if from >= |url| then None
    else if SegmentAt(url, marker, from) then Some(from)
    else LeftmostSegment(url, marker, from + 1)
  }

  /** The group of `<marker>([^/]+)` matched at `j`: the greedy run of
      characters other than `/` after the marker. */
  function SegmentGroup(url: string, marker: string, j: nat): (r: string)
    requires SegmentAt(url, marker, j)
    ensures |r| > 0 && '/' !in r
  {
    var rest := url[j + |marker|..];
    UpToFree(rest, "/");
    ContainsChar(UpTo(rest, "/"), '/');
    NonEmptyUpTo(rest);
    UpTo(rest, "/")
  }

  /** A text that does not start with `/` has a non-empty part before its
      first `/`. */
  lemma {:induction false} NonEmptyUpTo(s: string)
    requires |s| > 0 && s[0] != '/'
    ensures |UpTo(s, "/")| > 0
  {
    if IndexOf(s, "/").Some? {
      assert !OccursAt(s, "/", 0) by { assert s[0..1] == [s[0]]; }
    }
  }

  /** regexp.FindStringSubmatch(url) of one pattern, reduced to its group. */
  function FindGroup(p: Pattern, url: string): Option<string>
  {
    match p
    case Segment(marker) =>
      (match LeftmostSegment(url, marker, 0)
       case None => None
       case Some(j) => Some(SegmentGroup(url, marker, j)))
    case Fixed(text, group, atEnd) =>
      if (if atEnd then HasSuffix(url, text) else |text| > 0 && Contains(url, text)) then Some(group) else None
  }

  /** The group of the first pattern in `ps` that matches. */
  function FirstHit(ps: seq<Pattern>, url: string): Option<string>
    decreases |ps|
  {
    if |ps| == 0 then None
    else
      match FindGroup(ps[0], url)
      case Some(g) => Some(g)
      case None => FirstHit(ps[1..], url)
  }

  /** ParseBranchFromSvnUrl */
  function ParseBranchFromSvnUrl(url: string): Result<string>
  {
    match FirstHit(PATTERNS, url)
    case Some(b) => Success(b)
    case None => Failure(NO_BRANCH_IN_URL)
  }

  /** The patterns are tried in their order: each one decides the result
      unless it finds nothing, and when none matches the search finds
      nothing. */
  lemma {:induction false} PatternOrder(url: string)
    ensures FindGroup(PATTERNS[0], url).Some? ==> FirstHit(PATTERNS, url) == FindGroup(PATTERNS[0], url)
    ensures FindGroup(PATTERNS[0], url).None? && FindGroup(PATTERNS[1], url).Some? ==>
              FirstHit(PATTERNS, url) == FindGroup(PATTERNS[1], url)
    ensures FindGroup(PATTERNS[0], url).None? && FindGroup(PATTERNS[1], url).None? ==>
              FirstHit(PATTERNS, url) == FirstHit(PATTERNS[2..], url)
    ensures FindGroup(PATTERNS[2], url).Some? ==> FirstHit(PATTERNS[2..], url) == FindGroup(PATTERNS[2], url)
    ensures FindGroup(PATTERNS[2], url).None? ==> FirstHit(PATTERNS[2..], url) == FindGroup(PATTERNS[3], url)
  {
    var p1 := PATTERNS[1..];
    var p2 := PATTERNS[2..];
    var p3 := PATTERNS[3..];
    assert p1[0] == PATTERNS[1] && p1[1..] == p2;
    assert p2[0] == PATTERNS[2] && p2[1..] == p3;
    assert p3[0] == PATTERNS[3] && p3[1..] == [];
    assert FirstHit(p3, url) == FindGroup(PATTERNS[3], url);
  }

  /** No occurrence of the marker means no segment match. */
  lemma {:induction false} NoMarkerNoSegment(url: string, marker: string)
    requires |marker| > 0 && !Contains(url, marker)
    ensures LeftmostSegment(url, marker, 0).None?
  {
  }

  /** A branch read from a URL is never empty and never holds a `/`. */
  lemma {:induction false} BranchIsSegment(url: string)
    requires ParseBranchFromSvnUrl(url).Success?
    ensures |ParseBranchFromSvnUrl(url).value| > 0 && '/' !in ParseBranchFromSvnUrl(url).value
  {
    PatternOrder(url);
  }

  /** `<base>/branches/<name>` names the branch `name`, whatever follows
      after a further `/`, provided no earlier `/branches/` appears. */
  lemma {:induction false} BranchesUrl(base: string, name: string, rest: string)
    requires !Contains(base + "/branches", BRANCHES)
    requires |name| > 0 && '/' !in name && (rest == "" || rest[0] == '/')
    ensures ParseBranchFromSvnUrl(base + BRANCHES + name + rest) == Success(name)
  {
    assert BRANCHES == "/branches" + "/";
    SegmentUrl(base, "/branches", name, rest);
    PatternOrder(base + BRANCHES + name + rest);
  }

  /** `<base>/tags/<name>` names the tag `name` when the URL holds no
      branch and no trunk, and no earlier `/tags/` appears. */
  lemma {:induction false} TagsUrl(base: string, name: string, rest: string)
    requires var url := base + TAGS + name + rest;
             !Contains(url, BRANCHES) && !Contains(url, "/trunk/") && !HasSuffix(url, "/trunk")
    requires !Contains(base + "/tags", TAGS)
    requires |name| > 0 && '/' !in name && (rest == "" || rest[0] == '/')
    ensures ParseBranchFromSvnUrl(base + TAGS + name + rest) == Success(name)
  {
    var url := base + TAGS + name + rest;
    assert TAGS == "/tags" + "/";
    SegmentUrl(base, "/tags", name, rest);
    NoMarkerNoSegment(url, BRANCHES);
    PatternOrder(url);
  }

  /** The segment pattern for `<m>/` finds `name` in `<base><m>/<name><rest>`
      when no earlier occurrence of `<m>/` exists. */
  lemma {:induction false} SegmentUrl(base: string, m: string, name: string, rest: string)
    requires |m| > 0 && m[0] == '/' && !Contains(base + m, m + "/")
    requires |name| > 0 && '/' !in name && (rest == "" || rest[0] == '/')
    ensures FindGroup(Segment(m + "/"), base + (m + "/") + name + rest) == Some(name)
  {
    var url := base + (m + "/") + (name + rest);
    UpToName(name, rest);
    SegmentTail(base, m, name + rest);
    Regroup(base + (m + "/"), name, rest);
    assert FindGroup(Segment(m + "/"), url) == Some(name);
  }

  lemma {:induction false} Regroup(a: string, b: string, c: string)
    ensures a + b + c == a + (b + c)
  {
  }

  /** The segment pattern finds, after the first marker, the text up to the
      next `/`. */
  lemma {:induction false} SegmentTail(base: string, m: string, tail: string)
    requires |m| > 0 && m[0] == '/' && !Contains(base + m, m + "/")
    requires |tail| > 0 && tail[0] != '/'
    ensures FindGroup(Segment(m + "/"), base + (m + "/") + tail) == Some(UpTo(tail, "/"))
  {
    SegmentFoundAfter(base, m, tail);
  }

  /** A URL with no `/branches/` that contains `/trunk/` or ends in
      `/trunk` names the trunk. */
  lemma {:induction false} TrunkUrl(url: string)
    requires !Contains(url, BRANCHES)
    requires Contains(url, "/trunk/") || HasSuffix(url, "/trunk")
    ensures ParseBranchFromSvnUrl(url) == Success(TRUNK)
  {
    NoMarkerNoSegment(url, BRANCHES);
    PatternOrder(url);
  }

  /** A URL in which no pattern can match fails; conversely a failure
      means that none of the markers is followed by a segment and the URL
      has no trunk. */
  lemma {:induction false} NoPatternFails(url: string)
    ensures !Contains(url, BRANCHES) && !Contains(url, TAGS) && !Contains(url, "/trunk/") && !HasSuffix(url, "/trunk")
            ==> ParseBranchFromSvnUrl(url) == Failure(NO_BRANCH_IN_URL)
    ensures ParseBranchFromSvnUrl(url).Failure? ==>
              ParseBranchFromSvnUrl(url) == Failure(NO_BRANCH_IN_URL)
              && (forall j :: !SegmentAt(url, BRANCHES, j) && !SegmentAt(url, TAGS, j))
              && !Contains(url, "/trunk/") && !HasSuffix(url, "/trunk")
  {
    PatternOrder(url);
    if !Contains(url, BRANCHES) && !Contains(url, TAGS) {
      NoMarkerNoSegment(url, BRANCHES);
      NoMarkerNoSegment(url, TAGS);
    }
  }

  /** A segment name followed by nothing or by a `/` is its own text up to
      the first `/`. */
  lemma {:induction false} UpToName(name: string, rest: string)
    requires |name| > 0 && '/' !in name && (rest == "" || rest[0] == '/')
    ensures |name + rest| > 0 && (name + rest)[0] != '/' && UpTo(name + rest, "/") == name
  {
    if rest == "" {
      assert name + rest == name;
      IndexOfAfter(name, "/", "");
    } else {
      assert name + rest == name + "/" + rest[1..];
      IndexOfAfter(name, "/", rest[1..]);
    }
  }

  /** With no earlier occurrence, the segment after `<base><m>/` is the
      leftmost match of `<m>/([^/]+)`, and its group is the text up to the
      next `/`. */
  lemma {:induction false} SegmentFoundAfter(base: string, m: string, tail: string)
    requires |m| > 0 && m[0] == '/' && !Contains(base + m, m + "/")
    requires |tail| > 0 && tail[0] != '/'
    ensures var url := base + (m + "/") + tail;
            LeftmostSegment(url, m + "/", 0) == Some(|base|)
            && SegmentGroup(url, m + "/", |base|) == UpTo(tail, "/")
  {
    var marker := m + "/";
    var url := base + marker + tail;
    assert url[|base|..|base| + |marker|] == marker;
    assert url[|base| + |marker|..] == tail;
    forall j | 0 <= j < |base|
      ensures !SegmentAt(url, marker, j)
    {
      if OccursAt(url, marker, j) {
        assert url[j..j + |marker|] == (base + marker)[j..j + |marker|];
        assert OccursAt(base + m, marker, j);
      }
    }
    LeftmostFrom(url, marker, 0, |base|);
  }

  /** The search from `from` finds `k` when `k` matches and nothing between
      does. */
  lemma {:induction false} LeftmostFrom(url: string, marker: string, from: nat, k: nat)
    requires from <= k && SegmentAt(url, marker, k)
    requires forall j :: from <= j < k ==> !SegmentAt(url, marker, j)
    ensures LeftmostSegment(url, marker, from) == Some(k)
    decreases k - from
  {
    if from < k {
      LeftmostFrom(url, marker, from + 1, k);
    }
  }
}
