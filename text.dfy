/** The few operations of Go's `strings` package that the core uses:
    `Index`, `Split`, `SplitN(s, sep, 2)`, `TrimPrefix` and `HasSuffix`.
    Strings are sequences of characters; every separator is non-empty. */
module Text {
  import opened Wrappers

  /** `sep` occurs in `s` starting at position `i`. */
  predicate OccursAt(s: string, sep: string, i: int)
  {
    0 <= i && i + |sep| <= |s| && s[i..i + |sep|] == sep
  }

  /** strings.Index: the position of the first occurrence of `sep`, if any. */
  function IndexOf(s: string, sep: string): (r: Option<nat>)
    requires |sep| > 0
    ensures r.Some? ==> OccursAt(s, sep, r.value)
    ensures r.Some? ==> forall j :: 0 <= j < r.value ==> !OccursAt(s, sep, j)
    ensures r.None? ==> forall j :: 0 <= j ==> !OccursAt(s, sep, j)
    decreases |s|
  {
    if |s| < |sep| then None
    else
      assert s[0..|sep|] == s[..|sep|];
      if s[..|sep|] == sep then Some(0)
      else
        var r := IndexOf(s[1..], sep);
        assert forall j :: 1 <= j ==> (OccursAt(s, sep, j) <==> OccursAt(s[1..], sep, j - 1)) by {
          forall j | 1 <= j
            ensures OccursAt(s, sep, j) <==> OccursAt(s[1..], sep, j - 1)
          {
            if j + |sep| <= |s| {
              assert s[1..][j - 1..j - 1 + |sep|] == s[j..j + |sep|];
            }
          }
        }
        match r
        case None => None
        case Some(i) => Some(i + 1)
  }

  predicate Contains(s: string, sep: string)
    requires |sep| > 0
  {
    IndexOf(s, sep).Some?
  }

  /** The text before the first `sep`, or all of `s` when there is none. */
  function UpTo(s: string, sep: string): (r: string)
    requires |sep| > 0
    ensures r <= s
  {
    match IndexOf(s, sep)
    case None => s
    case Some(i) => s[..i]
  }

  /** strings.Split with a non-empty separator: the pieces between the
      occurrences of `sep`, found from the left. */
  function Split(s: string, sep: string): (r: seq<string>)
    requires |sep| > 0
    ensures |r| >= 1
    decreases |s|
  {
    match IndexOf(s, sep)
    case None => [s]
    case Some(i) => [s[..i]] + Split(s[i + |sep|..], sep)
  }

  /** strings.Join, the inverse of Split. */
  function Join(pieces: seq<string>, sep: string): string
  {
    if |pieces| == 0 then ""
    else if |pieces| == 1 then pieces[0]
    else pieces[0] + sep + Join(pieces[1..], sep)
  }

  /** strings.SplitN(s, sep, 2): at most two pieces, cut at the first `sep`. */
  function SplitFirst(s: string, sep: string): (r: seq<string>)
    requires |sep| > 0
    ensures 1 <= |r| <= 2
  {
    match IndexOf(s, sep)
    case None => [s]
    case Some(i) => [s[..i], s[i + |sep|..]]
  }

  /** strings.TrimPrefix: removes one leading `prefix`, if present. */
  function TrimPrefix(s: string, prefix: string): (r: string)
    ensures prefix <= s ==> prefix + r == s
    ensures !(prefix <= s) ==> r == s
  {
    if prefix <= s then s[|prefix|..] else s
  }

  /** strings.HasSuffix. */
  predicate HasSuffix(s: string, suffix: string)
  {
    |suffix| <= |s| && s[|s| - |suffix|..] == suffix
  }

  // ---------------------------------------------------------------------
  // Properties of Split

  /** The first piece is the text before the first separator. */
  lemma {:induction false} SplitHead(s: string, sep: string)
    requires |sep| > 0
    ensures Split(s, sep)[0] == UpTo(s, sep)
    ensures |Split(s, sep)| >= 2 <==> Contains(s, sep)
  {
  }

  /** The second piece is the text between the first and second separators. */
  lemma {:induction false} SplitSecond(s: string, sep: string)
    requires |sep| > 0 && Contains(s, sep)
    ensures var i := IndexOf(s, sep).value;
            Split(s, sep)[1] == UpTo(s[i + |sep|..], sep)
  {
    var i := IndexOf(s, sep).value;
    var rest := s[i + |sep|..];
    assert Split(s, sep) == [s[..i]] + Split(rest, sep);
    assert Split(s, sep)[1] == Split(rest, sep)[0];
    SplitHead(rest, sep);
  }

  /** Splitting and joining again gives back the original text. */
  lemma {:induction false} JoinSplit(s: string, sep: string)
    requires |sep| > 0
    ensures Join(Split(s, sep), sep) == s
    decreases |s|
  {
    if IndexOf(s, sep).None? {
      JoinSplitWhole(s, sep);
    } else {
      var rest := s[IndexOf(s, sep).value + |sep|..];
      JoinSplit(rest, sep);
      JoinSplitStep(s, sep);
    }
  }

  /** Without a separator, Split gives back the text as its only piece. */
  lemma {:induction false} JoinSplitWhole(s: string, sep: string)
    requires |sep| > 0 && IndexOf(s, sep).None?
    ensures Join(Split(s, sep), sep) == s
  {
    assert Split(s, sep) == [s];
  }

  /** One step of JoinSplit: the first piece, the separator and the rest. */
  lemma {:induction false} JoinSplitStep(s: string, sep: string)
    requires |sep| > 0 && IndexOf(s, sep).Some?
    requires var rest := s[IndexOf(s, sep).value + |sep|..];
             Join(Split(rest, sep), sep) == rest
    ensures Join(Split(s, sep), sep) == s
  {
    var i := IndexOf(s, sep).value;
    var rest := s[i + |sep|..];
    assert Split(s, sep) == [s[..i]] + Split(rest, sep);
    JoinCons(s[..i], Split(rest, sep), sep);
    Reassemble(s, i, sep);
  }

  lemma {:induction false} Reassemble(s: string, i: nat, sep: string)
    requires OccursAt(s, sep, i)
    ensures s[..i] + sep + s[i + |sep|..] == s
  {
    assert s == s[..i] + s[i..i + |sep|] + s[i + |sep|..];
  }

  lemma {:induction false} JoinCons(p: string, r: seq<string>, sep: string)
    requires |r| >= 1
    ensures Join([p] + r, sep) == p + sep + Join(r, sep)
  {
    assert ([p] + r)[1..] == r;
  }

  /** No piece of a split contains the separator. */
  lemma {:induction false} SplitPiecesFree(s: string, sep: string)
    requires |sep| > 0
    ensures forall k :: 0 <= k < |Split(s, sep)| ==> !Contains(Split(s, sep)[k], sep)
    decreases |s|
  {
    match IndexOf(s, sep)
    case None =>
      assert Split(s, sep) == [s];
    case Some(i) =>
      var rest := s[i + |sep|..];
      SplitPiecesFree(rest, sep);
      BeforeFirstFree(s, sep, i);
      var r := Split(s, sep);
      assert r == [s[..i]] + Split(rest, sep);
      forall k | 0 <= k < |r|
        ensures !Contains(r[k], sep)
      {
        if k > 0 {
          assert r[k] == Split(rest, sep)[k - 1];
        }
      }
  }

  /** The text before the first occurrence of `sep` does not contain it. */
  lemma {:induction false} BeforeFirstFree(s: string, sep: string, i: nat)
    requires |sep| > 0 && IndexOf(s, sep) == Some(i)
    ensures !Contains(s[..i], sep)
  {
    forall j | 0 <= j
      ensures !OccursAt(s[..i], sep, j)
    {
      if OccursAt(s[..i], sep, j) {
        assert s[..i][j..j + |sep|] == s[j..j + |sep|];
        assert OccursAt(s, sep, j);
      }
    }
  }

  /** Splitting on a one-character separator: a text with no separator in it
      stays whole, and a separator in front cuts off an empty piece. */
  lemma {:induction false} SplitAt(a: string, c: char, b: string)
    requires c !in a
    ensures Split(a, [c]) == [a]
    ensures Split(a + [c] + b, [c]) == [a] + Split(b, [c])
  {
    var s := a + [c] + b;
    assert OccursAt(s, [c], |a|);
    forall j | 0 <= j < |a|
      ensures !OccursAt(s, [c], j)
    {
      assert s[j] == a[j];
    }
    assert IndexOf(s, [c]) == Some(|a|);
    assert s[..|a|] == a && s[|a| + 1..] == b;
  }

  /** A separator at the very end adds one empty piece. */
  lemma {:induction false} SplitTrailing(s: string, c: char)
    ensures Split(s + [c], [c]) == Split(s, [c]) + [""]
    decreases |s|
  {
    match IndexOf(s, [c])
    case Some(k) =>
      var a, b := s[..k], s[k + 1..];
      FirstCharCut(s, c, k);
      SplitAt(a, c, b);
      SplitTrailing(b, c);
      assert s + [c] == a + [c] + (b + [c]);
      SplitAt(a, c, b + [c]);
    case None =>
      ContainsChar(s, c);
      assert s + [c] == s + [c] + "";
      SplitAt(s, c, "");
      assert Split("", [c]) == [""];
  }

  /** The first occurrence of a one-character separator cuts the text in
      two around it. */
  lemma {:induction false} FirstCharCut(s: string, c: char, k: nat)
    requires IndexOf(s, [c]) == Some(k)
    ensures c !in s[..k] && s == s[..k] + [c] + s[k + 1..]
  {
    ContainsChar(s[..k], c);
    assert !Contains(s[..k], [c]) by {
      UpToFree(s, [c]);
    }
    assert s[k..k + 1] == [s[k]];
  }

  // ---------------------------------------------------------------------
  // Locating a separator

  /** A separator whose first character does not occur in `a` is first
      found right after `a`. */
  lemma {:induction false} IndexOfAfter(a: string, sep: string, b: string)
    requires |sep| > 0 && sep[0] !in a
    ensures IndexOf(a + sep + b, sep) == Some(|a|)
    ensures IndexOf(a, sep) == None
    ensures UpTo(a + sep + b, sep) == a && UpTo(a, sep) == a
  {
    var s := a + sep + b;
    assert s[|a|..|a| + |sep|] == sep;
    assert OccursAt(s, sep, |a|);
    forall j | 0 <= j < |a|
      ensures !OccursAt(s, sep, j)
    {
      assert s[j] == a[j];
    }
    assert s[..|a|] == a;
  }

  /** When `a` followed by all but the last character of `sep` holds no
      `sep`, the first `sep` of `a + sep + b` is the one after `a`. */
  lemma {:induction false} IndexOfFirst(a: string, sep: string, b: string)
    requires |sep| > 0 && !Contains(a + sep[..|sep| - 1], sep)
    ensures IndexOf(a + sep + b, sep) == Some(|a|)
    ensures IndexOf(a, sep) == None
    ensures UpTo(a + sep + b, sep) == a && UpTo(a, sep) == a
  {
    var s := a + sep + b;
    var p := a + sep[..|sep| - 1];
    assert s[|a|..|a| + |sep|] == sep;
    assert OccursAt(s, sep, |a|);
    forall j | 0 <= j < |a|
      ensures !OccursAt(s, sep, j)
    {
      assert !OccursAt(p, sep, j);
      assert s[j..j + |sep|] == p[j..j + |sep|];
    }
    forall j | 0 <= j
      ensures !OccursAt(a, sep, j)
    {
      assert !OccursAt(p, sep, j);
      if j + |sep| <= |a| {
        assert a[j..j + |sep|] == p[j..j + |sep|];
      }
    }
    assert s[..|a|] == a;
  }

  /** A prefix without the separator's first character adds no occurrence. */
  lemma {:induction false} ContainsAfterPrefix(pre: string, s: string, sep: string)
    requires |sep| > 0 && sep[0] !in pre && !Contains(s, sep)
    ensures !Contains(pre + s, sep)
  {
    var t := pre + s;
    forall j | 0 <= j
      ensures !OccursAt(t, sep, j)
    {
      if j < |pre| && j + |sep| <= |t| {
        assert t[j..j + |sep|][0] == pre[j];
      } else if |pre| <= j {
        assert !OccursAt(s, sep, j - |pre|);
        if j + |sep| <= |t| {
          assert t[j..j + |sep|] == s[j - |pre|..j - |pre| + |sep|];
        }
      }
    }
  }

  /** A one-character separator occurs exactly when the character does. */
  lemma {:induction false} ContainsChar(s: string, c: char)
    ensures Contains(s, [c]) <==> c in s
  {
    if c in s {
      var j :| 0 <= j < |s| && s[j] == c;
      assert s[j..j + 1] == [c];
      assert OccursAt(s, [c], j);
    }
    if Contains(s, [c]) {
      var j := IndexOf(s, [c]).value;
      assert s[j..j + 1][0] == s[j];
    }
  }

  /** The text before the first separator contains no separator. */
  lemma {:induction false} UpToFree(s: string, sep: string)
    requires |sep| > 0
    ensures !Contains(UpTo(s, sep), sep)
  {
    SplitHead(s, sep);
    SplitPiecesFree(s, sep);
  }

  /** The text before the first occurrence of a character does not contain
      it, and is followed by it unless it is the whole text. */
  lemma {:induction false} UpToStops(s: string, c: char)
    ensures c !in UpTo(s, [c])
    ensures |UpTo(s, [c])| < |s| ==> s[|UpTo(s, [c])|] == c
  {
    UpToFree(s, [c]);
    ContainsChar(UpTo(s, [c]), c);
    if IndexOf(s, [c]).Some? {
      var k := IndexOf(s, [c]).value;
      assert s[k..k + 1] == [c];
    }
  }
}
