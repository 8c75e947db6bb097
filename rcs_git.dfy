/** The branch name from the output of `git status --porcelain -b`: its
    first line reads `## <branch>` or `## <branch>...<upstream>`. */
module RcsGit {
  import opened Wrappers
  import opened Text

  const TOO_FEW_FIELDS := "leading branch line should have at least two elements"
  const NO_BRANCH_MARKER := "expected line to start with branch marker ##"
  const REMOTE_PREFIX := "origin/"

  /** ParseGitStatus: splits the output into lines and the first line into
      space-separated fields; the second field names the branch, cut at the
      first "..." and without one leading "origin/". (Split always gives at
      least one line, so the empty-output error of the code cannot occur.) */
  function ParseGitStatus(status: string): Result<string>
  {
    var lines := Split(status, "\n");
    var branchLine := Split(lines[0], " ");
    if |branchLine| < 2 then Failure(TOO_FEW_FIELDS)
    else if branchLine[0] != "##" then Failure(NO_BRANCH_MARKER)
    else Success(BranchOfField(branchLine[1]))
  }

  /** The branch named by the second field of the status line: HEAD as it
      is, otherwise the part before any "..." without a leading "origin/". */
  function BranchOfField(field: string): string
  {
    if field == "HEAD" then "HEAD"
    else
      var trackingBranchParts := Split(field, "...");
      if |trackingBranchParts| > 1 then TrimPrefix(trackingBranchParts[0], REMOTE_PREFIX)
      else TrimPrefix(field, REMOTE_PREFIX)
  }

  /** Reference reading of the status: the first line, the text before its
      first space must be `##`, and the branch is the next word up to any
      "...", without a leading "origin/". */
  function StatusBranch(status: string): Result<string>
  {
    var line := UpTo(status, "\n");
    match IndexOf(line, " ")
    case None => Failure(TOO_FEW_FIELDS)
    case Some(i) =>
      if line[..i] != "##" then Failure(NO_BRANCH_MARKER)
      else
        var field := UpTo(line[i + 1..], " ");
        if field == "HEAD" then Success("HEAD")
        else Success(TrimPrefix(UpTo(field, "..."), REMOTE_PREFIX))
  }

  /** The split-based parser agrees with the reference reading on every input. */
  lemma {:induction false} ParseGitStatusIsStatusBranch(status: string)
    ensures ParseGitStatus(status) == StatusBranch(status)
  {
    SplitHead(status, "\n");
    var line := UpTo(status, "\n");
    assert Split(status, "\n")[0] == line;
    LineFields(line);
    var f := Split(line, " ");
    if |f| >= 2 && f[0] == "##" {
      FieldCut(f[1]);
    }
  }

  /** The first two fields of a line are the text before its first space and
      the next word after it. */
  lemma {:induction false} LineFields(line: string)
    ensures var f := Split(line, " ");
            && (|f| >= 2 <==> IndexOf(line, " ").Some?)
            && f[0] == UpTo(line, " ")
            && (|f| >= 2 ==> f[1] == UpTo(line[IndexOf(line, " ").value + 1..], " "))
  {
    SplitHead(line, " ");
    if Contains(line, " ") {
      SplitSecond(line, " ");
    }
  }

  /** Splitting the field at "..." and keeping the first piece is cutting it
      before its first "...". */
  lemma {:induction false} FieldCut(field: string)
    ensures BranchOfField(field)
         == if field == "HEAD" then "HEAD" else TrimPrefix(UpTo(field, "..."), REMOTE_PREFIX)
  {
    SplitHead(field, "...");
    if !Contains(field, "...") {
      assert UpTo(field, "...") == field;
    }
  }

  /** Only the first line matters: later lines never change the result. */
  lemma {:induction false} FirstLineOnly(first: string, rest: string)
    requires '\n' !in first
    ensures ParseGitStatus(first + "\n" + rest) == ParseGitStatus(first)
  {
    SplitAt(first, '\n', rest);
  }

  /** A first line without a space has fewer than two fields. */
  lemma {:induction false} NoSpaceFails(status: string)
    requires ' ' !in UpTo(status, "\n")
    ensures ParseGitStatus(status) == Failure(TOO_FEW_FIELDS)
  {
    ParseGitStatusIsStatusBranch(status);
    ContainsChar(UpTo(status, "\n"), ' ');
  }

  /** A branch name read from the status never contains a space or a line
      break. */
  lemma {:induction false} BranchIsOneWord(status: string)
    requires ParseGitStatus(status).Success?
    ensures ' ' !in ParseGitStatus(status).value && '\n' !in ParseGitStatus(status).value
  {
    ParseGitStatusIsStatusBranch(status);
    var line := UpTo(status, "\n");
    UpToFree(status, "\n");
    ContainsChar(line, '\n');
    var i := IndexOf(line, " ").value;
    var after := line[i + 1..];
    var field := UpTo(after, " ");
    UpToFree(after, " ");
    ContainsChar(field, ' ');
    SuffixFree(line, i + 1, '\n');
    PrefixFree(field, after, '\n');
    if field != "HEAD" {
      var cut := UpTo(field, "...");
      PrefixFree(cut, field, ' ');
      PrefixFree(cut, field, '\n');
      TrimFree(cut, REMOTE_PREFIX, ' ');
      TrimFree(cut, REMOTE_PREFIX, '\n');
    }
  }

  lemma {:induction false} PrefixFree(a: string, s: string, c: char)
    requires a <= s && c !in s
    ensures c !in a
  {
    assert forall k :: 0 <= k < |a| ==> a[k] == s[k];
  }

  lemma {:induction false} SuffixFree(s: string, i: nat, c: char)
    requires i <= |s| && c !in s
    ensures c !in s[i..]
  {
    assert forall k :: 0 <= k < |s| - i ==> s[i..][k] == s[i + k];
  }

  lemma {:induction false} TrimFree(s: string, prefix: string, c: char)
    requires c !in s
    ensures c !in TrimPrefix(s, prefix)
  {
    if prefix <= s {
      SuffixFree(s, |prefix|, c);
    }
  }

  // ---------------------------------------------------------------------
  // The shapes of the status line

  /** A word that can stand for a branch in these lemmas: no space, no
      line break, and no `...` even when two dots follow it. */
  predicate Word(w: string)
  {
    ' ' !in w && '\n' !in w && !Contains(w + "..", "...")
  }

  /** The first line of a status is the text before its first line break. */
  lemma {:induction false} FirstLine(line: string, rest: string)
    requires '\n' !in line
    ensures Split(line + "\n" + rest, "\n")[0] == line
  {
    SplitAt(line, '\n', rest);
  }

  /** `## <field>`, with a one-word field, splits into the marker and the field. */
  lemma {:induction false} MarkedFields(field: string)
    requires ' ' !in field
    ensures Split("## " + field, " ") == ["##", field]
  {
    assert "## " + field == "##" + [' '] + field;
    SplitAt("##", ' ', field);
    SplitAt(field, ' ', "");
  }

  /** `## HEAD <note>` has the marker and HEAD as its first two fields. */
  lemma {:induction false} HeadFields(note: string)
    ensures var f := Split("## HEAD " + note, " ");
            |f| >= 2 && f[0] == "##" && f[1] == "HEAD"
  {
    assert "## HEAD " + note == "##" + [' '] + ("HEAD" + [' '] + note);
    SplitAt("HEAD", ' ', note);
    SplitAt("##", ' ', "HEAD" + [' '] + note);
  }

  /** `## <branch>...<upstream>` names the local branch, whatever follows
      on later lines. */
  lemma {:induction false} TrackingBranch(branch: string, upstream: string, rest: string)
    requires Word(branch) && ' ' !in upstream && '\n' !in upstream
    ensures ParseGitStatus("## " + (branch + "..." + upstream) + "\n" + rest)
         == Success(TrimPrefix(branch, REMOTE_PREFIX))
  {
    var field := branch + "..." + upstream;
    assert '\n' !in "## " + field;
    FirstLine("## " + field, rest);
    MarkedFields(field);
    assert "..."[..2] == "..";
    IndexOfFirst(branch, "...", upstream);
    SplitHead(field, "...");
  }

  /** `## <branch>` without an upstream names the branch. */
  lemma {:induction false} PlainBranch(branch: string, rest: string)
    requires Word(branch)
    ensures ParseGitStatus("## " + branch + "\n" + rest) == Success(TrimPrefix(branch, REMOTE_PREFIX))
  {
    assert '\n' !in "## " + branch;
    FirstLine("## " + branch, rest);
    MarkedFields(branch);
    assert "..."[..2] == "..";
    IndexOfFirst(branch, "...", "");
    SplitHead(branch, "...");
  }

  /** A detached head, `## HEAD` followed by a note after a space, is
      reported as HEAD. */
  lemma {:induction false} DetachedHead(note: string, rest: string)
    requires '\n' !in note
    ensures ParseGitStatus("## HEAD " + note + "\n" + rest) == Success("HEAD")
  {
    assert '\n' !in "## HEAD " + note;
    FirstLine("## HEAD " + note, rest);
    HeadFields(note);
  }

  /** The status lines of the test suite with an upstream: a local branch
      tracking the remote branch of the same name, whatever the changed
      files listed after the first line. */
  lemma {:induction false} TrackingExample(name: string, changes: string)
    requires Word(name) && !(REMOTE_PREFIX <= name)
    ensures ParseGitStatus("## " + name + "..." + REMOTE_PREFIX + name + "\n" + changes) == Success(name)
  {
    var u := REMOTE_PREFIX + name;
    assert ' ' !in u && '\n' !in u by {
      assert forall k :: 0 <= k < |u| ==> u[k] in REMOTE_PREFIX || u[k] in name;
    }
    assert "## " + name + "..." + REMOTE_PREFIX + name + "\n" + changes
        == "## " + (name + "..." + u) + "\n" + changes;
    TrackingBranch(name, u, changes);
  }

  /** A status line of the test suite naming a remote branch. */
  lemma {:induction false} RemoteExample(name: string)
    requires Word(name)
    ensures ParseGitStatus("## " + REMOTE_PREFIX + name + "\n") == Success(name)
  {
    var b := REMOTE_PREFIX + name;
    assert Word(b) by {
      assert forall k :: 0 <= k < |b| ==> b[k] in REMOTE_PREFIX || b[k] in name;
      assert '.' !in REMOTE_PREFIX;
      ContainsAfterPrefix(REMOTE_PREFIX, name + "..", "...");
      assert b + ".." == REMOTE_PREFIX + (name + "..");
    }
    assert "## " + REMOTE_PREFIX + name + "\n" == "## " + b + "\n" + "";
    PlainBranch(b, "");
    assert b[|REMOTE_PREFIX|..] == name;
  }

  /** A status line of the test suite with a detached head. */
  lemma {:induction false} DetachedExample()
    ensures ParseGitStatus("## HEAD (no branch)\n") == Success("HEAD")
  {
    var note := "(no branch)";
    assert "## HEAD (no branch)\n" == "## HEAD " + note + "\n" + "";
    DetachedHead(note, "");
  }
}
