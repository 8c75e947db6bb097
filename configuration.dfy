/** The configuration read from the version file: the data section with its
    typed accessors, the branch rules and their validation, and the choice
    of the branch rule that matches a branch name. */
module Configuration {
  import opened Wrappers
  import opened Strconv
  import Parser
  import Assoc

  /** A value of the data section as decoded from JSON: an integer, a
      string, or anything else (a boolean, null, a list, an object). */
  datatype DataValue = IntVal(i: int64) | StrVal(s: string) | OtherVal

  type Data = map<string, DataValue>

  /** One branch rule: a regular expression over branch names and the
      version template used on matching branches. */
  datatype BranchConfig = BranchConfig(branchPattern: string, versionTemplate: string)

  /** The decoded configuration file. */
  datatype Config = Config(data: Data, branches: seq<BranchConfig>, dataFileFields: seq<string>)

  /** The regular-expression engine, left abstract: whether a pattern
      compiles, and the submatches of a pattern in a text, as a list of
      (sub-expression name, matched text) pairs for the groups in order, or
      None when the pattern does not match. Unnamed groups have the name "". */
  datatype Regexp = Regexp(compiles: string -> bool, submatches: (string, string) -> Option<seq<(string, string)>>)

  function NotDefined(name: string): string
  {
    "data field '" + name + "' is not defined"
  }

  // ---------------------------------------------------------------------
  // Typed access to the data section

  predicate HasData(data: Data, name: string)
  {
    name in data
  }

  /** GetDataInt: integers as they are, strings read as decimal numbers. */
  function GetDataInt(data: Data, name: string): Result<int64>
  {
    if name !in data then Failure(NotDefined(name))
    else
      match data[name]
      case IntVal(i) => Success(i)
      case StrVal(s) =>
        (match Atoi(s)
         case Success(i) => Success(i)
         case Failure(e) => Failure("cannot convert '" + name + "' to an int: " + e))
      case OtherVal => Failure("'" + name + "' is not an int")
  }

  /** GetDataString: integers written in decimal, strings as they are. */
  function GetDataString(data: Data, name: string): Result<string>
  {
    if name !in data then Failure(NotDefined(name))
    else
      match data[name]
      case IntVal(i) => Success(Itoa(i))
      case StrVal(s) => Success(s)
      case OtherVal => Failure("expected '" + name + "' to be a string")
  }

  /** A missing entry makes both accessors fail with "is not defined", and
      only a missing entry does. */
  lemma {:induction false} MissingData(data: Data, name: string)
    ensures GetDataInt(data, name) == Failure(NotDefined(name)) <==> !HasData(data, name)
    ensures GetDataString(data, name) == Failure(NotDefined(name)) <==> !HasData(data, name)
  {
    if HasData(data, name) {
      var nd := NotDefined(name);
      assert nd[0] == 'd';
      match data[name]
      case IntVal(_) =>
      case StrVal(s) =>
        if Atoi(s).Failure? {
          assert ("cannot convert '" + name + "' to an int: " + Atoi(s).error)[0] == 'c';
        }
      case OtherVal =>
        assert ("'" + name + "' is not an int")[0] == '\'';
        assert ("expected '" + name + "' to be a string")[0] == 'e';
    }
  }

  /** The two views of an entry agree: the integer view exists exactly when
      the string view exists and reads as a decimal number, and then it is
      that number. */
  lemma {:induction false} DataViewsAgree(data: Data, name: string)
    ensures GetDataInt(data, name).Success? <==>
              GetDataString(data, name).Success? && Atoi(GetDataString(data, name).value).Success?
    ensures GetDataInt(data, name).Success? ==>
              Atoi(GetDataString(data, name).value) == GetDataInt(data, name)
  {
    if name in data && data[name].IntVal? {
      AtoiItoa(data[name].i);
    }
  }

  // ---------------------------------------------------------------------
  // Validation

  /** The pattern wrapped in `^` and `$`, as the code writes it. The
      anchors bind to the first and last alternatives only, so a pattern
      with a top-level `|` is not anchored as a whole. */
  function Anchored(pattern: string): string
  {
    "^" + pattern + "$"
  }

  const VERSION_IN_TEMPLATE := "{version} cannot be contained in the version template"

  /** ValidateTemplateAsVersion: a version template may not refer to the
      version itself. */
  function ValidateTemplateAsVersion(t: Parser.Template): Outcome
  {
    if "version" in Parser.VarSet(t) then Fail(VERSION_IN_TEMPLATE) else Pass
  }

  /** A template fails the version check exactly when one of its
      expansions names `version`. */
  lemma {:induction false} VersionTemplateCheck(t: Parser.Template)
    ensures ValidateTemplateAsVersion(t).Fail? <==>
              exists i :: 0 <= i < |t| && !t[i].StringLiteral? && t[i].name == "version"
    ensures ValidateTemplateAsVersion(t).Fail? ==> ValidateTemplateAsVersion(t).error == VERSION_IN_TEMPLATE
  {
    Parser.VarSetMember(t, "version");
  }

  /** checkBranchConfig: the pattern and the template must be present, the
      anchored pattern must compile, the template must parse and must not
      refer to the version; the first failing check is reported. */
  function CheckBranchConfig(bc: BranchConfig, re: Regexp): Outcome
  {
    if bc.branchPattern == "" then Fail("branch pattern required")
    else if bc.versionTemplate == "" then Fail("version template required")
    else if !re.compiles(Anchored(bc.branchPattern)) then
      Fail("branch pattern '" + bc.branchPattern + "' is malformed")
    else CheckVersionTemplate(bc.versionTemplate)
  }

  /** The last two checks of a branch rule: the template parses, and it
      does not use `version`. */
  function CheckVersionTemplate(template: string): Outcome
  {
    Parser.ParseNeverPanics(template);
    var p := Parser.Parse(template);
    if p.err.Some? then Fail("version template '" + template + "' is malformed")
    else ValidateTemplateAsVersion(p.template)
  }

  /** A branch rule passes exactly when every check does. */
  lemma {:induction false} CheckBranchConfigPasses(bc: BranchConfig, re: Regexp)
    ensures CheckBranchConfig(bc, re).Pass? <==>
              && bc.branchPattern != "" && bc.versionTemplate != ""
              && re.compiles(Anchored(bc.branchPattern))
              && Parser.Parse(bc.versionTemplate).Parsed?
              && Parser.Parse(bc.versionTemplate).err.None?
              && "version" !in Parser.VarSet(Parser.Parse(bc.versionTemplate).template)
  {
    Parser.ParseNeverPanics(bc.versionTemplate);
  }

  /** The branch rules of the test suite, each failing its own check; the
      template `t` stands for the suite's `{branch}`, which these checks never
      reach. */
  lemma {:induction false} CheckBranchConfigExamples(re: Regexp, t: string)
    requires re.compiles(Anchored(".*")) && !re.compiles(Anchored("(")) && t != ""
    ensures CheckBranchConfig(BranchConfig("", t), re) == Fail("branch pattern required")
    ensures CheckBranchConfig(BranchConfig(".*", ""), re) == Fail("version template required")
    ensures CheckBranchConfig(BranchConfig("(", t), re) == Fail("branch pattern '(' is malformed")
    ensures CheckBranchConfig(BranchConfig(".*", "{"), re) == Fail("version template '{' is malformed")
  {
    MalformedPattern(re, t);
    MalformedTemplate(re);
  }

  lemma {:induction false} MalformedPattern(re: Regexp, t: string)
    requires !re.compiles(Anchored("(")) && t != ""
    ensures CheckBranchConfig(BranchConfig("(", t), re) == Fail("branch pattern '(' is malformed")
  {
    assert "branch pattern '" + "(" + "' is malformed" == "branch pattern '(' is malformed";
  }

  lemma {:induction false} MalformedTemplate(re: Regexp)
    requires re.compiles(Anchored(".*"))
    ensures CheckBranchConfig(BranchConfig(".*", "{"), re) == Fail("version template '{' is malformed")
  {
    LoneBraceMalformed();
    assert "version template '" + "{" + "' is malformed" == "version template '{' is malformed";
  }

  /** A template that is only an opening brace does not parse. */
  lemma {:induction false} LoneBraceMalformed()
    ensures Parser.Parse("{").Parsed? && Parser.Parse("{").err.Some?
  {
    assert "{" == "{" + "";
    Parser.ScanOpenBrace("", "", Parser.AsciiWidth);
    Parser.ScanUnterminated(Parser.NameFirst, "", Parser.AsciiWidth);
    Parser.ParseCons(Parser.StringToken(""), [Parser.ErrorToken(Parser.END_MALFORMED)]);
  }

  const NO_BRANCHES := "confing must contain at least one branch expressions"

  /** The first failure among the branch rules, in order. */
  function CheckBranches(bs: seq<BranchConfig>, re: Regexp): Outcome
    decreases |bs|
  {
    if |bs| == 0 then Pass
    else
      match CheckBranchConfig(bs[0], re)
      case Fail(e) => Fail(e)
      case Pass => CheckBranches(bs[1..], re)
  }

  /** The checks readConfig makes after decoding: at least one branch rule,
      each rule valid. */
  function ValidateConfig(c: Config, re: Regexp): Outcome
  {
    if |c.branches| == 0 then Fail(NO_BRANCHES) else CheckBranches(c.branches, re)
  }

  /** A configuration is accepted exactly when it has a branch rule and
      every rule passes; otherwise the error is that of the first failing
      rule, or the missing-rules error. */
  lemma {:induction false} CheckBranchesFirst(bs: seq<BranchConfig>, re: Regexp)
    ensures CheckBranches(bs, re).Pass? <==> forall k :: 0 <= k < |bs| ==> CheckBranchConfig(bs[k], re).Pass?
    ensures CheckBranches(bs, re).Fail? ==>
              exists k :: 0 <= k < |bs| && CheckBranchConfig(bs[k], re) == CheckBranches(bs, re)
                && (forall j :: 0 <= j < k ==> CheckBranchConfig(bs[j], re).Pass?)
    decreases |bs|
  {
    if |bs| > 0 {
      CheckBranchesFirst(bs[1..], re);
      assert forall k :: 1 <= k < |bs| ==> bs[1..][k - 1] == bs[k];
      if CheckBranchConfig(bs[0], re).Pass? && CheckBranches(bs, re).Fail? {
        var k :| 0 <= k < |bs[1..]| && CheckBranchConfig(bs[1..][k], re) == CheckBranches(bs[1..], re)
                 && (forall j :: 0 <= j < k ==> CheckBranchConfig(bs[1..][j], re).Pass?);
        assert CheckBranchConfig(bs[k + 1], re) == CheckBranches(bs, re);
      }
    }
  }

  /** A configuration without branch rules is rejected, and so is one whose
      only rule has an empty pattern. */
  lemma {:induction false} ValidateConfigExamples(data: Data, fields: seq<string>, template: string, re: Regexp)
    ensures ValidateConfig(Config(data, [], fields), re) == Fail(NO_BRANCHES)
    ensures ValidateConfig(Config(data, [BranchConfig("", template)], fields), re) == Fail("branch pattern required")
  {
    assert [BranchConfig("", template)][1..] == [];
  }

  // ---------------------------------------------------------------------
  // Choosing the branch rule

  /** The matched rule and its parameters: one entry per sub-expression
      name, assigned in group order. */
  type BranchMatch = (BranchConfig, map<string, string>)

  function NoBranchConfig(branch: string): string
  {
    "no branch config matching branch '" + branch + "'"
  }

  /** The first rule, in declaration order, whose anchored pattern matches. */
  function FirstMatch(bs: seq<BranchConfig>, branch: string, re: Regexp): Result<BranchMatch>
    decreases |bs|
  {
    if |bs| == 0 then Failure(NoBranchConfig(branch))
    else
      match re.submatches(Anchored(bs[0].branchPattern), branch)
      case None => FirstMatch(bs[1..], branch, re)
      case Some(groups) => Success((bs[0], Assoc.Assign(groups)))
  }

  /** getBranchConfig: tries the rules in order and, for the first that
      matches, fills the parameter map from the named groups. */
  method GetBranchConfig(c: Config, branch: string, re: Regexp) returns (r: Result<BranchMatch>)
    ensures r == FirstMatch(c.branches, branch, re)
  {
    var k := 0;
    while k < |c.branches|
      invariant 0 <= k <= |c.branches|
      invariant FirstMatch(c.branches[k..], branch, re) == FirstMatch(c.branches, branch, re)
    {
      var bc := c.branches[k];
      assert c.branches[k..][0] == bc && c.branches[k..][1..] == c.branches[k + 1..];
      var matches := re.submatches(Anchored(bc.branchPattern), branch);
      if matches.Some? {
        var groups := matches.value;
        var params: map<string, string> := map[];
        for i := 0 to |groups|
          invariant params == Assoc.Assign(groups[..i])
        {
          assert groups[..i + 1] == groups[..i] + [groups[i]];
          Assoc.AssignSnoc(groups[..i], groups[i].0, groups[i].1);
          params := params[groups[i].0 := groups[i].1];
        }
        assert groups[..|groups|] == groups;
        return Success((bc, params));
      }
      k := k + 1;
    }
    return Failure(NoBranchConfig(branch));
  }

  /** The chosen rule is the first whose anchored pattern matches the
      branch, and each group name maps to the text of its last group; when
      no rule matches, the error names the branch. */
  lemma {:induction false} FirstMatchIsFirst(bs: seq<BranchConfig>, branch: string, re: Regexp)
    ensures FirstMatch(bs, branch, re).Failure? <==>
              forall k :: 0 <= k < |bs| ==> re.submatches(Anchored(bs[k].branchPattern), branch).None?
    ensures FirstMatch(bs, branch, re).Failure? ==> FirstMatch(bs, branch, re).error == NoBranchConfig(branch)
    ensures FirstMatch(bs, branch, re).Success? ==>
              exists k :: 0 <= k < |bs|
                && (forall j :: 0 <= j < k ==> re.submatches(Anchored(bs[j].branchPattern), branch).None?)
                && re.submatches(Anchored(bs[k].branchPattern), branch).Some?
                && FirstMatch(bs, branch, re).value
                   == (bs[k], Assoc.Assign(re.submatches(Anchored(bs[k].branchPattern), branch).value))
    decreases |bs|
  {
    if |bs| > 0 {
      FirstMatchIsFirst(bs[1..], branch, re);
      assert forall k :: 1 <= k < |bs| ==> bs[1..][k - 1] == bs[k];
      if re.submatches(Anchored(bs[0].branchPattern), branch).None? && FirstMatch(bs, branch, re).Success? {
        var k :| 0 <= k < |bs[1..]|
                 && (forall j :: 0 <= j < k ==> re.submatches(Anchored(bs[1..][j].branchPattern), branch).None?)
                 && re.submatches(Anchored(bs[1..][k].branchPattern), branch).Some?
                 && FirstMatch(bs[1..], branch, re).value
                    == (bs[1..][k], Assoc.Assign(re.submatches(Anchored(bs[1..][k].branchPattern), branch).value));
        assert bs[1..][k] == bs[k + 1];
      }
    }
  }
}
