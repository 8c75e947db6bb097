/** The command-line actions' own logic: reading `-X name=value` options,
    assembling the configuration written by `init`, and the three counter
    bumps applied to the data section. */
module Commands {
  import opened Wrappers
  import opened Strconv
  import opened Text
  import opened Configuration

  // ---------------------------------------------------------------------
  // Options

  /** One `-X name=value` option. */
  datatype CliOption = CliOption(name: string, value: string)

  function CannotParse(opt: string): string
  {
    "cannot parse option '" + opt + "'"
  }

  /** The number of `=` characters the option starts with. */
  function LeadingEquals(s: string): (r: nat)
    ensures r <= |s|
    ensures forall k :: 0 <= k < r ==> s[k] == '='
    ensures r < |s| ==> s[r] != '='
    decreases |s|
  {
    if |s| > 0 && s[0] == '=' then 1 + LeadingEquals(s[1..]) else 0
  }

  /** The first match of `([^=]+)=(.*)` in the option. The match starts at
      the first character that is not `=`; the name runs to the next `=`,
      and the value to the end of the line, since `.` does not match a line
      break while `[^=]` does. */
  function ParseOption(opt: string): Result<CliOption>
  {
    var rest := opt[LeadingEquals(opt)..];
    match IndexOf(rest, "=")
    case None => Failure(CannotParse(opt))
    case Some(j) => Success(CliOption(rest[..j], UpTo(rest[j + 1..], "\n")))
  }

  /** getOptions: one option per argument, in order; the first argument that
      does not parse ends the loop with its error, returning the options
      read before it. */
  method GetOptions(opts: seq<string>) returns (res: seq<CliOption>, err: Option<string>)
    ensures |res| <= |opts|
    ensures forall k :: 0 <= k < |res| ==> ParseOption(opts[k]) == Success(res[k])
    ensures err.None? <==> |res| == |opts|
    ensures err.Some? ==> ParseOption(opts[|res|]) == Failure(err.value)
                          && err.value == CannotParse(opts[|res|])
  {
    res := [];
    for i := 0 to |opts|
      invariant |res| == i
      invariant forall k :: 0 <= k < i ==> ParseOption(opts[k]) == Success(res[k])
    {
      var o := ParseOption(opts[i]);
      if o.Failure? {
        return res, Some(o.error);
      }
      res := res + [o.value];
    }
    return res, None;
  }

  /** `name=value` reads back as that name and value, for a non-empty name
      without `=` and a value on one line. */
  lemma {:induction false} OptionRoundTrip(name: string, value: string)
    requires |name| > 0 && '=' !in name && '\n' !in value
    ensures ParseOption(name + "=" + value) == Success(CliOption(name, value))
  {
    var s := name + "=" + value;
    assert s[0] == name[0];
    assert LeadingEquals(s) == 0;
    assert s[0..] == s;
    IndexOfAfter(name, "=", value);
    assert s[|name| + 1..] == value;
    IndexOfAfter(value, "\n", "");
  }

  /** An option fails to parse exactly when no `=` follows a character other
      than `=`. */
  lemma {:induction false} OptionFails(opt: string)
    ensures ParseOption(opt).Failure? <==>
              !exists j, k :: 0 <= j < k < |opt| && opt[j] != '=' && opt[k] == '='
    ensures ParseOption(opt).Failure? ==> ParseOption(opt).error == CannotParse(opt)
  {
    var i := LeadingEquals(opt);
    var rest := opt[i..];
    ContainsChar(rest, '=');
    if exists j, k :: 0 <= j < k < |opt| && opt[j] != '=' && opt[k] == '=' {
      var j, k :| 0 <= j < k < |opt| && opt[j] != '=' && opt[k] == '=';
      assert i <= j;
      assert rest[k - i] == '=';
    }
    if IndexOf(rest, "=").Some? {
      var k := IndexOf(rest, "=").value;
      assert rest[k..k + 1] == "=";
      assert rest[0] != '=';
      assert opt[i] != '=' && opt[i + k] == rest[k];
    }
  }

  /** A parsed option is a name and a value written `name=value` after the
      leading `=` characters: the name is non-empty and has no `=`, the
      value has no line break and is followed by a line break or by the end. */
  lemma {:induction false} OptionShape(opt: string)
    requires ParseOption(opt).Success?
    ensures var o := ParseOption(opt).value;
            var rest := opt[LeadingEquals(opt)..];
            && |o.name| > 0 && '=' !in o.name && '\n' !in o.value
            && o.name + "=" + o.value <= rest
            && (|o.name| + 1 + |o.value| < |rest| ==> rest[|o.name| + 1 + |o.value|] == '\n')
  {
    var rest := opt[LeadingEquals(opt)..];
    var j := IndexOf(rest, "=").value;
    assert rest[j..j + 1] == "=";
    assert j > 0 by { assert rest[0] != '='; }
    UpToStops(rest, '=');
    OptionPieces(rest, j);
  }

  /** The name before position `j`, the `=` there, and the rest of that line. */
  lemma {:induction false} OptionPieces(rest: string, j: nat)
    requires j < |rest| && rest[j] == '='
    ensures var v := UpTo(rest[j + 1..], "\n");
            && '\n' !in v
            && rest[..j] + "=" + v <= rest
            && (j + 1 + |v| < |rest| ==> rest[j + 1 + |v|] == '\n')
  {
    var after := rest[j + 1..];
    UpToStops(after, '\n');
    var v := UpTo(after, "\n");
    assert rest[..j + 1 + |v|] == rest[..j] + "=" + v;
  }

  // ---------------------------------------------------------------------
  // init

  /** The data-file fields that each RCS can supply. */
  function RcsDataFileFields(rcsName: string): seq<string>
  {
    match rcsName
    case "git" => ["commit-hash", "commit-hash-short"]
    case "svn" => ["repo-counter", "repo-root"]
    case _ => []
  }

  /** The configurations `init` starts from. */
  const INIT_TEMPLATES: map<string, Config> := map[
    "default" := Config(
      map[],
      [BranchConfig(".*", "{branch}.{commit-counter}")],
      ["branch", "commit-counter", "version"]),
    "semvar" := Config(
      map["major" := IntVal(0), "minor" := IntVal(0), "release" := IntVal(1)],
      [BranchConfig(".*", "{major}.{minor}.{release}")],
      ["branch", "commit-counter", "major", "minor", "release", "version"]),
    "python" := Config(
      map["major" := IntVal(0), "minor" := IntVal(0), "release" := IntVal(1)],
      [BranchConfig("master|trunk", "{major}.{minor}.{release}"),
       BranchConfig(".*", "{major}.{minor}.{release}dev{commit-counter}")],
      ["branch", "commit-counter", "major", "minor", "release", "version"])
  ]

  function UnknownTemplate(name: string): string
  {
    "unnknown template: " + name
  }

  /** The RCS whose fields are added: the one named, or else the one found
      next to the version file, if any. */
  function ChosenRcs(rcsName: string, detected: Result<string>): string
  {
    if rcsName == "" && detected.Success? then detected.value else rcsName
  }

  /** createInitFile, up to writing the file: the named template with the
      chosen RCS's fields appended one by one to its data-file fields.
      `detected` is the name of the RCS found next to the version file, or
      the error of looking for it. */
  method CreateInitFile(templateName: string, rcsName: string, detected: Result<string>)
    returns (r: Result<Config>)
    ensures r.Failure? <==> templateName !in INIT_TEMPLATES
    ensures r.Failure? ==> r.error == UnknownTemplate(templateName)
    ensures r.Success? ==>
              var t := INIT_TEMPLATES[templateName];
              && r.value.data == t.data && r.value.branches == t.branches
              && r.value.dataFileFields == t.dataFileFields + RcsDataFileFields(ChosenRcs(rcsName, detected))
  {
    if templateName !in INIT_TEMPLATES {
      return Failure(UnknownTemplate(templateName));
    }
    var c := INIT_TEMPLATES[templateName];
    var name := rcsName;
    if name == "" && detected.Success? {
      name := detected.value;
    }
    var extra := RcsDataFileFields(name);
    var fields := c.dataFileFields;
    for i := 0 to |extra|
      invariant fields == c.dataFileFields + extra[..i]
    {
      assert extra[..i + 1] == extra[..i] + [extra[i]];
      fields := fields + [extra[i]];
    }
    assert extra[..|extra|] == extra;
    return Success(c.(dataFileFields := fields));
  }

  // ---------------------------------------------------------------------
  // Bumping the counters

  const TWO_TO_64: int := 0x1_0000_0000_0000_0000

  /** Go's `+ 1` on a 64-bit int, wrapping around at the top. */
  function Inc(i: int64): (r: int64)
    ensures i < MAX_INT64 ==> r == i + 1
    ensures i == MAX_INT64 ==> r == MIN_INT64
  {
    ((i as int) + 1 - MIN_INT64) % TWO_TO_64 + MIN_INT64
  }

  /** The data keys the bumps rewrite. */
  const MAJOR := "major"
  const MINOR := "minor"
  const RELEASE := "release"

  /** Every entry of `d` other than those in `keys` is as in `data`. */
  ghost predicate OthersKept(data: Data, d: Data, keys: set<string>)
  {
    forall k :: k !in keys ==> (k in d <==> k in data) && (k in data ==> d[k] == data[k])
  }

  /** actionBumpMajor on the data section: major, minor and release must
      all read as integers (the first that does not gives the error); then
      major goes up by one and minor and release restart at 0. */
  method BumpMajor(data: Data) returns (r: Result<Data>)
    ensures r.Failure? <==>
              GetDataInt(data, MAJOR).Failure? || GetDataInt(data, MINOR).Failure? || GetDataInt(data, RELEASE).Failure?
    ensures r.Failure? ==>
              r.error == (if GetDataInt(data, MAJOR).Failure? then GetDataInt(data, MAJOR).error
                          else if GetDataInt(data, MINOR).Failure? then GetDataInt(data, MINOR).error
                          else GetDataInt(data, RELEASE).error)
    ensures r.Success? ==>
              && GetDataInt(r.value, MAJOR) == Success(Inc(GetDataInt(data, MAJOR).value))
              && GetDataInt(r.value, MINOR) == Success(0)
              && GetDataInt(r.value, RELEASE) == Success(0)
              && r.value.Keys == data.Keys
              && MAJOR in r.value && r.value[MAJOR] == IntVal(Inc(GetDataInt(data, MAJOR).value))
              && MINOR in r.value && r.value[MINOR] == IntVal(0)
              && RELEASE in r.value && r.value[RELEASE] == IntVal(0)
              && OthersKept(data, r.value, {MAJOR, MINOR, RELEASE})
    ensures r.Success? && GetDataInt(data, MAJOR).value < MAX_INT64 ==>
              Triple(data).Some? && Triple(r.value).Some? && Before(Triple(data).value, Triple(r.value).value)
  {
    var major := GetDataInt(data, MAJOR);
    if major.Failure? {
      return Failure(major.error);
    }
    var minor := GetDataInt(data, MINOR);
    if minor.Failure? {
      return Failure(minor.error);
    }
    var release := GetDataInt(data, RELEASE);
    if release.Failure? {
      return Failure(release.error);
    }
    var d := data;
    d := d[MAJOR := IntVal(Inc(major.value))];
    d := d[MINOR := IntVal(0)];
    d := d[RELEASE := IntVal(0)];
    return Success(d);
  }

  /** actionBumpMinor on the data section: minor and release must read as
      integers; then minor goes up by one and release restarts at 0, major
      untouched. */
  method BumpMinor(data: Data) returns (r: Result<Data>)
    ensures r.Failure? <==> GetDataInt(data, MINOR).Failure? || GetDataInt(data, RELEASE).Failure?
    ensures r.Failure? ==>
              r.error == (if GetDataInt(data, MINOR).Failure? then GetDataInt(data, MINOR).error
                          else GetDataInt(data, RELEASE).error)
    ensures r.Success? ==>
              && GetDataInt(r.value, MINOR) == Success(Inc(GetDataInt(data, MINOR).value))
              && GetDataInt(r.value, RELEASE) == Success(0)
              && r.value.Keys == data.Keys
              && MINOR in r.value && r.value[MINOR] == IntVal(Inc(GetDataInt(data, MINOR).value))
              && RELEASE in r.value && r.value[RELEASE] == IntVal(0)
              && OthersKept(data, r.value, {MINOR, RELEASE})
    ensures r.Success? && Triple(data).Some? && GetDataInt(data, MINOR).value < MAX_INT64 ==>
              Triple(r.value).Some? && Before(Triple(data).value, Triple(r.value).value)
  {
    var minor := GetDataInt(data, MINOR);
    if minor.Failure? {
      return Failure(minor.error);
    }
    var release := GetDataInt(data, RELEASE);
    if release.Failure? {
      return Failure(release.error);
    }
    var d := data;
    d := d[MINOR := IntVal(Inc(minor.value))];
    d := d[RELEASE := IntVal(0)];
    return Success(d);
  }

  /** actionBumpRelease on the data section: release must read as an
      integer and goes up by one; nothing else changes. */
  method BumpRelease(data: Data) returns (r: Result<Data>)
    ensures r.Failure? <==> GetDataInt(data, RELEASE).Failure?
    ensures r.Failure? ==> r.error == GetDataInt(data, RELEASE).error
    ensures r.Success? ==>
              && GetDataInt(r.value, RELEASE) == Success(Inc(GetDataInt(data, RELEASE).value))
              && r.value.Keys == data.Keys
              && RELEASE in r.value && r.value[RELEASE] == IntVal(Inc(GetDataInt(data, RELEASE).value))
              && OthersKept(data, r.value, {RELEASE})
    ensures r.Success? && Triple(data).Some? && GetDataInt(data, RELEASE).value < MAX_INT64 ==>
              Triple(r.value).Some? && Before(Triple(data).value, Triple(r.value).value)
  {
    var release := GetDataInt(data, RELEASE);
    if release.Failure? {
      return Failure(release.error);
    }
    var d := data[RELEASE := IntVal(Inc(release.value))];
    return Success(d);
  }

  /** The version triple (major, minor, release) read from the data. */
  function Triple(data: Data): Option<(int, int, int)>
  {
    if GetDataInt(data, MAJOR).Success? && GetDataInt(data, MINOR).Success? && GetDataInt(data, RELEASE).Success?
    then Some((GetDataInt(data, MAJOR).value as int, GetDataInt(data, MINOR).value as int,
               GetDataInt(data, RELEASE).value as int))
    else None
  }

  /** (a, b, c) comes strictly before (x, y, z) in version order. */
  predicate Before(p: (int, int, int), q: (int, int, int))
  {
    p.0 < q.0 || (p.0 == q.0 && (p.1 < q.1 || (p.1 == q.1 && p.2 < q.2)))
  }
}
