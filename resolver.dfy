/** Resolving a parameter name to its value: the context with its memo of
    resolved values and its lazily found RCS, and the cascade of sources a
    name is looked up in. */
module Resolver {
  import opened Wrappers
  import Assoc
  import Configuration
  import Commands
  import RcsTravis

  /** The process environment: variable name to value, for the set ones. */
  type Env = map<string, string>

  // ---------------------------------------------------------------------
  // The RCS interface

  /** The six questions a revision-control system answers. */
  datatype Query =
    | BranchQuery
    | CommitCounterQuery
    | RepoCounterQuery
    | RepoRootQuery
    | CommitHashQuery
    | CommitHashShortQuery

  /** A revision-control system, given by its name and its answers. */
  datatype Rcs = Rcs(
    name: string,
    branch: Result<string>,
    commitCounter: Result<string>,
    repoCounter: Result<string>,
    repoRoot: Result<string>,
    commitHash: Result<string>,
    commitHashShort: Result<string>)

  function Ask(rcs: Rcs, q: Query): Result<string>
  {
    match q
    case BranchQuery => rcs.branch
    case CommitCounterQuery => rcs.commitCounter
    case RepoCounterQuery => rcs.repoCounter
    case RepoRootQuery => rcs.repoRoot
    case CommitHashQuery => rcs.commitHash
    case CommitHashShortQuery => rcs.commitHashShort
  }

  /** The Travis strategy in a given environment. */
  function TravisRcs(env: Env): Rcs
  {
    Rcs(RcsTravis.Name(), RcsTravis.Branch(env), RcsTravis.CommitCounter(env), RcsTravis.RepoCounter(env),
        RcsTravis.RepoRoot(env), RcsTravis.CommitHash(env), RcsTravis.CommitHashShort(env))
  }

  /** ParameterLookups: the names that can be calculated, and the question
      each one puts to the RCS. */
  const PARAMETER_LOOKUPS: map<string, Query> := map[
    "branch" := BranchQuery,
    "commit-counter" := CommitCounterQuery,
    "repo-counter" := RepoCounterQuery,
    "commit-hash" := CommitHashQuery,
    "commit-hash-short" := CommitHashShortQuery,
    "repo-root" := RepoRootQuery
  ]

  /** The data-file fields `init` adds for an RCS are all names the RCS can
      calculate. */
  lemma {:induction false} RcsFieldsCalculated(rcsName: string)
    ensures forall f :: f in Commands.RcsDataFileFields(rcsName) ==> f in PARAMETER_LOOKUPS
    ensures Commands.RcsDataFileFields(rcsName) != [] <==> rcsName == "git" || rcsName == "svn"
  {
  }

  // ---------------------------------------------------------------------
  // Environment variable names

  /** strings.ToUpper on one character, for ASCII letters. */
  function ToUpper(c: char): char
  {
    if 'a' <= c <= 'z' then (c as int - 32) as char else c
  }

  predicate IsLower(c: char)
  {
    'a' <= c <= 'z'
  }

  function Upper(s: string): string
  {
    seq(|s|, i requires 0 <= i < |s| => ToUpper(s[i]))
  }

  /** strings.Replace(s, "-", "_", -1). */
  function DashesToUnderscores(s: string): string
  {
    seq(|s|, i requires 0 <= i < |s| => if s[i] == '-' then '_' else s[i])
  }

  /** MakeEnvarName: `commit-counter` is looked up as `COMMIT_COUNTER`. */
  function MakeEnvarName(s: string): string
  {
    DashesToUnderscores(Upper(s))
  }

  /** The variable name has the parameter's length, no dash and no lower-case
      letter; each character is the upper-case form of the parameter's, or an
      underscore where the parameter has a dash. Shouting twice changes
      nothing more. */
  lemma {:induction false} EnvarNameShape(s: string)
    ensures var r := MakeEnvarName(s);
            && |r| == |s|
            && (forall i :: 0 <= i < |r| ==> r[i] != '-' && !IsLower(r[i]))
            && (forall i :: 0 <= i < |r| ==> r[i] == (if s[i] == '-' then '_' else ToUpper(s[i])))
    ensures MakeEnvarName(MakeEnvarName(s)) == MakeEnvarName(s)
  {
    var r := MakeEnvarName(s);
    assert forall i :: 0 <= i < |r| ==> r[i] == (if s[i] == '-' then '_' else ToUpper(s[i]));
    var rr := MakeEnvarName(r);
    assert forall i :: 0 <= i < |r| ==> rr[i] == r[i];
  }

  /** A name is unchanged by shouting exactly when it has no dash and no
      lower-case letter. */
  lemma {:induction false} EnvarNameFixed(s: string)
    ensures MakeEnvarName(s) == s <==> forall i :: 0 <= i < |s| ==> s[i] != '-' && !IsLower(s[i])
  {
    EnvarNameShape(s);
    if forall i :: 0 <= i < |s| ==> s[i] != '-' && !IsLower(s[i]) {
      assert forall i :: 0 <= i < |s| ==> MakeEnvarName(s)[i] == s[i];
    }
  }

  // ---------------------------------------------------------------------
  // The cascade

  function UnknownParameter(name: string): string
  {
    "unknown parameter " + name
  }

  /** The name is looked up in the RCS: it is in none of the memo, the
      environment (either spelling) and the data section, and it is one of
      the calculated names. */
  predicate UsesRcs(name: string, state: map<string, string>, env: Env, data: Configuration.Data)
  {
    && name !in state && name !in env && MakeEnvarName(name) !in env
    && !Configuration.HasData(data, name) && name in PARAMETER_LOOKUPS
  }

  /** LookupParameter's answer: the memo, the environment under the exact
      name, then under the shouted name, the data section, and finally the
      RCS, which is `rcs` or the error of finding it. */
  function Lookup(name: string, state: map<string, string>, env: Env, data: Configuration.Data, rcs: Result<Rcs>)
    : Result<string>
  {
    if name in state then Success(state[name])
    else if name in env then Success(env[name])
    else if MakeEnvarName(name) in env then Success(env[MakeEnvarName(name)])
    else if Configuration.HasData(data, name) then Configuration.GetDataString(data, name)
    else if name !in PARAMETER_LOOKUPS then Failure(UnknownParameter(name))
    else
      match rcs
      case Failure(e) => Failure(e)
      case Success(r) => Ask(r, PARAMETER_LOOKUPS[name])
  }

  /** The memo after a lookup: environment values and successfully
      calculated values are recorded; memo hits, data values and failures
      are not. */
  function Remember(name: string, state: map<string, string>, env: Env, data: Configuration.Data, rcs: Result<Rcs>)
    : map<string, string>
  {
    if name in state then state
    else if name in env then state[name := env[name]]
    else if MakeEnvarName(name) in env then state[name := env[MakeEnvarName(name)]]
    else if Configuration.HasData(data, name) then state
    else
      var r := Lookup(name, state, env, data, rcs);
      if name in PARAMETER_LOOKUPS && r.Success? then state[name := r.value] else state
  }

  /** Remembering changes no answer: every name, the one just looked up
      included, resolves afterwards exactly as before. */
  lemma {:induction false} RememberKeepsAnswers(name: string, state: map<string, string>, env: Env,
                                                data: Configuration.Data, rcs: Result<Rcs>, other: string)
    ensures Lookup(other, Remember(name, state, env, data, rcs), env, data, rcs)
         == Lookup(other, state, env, data, rcs)
  {
  }

  /** What is remembered is the lookup's own value, for the looked-up name
      only, and only when it came from the environment or the RCS. */
  lemma {:induction false} RememberWhat(name: string, state: map<string, string>, env: Env,
                                        data: Configuration.Data, rcs: Result<Rcs>)
    ensures var s := Remember(name, state, env, data, rcs);
            var r := Lookup(name, state, env, data, rcs);
            && s.Keys == state.Keys + (if name in s then {name} else {})
            && (forall k :: k in state ==> s[k] == state[k])
            && (name in s <==> || name in state || name in env || MakeEnvarName(name) in env
                               || (UsesRcs(name, state, env, data) && r.Success?))
            && (name in s ==> s[name] == r.value)
  {
    var s := Remember(name, state, env, data, rcs);
    if name !in state && name !in env && MakeEnvarName(name) !in env && !Configuration.HasData(data, name) {
      if !(name in PARAMETER_LOOKUPS && Lookup(name, state, env, data, rcs).Success?) {
        assert s == state;
      }
    }
  }

  /** A name in the memo is answered from it, whatever the environment, the
      data section and the RCS. */
  lemma {:induction false} MemoFirst(name: string, state: map<string, string>, env: Env, env': Env,
                                     data: Configuration.Data, data': Configuration.Data, rcs: Result<Rcs>, rcs': Result<Rcs>)
    requires name in state
    ensures Lookup(name, state, env, data, rcs) == Lookup(name, state, env', data', rcs') == Success(state[name])
  {
  }

  /** The environment overrides the data section and the RCS: a name set in
      it, under either spelling, is answered from it whatever the data and
      the RCS, the exact spelling first. */
  lemma {:induction false} EnvironmentBeforeData(name: string, state: map<string, string>, env: Env,
                                                 data: Configuration.Data, data': Configuration.Data, rcs: Result<Rcs>, rcs': Result<Rcs>)
    requires name !in state && (name in env || MakeEnvarName(name) in env)
    ensures Lookup(name, state, env, data, rcs) == Lookup(name, state, env, data', rcs')
    ensures Lookup(name, state, env, data, rcs)
         == Success(if name in env then env[name] else env[MakeEnvarName(name)])
  {
  }

  /** The data section overrides the RCS: a name it has is answered by
      GetDataString whatever the RCS, errors included. */
  lemma {:induction false} DataBeforeRcs(name: string, state: map<string, string>, env: Env,
                                         data: Configuration.Data, rcs: Result<Rcs>, rcs': Result<Rcs>)
    requires name !in state && name !in env && MakeEnvarName(name) !in env && Configuration.HasData(data, name)
    ensures Lookup(name, state, env, data, rcs) == Lookup(name, state, env, data, rcs')
         == Configuration.GetDataString(data, name)
  {
  }

  /** The RCS is consulted only for calculated names found nowhere else:
      for any other name two RCSs give the same answer. */
  lemma {:induction false} RcsLast(name: string, state: map<string, string>, env: Env,
                                   data: Configuration.Data, rcs: Result<Rcs>, rcs': Result<Rcs>)
    requires !UsesRcs(name, state, env, data)
    ensures Lookup(name, state, env, data, rcs) == Lookup(name, state, env, data, rcs')
  {
  }

  /** A name found in no source and not calculable is an unknown parameter,
      and the memo stays as it was. */
  lemma {:induction false} UnknownName(name: string, state: map<string, string>, env: Env,
                                       data: Configuration.Data, rcs: Result<Rcs>)
    requires name !in state && name !in env && MakeEnvarName(name) !in env
    requires !Configuration.HasData(data, name) && name !in PARAMETER_LOOKUPS
    ensures Lookup(name, state, env, data, rcs) == Failure(UnknownParameter(name))
    ensures Remember(name, state, env, data, rcs) == state
  {
  }

  /** A value calculated by the RCS is remembered, so the next lookup of the
      name is answered from the memo, with the same value and without the
      RCS. */
  lemma {:induction false} CalculatedOnce(name: string, state: map<string, string>, env: Env,
                                          data: Configuration.Data, rcs: Result<Rcs>)
    requires UsesRcs(name, state, env, data) && Lookup(name, state, env, data, rcs).Success?
    ensures var s := Remember(name, state, env, data, rcs);
            && name in s && !UsesRcs(name, s, env, data)
            && Lookup(name, s, env, data, rcs) == Lookup(name, state, env, data, rcs)
  {
  }

  /** In a Travis build, a calculated name found nowhere else is answered by
      the Travis strategy. */
  lemma {:induction false} TravisAnswers(name: string, state: map<string, string>, env: Env, data: Configuration.Data)
    requires UsesRcs(name, state, env, data)
    ensures name == "branch" ==> Lookup(name, state, env, data, Success(TravisRcs(env))) == RcsTravis.Branch(env)
    ensures name == "commit-hash-short" ==>
              Lookup(name, state, env, data, Success(TravisRcs(env))) == RcsTravis.CommitHashShort(env)
    ensures name == "commit-counter" ==> Lookup(name, state, env, data, Success(TravisRcs(env))) == Success("UNKNOWN")
  {
  }

  // ---------------------------------------------------------------------
  // The context

  /** The settings given by `-X name=value` options, as pairs. */
  function Settings(opts: seq<Commands.CliOption>): (ps: seq<(string, string)>)
    ensures |ps| == |opts|
    ensures forall i :: 0 <= i < |opts| ==> ps[i] == (opts[i].name, opts[i].value)
  {
    seq(|opts|, i requires 0 <= i < |opts| => (opts[i].name, opts[i].value))
  }

  /** A version computation's context. `env` is the process environment and
      `probe` what looking for the RCS next to the version file gives, each
      fixed for the life of the context. `probes` counts the searches for
      the RCS and `rcsCalls` the questions put to it. */
  class Context {
    const versionFile: string
    const config: Configuration.Config
    const env: Env
    const probe: Result<Rcs>
    var state: map<string, string>
    var rcs: Option<Rcs>
    ghost var probes: nat
    ghost var rcsCalls: nat

    /** The RCS, once found, is the one the probe finds, and it is searched
        for at most once when it can be found. */
    ghost predicate Valid()
      reads this
    {
      && (rcs.Some? <==> probe.Success? && probes > 0)
      && (rcs.Some? ==> rcs.value == probe.value)
      && (probe.Success? ==> probes <= 1)
    }

    /** The answer a lookup of `name` gives in the current state. */
    function Resolve(name: string): Result<string>
      reads this
    {
      Lookup(name, state, env, config.data, probe)
    }

    /** Every lookup in the current state, as one function. */
    function Resolution(): (f: string -> Result<string>)
      reads this
      ensures forall n :: f(n) == Resolve(n)
    {
      var s, e, d, p := state, env, config.data, probe;
      n => Lookup(n, s, e, d, p)
    }

    /** NewContext: the memo starts with the options, assigned in order. */
    constructor(versionFile: string, config: Configuration.Config, opts: seq<Commands.CliOption>,
                env: Env, probe: Result<Rcs>)
      ensures Valid()
      ensures this.versionFile == versionFile && this.config == config
      ensures this.env == env && this.probe == probe
      ensures state == Assoc.Assign(Settings(opts))
      ensures rcs == None && probes == 0 && rcsCalls == 0
    {
      this.versionFile := versionFile;
      this.config := config;
      this.env := env;
      this.probe := probe;
      rcs := None;
      probes := 0;
      rcsCalls := 0;
      var s: map<string, string> := map[];
      ghost var ps := Settings(opts);
      for i := 0 to |opts|
        invariant s == Assoc.Assign(ps[..i])
      {
        assert ps[..i + 1] == ps[..i] + [(opts[i].name, opts[i].value)];
        Assoc.AssignSnoc(ps[..i], opts[i].name, opts[i].value);
        s := s[opts[i].name := opts[i].value];
      }
      assert ps[..|opts|] == ps;
      state := s;
    }

    /** GetRcs: the cached RCS, or else the result of searching for it,
        which is cached when the search succeeds. */
    method GetRcs() returns (r: Result<Rcs>)
      requires Valid()
      modifies this
      ensures Valid()
      ensures r == probe
      ensures state == old(state) && rcsCalls == old(rcsCalls)
      ensures rcs == (if probe.Success? then Some(probe.value) else None)
      ensures probes == if old(rcs).Some? then old(probes) else old(probes) + 1
    {
      if rcs.Some? {
        return Success(rcs.value);
      }
      probes := probes + 1;
      var found := probe;
      if found.Failure? {
        return Failure(found.error);
      }
      rcs := Some(found.value);
      return found;
    }

    /** LookupFromRcs with one of the six questions. */
    method LookupFromRcs(q: Query) returns (r: Result<string>)
      requires Valid()
      modifies this
      ensures Valid()
      ensures r == match probe case Failure(e) => Failure(e) case Success(x) => Ask(x, q)
      ensures state == old(state)
      ensures rcsCalls == old(rcsCalls) + (if probe.Success? then 1 else 0)
      ensures rcs == (if probe.Success? then Some(probe.value) else None)
      ensures probes == if old(rcs).Some? then old(probes) else old(probes) + 1
    {
      var found := GetRcs();
      if found.Failure? {
        return Failure(found.error);
      }
      rcsCalls := rcsCalls + 1;
      var answer := Ask(found.value, q);
      if answer.Failure? {
        return Failure(answer.error);
      }
      return Success(answer.value);
    }

    /** LookupParameter: answers by the cascade and records environment and
        calculated values in the memo. No answer to any name changes, and
        the RCS is asked at most the one question this name needs. The RCS
        is searched for, and its handle cached, only when the cascade gets
        as far as the calculated lookups and nothing is cached yet. */
    method LookupParameter(name: string) returns (r: Result<string>)
      requires Valid()
      modifies this
      ensures Valid()
      ensures r == old(Resolve(name))
      ensures state == Remember(name, old(state), env, config.data, probe)
      ensures forall n :: Resolve(n) == old(Resolve(n))
      ensures rcsCalls == old(rcsCalls) + (if UsesRcs(name, old(state), env, config.data) && probe.Success? then 1 else 0)
      ensures var reach := UsesRcs(name, old(state), env, config.data);
              && probes == (if reach && old(rcs).None? then old(probes) + 1 else old(probes))
              && rcs == (if reach && probe.Success? then Some(probe.value) else old(rcs))
    {
      ghost var s0 := state;
      forall n
        ensures Lookup(n, Remember(name, s0, env, config.data, probe), env, config.data, probe)
             == Lookup(n, s0, env, config.data, probe)
      {
        RememberKeepsAnswers(name, s0, env, config.data, probe, n);
      }
      if name in state {
        return Success(state[name]);
      }
      if name in env {
        state := state[name := env[name]];
        return Success(env[name]);
      }
      var shouted := MakeEnvarName(name);
      if shouted in env {
        state := state[name := env[shouted]];
        return Success(env[shouted]);
      }
      if Configuration.HasData(config.data, name) {
        var v := Configuration.GetDataString(config.data, name);
        if v.Failure? {
          return Failure(v.error);
        }
        return Success(v.value);
      }
      if name !in PARAMETER_LOOKUPS {
        return Failure(UnknownParameter(name));
      }
      var v := LookupFromRcs(PARAMETER_LOOKUPS[name]);
      if v.Failure? {
        return Failure(v.error);
      }
      state := state[name := v.value];
      return Success(v.value);
    }
  }
}
