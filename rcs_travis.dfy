/** The Travis CI strategy: branch and commit are read from the environment
    variables Travis sets, which are passed in as a map. */
module RcsTravis {
  import opened Wrappers

  /** The process environment: variable name to value, for the set ones. */
  type Env = map<string, string>

  const PULL_REQUEST_BRANCH := "TRAVIS_PULL_REQUEST_BRANCH"
  const BRANCH := "TRAVIS_BRANCH"
  const PULL_REQUEST_NUMBER := "TRAVIS_PULL_REQUEST_NUMBER"
  const COMMIT := "TRAVIS_COMMIT"

  /** The length of an abbreviated commit hash. */
  const SHORT_HASH_LENGTH := 7

  function Name(): string
  {
    "travis"
  }

  /** The branch: the pull request's branch when it is set and non-empty,
      otherwise TRAVIS_BRANCH, even when empty. */
  function Branch(env: Env): Result<string>
  {
    if PULL_REQUEST_BRANCH in env && env[PULL_REQUEST_BRANCH] != "" then Success(env[PULL_REQUEST_BRANCH])
    else if BRANCH in env then Success(env[BRANCH])
    else Failure("cannot locate branch in environment")
  }

  function CommitCounter(env: Env): Result<string>
  {
    Success("UNKNOWN")
  }

  function RepoCounter(env: Env): Result<string>
  {
    Failure("Travis-git does not support whole-repo commit counters")
  }

  function RepoRoot(env: Env): Result<string>
  {
    Failure("Travis-git does not support repo root")
  }

  /** The commit: the pull request number unless it is unset or "false",
      otherwise TRAVIS_COMMIT. */
  function CommitHash(env: Env): Result<string>
  {
    if PULL_REQUEST_NUMBER in env && env[PULL_REQUEST_NUMBER] != "false" then Success(env[PULL_REQUEST_NUMBER])
    else if COMMIT in env then Success(env[COMMIT])
    else Failure("cannot find commit hash in environment")
  }

  /** The first seven characters of the commit hash. */
  function CommitHashShort(env: Env): (r: Result<string>)
    ensures r.Success? ==> |r.value| == SHORT_HASH_LENGTH
  {
    match CommitHash(env)
    case Failure(e) => Failure(e)
    case Success(c) =>
      if |c| < SHORT_HASH_LENGTH then Failure("malformed commit hash: '" + c + "'")
      else Success(c[0..SHORT_HASH_LENGTH])
  }

  // ---------------------------------------------------------------------
  // Properties

  /** The branch is found exactly when one of the two variables supplies it,
      it is the value of one of them, and a non-empty pull-request branch
      takes precedence. */
  lemma {:induction false} BranchFromEnv(env: Env)
    ensures Branch(env).Success? <==>
              (PULL_REQUEST_BRANCH in env && env[PULL_REQUEST_BRANCH] != "") || BRANCH in env
    ensures Branch(env).Success? ==>
              (PULL_REQUEST_BRANCH in env && Branch(env).value == env[PULL_REQUEST_BRANCH])
              || (BRANCH in env && Branch(env).value == env[BRANCH])
    ensures PULL_REQUEST_BRANCH in env && env[PULL_REQUEST_BRANCH] != "" ==>
              Branch(env) == Success(env[PULL_REQUEST_BRANCH])
    ensures Branch(env).Success? && Branch(env).value == "" ==> BRANCH in env && env[BRANCH] == ""
  {
  }

  /** The commit hash is found exactly when one of the two variables supplies
      it, and a pull-request number other than "false" takes precedence. */
  lemma {:induction false} CommitHashFromEnv(env: Env)
    ensures CommitHash(env).Success? <==>
              (PULL_REQUEST_NUMBER in env && env[PULL_REQUEST_NUMBER] != "false") || COMMIT in env
    ensures PULL_REQUEST_NUMBER in env && env[PULL_REQUEST_NUMBER] != "false" ==>
              CommitHash(env) == Success(env[PULL_REQUEST_NUMBER])
    ensures CommitHash(env).Success? && CommitHash(env).value == "false" ==>
              COMMIT in env && env[COMMIT] == "false"
  {
  }

  /** The short hash is exactly the first seven characters of the hash; it
      fails with the hash's own error, or when the hash is shorter than
      seven characters. */
  lemma {:induction false} CommitHashShortPrefix(env: Env)
    ensures CommitHashShort(env).Success? <==>
              CommitHash(env).Success? && |CommitHash(env).value| >= SHORT_HASH_LENGTH
    ensures CommitHashShort(env).Success? ==>
              CommitHashShort(env).value <= CommitHash(env).value
              && |CommitHashShort(env).value| == SHORT_HASH_LENGTH
    ensures CommitHash(env).Failure? ==> CommitHashShort(env) == CommitHash(env)
  {
  }

  /** No environment gives Travis a commit counter other than "UNKNOWN", a
      repository counter or a repository root. */
  lemma {:induction false} TravisUnsupported(env: Env)
    ensures CommitCounter(env) == Success("UNKNOWN")
    ensures RepoCounter(env).Failure? && RepoRoot(env).Failure?
  {
  }
}
