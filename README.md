# vers — a verified model of the version-string core

`vers` builds version strings for a repository from a template such as
`{major}.{minor:02d}-{branch}`. The names in the template are resolved through
a fixed cascade. First come values already known to the run: command-line
options and earlier answers. Then the process environment, then the `data`
section of the version file, and last a value calculated from the revision
control system (git, svn or Travis CI). Every version file holds branch rules.
Each rule is a regular expression over branch names paired with a template, and
the first rule that matches the current branch decides the version. The
`bump-*` commands rewrite the integer counters `major`, `minor` and `release`.

This project models that core in Dafny and proves properties of it:

| module (file) | models |
|---|---|
| `Parser` (parser.dfy) | the template tokenizer state machine, the token-to-node parser, node variables, `Template.Variables` |
| `Rendering` (rendering.dfy) | `Template.Expand` and the node `Expand` methods over a resolution context |
| `Resolver` (resolver.dfy) | `Context`, `NewContext`, `GetRcs`, `LookupParameter`, `LookupFromRcs`, the six calculated lookups, `MakeEnvarName` |
| `Configuration` (configuration.dfy) | `HasData`, `GetDataInt`, `GetDataString`, branch-rule validation, `getBranchConfig`, the branch-count check of `readConfig` |
| `Commands` (commands.dfy) | `getOptions`, `createInitFile` with `InitTemplates` and `RcsDataFileFields`, the `Data` updates of the three bump commands |
| `RcsGit`, `RcsSvn`, `RcsTravis` | `ParseGitStatus`; `ParseSvnInfo` and `ParseBranchFromSvnUrl`; the Travis CI environment strategy |
| `Text`, `Strconv`, `Assoc`, `Wrappers` | Go's `strings.Split`/`Index`/`TrimPrefix`, `strconv.Itoa`/`Atoi` and `%0Nd`, map filling where the later key wins, `Result`/`Option` |

The parts are modelled in the same form as the Go code:
- The loops of the Go code are Dafny methods with loop invariants, each proved
  equal to a pure specification function. These are `RunTokenizer`,
  `ParseString`, `Variables`, `Template.Expand`, `getBranchConfig`,
  `ParseSvnInfo`, `getOptions` and `createInitFile`.
- Properties are then proved about those specification functions.
- The resolution context is a class. Its `state` map and its cached RCS handle
  are fields that `LookupParameter` and `GetRcs` update in place.
- Go errors become `Result`/`Outcome` values that carry the Go message text
  unchanged, including the misspellings "unnknown template",
  "confing must contain" and "variable nume".

Behaviours of the code worth knowing, which the model keeps:
- **Cascade.** A lookup tries `State`, the exact environment name, the
  shouted environment name, config `Data`, then the calculated lookups, in
  that order (context.go:49-91). The capture groups of the matching branch
  rule are not one of its layers.
- **Tokenizer errors.** The two "variable nume must start with letters" errors
  do not stop the tokenizer (parser.go:113-115, parser.go:127-129). Other errors
  do. `ParseString` still stops at the first error token.
- **Partial output.** `Template.Expand` returns the text rendered so far
  together with the error (parser.go:19-21).
- **Lookup error dropped.** A failed lookup in a node is reported as
  "could not expand <name>", and the lookup's own error is dropped
  (parser.go:246-248).
- **Anchoring.** Branch patterns are wrapped as `^` + pattern + `$`
  (config.go:103, config.go:120). Only the first and last alternatives of a
  pattern with a top-level `|` are anchored, so `master|trunk` also matches
  `master-x`. The model passes the same wrapped string to its regular
  expression oracle, so it keeps this behaviour.
- **Unnamed groups.** `getBranchConfig` stores unnamed capture groups under the
  empty key "", because `SubexpNames` names them "" (config.go:125-130).

## Model

| member | source | states |
|---|---|---|
| Parser.RunTokenizer | parser.go:82-174 | the tokenizer loop emits exactly the token list of the state-machine specification `Tokenize`, which has the ASCII field-width check of the Findings row |
| Parser.Step | parser.go:84-166 | definition: one transition of the tokenizer's state machine: for each of its eight states and each character, the next state and pending text with the tokens sent, or the error token that stops the scan, branch for branch as the loop's if/else chain (with the ASCII field-width check in the corrected tokenizer) |
| Parser.Tokenize | parser.go:82-174 | definition: the token stream of a template: `Step` applied character by character from the string state with empty pending text, then the pending literal if non-empty, or "end of string malformed" outside the string state |
| Parser.ScanLiteral | parser.go:87-97 | text without `{` or `\` accumulates verbatim into the pending literal |
| Parser.TokenizeLiteral | parser.go:87-97 | a plain text gives no token when empty and one literal token otherwise (trailing literal only if non-empty) |
| Parser.ScanOpenBrace | parser.go:88-91 | `{` always flushes the pending literal, even when it is empty, and starts a name |
| Parser.ScanEscape | parser.go:98-105 | only `\{` and `\\` escape, adding that one character; any other escape is "unknown escape code"; a trailing `\` is "end of string malformed" |
| Parser.ScanEmptyName | parser.go:106-109 | `{}` yields the pending literal then "variable not defined" |
| Parser.ScanName | parser.go:106-129 | a name (letter, then letters, digits or `-`) is consumed into the pending variable |
| Parser.ScanVariable | parser.go:106-129 | `{name}` yields the pending literal then a variable token holding the name |
| Parser.SpecifierShape | parser.go:130-162 | after `name:` the corrected tokenizer accepts exactly `0<ASCII digit>d}`, emitting the variable with its specifier, and any other shape ends in a single error token |
| Parser.ScanSpecified | parser.go:130-162 | `{name:0<digit>d}` with an ASCII digit yields the literal then the variable token `name:0<digit>d` |
| Parser.ScanUnterminated | parser.go:167-173 | input ending inside a variable or specifier yields "end of string malformed" |
| Parser.ScanWellFormed | parser.go:82-174 | every variable token the corrected tokenizer emits is a name or a name with a `:0<ASCII digit>d` specifier |
| Parser.NewExpansionNode | parser.go:227-242 | a node built from a variable token is never a literal, and a zero-fill width is one digit |
| Parser.NewExpansionNodeWellFormed | parser.go:227-242 | a plain name gives an expansion node; `name:0<d>d` gives a zero-fill node of width d |
| Parser.NewExpansionNodeSpecified | parser.go:231-238 | `name:0<d>d` becomes a zero-fill node with the name and the digit's value as width |
| Parser.ParseString | parser.go:41-57 | the parser loop computes exactly the specification `Parse` of the template, over the corrected tokenizer |
| Parser.Parse | parser.go:41-57 | definition: one node per token in order, a literal node per string token and `NewExpansionNode` per variable token, stopping at the first error token with its message and the nodes built so far; a `NewExpansionNode` panic is a `Panic` outcome |
| Parser.ParseNeverPanics | parser.go:41-57 | in the corrected tokenizer, no template makes the parser reach one of `NewExpansionNode`'s panics (the code as written can: see Findings) |
| Parser.ParseOnePerToken | parser.go:45-55 | without error tokens the parse succeeds with exactly one node per token, in token order |
| Parser.ParseFirstError | parser.go:46-47 | the first error token's message is the parse error, returned with the nodes built before it |
| Parser.ParsePlain | parser_test.go:14 | a plain text parses to one literal node (none when empty) |
| Parser.ParseVariable | parser_test.go:15-16 | `a{n}b` parses to literal a, expansion n, then literal b when non-empty |
| Parser.ParseSpecified | parser_test.go:18-20 | `a{n:0<d>d}b` parses to literal a, a zero-fill node of width d, then b |
| Parser.ParseTwoVariables | parser_test.go:17 | two variables parse to literal, expansion, literal, expansion |
| Parser.ParseTwoSpecified | parser_test.go:21 | two specified variables parse to two zero-fill nodes around the literals |
| Parser.TokenizeUnterminated | parser.go:167-173 | `a{n`, `a{n:` and `a{n:0` tokenize to the literal and "end of string malformed" |
| Parser.ParseUnterminated | main_test.go:69 | an unterminated variable makes the parse fail with "end of string malformed" after the literal |
| Parser.Variables | parser.go:27-39 | the result holds each variable the template references, once each, and nothing else |
| Parser.CollectVars | parser.go:28-33 | the set the first loop fills is exactly the names carried by the template's nodes |
| Parser.ListNames | parser.go:34-37 | the second loop lists every member of the set, and each only once |
| Parser.VarSetMember | parser.go:27-39 | a name is a template variable exactly when some non-literal node carries it |
| Parser.VarSetAppend | parser.go:29-33 | the variables of a concatenation are the union of the parts' variables |
| Parser.TokenizeUnicodeWidth | parser.go:138-145 | as written, a non-ASCII decimal digit is accepted as field width |
| Parser.WidthDigitPanicsAsWritten | parser.go:227-237 | as written, `{x:0<non-ASCII digit>d}` reaches the "run specifier must be a digit" panic |
| Parser.WidthDigitRejected | parser.go:138-145 | in the corrected tokenizer, a non-ASCII field width is the error "only digit allowed in field width" |
| Rendering.ExpandNode | parser.go:215-272 | definition: a literal node gives its text; an expansion node the looked-up value or "could not expand <name>"; a zero-fill node also reads the value with `Atoi`, failing with "could not read <v> as integer", and pads it with `ZeroPad` to the field width |
| Rendering.Render | parser.go:15-25 | definition: the nodes' texts joined in order; the first failing node stops the expansion with its error and the text rendered before it |
| Rendering.ExpansionNode | parser.go:244-250 | a plain node yields the looked-up value, and on a failed lookup "could not expand <name>" |
| Rendering.ZeroFillNode | parser.go:261-272 | a zero-fill node fails with "could not read <v> as integer" exactly when the value is not an integer, else yields `%0<w>d` of it |
| Rendering.ExpandNodeLocal | parser.go:244-272 | a node's expansion depends only on the lookup of its own name |
| Rendering.RenderSticks | parser.go:17-21 | once a node fails, later nodes do not change the result |
| Rendering.RenderAppend | parser.go:15-25 | rendering a concatenation is the first part's text followed by the second's, or the first part's error |
| Rendering.RenderSucceeds | parser.go:15-25 | rendering succeeds exactly when every node expands |
| Rendering.RenderFirstError | parser.go:19-21 | on the first failing node the result is the prefix rendered before it and that node's error |
| Rendering.RenderVariable | parser_test.go:15-16 | `a{n}b` renders as a, the value of n, then b |
| Rendering.RenderTwoVariables | parser_test.go:22-23 | two variables render as their values in order around the literals |
| Rendering.RenderSpecified | parser_test.go:18-20 | `a{n:0<d>d}b` renders the zero-padded integer between a and b |
| Rendering.RenderTwoSpecified | parser_test.go:21 | two zero-fill variables render both padded values in order |
| Rendering.RepeatedExample | parser_test.go:17 | `{x}{x}` renders the value twice |
| Rendering.ZeroFillExample | parser_test.go:20 | `{x:02d}` with x = "1" renders "01" |
| Rendering.TwoZeroFillExample | parser_test.go:21 | `{x:02d}.{y:02d}` with 1 and 2 renders "01.02" |
| Rendering.ZeroFillExamples | parser_test.go:18-20 | width 0 and 1 leave "1" unpadded; width 2 pads 1 to "01" and 2 to "02" |
| Rendering.Expand | parser.go:15-25 | the rendering loop over a live context returns the text and error of `Render` under the context's answers at entry, which do not change, and asks the RCS at most one question per node |
| Strconv.Itoa | config.go:55-56 | definition: `strconv.Itoa`: the decimal digits of the value without leading zeros, preceded by `-` when it is negative |
| Strconv.Atoi | config.go:39-42 | definition: `strconv.Atoi`: an optional `+` or `-` and at least one decimal digit, with a value that fits in int64; otherwise the "invalid syntax" or "value out of range" error naming the quoted input |
| Strconv.ZeroPad | parser.go:269-271 | definition: `fmt.Sprintf("%0<w>d", n)`: the decimal digits left-padded with zeros so that the text, sign included, is at least w long |
| Strconv.AtoiItoa | config.go:55-56 | parsing the decimal rendering of any int64 gives it back |
| Strconv.ZeroPadLength | parser.go:270-271 | `%0<w>d` is at least w characters, never truncates, and equals the plain decimal when w is small |
| Strconv.AtoiZeroPad | parser.go:266-271 | a zero-padded number parses back to the same number |
| Resolver.MakeEnvarName | context.go:138-141 | definition: the name upper-cased with every `-` replaced by `_` |
| Resolver.Lookup | context.go:49-91 | definition: the cascade's answer: State, the environment under the exact and then the shouted name, the data section through `GetDataString`, "unknown parameter <name>" for a name without a calculated lookup, and otherwise the RCS's error or its answer to the name's question |
| Resolver.EnvarNameShape | context.go:138-141 | the environment name has the same length, no `-` and no lower-case letter, upper-cases each letter, maps `-` to `_`, and is idempotent |
| Resolver.EnvarNameFixed | context.go:138-141 | a name is its own environment name exactly when it has no `-` and no lower-case letter |
| Resolver.RcsFieldsCalculated | main.go:180-195 | every data-file field added for git or svn is one of the calculated parameters, and only git and svn add fields |
| Resolver.MemoFirst | context.go:50-54 | a name already in State is answered from State, whatever the environment, data and RCS are |
| Resolver.EnvironmentBeforeData | context.go:55-69 | an environment hit (exact name first, then the shouted name) hides data and RCS |
| Resolver.DataBeforeRcs | context.go:70-77 | a data hit hides the RCS |
| Resolver.RcsLast | context.go:78-90 | the RCS is consulted only when State, environment and data all miss |
| Resolver.UnknownName | context.go:79-82 | a name in no layer and not calculable fails with "unknown parameter <name>" and leaves State unchanged |
| Resolver.RememberWhat | context.go:57-90 | environment hits and successful calculations are memoized and data hits are not; existing entries stay |
| Resolver.RememberKeepsAnswers | context.go:49-91 | memoizing one answer does not change the answer to any name |
| Resolver.CalculatedOnce | context.go:87-89 | after a successful calculated lookup the same name is answered from State without the RCS |
| Resolver.TravisAnswers | context.go:105-136 | with the Travis CI strategy the calculated lookups return the Travis branch, short hash and "UNKNOWN" counter |
| Resolver.Context.constructor | context.go:17-27 | a new context has the given file, config, environment and probe, no RCS, and State seeded from the options, with later options winning |
| Resolver.Context.GetRcs | context.go:29-39 | returns the probe result, caches a successful probe and probes only when nothing is cached; a failed probe leaves the handle unset |
| Resolver.Context.LookupFromRcs | context.go:93-103 | the RCS error, or the RCS's answer to the query, with one RCS call counted; the handle is then cached exactly when the RCS was found, and the search runs only when nothing was cached |
| Resolver.Context.LookupParameter | context.go:49-91 | returns the cascade's answer, updates State by the memoization rule, leaves every later answer unchanged, and queries the RCS only when the cascade reaches it; only then, and only when no handle is cached, is the RCS searched for and a found handle cached (lazily), so a memo, environment or data hit never touches it |
| Assoc.AssignLast | context.go:23-25 | a key is in the filled map exactly when some pair has it, with the value of its last pair |
| Configuration.HasData | config.go:23-26 | definition: the name is a key of the data section |
| Configuration.GetDataInt | config.go:28-47 | definition: a missing key gives "data field '<n>' is not defined"; an int is returned as it is; a string is read with `Atoi`, failing with "cannot convert '<n>' to an int: <error>"; any other value gives "'<n>' is not an int" |
| Configuration.GetDataString | config.go:49-64 | definition: a missing key gives "data field '<n>' is not defined"; an int is written with `Itoa`; a string is returned as it is; any other value gives "expected '<n>' to be a string" |
| Configuration.MissingData | config.go:28-53 | both getters fail with "data field '<n>' is not defined" exactly when the key is missing |
| Configuration.DataViewsAgree | config.go:28-64 | the int view succeeds exactly when the string view does and parses as decimal, and then they agree |
| Configuration.ValidateTemplateAsVersion | config.go:136-143 | definition: fails with "{version} cannot be contained in the version template" when a node of the template names `version`, and passes otherwise |
| Configuration.VersionTemplateCheck | config.go:136-143 | a template fails the version check exactly when it references `version` |
| Configuration.CheckBranchConfig | config.go:96-116 | definition: the checks in the code's order: pattern present, template present, anchored pattern compiles, template parses, template passes `ValidateTemplateAsVersion`; the first failure's message is returned |
| Configuration.CheckBranchConfigPasses | config.go:96-116 | a rule passes exactly when pattern and template are non-empty, the anchored pattern compiles, the template parses and it does not reference `version` |
| Configuration.CheckBranchConfigExamples | main_test.go:66-69 | the four rule checks give the exact messages of the test vectors, in check order (`t` stands for the vectors' valid template `{branch}`) |
| Configuration.MalformedPattern | config.go:103-106 | a non-empty rule whose anchored pattern `^($` does not compile fails with "branch pattern '(' is malformed" |
| Configuration.MalformedTemplate | config.go:107-110 | the rule `.*` / `{` fails with "version template '{' is malformed" |
| Configuration.LoneBraceMalformed | parser.go:167-173 | the template `{` parses to a partial result carrying an error |
| Configuration.ValidateConfig | config.go:84-92 | definition: no branch rules gives "confing must contain at least one branch expressions"; otherwise the rules are checked in order and the first failure is returned |
| Configuration.CheckBranchesFirst | config.go:84-92 | all rules pass exactly when each passes; otherwise the error is the first failing rule's |
| Configuration.ValidateConfigExamples | main_test.go:32-58 | a config without branch rules, or with an empty branch pattern, is rejected |
| Configuration.FirstMatch | config.go:118-134 | definition: the first rule in order whose anchored pattern matches the branch, with its capture groups assigned in group order; "no branch config matching branch '<b>'" when none matches |
| Configuration.GetBranchConfig | config.go:118-134 | the rule loop returns exactly `FirstMatch` of the rules |
| Configuration.FirstMatchIsFirst | config.go:118-134 | failure, with "no branch config matching branch '<b>'", exactly when no anchored pattern matches; otherwise the first matching rule and its capture map |
| Commands.LeadingEquals | main.go:434 | counts the `=` characters a match of `[^=]+=` must skip at the start |
| Commands.ParseOption | main.go:433-444 | definition: the first match of `([^=]+)=(.*)`: leading `=` are skipped, the name runs to the next `=` and the value to the first line break; without such a `=` the error "cannot parse option '<opt>'" |
| Commands.GetOptions | main.go:428-447 | returns the parsed options in input order up to the first unparsable one, whose error is returned |
| Commands.OptionRoundTrip | main.go:434-443 | `name=value` with a non-empty name without `=` and a value without newline parses back to that name and value |
| Commands.OptionFails | main.go:436-439 | an option fails with "cannot parse option '<opt>'" exactly when no `=` follows a non-`=` character |
| Commands.OptionShape | main.go:434-443 | a parsed name is non-empty without `=`, a value has no newline, and `name=value` is the option text after its leading `=`s, cut at a newline |
| Commands.RcsDataFileFields | main.go:180-195 | definition: `commit-hash` and `commit-hash-short` for git, `repo-counter` and `repo-root` for svn, nothing for any other name |
| Commands.CreateInitFile | main.go:163-178 | fails with "unnknown template: <name>" exactly for unknown templates; otherwise the template's fields followed by the RCS's data-file fields |
| Commands.Inc | main.go:355 | `+ 1` on a Go int: one more, wrapping from the largest to the smallest int64 |
| Commands.BumpMajor | main.go:338-357 | fails with the first failing getter among major, minor and release; otherwise major is stored as the int major + 1 and minor and release as the int 0, other entries kept, and the version increases |
| Commands.BumpMinor | main.go:377-389 | fails with the first failing getter among minor and release; otherwise minor is stored as the int minor + 1 and release as the int 0, every other entry (major included) kept, and the version increases |
| Commands.BumpRelease | main.go:409-414 | fails exactly when release is not an int; otherwise release is stored as the int release + 1 and every other entry is kept |
| RcsGit.ParseGitStatus | rcs_git.go:88-108 | definition: splits the output into lines and the first line at spaces; fewer than two fields or a first field other than `##` give the code's errors; otherwise the branch read from the second field by `BranchOfField` |
| RcsGit.ParseGitStatusIsStatusBranch | rcs_git.go:88-108 | the parser equals its case-by-case specification |
| RcsGit.FieldCut | rcs_git.go:100-107 | the branch of the second field is HEAD as it is, otherwise the text before its first "..." without one leading `origin/` |
| RcsGit.FirstLineOnly | rcs_git.go:89-93 | lines after the first do not affect the result |
| RcsGit.NoSpaceFails | rcs_git.go:93-96 | a first line with fewer than two fields fails |
| RcsGit.BranchIsOneWord | rcs_git.go:88-108 | a parsed branch contains no space and no newline |
| RcsGit.TrackingBranch | rcs_git.go:103-106 | `## b...upstream` yields b with one leading `origin/` removed, for any one-word b without `...` (dots allowed) |
| RcsGit.PlainBranch | rcs_git.go:107 | `## b` yields b with one leading `origin/` removed, for any one-word b without `...` (dots allowed) |
| RcsGit.DetachedHead | rcs_git.go:100-102 | `## HEAD ...` yields "HEAD" |
| RcsGit.TrackingExample | rcs_git_test.go:12-13 | `## b...origin/b` yields b whatever lines follow, as for `master` in the tests |
| RcsGit.RemoteExample | rcs_git_test.go:16 | `## origin/b` yields b, as for `master` in the tests |
| RcsGit.DetachedExample | rcs_git_test.go:15 | `## HEAD (no branch)` yields "HEAD" |
| RcsSvn.ParseSvnInfo | rcs_svn.go:91-108 | the parsing loop computes exactly `InfoOf` of the output's lines |
| RcsSvn.InfoIsAssign | rcs_svn.go:97-106 | the parse succeeds exactly when every non-empty line has `": "`, and is then the map of its key/value pairs with later keys winning |
| RcsSvn.FailureSticks | rcs_svn.go:101-104 | an unparsable line fails the whole parse whatever follows |
| RcsSvn.KeyValueSplit | rcs_svn.go:101-106 | a line splits into the text before the first `": "` and everything after it |
| RcsSvn.KeyValueOf | rcs_svn.go:101-106 | `key: value` gives back the key and the value |
| RcsSvn.EmptyLineSkipped | rcs_svn.go:98-100 | an empty line changes nothing |
| RcsSvn.TrailingNewline | rcs_svn_test.go:22 | a trailing newline changes nothing |
| RcsSvn.LaterLineWins | rcs_svn.go:105 | a repeated key takes the later line's value |
| RcsSvn.UnparsableLineFails | rcs_svn.go:101-104 | a non-empty line without `": "` fails with "found unparsable svn info line" |
| RcsSvn.ParseBranchFromSvnUrl | rcs_svn.go:110-124 | definition: the group of the first of the four patterns, in the code's order, that matches the URL, or "could not extract branch from svn URL" |
| RcsSvn.LeftmostSegment | rcs_svn.go:112-115 | finds the leftmost marker followed by a non-empty segment, and none exists before it |
| RcsSvn.SegmentGroup | rcs_svn.go:112-115 | the captured segment is non-empty and has no `/` |
| RcsSvn.PatternOrder | rcs_svn.go:111-122 | the patterns are tried in the fixed order branches, `/trunk/`, trailing `/trunk`, tags, and the first hit wins |
| RcsSvn.BranchIsSegment | rcs_svn.go:110-124 | a branch extracted from a URL is non-empty and contains no `/` |
| RcsSvn.BranchesUrl | rcs_svn_test.go:62-63 | `.../branches/<name>[/...]` yields name |
| RcsSvn.TagsUrl | rcs_svn_test.go:64-65 | `.../tags/<name>[/...]` without a branches marker yields name |
| RcsSvn.TrunkUrl | rcs_svn_test.go:60-61 | a URL containing `/trunk/` or ending in `/trunk`, without a branches marker, yields "trunk" |
| RcsSvn.NoPatternFails | rcs_svn.go:123 | extraction fails with "could not extract branch from svn URL" when no marker occurs; a failure means no branches or tags marker is followed by a segment and no trunk pattern occurs |
| RcsTravis.Branch | rcs_travis.go:17-27 | definition: `TRAVIS_PULL_REQUEST_BRANCH` when set and non-empty, else `TRAVIS_BRANCH` when set, else "cannot locate branch in environment" |
| RcsTravis.CommitCounter | rcs_travis.go:29-31 | definition: always "UNKNOWN" |
| RcsTravis.RepoCounter | rcs_travis.go:33-35 | definition: always the error "Travis-git does not support whole-repo commit counters" |
| RcsTravis.RepoRoot | rcs_travis.go:37-39 | definition: always the error "Travis-git does not support repo root" |
| RcsTravis.CommitHash | rcs_travis.go:41-51 | definition: `TRAVIS_PULL_REQUEST_NUMBER` when set and not "false", else `TRAVIS_COMMIT` when set, else "cannot find commit hash in environment" |
| RcsTravis.BranchFromEnv | rcs_travis.go:17-27 | a non-empty pull-request branch wins; otherwise `TRAVIS_BRANCH` even when empty; an error when both are absent |
| RcsTravis.CommitHashFromEnv | rcs_travis.go:41-51 | the pull-request number unless absent or "false", else `TRAVIS_COMMIT`, else an error |
| RcsTravis.CommitHashShort | rcs_travis.go:53-62 | a short hash is 7 characters long |
| RcsTravis.CommitHashShortPrefix | rcs_travis.go:53-62 | the short hash is the first 7 characters of the hash; it fails when the hash fails or is shorter |
| RcsTravis.TravisUnsupported | rcs_travis.go:29-39 | the commit counter is "UNKNOWN"; repo counter and repo root always fail |

## Left out

- Process environment, file system and subprocesses:
  - `os.LookupEnv` becomes the context's `env` map.
  - `GetRcs` in rcs.go probes the file system for a repository. Its outcome is the context's `probe` value. In `createInitFile` it is the `detected` parameter.
  - `filepaths.go` is not part of this model.
  - The git and svn `Rcs` methods run external programs and are not modelled. Only the parsers of their output are.
- Go regular expressions are a `Regexp` oracle, with `compiles` and `submatches`. The `regexp.MustCompile` panic on a bad pattern at match time is not modelled. The svn URL patterns are hand-coded substring searches.
- `ParseRevisionFromXmlLog` (rcs_svn.go:135-142) is a thin wrapper over the XML decoder and is not modelled.
- JSON decoding and encoding, `readConfig`'s file reading, `writeConfig`, `GetVersionFile` and the CLI wiring of main.go are not modelled. Only the branch-count check and the rule validation of `readConfig` are.
- The `float64` branches of `GetDataInt` and `GetDataString` (config.go:36-37, config.go:57-58) are floating point. Data values are int64, string or "other".
- `Context.getBranch` (context.go:41-47) is not modelled: nothing in the core calls it.
- The goroutine and channel of `Tokenize` (parser.go:59-63) become a sequential token list. The producer goroutine stranded by `ParseString`'s early return has no functional content.
- `Rendering.Expand`: each RCS answer is fixed for a context (`Rcs` is a value). A real repository could change between two calls.
- Resolver.Context.LookupFromRcs: the six `Lookup*` functions are one method taking a `Query` value.
- Parser.RunTokenizer, Parser.ParseString: they run the corrected field-width check of the Findings row (ASCII digits only, parser.go:139 accepts any `unicode.IsDigit` digit). `TokenizeAsWritten` and `ParseAsWritten` are the code as written and are used only to exhibit the finding.
- Parser.IsLetter: `unicode.IsLetter` is restricted to ASCII letters.
- Parser.IsUnicodeDigit: `unicode.IsDigit` is the ASCII digits plus four sample non-ASCII decimal-digit ranges. The full Unicode category table is not modelled.
- Resolver.MakeEnvarName: `strings.ToUpper` upper-cases only ASCII letters.
- RcsTravis.CommitHashShort counts characters, not UTF-8 bytes. The two agree for hexadecimal hashes.
- Strconv.Atoi: the quoting in its error text does not escape special characters as `strconv.Quote` would.
- The `len(lines) == 0` error branches of `ParseGitStatus` and `ParseSvnInfo` (rcs_git.go:90-92, rcs_svn.go:93-95) cannot be taken, because splitting always yields at least one line. They are absent from the model.

## Findings

| source | as written | input that shows it | evidently intended | confidence | as-written member | corrected member |
|---|---|---|---|---|---|---|
| parser.go:138-145, parser.go:233-237 | the field-width state accepts any `unicode.IsDigit` character, but `NewExpansionNode` converts it with `strconv.Atoi`, which knows only ASCII digits | the template `{x:0٣d}` (U+0663, ARABIC-INDIC DIGIT THREE) tokenizes to a variable token and then panics with "run specifier must be a digit" | the tokenizer rejects a non-ASCII width with "only digit allowed in field width", so no template can make the parser panic | not executed | Parser.WidthDigitPanicsAsWritten | Parser.ParseNeverPanics |
