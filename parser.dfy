/** The version-template language: a character state machine turns a
    template such as `{major}.{minor:02d}` into literal, variable and error
    tokens; the parser turns the tokens into literal, plain-expansion and
    zero-fill-expansion nodes. */
module Parser {
  import opened Wrappers
  import opened Text
  import Strconv

  // Error texts of the tokenizer.
  const UNKNOWN_ESCAPE := "unknown escape code"
  const VARIABLE_NOT_DEFINED := "variable not defined"
  const BAD_NAME := "variable nume must start with letters"
  const ONLY_ZERO_FILL := "only zero fill allowed in specifier"
  const ONLY_DIGIT_WIDTH := "only digit allowed in field width"
  const D_EXPECTED := "d expected as field type specifier"
  const END_MALFORMED := "end of string malformed"

  // Reasons NewExpansionNode panics.
  const WIDTH_PANIC := "run specifier must be a digit"
  const MALFORMED_PANIC := "malformed expansion node definition"
  const INDEX_PANIC := "index out of range"

  /** unicode.IsLetter, restricted to ASCII letters. */
  predicate IsLetter(c: char)
  {
    'a' <= c <= 'z' || 'A' <= c <= 'Z'
  }

  /** unicode.IsDigit: the ASCII digits and, standing for the rest of Unicode
      category Nd, the Arabic-Indic, extended Arabic-Indic, Devanagari and
      full-width digits. */
  predicate IsUnicodeDigit(c: char)
  {
    || '0' <= c <= '9'
    || '\U{0660}' <= c <= '\U{0669}'
    || '\U{06F0}' <= c <= '\U{06F9}'
    || '\U{0966}' <= c <= '\U{096F}'
    || '\U{FF10}' <= c <= '\U{FF19}'
  }

  /** A character allowed after the first one of a variable name. */
  predicate IsNameChar(c: char)
  {
    IsLetter(c) || IsUnicodeDigit(c) || c == '-'
  }

  /** A variable name: a letter, then letters, digits and dashes. */
  predicate IsName(n: string)
  {
    |n| > 0 && IsLetter(n[0]) && forall i :: 1 <= i < |n| ==> IsNameChar(n[i])
  }

  /** A name followed by a zero-fill specifier `:0<digit>d`. */
  predicate IsSpecified(v: string)
  {
    && |v| >= 5 && IsName(v[..|v| - 4])
    && v[|v| - 4] == ':' && v[|v| - 3] == '0' && Strconv.IsDigit(v[|v| - 2]) && v[|v| - 1] == 'd'
  }

  /** The text of a variable token the tokenizer can produce. */
  predicate WellFormedVar(v: string)
  {
    IsName(v) || IsSpecified(v)
  }

  // ---------------------------------------------------------------------
  // Tokens and the tokenizer

  datatype Token = StringToken(value: string) | VarToken(value: string) | ErrorToken(msg: string)

  /** The eight states of the tokenizer. */
  datatype TokState =
    | InString
    | InStringEscape
    | NameFirst
    | NameAfter
    | SpecifierZeroFill
    | SpecifierFieldWidth
    | SpecifierDecimal
    | NameComplete

  /** Which characters the field-width state accepts: any Unicode digit, as
      the code is written, or only the ASCII digits that the parser can read. */
  datatype WidthDigits = UnicodeWidth | AsciiWidth

  predicate IsWidthDigit(c: char, w: WidthDigits)
  {
    match w
    case UnicodeWidth => IsUnicodeDigit(c)
    case AsciiWidth => Strconv.IsDigit(c)
  }

  /** What one character does: either the scan goes on in a new state with
      new pending text, having emitted some tokens, or it stops after
      emitting an error. */
  datatype Move =
    | Continue(state: TokState, pending: string, emitted: seq<Token>)
    | Stop(error: Token)

  /** One transition of the state machine on character `c` with pending text `t`. */
  function Step(st: TokState, t: string, c: char, w: WidthDigits): Move
  {
    match st
    case InString =>
      if c == '{' then Continue(NameFirst, "", [StringToken(t)])
      else if c == '\\' then Continue(InStringEscape, t, [])
      else Continue(InString, t + [c], [])
    case InStringEscape =>
      if c == '{' || c == '\\' then Continue(InString, t + [c], [])
      else Stop(ErrorToken(UNKNOWN_ESCAPE))
    case NameFirst =>
      if c == '}' then Stop(ErrorToken(VARIABLE_NOT_DEFINED))
      else if IsLetter(c) then Continue(NameAfter, t + [c], [])
      else Continue(NameFirst, t, [ErrorToken(BAD_NAME)])
    case NameAfter =>
      if c == '}' then Continue(InString, "", [VarToken(t)])
      else if c == ':' then Continue(SpecifierZeroFill, t + [c], [])
      else if IsNameChar(c) then Continue(NameAfter, t + [c], [])
      else Continue(NameAfter, t, [ErrorToken(BAD_NAME)])
    case SpecifierZeroFill =>
      if c == '0' then Continue(SpecifierFieldWidth, t + [c], [])
      else Stop(ErrorToken(ONLY_ZERO_FILL))
    case SpecifierFieldWidth =>
      if IsWidthDigit(c, w) then Continue(SpecifierDecimal, t + [c], [])
      else Stop(ErrorToken(ONLY_DIGIT_WIDTH))
    case SpecifierDecimal =>
      if c == 'd' then Continue(NameComplete, t + [c], [])
      else Stop(ErrorToken(D_EXPECTED))
    case NameComplete =>
      if c == '}' then Continue(InString, "", [VarToken(t)])
      else Stop(ErrorToken(D_EXPECTED))
  }

  /** The tokens emitted when the input runs out. */
  function Finish(st: TokState, t: string): seq<Token>
  {
    if st == InString then (if t == "" then [] else [StringToken(t)])
    else [ErrorToken(END_MALFORMED)]
  }

  /** The tokens emitted for the rest `s` of the input, from state `st` with
      pending text `t`. */
  function Scan(s: string, st: TokState, t: string, w: WidthDigits): seq<Token>
    decreases |s|
  {
    if |s| == 0 then Finish(st, t)
    else
      match Step(st, t, s[0], w)
      case Stop(e) => [e]
      case Continue(st', t', out) => out + Scan(s[1..], st', t', w)
  }

  /** The token stream of a template. */
  function Tokenize(s: string): seq<Token>
  {
    Scan(s, InString, "", AsciiWidth)
  }

  /** The token stream of a template as the field-width state is written,
      accepting any Unicode digit. */
  function TokenizeAsWritten(s: string): seq<Token>
  {
    Scan(s, InString, "", UnicodeWidth)
  }

  /** The body of the tokenizer loop for one character `r`: the new state
      and pending text with the tokens sent, or the error that ends the scan.
      It is the code's if/else chain over states and characters written as
      statements, kept apart from `RunTokenizer` so that the loop's proof
      sees only its one-line contract: it takes exactly the transition that
      the function `Step` (on which the tokenizer lemmas rest) defines. */
  method Advance(state: TokState, t: string, r: char) returns (m: Move)
    ensures m == Step(state, t, r, AsciiWidth)
  {
    match state
    case InString =>
      if r == '{' {
        m := Continue(NameFirst, "", [StringToken(t)]);
      } else if r == '\\' {
        m := Continue(InStringEscape, t, []);
      } else {
        m := Continue(InString, t + [r], []);
      }
    case InStringEscape =>
      if r == '{' || r == '\\' {
        m := Continue(InString, t + [r], []);
      } else {
        m := Stop(ErrorToken(UNKNOWN_ESCAPE));
      }
    case NameFirst =>
      if r == '}' {
        m := Stop(ErrorToken(VARIABLE_NOT_DEFINED));
      } else if IsLetter(r) {
        m := Continue(NameAfter, t + [r], []);
      } else {
        m := Continue(NameFirst, t, [ErrorToken(BAD_NAME)]);
      }
    case NameAfter =>
      if r == '}' {
        m := Continue(InString, "", [VarToken(t)]);
      } else if r == ':' {
        m := Continue(SpecifierZeroFill, t + [r], []);
      } else if IsLetter(r) || IsUnicodeDigit(r) || r == '-' {
        m := Continue(NameAfter, t + [r], []);
      } else {
        m := Continue(NameAfter, t, [ErrorToken(BAD_NAME)]);
      }
    case SpecifierZeroFill =>
      if r == '0' {
        m := Continue(SpecifierFieldWidth, t + [r], []);
      } else {
        m := Stop(ErrorToken(ONLY_ZERO_FILL));
      }
    case SpecifierFieldWidth =>
      if Strconv.IsDigit(r) {
        m := Continue(SpecifierDecimal, t + [r], []);
      } else {
        m := Stop(ErrorToken(ONLY_DIGIT_WIDTH));
      }
    case SpecifierDecimal =>
      if r == 'd' {
        m := Continue(NameComplete, t + [r], []);
      } else {
        m := Stop(ErrorToken(D_EXPECTED));
      }
    case NameComplete =>
      if r == '}' {
        m := Continue(InString, "", [VarToken(t)]);
      } else {
        m := Stop(ErrorToken(D_EXPECTED));
      }
  }

  /** RunTokenizer: one pass over the characters, updating the state and the
      pending text and appending tokens; an error that ends the scan is the
      last token. */
  method RunTokenizer(template: string) returns (tokens: seq<Token>)
    ensures tokens == Tokenize(template)
  {
    var t := "";
    var state := InString;
    tokens := [];
    var i := 0;
    while i < |template|
      invariant 0 <= i <= |template|
      invariant tokens + Scan(template[i..], state, t, AsciiWidth) == Tokenize(template)
    {
      ScanStep(template[i..], state, t, AsciiWidth);
      assert template[i..][0] == template[i] && template[i..][1..] == template[i + 1..];
      var m := Advance(state, t, template[i]);
      if m.Stop? {
        tokens := tokens + [m.error];
        return;
      }
      assert tokens + (m.emitted + Scan(template[i + 1..], m.state, m.pending, AsciiWidth))
          == (tokens + m.emitted) + Scan(template[i + 1..], m.state, m.pending, AsciiWidth);
      tokens := tokens + m.emitted;
      state, t := m.state, m.pending;
      i := i + 1;
    }
    assert template[i..] == [];
    if state == InString {
      if t != "" {
        tokens := tokens + [StringToken(t)];
      }
    } else {
      tokens := tokens + [ErrorToken(END_MALFORMED)];
    }
  }

  /** One character of input is one transition of the state machine. */
  lemma {:induction false} ScanStep(s: string, st: TokState, t: string, w: WidthDigits)
    requires |s| > 0
    ensures Scan(s, st, t, w) == match Step(st, t, s[0], w)
                                 case Stop(e) => [e]
                                 case Continue(st', t', out) => out + Scan(s[1..], st', t', w)
  {
  }

  /** A transition that emits nothing just moves the scan on. */
  lemma {:induction false} ScanSilent(s: string, st: TokState, t: string, w: WidthDigits, st': TokState, t': string)
    requires |s| > 0 && Step(st, t, s[0], w) == Continue(st', t', [])
    ensures Scan(s, st, t, w) == Scan(s[1..], st', t', w)
  {
    assert [] + Scan(s[1..], st', t', w) == Scan(s[1..], st', t', w);
  }

  // ---------------------------------------------------------------------
  // Nodes and the parser

  /** A template node: literal text, a plain expansion, or an expansion
      zero-filled to `fieldWidth` characters. */
  datatype Node =
    | StringLiteral(value: string)
    | Expansion(name: string)
    | ZeroFillExpansion(name: string, fieldWidth: nat)

  type Template = seq<Node>

  /** The names a node references. */
  function Vars(n: Node): (r: seq<string>)
    ensures n.StringLiteral? <==> r == []
    ensures !n.StringLiteral? ==> r == [n.name]
  {
    match n
    case StringLiteral(_) => []
    case Expansion(name) => [name]
    case ZeroFillExpansion(name, _) => [name]
  }

  /** The node for the text of a variable token, or the reason the code
      panics: the text is split on `:`; a second piece supplies its second
      character as the field width. */
  function NewExpansionNode(varExpr: string): (r: Result<Node>)
    ensures r.Success? ==> !r.value.StringLiteral?
    ensures r.Success? && r.value.ZeroFillExpansion? ==> r.value.fieldWidth < 10
  {
    var parts := Split(varExpr, ":");
    if |parts| == 1 then Success(Expansion(parts[0]))
    else if |parts| == 2 then
      if |parts[1]| < 2 then Failure(INDEX_PANIC)
      else
        var c := parts[1][1];
        match Strconv.Atoi([c])
        case Failure(_) => Failure(WIDTH_PANIC)
        case Success(width) =>
          Strconv.AtoiSingle(c);
          Success(ZeroFillExpansion(parts[0], width as nat))
    else Failure(MALFORMED_PANIC)
  }

  /** The result of parsing: the nodes built so far with the first error,
      if any, or a panic of NewExpansionNode. */
  datatype ParseOutcome = Parsed(template: Template, err: Option<string>) | Panic(reason: string)

  /** `p` with the nodes `prefix` in front of its template. */
  function After(prefix: Template, p: ParseOutcome): ParseOutcome
  {
    match p
    case Parsed(t, e) => Parsed(prefix + t, e)
    case Panic(reason) => Panic(reason)
  }

  /** The parser over a token stream: one node per token in token order,
      stopping at the first error token. */
  function ParseTokens(ts: seq<Token>): ParseOutcome
    decreases |ts|
  {
    if |ts| == 0 then Parsed([], None)
    else
      match ts[0]
      case ErrorToken(m) => Parsed([], Some(m))
      case StringToken(v) => After([StringLiteral(v)], ParseTokens(ts[1..]))
      case VarToken(v) =>
        match NewExpansionNode(v)
        case Failure(reason) => Panic(reason)
        case Success(n) => After([n], ParseTokens(ts[1..]))
  }

  function Parse(s: string): ParseOutcome
  {
    ParseTokens(Tokenize(s))
  }

  function ParseAsWritten(s: string): ParseOutcome
  {
    ParseTokens(TokenizeAsWritten(s))
  }

  /** ParseString: tokenizes, then appends one node per token until the
      first error token. */
  method ParseString(template: string) returns (r: ParseOutcome)
    ensures r == Parse(template)
  {
    var tokens := RunTokenizer(template);
    var nodes: Template := [];
    var i := 0;
    while i < |tokens|
      invariant 0 <= i <= |tokens|
      invariant After(nodes, ParseTokens(tokens[i..])) == ParseTokens(tokens)
    {
      var tk := tokens[i];
      assert tokens[i..][0] == tk && tokens[i..][1..] == tokens[i + 1..];
      ghost var rest := ParseTokens(tokens[i + 1..]);
      if tk.ErrorToken? {
        return Parsed(nodes, Some(tk.msg));
      } else if tk.StringToken? {
        AfterAfter(nodes, [StringLiteral(tk.value)], rest);
        nodes := nodes + [StringLiteral(tk.value)];
      } else {
        var n := NewExpansionNode(tk.value);
        if n.Failure? {
          return Panic(n.error);
        }
        AfterAfter(nodes, [n.value], rest);
        nodes := nodes + [n.value];
      }
      i := i + 1;
    }
    assert tokens[i..] == [];
    return Parsed(nodes, None);
  }

  lemma {:induction false} AfterAfter(a: Template, b: Template, p: ParseOutcome)
    ensures After(a, After(b, p)) == After(a + b, p)
  {
    if p.Parsed? {
      assert a + (b + p.template) == a + b + p.template;
    }
  }

  // ---------------------------------------------------------------------
  // Variables

  function ElementsOf(s: seq<string>): set<string>
  {
    set x | x in s
  }

  /** The distinct names a template references. */
  function VarSet(t: Template): set<string>
    decreases |t|
  {
    if |t| == 0 then {} else VarSet(t[..|t| - 1]) + ElementsOf(Vars(t[|t| - 1]))
  }

  /** Template.Variables: collects the names of every node into a set, then
      lists the set's members in an order left unspecified. */
  method Variables(t: Template) returns (vars: seq<string>)
    ensures forall v :: v in vars <==> v in VarSet(t)
    ensures forall i, j :: 0 <= i < j < |vars| ==> vars[i] != vars[j]
  {
    var exp := CollectVars(t);
    vars := ListNames(exp);
    assert forall v :: v in vars <==> v in ElementsOf(vars);
  }

  /** The first loop of Template.Variables: every node's names go into a set. */
  method CollectVars(t: Template) returns (exp: set<string>)
    ensures exp == VarSet(t)
  {
    exp := {};
    for k := 0 to |t|
      invariant exp == VarSet(t[..k])
    {
      var vs := Vars(t[k]);
      for j := 0 to |vs|
        invariant exp == VarSet(t[..k]) + ElementsOf(vs[..j])
      {
        assert vs[..j + 1] == vs[..j] + [vs[j]];
        exp := exp + {vs[j]};
      }
      assert vs[..|vs|] == vs;
      assert t[..k + 1][..k] == t[..k];
    }
    assert t[..|t|] == t;
  }

  /** The second loop of Template.Variables: each member of the set is
      listed once. */
  method ListNames(names: set<string>) returns (vars: seq<string>)
    ensures ElementsOf(vars) == names
    ensures forall i, j :: 0 <= i < j < |vars| ==> vars[i] != vars[j]
  {
    vars := [];
    var rest := names;
    while rest != {}
      invariant rest !! ElementsOf(vars) && rest + ElementsOf(vars) == names
      invariant forall i, j :: 0 <= i < j < |vars| ==> vars[i] != vars[j]
      decreases |rest|
    {
      var v :| v in rest;
      vars := vars + [v];
      rest := rest - {v};
    }
  }

  // ---------------------------------------------------------------------
  // Properties of the tokenizer

  /** Text without `{` or `\` accumulates verbatim in the pending literal. */
  lemma {:induction false} ScanLiteral(a: string, rest: string, t: string, w: WidthDigits)
    requires forall i :: 0 <= i < |a| ==> a[i] != '{' && a[i] != '\\'
    ensures Scan(a + rest, InString, t, w) == Scan(rest, InString, t + a, w)
    decreases |a|
  {
    if |a| > 0 {
      var s := a + rest;
      assert s[0] == a[0] && s[1..] == a[1..] + rest;
      ScanSilent(s, InString, t, w, InString, t + [a[0]]);
      ScanLiteral(a[1..], rest, t + [a[0]], w);
      assert t + [a[0]] + a[1..] == t + a;
    } else {
      assert a + rest == rest && t + a == t;
    }
  }

  /** A template of plain text is one literal token, or no token when empty. */
  lemma {:induction false} TokenizeLiteral(a: string)
    requires forall i :: 0 <= i < |a| ==> a[i] != '{' && a[i] != '\\'
    ensures Tokenize(a) == if a == "" then [] else [StringToken(a)]
  {
    ScanLiteral(a, "", "", AsciiWidth);
    assert a + "" == a && "" + a == a;
  }

  /** `{` always emits the pending literal, even when it is empty. */
  lemma {:induction false} ScanOpenBrace(rest: string, t: string, w: WidthDigits)
    ensures Scan("{" + rest, InString, t, w) == [StringToken(t)] + Scan(rest, NameFirst, "", w)
  {
    assert ("{" + rest)[1..] == rest;
  }

  /** Only `\{` and `\\` are escapes, each adding one character to the
      literal; any other escape ends the scan with an error, and so does a
      trailing backslash. */
  lemma {:induction false} ScanEscape(c: char, rest: string, t: string, w: WidthDigits)
    ensures Scan(['\\', c] + rest, InString, t, w)
         == if c == '{' || c == '\\' then Scan(rest, InString, t + [c], w)
            else [ErrorToken(UNKNOWN_ESCAPE)]
    ensures Scan("\\", InString, t, w) == [ErrorToken(END_MALFORMED)]
  {
    var s := ['\\', c] + rest;
    assert s[0] == '\\' && s[1..][0] == c && s[1..][1..] == rest;
    assert "\\"[1..] == "";
  }

  /** `{}` names no variable. */
  lemma {:induction false} ScanEmptyName(rest: string, t: string, w: WidthDigits)
    ensures Scan("{}" + rest, InString, t, w) == [StringToken(t), ErrorToken(VARIABLE_NOT_DEFINED)]
  {
    assert ("{}" + rest)[1..] == "}" + rest;
    ScanOpenBrace("}" + rest, t, w);
  }

  /** Name characters after the first letter accumulate in the pending name. */
  lemma {:induction false} ScanNameBody(b: string, rest: string, t: string, w: WidthDigits)
    requires forall i :: 0 <= i < |b| ==> IsNameChar(b[i])
    ensures Scan(b + rest, NameAfter, t, w) == Scan(rest, NameAfter, t + b, w)
    decreases |b|
  {
    if |b| > 0 {
      var s := b + rest;
      assert s[0] == b[0] && s[1..] == b[1..] + rest;
      assert IsNameChar(b[0]);
      ScanSilent(s, NameAfter, t, w, NameAfter, t + [b[0]]);
      ScanNameBody(b[1..], rest, t + [b[0]], w);
      assert t + [b[0]] + b[1..] == t + b;
    } else {
      assert b + rest == rest && t + b == t;
    }
  }

  /** A well-formed name read after `{` lands in state NameAfter with the
      whole name pending. */
  lemma {:induction false} ScanName(n: string, rest: string, w: WidthDigits)
    requires IsName(n)
    ensures Scan(n + rest, NameFirst, "", w) == Scan(rest, NameAfter, n, w)
  {
    assert (n + rest)[0] == n[0] && (n + rest)[1..] == n[1..] + rest;
    ScanStep(n + rest, NameFirst, "", w);
    assert Step(NameFirst, "", n[0], w) == Continue(NameAfter, [n[0]], []);
    ScanNameBody(n[1..], rest, [n[0]], w);
    assert [n[0]] + n[1..] == n;
  }

  /** `{name}` yields the pending literal, then the variable. */
  lemma {:induction false} ScanVariable(n: string, rest: string, t: string, w: WidthDigits)
    requires IsName(n)
    ensures Scan("{" + n + "}" + rest, InString, t, w)
         == [StringToken(t), VarToken(n)] + Scan(rest, InString, "", w)
  {
    assert "{" + n + "}" + rest == "{" + (n + ("}" + rest));
    ScanOpenBrace(n + ("}" + rest), t, w);
    ScanName(n, "}" + rest, w);
    assert ("}" + rest)[1..] == rest;
  }

  /** From state SpecifierZeroFill the input must continue with exactly
      `0<digit>d}`: then the whole variable is emitted; any other
      continuation, including the end of input, ends the scan with a single
      error token. */
  lemma {:induction false} SpecifierShape(s: string, t: string)
    ensures var r := Scan(s, SpecifierZeroFill, t, AsciiWidth);
            if |s| >= 4 && s[0] == '0' && Strconv.IsDigit(s[1]) && s[2] == 'd' && s[3] == '}'
            then r == [VarToken(t + s[..3])] + Scan(s[4..], InString, "", AsciiWidth)
            else |r| == 1 && r[0].ErrorToken?
  {
    if |s| >= 1 && s[0] == '0' {
      ScanStep(s, SpecifierZeroFill, t, AsciiWidth);
      WidthShape(s[1..], t + "0");
      if |s| >= 4 {
        assert s[1..][..2] == s[1..3];
        assert (t + "0") + s[1..3] == t + s[..3];
        assert s[1..][3..] == s[4..];
      }
    } else if |s| >= 1 {
      ScanStep(s, SpecifierZeroFill, t, AsciiWidth);
    }
  }

  /** From state SpecifierFieldWidth the input must continue with `<digit>d}`. */
  lemma {:induction false} WidthShape(s: string, t: string)
    ensures var r := Scan(s, SpecifierFieldWidth, t, AsciiWidth);
            if |s| >= 3 && Strconv.IsDigit(s[0]) && s[1] == 'd' && s[2] == '}'
            then r == [VarToken(t + s[..2])] + Scan(s[3..], InString, "", AsciiWidth)
            else |r| == 1 && r[0].ErrorToken?
  {
    if |s| >= 1 && Strconv.IsDigit(s[0]) {
      ScanStep(s, SpecifierFieldWidth, t, AsciiWidth);
      DecimalShape(s[1..], t + [s[0]]);
      if |s| >= 3 {
        assert (t + [s[0]]) + [s[1]] == t + s[..2];
        assert s[1..][2..] == s[3..];
      }
    } else if |s| >= 1 {
      ScanStep(s, SpecifierFieldWidth, t, AsciiWidth);
    }
  }

  /** From state SpecifierDecimal the input must continue with `d}`. */
  lemma {:induction false} DecimalShape(s: string, t: string)
    ensures var r := Scan(s, SpecifierDecimal, t, AsciiWidth);
            if |s| >= 2 && s[0] == 'd' && s[1] == '}'
            then r == [VarToken(t + "d")] + Scan(s[2..], InString, "", AsciiWidth)
            else |r| == 1 && r[0].ErrorToken?
  {
    if |s| >= 1 && s[0] == 'd' {
      ScanStep(s, SpecifierDecimal, t, AsciiWidth);
      assert [] + Scan(s[1..], NameComplete, t + "d", AsciiWidth) == Scan(s[1..], NameComplete, t + "d", AsciiWidth);
      if |s| >= 2 {
        ScanStep(s[1..], NameComplete, t + "d", AsciiWidth);
        assert s[1..][1..] == s[2..];
      }
    } else if |s| >= 1 {
      ScanStep(s, SpecifierDecimal, t, AsciiWidth);
    }
  }

  /** `{name:0<digit>d}` yields the pending literal, then the variable with
      its specifier. */
  lemma {:induction false} ScanSpecified(n: string, d: char, rest: string, t: string)
    requires IsName(n) && Strconv.IsDigit(d)
    ensures Scan("{" + n + ":0" + [d] + "d}" + rest, InString, t, AsciiWidth)
         == [StringToken(t), VarToken(n + ":0" + [d] + "d")] + Scan(rest, InString, "", AsciiWidth)
  {
    var spec := "0" + [d] + "d}" + rest;
    assert "{" + n + ":0" + [d] + "d}" + rest == "{" + (n + (":" + spec));
    ScanOpenBrace(n + (":" + spec), t, AsciiWidth);
    ScanName(n, ":" + spec, AsciiWidth);
    assert (":" + spec)[0] == ':' && (":" + spec)[1..] == spec;
    SpecifierShape(spec, n + ":");
    assert spec[..3] == "0" + [d] + "d" && spec[4..] == rest;
    assert n + ":" + ("0" + [d] + "d") == n + ":0" + [d] + "d";
  }

  /** Input that ends inside a variable or a specifier is malformed. */
  lemma {:induction false} ScanUnterminated(st: TokState, t: string, w: WidthDigits)
    requires st != InString
    ensures Scan("", st, t, w) == [ErrorToken(END_MALFORMED)]
  {
  }

  // ---------------------------------------------------------------------
  // The tokenizer emits only variables the parser can read

  /** What the pending text looks like in each state. */
  predicate ScanInv(st: TokState, t: string)
  {
    match st
    case InString => true
    case InStringEscape => true
    case NameFirst => t == ""
    case NameAfter => IsName(t)
    case SpecifierZeroFill => |t| >= 2 && IsName(t[..|t| - 1]) && t[|t| - 1] == ':'
    case SpecifierFieldWidth =>
      |t| >= 3 && IsName(t[..|t| - 2]) && t[|t| - 2] == ':' && t[|t| - 1] == '0'
    case SpecifierDecimal =>
      && |t| >= 4 && IsName(t[..|t| - 3])
      && t[|t| - 3] == ':' && t[|t| - 2] == '0' && Strconv.IsDigit(t[|t| - 1])
    case NameComplete => IsSpecified(t)
  }

  predicate VarsWellFormed(ts: seq<Token>)
  {
    forall k :: 0 <= k < |ts| && ts[k].VarToken? ==> WellFormedVar(ts[k].value)
  }

  lemma {:induction false} StepInv(st: TokState, t: string, c: char)
    requires ScanInv(st, t)
    ensures match Step(st, t, c, AsciiWidth)
            case Stop(_) => true
            case Continue(st', t', out) => ScanInv(st', t') && VarsWellFormed(out)
  {
    match st
    case NameAfter => NameAfterInv(t, c);
    case SpecifierZeroFill => ZeroFillInv(t, c);
    case SpecifierFieldWidth => FieldWidthInv(t, c);
    case SpecifierDecimal => DecimalInv(t, c);
    case _ =>
  }

  lemma {:induction false} NameAfterInv(t: string, c: char)
    requires IsName(t)
    ensures match Step(NameAfter, t, c, AsciiWidth)
            case Stop(_) => true
            case Continue(st', t', out) => ScanInv(st', t') && VarsWellFormed(out)
  {
    var t' := t + [c];
    assert t'[..|t'| - 1] == t;
    if IsNameChar(c) && c != '}' && c != ':' {
      assert t'[0] == t[0];
      assert forall i :: 1 <= i < |t'| - 1 ==> t'[i] == t[i];
    }
  }

  lemma {:induction false} ZeroFillInv(t: string, c: char)
    requires ScanInv(SpecifierZeroFill, t)
    ensures match Step(SpecifierZeroFill, t, c, AsciiWidth)
            case Stop(_) => true
            case Continue(st', t', _) => ScanInv(st', t')
  {
    var t' := t + [c];
    assert t'[..|t'| - 2] == t[..|t| - 1];
  }

  lemma {:induction false} FieldWidthInv(t: string, c: char)
    requires ScanInv(SpecifierFieldWidth, t)
    ensures match Step(SpecifierFieldWidth, t, c, AsciiWidth)
            case Stop(_) => true
            case Continue(st', t', _) => ScanInv(st', t')
  {
    var t' := t + [c];
    assert t'[..|t'| - 3] == t[..|t| - 2];
  }

  lemma {:induction false} DecimalInv(t: string, c: char)
    requires ScanInv(SpecifierDecimal, t)
    ensures match Step(SpecifierDecimal, t, c, AsciiWidth)
            case Stop(_) => true
            case Continue(st', t', _) => ScanInv(st', t')
  {
    var t' := t + [c];
    assert t'[..|t'| - 4] == t[..|t| - 3];
  }

  /** Every variable token the tokenizer emits is a name, optionally followed
      by a `:0<digit>d` specifier. */
  lemma {:induction false} ScanWellFormed(s: string, st: TokState, t: string)
    requires ScanInv(st, t)
    ensures VarsWellFormed(Scan(s, st, t, AsciiWidth))
    decreases |s|
  {
    if |s| > 0 {
      StepInv(st, t, s[0]);
      match Step(st, t, s[0], AsciiWidth)
      case Stop(_) =>
      case Continue(st', t', out) =>
        ScanWellFormed(s[1..], st', t');
        var rest := Scan(s[1..], st', t', AsciiWidth);
        assert forall k :: |out| <= k < |out + rest| ==> (out + rest)[k] == rest[k - |out|];
    }
  }

  /** The parser reads every well-formed variable text without panicking: a
      plain name is a plain expansion, and a specified one a zero-fill
      expansion of the specifier's digit. */
  lemma {:induction false} NewExpansionNodeWellFormed(v: string)
    requires WellFormedVar(v)
    ensures IsName(v) ==> NewExpansionNode(v) == Success(Expansion(v))
    ensures IsSpecified(v) ==>
              NewExpansionNode(v) == Success(ZeroFillExpansion(v[..|v| - 4], Strconv.DigitValue(v[|v| - 2])))
  {
    if IsName(v) {
      assert ':' !in v by {
        forall i | 0 <= i < |v| ensures v[i] != ':' {
          if i > 0 { assert IsNameChar(v[i]); }
        }
      }
      SplitAt(v, ':', "");
    } else {
      var n := v[..|v| - 4];
      var b := v[|v| - 3..];
      assert ':' !in n by {
        forall i | 0 <= i < |n| ensures n[i] != ':' {
          if i > 0 { assert IsNameChar(n[i]); }
        }
      }
      assert ':' !in b by {
        assert b == ['0', v[|v| - 2], 'd'];
      }
      assert v == n + [':'] + b;
      SplitAt(n, ':', b);
      SplitAt(b, ':', "");
      assert Split(v, ":") == [n, b];
      Strconv.AtoiSingle(b[1]);
    }
  }

  /** The node of `n:0<d>d` zero-fills `n` to the width `d`. */
  lemma {:induction false} NewExpansionNodeSpecified(n: string, d: char)
    requires IsName(n) && Strconv.IsDigit(d)
    ensures NewExpansionNode(n + ":0" + [d] + "d") == Success(ZeroFillExpansion(n, Strconv.DigitValue(d)))
  {
    var v := n + ":0" + [d] + "d";
    assert v[..|v| - 4] == n && v[|v| - 2] == d;
    NewExpansionNodeWellFormed(v);
  }

  // ---------------------------------------------------------------------
  // Properties of the parser

  /** A stream whose variables are all well formed parses without a panic. */
  lemma {:induction false} ParseTokensNoPanic(ts: seq<Token>)
    requires VarsWellFormed(ts)
    ensures ParseTokens(ts).Parsed?
    decreases |ts|
  {
    if |ts| > 0 {
      assert VarsWellFormed(ts[1..]) by {
        forall k | 0 <= k < |ts[1..]| && ts[1..][k].VarToken? ensures WellFormedVar(ts[1..][k].value) {
          assert ts[1..][k] == ts[k + 1];
        }
      }
      ParseTokensNoPanic(ts[1..]);
      if ts[0].VarToken? {
        NewExpansionNodeWellFormed(ts[0].value);
      }
    }
  }

  /** Parsing a template never panics: the tokenizer only emits variables
      that NewExpansionNode can read. */
  lemma {:induction false} ParseNeverPanics(s: string)
    ensures Parse(s).Parsed?
  {
    ScanWellFormed(s, InString, "");
    ParseTokensNoPanic(Tokenize(s));
  }

  /** The node a token that is not an error becomes. */
  function NodeOf(tk: Token): Result<Node>
    requires !tk.ErrorToken?
  {
    if tk.StringToken? then Success(StringLiteral(tk.value)) else NewExpansionNode(tk.value)
  }

  /** Without error tokens or panics, there is exactly one node per token, in
      token order, and no error. */
  lemma {:induction false} ParseOnePerToken(ts: seq<Token>)
    requires forall k :: 0 <= k < |ts| ==> !ts[k].ErrorToken? && NodeOf(ts[k]).Success?
    ensures ParseTokens(ts).Parsed? && ParseTokens(ts).err == None
    ensures |ParseTokens(ts).template| == |ts|
    ensures forall k :: 0 <= k < |ts| ==> ParseTokens(ts).template[k] == NodeOf(ts[k]).value
    decreases |ts|
  {
    if |ts| > 0 {
      assert forall k :: 0 <= k < |ts[1..]| ==> ts[1..][k] == ts[k + 1];
      ParseOnePerToken(ts[1..]);
      var tail := ParseTokens(ts[1..]).template;
      assert ParseTokens(ts).template == [NodeOf(ts[0]).value] + tail;
    }
  }

  /** With an error token at position `k` and none before it, the parse
      fails with that token's message, keeping the nodes of the tokens
      before it. */
  lemma {:induction false} ParseFirstError(ts: seq<Token>, k: nat)
    requires k < |ts| && ts[k].ErrorToken?
    requires forall j :: 0 <= j < k ==> !ts[j].ErrorToken? && NodeOf(ts[j]).Success?
    ensures ParseTokens(ts[..k]).Parsed? && ParseTokens(ts[..k]).err == None
    ensures ParseTokens(ts) == Parsed(ParseTokens(ts[..k]).template, Some(ts[k].msg))
    decreases k
  {
    ParseOnePerToken(ts[..k]);
    if k > 0 {
      assert forall j :: 0 <= j < k - 1 ==> ts[1..][j] == ts[j + 1];
      ParseFirstError(ts[1..], k - 1);
      assert ts[..k][1..] == ts[1..][..k - 1];
      assert ts[..k][0] == ts[0];
    }
  }

  // ---------------------------------------------------------------------
  // Variables

  /** A name is among a template's variables exactly when some expansion
      node of the template names it. */
  lemma {:induction false} VarSetMember(t: Template, v: string)
    ensures v in VarSet(t) <==> exists i :: 0 <= i < |t| && !t[i].StringLiteral? && t[i].name == v
    decreases |t|
  {
    if |t| > 0 {
      var init := t[..|t| - 1];
      VarSetMember(init, v);
      assert forall i :: 0 <= i < |init| ==> init[i] == t[i];
      if v in VarSet(init) {
        var i :| 0 <= i < |init| && !init[i].StringLiteral? && init[i].name == v;
        assert !t[i].StringLiteral? && t[i].name == v;
      }
    }
  }

  /** The variables of a concatenation are those of its parts. */
  lemma {:induction false} VarSetAppend(a: Template, b: Template)
    ensures VarSet(a + b) == VarSet(a) + VarSet(b)
    decreases |b|
  {
    if |b| == 0 {
      assert a + b == a;
    } else {
      assert (a + b)[..|a + b| - 1] == a + b[..|b| - 1];
      VarSetAppend(a, b[..|b| - 1]);
    }
  }

  // ---------------------------------------------------------------------
  // Whole templates

  /** Text with no `{` and no `\`. */
  predicate Plain(a: string)
  {
    forall i :: 0 <= i < |a| ==> a[i] != '{' && a[i] != '\\'
  }

  /** The nodes of a trailing literal: none when it is empty. */
  function Tail(b: string): Template
  {
    if b == "" then [] else [StringLiteral(b)]
  }

  /** Parsing a token that is not an error puts its node in front. */
  lemma {:induction false} ParseCons(tk: Token, ts: seq<Token>)
    requires !tk.ErrorToken? && NodeOf(tk).Success?
    ensures ParseTokens([tk] + ts) == After([NodeOf(tk).value], ParseTokens(ts))
  {
    assert ([tk] + ts)[0] == tk && ([tk] + ts)[1..] == ts;
  }

  /** Plain text parses to one literal node, or to no node when empty. */
  lemma {:induction false} ParsePlain(a: string)
    requires Plain(a)
    ensures Parse(a) == Parsed(Tail(a), None)
  {
    TokenizeLiteral(a);
    if a != "" {
      ParseCons(StringToken(a), []);
      assert [StringToken(a)] + [] == [StringToken(a)];
      assert [StringLiteral(a)] + [] == [StringLiteral(a)];
    }
  }

  /** Plain text, then a variable, then the rest of the template. */
  lemma {:induction false} TokenizeVariableThen(a: string, n: string, rest: string)
    requires Plain(a) && IsName(n)
    ensures Tokenize(a + "{" + n + "}" + rest)
         == [StringToken(a), VarToken(n)] + Scan(rest, InString, "", AsciiWidth)
  {
    assert a + "{" + n + "}" + rest == a + ("{" + n + "}" + rest);
    ScanLiteral(a, "{" + n + "}" + rest, "", AsciiWidth);
    assert "" + a == a;
    ScanVariable(n, rest, a, AsciiWidth);
  }

  /** Plain text, then a zero-filled variable, then the rest of the template. */
  lemma {:induction false} TokenizeSpecifiedThen(a: string, n: string, d: char, rest: string)
    requires Plain(a) && IsName(n) && Strconv.IsDigit(d)
    ensures Tokenize(a + "{" + n + ":0" + [d] + "d}" + rest)
         == [StringToken(a), VarToken(n + ":0" + [d] + "d")] + Scan(rest, InString, "", AsciiWidth)
  {
    assert a + "{" + n + ":0" + [d] + "d}" + rest == a + ("{" + n + ":0" + [d] + "d}" + rest);
    ScanLiteral(a, "{" + n + ":0" + [d] + "d}" + rest, "", AsciiWidth);
    assert "" + a == a;
    ScanSpecified(n, d, rest, a);
  }

  /** `a{n}b` with plain `a` and `b` parses to the literal, the expansion and,
      if non-empty, the trailing literal. */
  lemma {:induction false} ParseVariable(a: string, n: string, b: string)
    requires Plain(a) && IsName(n) && Plain(b)
    ensures Parse(a + "{" + n + "}" + b) == Parsed([StringLiteral(a), Expansion(n)] + Tail(b), None)
  {
    TokenizeVariableThen(a, n, b);
    TokenizeLiteral(b);
    NewExpansionNodeWellFormed(n);
    var rest := Tokenize(b);
    ParsePlain(b);
    ParseCons(VarToken(n), rest);
    ParseCons(StringToken(a), [VarToken(n)] + rest);
    assert [StringToken(a), VarToken(n)] + rest == [StringToken(a)] + ([VarToken(n)] + rest);
  }

  /** `a{n:0<d>d}b` with plain `a` and `b` parses to the literal, the
      zero-fill expansion of width `d` and, if non-empty, the trailing literal. */
  lemma {:induction false} ParseSpecified(a: string, n: string, d: char, b: string)
    requires Plain(a) && IsName(n) && Strconv.IsDigit(d) && Plain(b)
    ensures Parse(a + "{" + n + ":0" + [d] + "d}" + b)
         == Parsed([StringLiteral(a), ZeroFillExpansion(n, Strconv.DigitValue(d))] + Tail(b), None)
  {
    TokenizeSpecifiedThen(a, n, d, b);
    TokenizeLiteral(b);
    var v := n + ":0" + [d] + "d";
    NewExpansionNodeSpecified(n, d);
    var rest := Tokenize(b);
    ParsePlain(b);
    ParseCons(VarToken(v), rest);
    ParseCons(StringToken(a), [VarToken(v)] + rest);
    assert [StringToken(a), VarToken(v)] + rest == [StringToken(a)] + ([VarToken(v)] + rest);
  }

  /** Two variables, each behind a plain literal. */
  lemma {:induction false} ParseTwoVariables(a: string, n: string, b: string, m: string)
    requires Plain(a) && IsName(n) && Plain(b) && IsName(m)
    ensures Parse(a + "{" + n + "}" + b + "{" + m + "}")
         == Parsed([StringLiteral(a), Expansion(n), StringLiteral(b), Expansion(m)], None)
  {
    var rest := b + "{" + m + "}" + "";
    assert a + "{" + n + "}" + b + "{" + m + "}" == a + "{" + n + "}" + rest;
    TokenizeVariableThen(a, n, rest);
    TokenizeVariableThen(b, m, "");
    NewExpansionNodeWellFormed(n);
    NewExpansionNodeWellFormed(m);
    var t2 := [StringToken(b), VarToken(m)];
    assert Scan(rest, InString, "", AsciiWidth) == t2;
    ParseCons(VarToken(m), []);
    ParseCons(StringToken(b), [VarToken(m)]);
    ParseCons(VarToken(n), t2);
    ParseCons(StringToken(a), [VarToken(n)] + t2);
    assert [StringToken(a), VarToken(n)] + t2 == [StringToken(a)] + ([VarToken(n)] + t2);
  }

  lemma {:induction false} TokenizeTwoSpecified(a: string, n: string, d: char, b: string, m: string, e: char)
    requires Plain(a) && IsName(n) && Strconv.IsDigit(d) && Plain(b) && IsName(m) && Strconv.IsDigit(e)
    ensures Tokenize(a + "{" + n + ":0" + [d] + "d}" + b + "{" + m + ":0" + [e] + "d}")
         == [StringToken(a), VarToken(n + ":0" + [d] + "d"), StringToken(b), VarToken(m + ":0" + [e] + "d")]
  {
    var rest := b + "{" + m + ":0" + [e] + "d}" + "";
    assert a + "{" + n + ":0" + [d] + "d}" + b + "{" + m + ":0" + [e] + "d}"
        == a + "{" + n + ":0" + [d] + "d}" + rest;
    TokenizeSpecifiedThen(a, n, d, rest);
    TokenizeSpecifiedThen(b, m, e, "");
  }

  /** Two zero-filled variables, each behind a plain literal. */
  lemma {:induction false} ParseTwoSpecified(a: string, n: string, d: char, b: string, m: string, e: char)
    requires Plain(a) && IsName(n) && Strconv.IsDigit(d) && Plain(b) && IsName(m) && Strconv.IsDigit(e)
    ensures Parse(a + "{" + n + ":0" + [d] + "d}" + b + "{" + m + ":0" + [e] + "d}")
         == Parsed([StringLiteral(a), ZeroFillExpansion(n, Strconv.DigitValue(d)),
                    StringLiteral(b), ZeroFillExpansion(m, Strconv.DigitValue(e))], None)
  {
    TokenizeTwoSpecified(a, n, d, b, m, e);
    var vn := n + ":0" + [d] + "d";
    var vm := m + ":0" + [e] + "d";
    NewExpansionNodeSpecified(n, d);
    NewExpansionNodeSpecified(m, e);
    var zn := ZeroFillExpansion(n, Strconv.DigitValue(d));
    var zm := ZeroFillExpansion(m, Strconv.DigitValue(e));
    ParseCons(VarToken(vm), []);
    assert [VarToken(vm)] + [] == [VarToken(vm)];
    assert ParseTokens([VarToken(vm)]) == Parsed([zm], None);
    ParseCons(StringToken(b), [VarToken(vm)]);
    var t2 := [StringToken(b), VarToken(vm)];
    assert [StringToken(b)] + [VarToken(vm)] == t2;
    assert ParseTokens(t2) == Parsed([StringLiteral(b), zm], None);
    ParseCons(VarToken(vn), t2);
    var t3 := [VarToken(vn)] + t2;
    assert ParseTokens(t3) == Parsed([zn, StringLiteral(b), zm], None);
    ParseCons(StringToken(a), t3);
    assert [StringToken(a), VarToken(vn), StringToken(b), VarToken(vm)] == [StringToken(a)] + t3;
  }

  /** After a name, input that ends before the specifier is complete is
      malformed. */
  lemma {:induction false} ScanCutSpecifier(n: string, spec: string)
    requires IsName(n) && spec in ["", ":", ":0"]
    ensures Scan(spec, NameAfter, n, AsciiWidth) == [ErrorToken(END_MALFORMED)]
  {
    if spec != "" {
      ScanSilent(spec, NameAfter, n, AsciiWidth, SpecifierZeroFill, n + [':']);
      if spec == ":0" {
        assert spec[1..] == "0";
        ScanSilent("0", SpecifierZeroFill, n + [':'], AsciiWidth, SpecifierFieldWidth, n + [':'] + ['0']);
        assert "0"[1..] == "";
      } else {
        assert spec[1..] == "";
      }
    }
  }

  /** A template cut off inside a variable or a specifier tokenizes to the
      literal before it and the error "end of string malformed". */
  lemma {:induction false} TokenizeUnterminated(a: string, n: string, spec: string)
    requires Plain(a) && IsName(n) && spec in ["", ":", ":0"]
    ensures Tokenize(a + "{" + n + spec) == [StringToken(a), ErrorToken(END_MALFORMED)]
  {
    assert a + "{" + n + spec == a + ("{" + (n + spec));
    ScanLiteral(a, "{" + (n + spec), "", AsciiWidth);
    assert "" + a == a;
    ScanOpenBrace(n + spec, a, AsciiWidth);
    ScanName(n, spec, AsciiWidth);
    ScanCutSpecifier(n, spec);
  }

  /** A template cut off inside a variable or a specifier parses to the
      literal before it and the error "end of string malformed". */
  lemma {:induction false} ParseUnterminated(a: string, n: string, spec: string)
    requires Plain(a) && IsName(n) && spec in ["", ":", ":0"]
    ensures Parse(a + "{" + n + spec) == Parsed([StringLiteral(a)], Some(END_MALFORMED))
  {
    TokenizeUnterminated(a, n, spec);
    ParseCons(StringToken(a), [ErrorToken(END_MALFORMED)]);
  }

  // ---------------------------------------------------------------------
  // A Unicode digit in the field width

  /** As written, the field-width state emits a specified variable around
      any Unicode digit. */
  lemma {:induction false} TokenizeUnicodeWidth(three: char)
    requires IsUnicodeDigit(three)
    ensures TokenizeAsWritten("{x:0" + [three] + "d}") == [StringToken(""), VarToken("x:0" + [three] + "d")]
  {
    var s0 := ":" + ("0" + [three] + "d}");
    assert "{x:0" + [three] + "d}" == "{" + ("x" + s0);
    ScanOpenBrace("x" + s0, "", UnicodeWidth);
    ScanName("x", s0, UnicodeWidth);
    var s1 := s0[1..];
    ScanSilent(s0, NameAfter, "x", UnicodeWidth, SpecifierZeroFill, "x:");
    var s2 := s1[1..];
    ScanSilent(s1, SpecifierZeroFill, "x:", UnicodeWidth, SpecifierFieldWidth, "x:0");
    var s3 := s2[1..];
    ScanSilent(s2, SpecifierFieldWidth, "x:0", UnicodeWidth, SpecifierDecimal, "x:0" + [three]);
    var s4 := s3[1..];
    var v := "x:0" + [three] + "d";
    ScanSilent(s3, SpecifierDecimal, "x:0" + [three], UnicodeWidth, NameComplete, v);
    ScanStep(s4, NameComplete, v, UnicodeWidth);
    assert s4[1..] == "";
  }

  /** As written, the field-width state accepts any Unicode digit, which
      NewExpansionNode cannot read: a template such as `{x:0٣d}` (`٣` is
      the Arabic-Indic three, U+0663) makes the parser panic. */
  lemma {:induction false} WidthDigitPanicsAsWritten(three: char)
    requires IsUnicodeDigit(three) && !Strconv.IsDigit(three)
    ensures ParseAsWritten("{x:0" + [three] + "d}") == Panic(WIDTH_PANIC)
  {
    TokenizeUnicodeWidth(three);
    var v := "x:0" + [three] + "d";
    var b := "0" + [three] + "d";
    assert ':' !in "x" && ':' !in b;
    assert v == "x" + [':'] + b;
    SplitAt("x", ':', b);
    SplitAt(b, ':', "");
    assert Split(v, ":") == ["x", b];
    assert b[1] == three;
    Strconv.AtoiSingle(three);
    assert NewExpansionNode(v) == Failure(WIDTH_PANIC);
    var ts := TokenizeAsWritten("{x:0" + [three] + "d}");
    assert ts[0] == StringToken("") && ts[1..] == [VarToken(v)];
    assert ParseTokens([VarToken(v)]) == Panic(WIDTH_PANIC);
    assert ParseTokens(ts) == After([StringLiteral("")], ParseTokens(ts[1..]));
  }

  /** Accepting only ASCII digits, the same templates are a tokenizer error. */
  lemma {:induction false} WidthDigitRejected(three: char)
    requires !Strconv.IsDigit(three)
    ensures Parse("{x:0" + [three] + "d}") == Parsed([StringLiteral("")], Some(ONLY_DIGIT_WIDTH))
  {
    var s0 := ":" + ("0" + [three] + "d}");
    assert "{x:0" + [three] + "d}" == "{" + ("x" + s0);
    ScanOpenBrace("x" + s0, "", AsciiWidth);
    ScanName("x", s0, AsciiWidth);
    ScanSilent(s0, NameAfter, "x", AsciiWidth, SpecifierZeroFill, "x:");
    var s1 := s0[1..];
    ScanSilent(s1, SpecifierZeroFill, "x:", AsciiWidth, SpecifierFieldWidth, "x:0");
    var s2 := s1[1..];
    assert s2[0] == three;
    ScanStep(s2, SpecifierFieldWidth, "x:0", AsciiWidth);
    var ts := Tokenize("{x:0" + [three] + "d}");
    assert ts == [StringToken(""), ErrorToken(ONLY_DIGIT_WIDTH)];
    ParseCons(StringToken(""), [ErrorToken(ONLY_DIGIT_WIDTH)]);
    assert [StringLiteral("")] + [] == [StringLiteral("")];
  }
}
