/** Expanding a parsed template: each node renders to text, expansions by
    looking their parameter up in the context, and the texts are joined in
    order until the first node that fails. */
module Rendering {
  import opened Wrappers
  import opened Strconv
  import opened Parser
  import Resolver

  /** The text built so far and the error that stopped the expansion, if any. */
  datatype Rendering = Rendering(text: string, err: Option<string>)

  function CouldNotExpand(name: string): string
  {
    "could not expand " + name
  }

  function NotAnInteger(value: string): string
  {
    "could not read " + value + " as integer"
  }

  /** The Expand of one node, with parameters looked up by `lookup`: a
      literal is its own text; an expansion is the parameter's value, the
      lookup's own error being replaced by "could not expand"; a zero-fill
      expansion also reads the value as an integer and writes it padded with
      zeros to the field width. */
  function ExpandNode(n: Node, lookup: string -> Result<string>): Result<string>
  {
    match n
    case StringLiteral(v) => Success(v)
    case Expansion(name) =>
      (match lookup(name)
       case Failure(_) => Failure(CouldNotExpand(name))
       case Success(v) => Success(v))
    case ZeroFillExpansion(name, width) =>
      match lookup(name)
      case Failure(_) => Failure(CouldNotExpand(name))
      case Success(v) =>
        match Atoi(v)
        case Failure(_) => Failure(NotAnInteger(v))
        case Success(i) => Success(ZeroPad(i, width))
  }

  /** Template.Expand: the nodes' texts joined in order; the first node that
      fails stops the expansion with its error, keeping the text before it. */
  function Render(t: Template, lookup: string -> Result<string>): Rendering
    decreases |t|
  {
    if |t| == 0 then Rendering("", None)
    else
      var p := Render(t[..|t| - 1], lookup);
      if p.err.Some? then p
      else
        match ExpandNode(t[|t| - 1], lookup)
        case Failure(e) => Rendering(p.text, Some(e))
        case Success(s) => Rendering(p.text + s, None)
  }

  // ---------------------------------------------------------------------
  // Nodes

  /** A plain expansion fails exactly when the lookup does, naming the
      parameter and not the lookup's reason. */
  lemma {:induction false} ExpansionNode(name: string, lookup: string -> Result<string>)
    ensures ExpandNode(Expansion(name), lookup).Failure? <==> lookup(name).Failure?
    ensures ExpandNode(Expansion(name), lookup).Failure? ==>
              ExpandNode(Expansion(name), lookup).error == CouldNotExpand(name)
    ensures lookup(name).Success? ==> ExpandNode(Expansion(name), lookup) == lookup(name)
  {
  }

  /** A zero-filled value is at least as wide as the field, never truncated,
      and reads back as the same integer; a value that is not an integer is
      an error naming the value. */
  lemma {:induction false} ZeroFillNode(name: string, width: nat, lookup: string -> Result<string>)
    requires lookup(name).Success?
    ensures var v := lookup(name).value;
            var r := ExpandNode(ZeroFillExpansion(name, width), lookup);
            && (r.Success? <==> Atoi(v).Success?)
            && (r.Failure? ==> r.error == NotAnInteger(v))
            && (r.Success? ==> |r.value| == Max(width, |Itoa(Atoi(v).value)|)
                               && Atoi(r.value) == Atoi(v))
  {
    var v := lookup(name).value;
    if Atoi(v).Success? {
      ZeroPadLength(Atoi(v).value, width);
      AtoiZeroPad(Atoi(v).value, width);
    }
  }

  /** A node's text depends only on the value of its own parameter. */
  lemma {:induction false} ExpandNodeLocal(n: Node, f: string -> Result<string>, g: string -> Result<string>)
    requires !n.StringLiteral? ==> f(n.name) == g(n.name)
    ensures ExpandNode(n, f) == ExpandNode(n, g)
  {
  }

  // ---------------------------------------------------------------------
  // Whole templates

  /** Once a prefix fails, the rest of the template is not expanded. */
  lemma {:induction false} RenderSticks(t: Template, k: nat, lookup: string -> Result<string>)
    requires k <= |t| && Render(t[..k], lookup).err.Some?
    ensures Render(t, lookup) == Render(t[..k], lookup)
    decreases |t| - k
  {
    if k < |t| {
      assert t[..k + 1][..k] == t[..k];
      RenderSticks(t, k + 1, lookup);
    } else {
      assert t[..k] == t;
    }
  }

  /** Expanding a concatenation: the second part's text follows the first's,
      unless the first part already failed. */
  lemma {:induction false} RenderAppend(a: Template, b: Template, lookup: string -> Result<string>)
    ensures Render(a, lookup).err.Some? ==> Render(a + b, lookup) == Render(a, lookup)
    ensures Render(a, lookup).err.None? ==>
              Render(a + b, lookup) == Rendering(Render(a, lookup).text + Render(b, lookup).text, Render(b, lookup).err)
    decreases |b|
  {
    if |b| == 0 {
      assert a + b == a;
    } else {
      var b' := b[..|b| - 1];
      assert (a + b)[..|a + b| - 1] == a + b';
      assert (a + b)[|a + b| - 1] == b[|b| - 1];
      RenderAppend(a, b', lookup);
      if Render(a, lookup).err.None? && Render(b', lookup).err.None? {
        var x, y := Render(a, lookup).text, Render(b', lookup).text;
        match ExpandNode(b[|b| - 1], lookup)
        case Failure(_) =>
        case Success(s) => assert x + y + s == x + (y + s);
      }
    }
  }

  /** The expansion succeeds exactly when every node does. */
  lemma {:induction false} RenderSucceeds(t: Template, lookup: string -> Result<string>)
    ensures Render(t, lookup).err.None? <==> forall k :: 0 <= k < |t| ==> ExpandNode(t[k], lookup).Success?
    decreases |t|
  {
    if |t| > 0 {
      var init := t[..|t| - 1];
      RenderSucceeds(init, lookup);
      assert forall k :: 0 <= k < |init| ==> init[k] == t[k];
    }
  }

  /** The first failing node decides the error, and the text is that of the
      nodes before it. */
  lemma {:induction false} RenderFirstError(t: Template, k: nat, lookup: string -> Result<string>)
    requires k < |t| && ExpandNode(t[k], lookup).Failure?
    requires forall j :: 0 <= j < k ==> ExpandNode(t[j], lookup).Success?
    ensures Render(t[..k], lookup).err.None?
    ensures Render(t, lookup) == Rendering(Render(t[..k], lookup).text, Some(ExpandNode(t[k], lookup).error))
  {
    RenderSucceeds(t[..k], lookup);
    assert forall j :: 0 <= j < k ==> t[..k][j] == t[j];
    assert t[..k + 1][..k] == t[..k];
    RenderSticks(t, k + 1, lookup);
  }

  // ---------------------------------------------------------------------
  // Templates of the test suite

  /** `a{n}b` renders as `a`, the value of `n`, then `b`. */
  lemma {:induction false} RenderVariable(a: string, n: string, b: string, lookup: string -> Result<string>)
    requires Plain(a) && IsName(n) && Plain(b) && lookup(n).Success?
    ensures var p := Parse(a + "{" + n + "}" + b);
            p.Parsed? && Render(p.template, lookup) == Rendering(a + lookup(n).value + b, None)
  {
    ParseVariable(a, n, b);
    var v := lookup(n).value;
    var t := [StringLiteral(a), Expansion(n)];
    PairRenders(a, Expansion(n), lookup);
    RenderAppend(t, Tail(b), lookup);
    if b == "" {
      assert Render(Tail(b), lookup) == Rendering("", None);
      assert a + v + b == a + v;
    } else {
      assert Tail(b)[..0] == [];
      assert Render(Tail(b), lookup) == Rendering(b, None);
    }
  }

  /** `a{n}b{m}` renders as `a`, the value of `n`, `b`, then the value of `m`. */
  lemma {:induction false} RenderTwoVariables(a: string, n: string, b: string, m: string, lookup: string -> Result<string>)
    requires Plain(a) && IsName(n) && Plain(b) && IsName(m) && lookup(n).Success? && lookup(m).Success?
    ensures var p := Parse(a + "{" + n + "}" + b + "{" + m + "}");
            p.Parsed? && Render(p.template, lookup) == Rendering(a + lookup(n).value + b + lookup(m).value, None)
  {
    ParseTwoVariables(a, n, b, m);
    PairRenders(a, Expansion(n), lookup);
    PairRenders(b, Expansion(m), lookup);
    var p, q := [StringLiteral(a), Expansion(n)], [StringLiteral(b), Expansion(m)];
    assert [StringLiteral(a), Expansion(n), StringLiteral(b), Expansion(m)] == p + q;
    RenderAppend(p, q, lookup);
  }

  /** A literal followed by one expansion that succeeds. */
  lemma {:induction false} PairRenders(a: string, e: Node, lookup: string -> Result<string>)
    requires ExpandNode(e, lookup).Success?
    ensures Render([StringLiteral(a), e], lookup) == Rendering(a + ExpandNode(e, lookup).value, None)
  {
    var t := [StringLiteral(a), e];
    var one := [StringLiteral(a)];
    assert t[..1] == one && one[..0] == [];
    assert Render([], lookup) == Rendering("", None);
    assert "" + a == a;
    assert Render(one, lookup) == Rendering(a, None);
  }

  /** `a{n:0<d>d}b` renders `n`'s value zero-filled to width `d`. */
  lemma {:induction false} RenderSpecified(a: string, n: string, d: char, b: string, lookup: string -> Result<string>)
    requires Plain(a) && IsName(n) && IsDigit(d) && Plain(b)
    requires lookup(n).Success? && Atoi(lookup(n).value).Success?
    ensures var p := Parse(a + "{" + n + ":0" + [d] + "d}" + b);
            p.Parsed? && Render(p.template, lookup) == Rendering(a + ZeroPad(Atoi(lookup(n).value).value, DigitValue(d)) + b, None)
  {
    ParseSpecified(a, n, d, b);
    var z := ZeroFillExpansion(n, DigitValue(d));
    PairRenders(a, z, lookup);
    var t := [StringLiteral(a), z];
    RenderAppend(t, Tail(b), lookup);
    var x := a + ZeroPad(Atoi(lookup(n).value).value, DigitValue(d));
    if b == "" {
      assert Render(Tail(b), lookup) == Rendering("", None);
      assert x + b == x;
    } else {
      assert Tail(b)[..0] == [];
      assert Render(Tail(b), lookup) == Rendering(b, None);
    }
  }

  /** `a{n:0<d>d}b{m:0<e>d}` renders both values zero-filled. */
  lemma {:induction false} RenderTwoSpecified(a: string, n: string, d: char, b: string, m: string, e: char,
                                              lookup: string -> Result<string>)
    requires Plain(a) && IsName(n) && IsDigit(d) && Plain(b) && IsName(m) && IsDigit(e)
    requires lookup(n).Success? && Atoi(lookup(n).value).Success?
    requires lookup(m).Success? && Atoi(lookup(m).value).Success?
    ensures var p := Parse(a + "{" + n + ":0" + [d] + "d}" + b + "{" + m + ":0" + [e] + "d}");
            p.Parsed? && Render(p.template, lookup)
            == Rendering(a + ZeroPad(Atoi(lookup(n).value).value, DigitValue(d))
                         + b + ZeroPad(Atoi(lookup(m).value).value, DigitValue(e)), None)
  {
    ParseTwoSpecified(a, n, d, b, m, e);
    var zn, zm := ZeroFillExpansion(n, DigitValue(d)), ZeroFillExpansion(m, DigitValue(e));
    PairRenders(a, zn, lookup);
    PairRenders(b, zm, lookup);
    var p, q := [StringLiteral(a), zn], [StringLiteral(b), zm];
    assert [StringLiteral(a), zn, StringLiteral(b), zm] == p + q;
    RenderAppend(p, q, lookup);
  }

  /** `{x}{x}` renders the value twice, for any name in place of `x`. */
  lemma {:induction false} RepeatedExample(x: string, lookup: string -> Result<string>)
    requires IsName(x) && lookup(x).Success?
    ensures var p := Parse("{" + x + "}{" + x + "}");
            p.Parsed? && Render(p.template, lookup) == Rendering(lookup(x).value + lookup(x).value, None)
  {
    assert "{" + x + "}{" + x + "}" == "" + "{" + x + "}" + "" + "{" + x + "}";
    RenderTwoVariables("", x, "", x, lookup);
  }

  /** `{x:02d}` renders `1` as `01`, for any name in place of `x`. */
  lemma {:induction false} ZeroFillExample(x: string, lookup: string -> Result<string>)
    requires IsName(x) && lookup(x) == Success("1")
    ensures var p := Parse("{" + x + ":02d}");
            p.Parsed? && Render(p.template, lookup) == Rendering("01", None)
  {
    assert "{" + x + ":02d}" == "" + "{" + x + ":0" + ['2'] + "d}" + "";
    AtoiSingle('1');
    assert "1" == ['1'];
    RenderSpecified("", x, '2', "", lookup);
    ZeroFillExamples();
  }

  /** `{x:02d}.{y:02d}` renders `1` and `2` as `01.02`, for any names in
      place of `x` and `y`. */
  lemma {:induction false} TwoZeroFillExample(x: string, y: string, lookup: string -> Result<string>)
    requires IsName(x) && IsName(y) && lookup(x) == Success("1") && lookup(y) == Success("2")
    ensures var p := Parse("{" + x + ":02d}.{" + y + ":02d}");
            p.Parsed? && Render(p.template, lookup) == Rendering("01.02", None)
  {
    assert "{" + x + ":02d}.{" + y + ":02d}" == "" + "{" + x + ":0" + ['2'] + "d}" + "." + "{" + y + ":0" + ['2'] + "d}";
    AtoiSingle('1');
    AtoiSingle('2');
    assert "1" == ['1'] && "2" == ['2'];
    RenderTwoSpecified("", x, '2', ".", y, '2', lookup);
    ZeroFillExamples();
  }

  /** The zero-fill cases of the test suite: `1` in fields of width 0, 1 and 2. */
  lemma {:induction false} ZeroFillExamples()
    ensures ZeroPad(1, 0) == "1" && ZeroPad(1, 1) == "1" && ZeroPad(1, 2) == "01" && ZeroPad(2, 2) == "02"
  {
    assert Digits(1) == "1" && Digits(2) == "2";
  }

  // ---------------------------------------------------------------------
  // Expanding in a context

  /** One more node: the expansion of `t[..i + 1]` from that of `t[..i]`. */
  lemma {:induction false} RenderSnoc(t: Template, i: nat, lookup: string -> Result<string>)
    requires i < |t|
    ensures var p := Render(t[..i], lookup);
            Render(t[..i + 1], lookup)
            == if p.err.Some? then p
               else match ExpandNode(t[i], lookup)
                    case Failure(e) => Rendering(p.text, Some(e))
                    case Success(s) => Rendering(p.text + s, None)
  {
    assert t[..i + 1][..i] == t[..i];
  }

  /** A node's Expand, looking its parameter up in the context; `lookup`
      stands for the context's answers, which the lookup does not change. */
  method ExpandNodeIn(n: Node, ctx: Resolver.Context, ghost lookup: string -> Result<string>)
    returns (r: Result<string>)
    requires ctx.Valid() && forall name :: ctx.Resolve(name) == lookup(name)
    modifies ctx
    ensures ctx.Valid() && forall name :: ctx.Resolve(name) == lookup(name)
    ensures r == ExpandNode(n, lookup)
    ensures ctx.rcsCalls <= old(ctx.rcsCalls) + 1
  {
    match n
    case StringLiteral(v) =>
      return Success(v);
    case Expansion(name) =>
      var value := ctx.LookupParameter(name);
      if value.Failure? {
        return Failure(CouldNotExpand(name));
      }
      return Success(value.value);
    case ZeroFillExpansion(name, width) =>
      var value := ctx.LookupParameter(name);
      if value.Failure? {
        return Failure(CouldNotExpand(name));
      }
      var i := Atoi(value.value);
      if i.Failure? {
        return Failure(NotAnInteger(value.value));
      }
      return Success(ZeroPad(i.value, width));
  }

  /** Template.Expand in a context: the rendering the context's lookups give
      as they stand when the expansion starts; the lookups it makes on the
      way change no answer, and the RCS is asked at most one question per
      node. */
  method Expand(t: Template, ctx: Resolver.Context) returns (text: string, err: Option<string>)
    requires ctx.Valid()
    modifies ctx
    ensures ctx.Valid()
    ensures Rendering(text, err) == Render(t, old(ctx.Resolution()))
    ensures forall name :: ctx.Resolve(name) == old(ctx.Resolve(name))
    ensures ctx.rcsCalls <= old(ctx.rcsCalls) + |t|
  {
    ghost var lookup := ctx.Resolution();
    text := "";
    for i := 0 to |t|
      invariant ctx.Valid() && forall name :: ctx.Resolve(name) == lookup(name)
      invariant ctx.rcsCalls <= old(ctx.rcsCalls) + i
      invariant Render(t[..i], lookup) == Rendering(text, None)
    {
      var r := ExpandNodeIn(t[i], ctx, lookup);
      RenderSnoc(t, i, lookup);
      if r.Failure? {
        RenderSticks(t, i + 1, lookup);
        return text, Some(r.error);
      }
      text := text + r.value;
    }
    assert t[..|t|] == t;
    err := None;
  }
}
