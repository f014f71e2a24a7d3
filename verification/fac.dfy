/** The `fac!` procedural macro: it parses two to four comma-separated
    expressions (residual, keys, optional noise, optional robust kernel) and
    expands to a `FactorBuilder::new{k}(...)` call chain ending in `.build()`. */
module FacMacro {
  import opened Util
  import opened Syntax

  /** A successfully parsed `fac!` invocation. */
  datatype Factor = Factor(residual: Expr, keys: seq<Expr>, noise: Option<Expr>, robust: Option<Expr>)

  /** Why parsing stopped: a spanned `syn::Error` carrying its message, or a
      panic inside the macro itself. */
  datatype ParseError = SynError(msg: string) | Panicked(cause: Panic)

  const AtLeastTwo := "Expected at least two items"
  const AtMostFour := "Expected at most four items"
  const KeysInBrackets := "Expected keys in brackets or parentheses"
  const UnknownCast := "Unknown cast for noise"
  const SplitNeedsPair := "Expected tuple with two elements for split std/cov"

  const NoiseModule: seq<string> := ["factrs", "noise"]
  const BuilderPath: seq<string> := ["factrs", "containers", "FactorBuilder"]

  /** The constructor family a noise cast selects: `cov`, or one of the
      sigma spellings. */
  datatype NoiseFamily = Cov | Sigma

  function FamilyName(f: NoiseFamily): string
  {
    match f
    case Cov => "cov"
    case Sigma => "sigma"
  }

  /** Decodes the type of a noise cast by its token text. */
  function CastFamily(ty: string): (r: Option<NoiseFamily>)
    ensures r == Some(Cov) <==> ty == "cov"
    ensures r == Some(Sigma) <==> ty == "std" || ty == "sigma" || ty == "sig"
    ensures r.None? <==> ty != "cov" && ty != "std" && ty != "sigma" && ty != "sig"
  {
    if ty == "cov" then Some(Cov)
    else if ty == "std" || ty == "sigma" || ty == "sig" then Some(Sigma)
    else None
  }

  /** `factrs::noise::GaussianNoise::{ctor}_{family}(args)`. */
  function GaussianCall(ctor: string, family: NoiseFamily, args: seq<Expr>): Expr
  {
    Call(Path(NoiseModule + ["GaussianNoise", ctor + "_" + FamilyName(family)]), args)
  }

  /** `factrs::noise::UnitNoise`. */
  const UnitNoise: Expr := Path(NoiseModule + ["UnitNoise"])

  /** The key list the second argument stands for, or `None` for a shape
      that carries no keys. */
  function KeysOf(e: Expr): (r: Option<seq<Expr>>)
    ensures r.Some? <==> e.Array? || e.Tuple? || e.Path? || e.Call?
    ensures e.Array? || e.Tuple? ==> r == Some(e.elems)
    ensures e.Path? || e.Call? ==> r == Some([e])
  {
    match e
    case Array(elems) => Some(elems)
    case Tuple(elems) => Some(elems)
    case Path(_) => Some([e])
    case Call(_, _) => Some([e])
    case _ => None
  }

  /** The noise expression the third argument expands to, or the message of
      the error it raises. */
  function NoiseOf(e: Expr): (r: Result<Expr, string>)
    ensures e.Infer? ==> r == Ok(UnitNoise)
    ensures !e.Cast? && !e.Infer? ==> r == Ok(e)
    ensures e.Cast? && CastFamily(e.ty).None? ==> r == Err(UnknownCast)
    ensures e.Cast? && CastFamily(e.ty).Some? ==>
      var family := CastFamily(e.ty).value;
      if e.expr.Tuple? then
        if |e.expr.elems| == 2 then r == Ok(GaussianCall("from_split", family, e.expr.elems))
        else r == Err(SplitNeedsPair)
      else r == Ok(GaussianCall("from_scalar", family, [e.expr]))
  {
    match e
    case Cast(inner, ty) =>
      (match CastFamily(ty)
       case None => Err(UnknownCast)
       case Some(family) =>
         match inner
         case Tuple(elems) =>
           if |elems| != 2 then Err(SplitNeedsPair)
           else
             assert elems == [elems[0], elems[1]];
             Ok(GaussianCall("from_split", family, [elems[0], elems[1]]))
         case _ => Ok(GaussianCall("from_scalar", family, [inner])))
    case Infer => Ok(UnitNoise)
    case _ => Ok(e)
  }

  /** `Factor::parse` over the already-split argument list. */
  function Parse(input: seq<Expr>): (r: Result<Factor, ParseError>)
    ensures |input| == 0 ==> r == Err(Panicked(IndexOutOfBounds))
    ensures |input| == 1 ==> r == Err(SynError(AtLeastTwo))
    ensures |input| > 4 ==> r == Err(SynError(AtMostFour))
    ensures 2 <= |input| <= 4 ==>
      (r.Ok? <==> KeysOf(input[1]).Some? && (|input| >= 3 ==> NoiseOf(input[2]).Ok?))
    ensures 2 <= |input| <= 4 && KeysOf(input[1]).None? ==> r == Err(SynError(KeysInBrackets))
    ensures 3 <= |input| <= 4 && KeysOf(input[1]).Some? && NoiseOf(input[2]).Err? ==>
      r == Err(SynError(NoiseOf(input[2]).error))
    ensures r.Ok? ==>
      && 2 <= |input| <= 4
      && r.value.residual == input[0]
      && KeysOf(input[1]) == Some(r.value.keys)
      && (r.value.noise.Some? <==> |input| >= 3)
      && (|input| >= 3 ==> NoiseOf(input[2]) == Ok(r.value.noise.value))
      && r.value.robust == (if |input| == 4 then Some(input[3]) else None)
  {
    if |input| < 2 then
      // the error is spanned on `input[0]`, which is out of bounds when empty
      if |input| == 0 then Err(Panicked(IndexOutOfBounds)) else Err(SynError(AtLeastTwo))
    else if |input| > 4 then Err(SynError(AtMostFour))
    else
      match KeysOf(input[1])
      case None => Err(SynError(KeysInBrackets))
      case Some(keys) =>
        var noise: Result<Option<Expr>, string> :=
          if |input| >= 3 then
            (match NoiseOf(input[2])
             case Ok(n) => Ok(Some(n))
             case Err(msg) => Err(msg))
          else Ok(None);
        var robust := if |input| == 4 then Some(input[3]) else None;
        match noise
        case Err(msg) => Err(SynError(msg))
        case Ok(n) => Ok(Factor(input[0], keys, n, robust))
  }

  /** The argument list that writes a factor back as a `fac!` invocation:
      keys in brackets, and noise and kernel only when present. */
  function Unparse(f: Factor): (r: seq<Expr>)
  {
    [f.residual, Array(f.keys)]
      + (if f.noise.Some? then [f.noise.value] else [])
      + (if f.robust.Some? then [f.robust.value] else [])
  }

  /** A factor whose noise is already an expression (not `_` or a cast), and
      which has a kernel only when it has noise, parses back from its own
      invocation: `Parse` loses nothing on any such argument list. */
  lemma ParseUnparse(f: Factor)
    requires f.noise.Some? ==> !f.noise.value.Cast? && !f.noise.value.Infer?
    requires f.robust.Some? ==> f.noise.Some?
    ensures Parse(Unparse(f)) == Ok(f)
  {
  }

  /** A method call appended to the builder: `.name(args)`. */
  datatype MethodCall = MethodCall(name: string, args: seq<Expr>)

  /** The expansion `path::ctor(args) chain...`. */
  datatype Emitted = Emitted(path: seq<string>, ctor: string, args: seq<Expr>, chain: seq<MethodCall>)

  function NoiseCall(f: Factor): (r: seq<MethodCall>)
    ensures |r| <= 1 && (|r| == 1 <==> f.noise.Some?)
    ensures f.noise.Some? ==> r[0] == MethodCall("noise", [f.noise.value])
  {
    match f.noise
    case Some(n) => [MethodCall("noise", [n])]
    case None => []
  }

  function RobustCall(f: Factor): (r: seq<MethodCall>)
    ensures |r| <= 1 && (|r| == 1 <==> f.robust.Some?)
    ensures f.robust.Some? ==> r[0] == MethodCall("robust", [f.robust.value])
  {
    match f.robust
    case Some(k) => [MethodCall("robust", [k])]
    case None => []
  }

  /** The constructor name `new{k}` for `k` keys. */
  function NewName(k: nat): (name: string)
    ensures |name| > 3 && name[..3] == "new" && AllDigits(name[3..])
    ensures DecimalValue(name[3..]) == k
    ensures |name| == 4 || name[3] != '0'
  {
    var name := "new" + NatToDecimal(k);
    assert name[3..] == NatToDecimal(k);
    DecimalRoundTrip(k);
    name
  }

  /** `fac`: the builder chain for a parsed factor. The source binds the
      robust call to a local named `noise` and vice versa, so the robust call
      comes first. */
  function Fac(f: Factor): (r: Emitted)
    ensures r.path == BuilderPath
    ensures |r.ctor| > 3 && r.ctor[..3] == "new" && AllDigits(r.ctor[3..])
    ensures DecimalValue(r.ctor[3..]) == |f.keys|
    ensures |r.ctor| == 4 || r.ctor[3] != '0'
    ensures r.args == [f.residual] + f.keys
    ensures |r.chain| == 1 + (if f.robust.Some? then 1 else 0) + (if f.noise.Some? then 1 else 0)
    ensures r.chain[|r.chain| - 1] == MethodCall("build", [])
    ensures f.robust.Some? ==> r.chain[0] == MethodCall("robust", [f.robust.value])
    ensures f.noise.Some? ==> r.chain[|r.chain| - 2] == MethodCall("noise", [f.noise.value])
  {
    var call := NewName(|f.keys|);
    var noise := RobustCall(f);
    var robust := NoiseCall(f);
    Emitted(BuilderPath, call, [f.residual] + f.keys, noise + robust + [MethodCall("build", [])])
  }

  /** Reads a builder chain back into the factor it was emitted from. */
  function Unfac(e: Emitted): (r: Option<Factor>)
  {
    if e.path != BuilderPath || |e.args| == 0 || e.ctor != NewName(|e.args| - 1) then None
    else if |e.chain| == 0 || e.chain[|e.chain| - 1] != MethodCall("build", []) then None
    else
      var calls := e.chain[..|e.chain| - 1];
      var robust := if |calls| > 0 && calls[0].name == "robust" && |calls[0].args| == 1
                    then Some(calls[0].args[0]) else None;
      var rest := if robust.Some? then calls[1..] else calls;
      if |rest| == 0 then Some(Factor(e.args[0], e.args[1..], None, robust))
      else if |rest| == 1 && rest[0].name == "noise" && |rest[0].args| == 1 then
        Some(Factor(e.args[0], e.args[1..], Some(rest[0].args[0]), robust))
      else None
  }

  /** The expansion loses nothing: residual, keys, noise and robust kernel
      can all be read back from it. */
  lemma FacRoundTrip(f: Factor)
    ensures Unfac(Fac(f)) == Some(f)
  {
    var e := Fac(f);
    assert e.args[1..] == f.keys;
  }

  /** The constructor arity names exactly the number of keys. */
  lemma FacArity(f: Factor, g: Factor)
    requires Fac(f).ctor == Fac(g).ctor
    ensures |f.keys| == |g.keys|
  {
  }

  /** The shortest call `fac!(res, key)` for a unary factor. */
  lemma UnaryFactor(res: Expr, key: Expr)
    requires key.Path? || key.Call?
    ensures Parse([res, key]) == Ok(Factor(res, [key], None, None))
    ensures Fac(Parse([res, key]).value) == Emitted(BuilderPath, "new1", [res, key], [MethodCall("build", [])])
  {
    assert NatToDecimal(1) == "1";
  }

  /** A full invocation `fac!(res, [k..], (a, b) as std, kernel)`. */
  lemma FullFactor(res: Expr, keys: seq<Expr>, a: Expr, b: Expr, kernel: Expr)
    ensures Parse([res, Array(keys), Cast(Tuple([a, b]), "std"), kernel]).Ok?
    ensures
      var f := Parse([res, Array(keys), Cast(Tuple([a, b]), "std"), kernel]).value;
      Fac(f).chain == [
        MethodCall("robust", [kernel]),
        MethodCall("noise", [Call(Path(["factrs", "noise", "GaussianNoise", "from_split_sigma"]), [a, b])]),
        MethodCall("build", [])]
  {
    assert "from_split" + "_" + "sigma" == "from_split_sigma";
    assert NoiseModule + ["GaussianNoise", "from_split_sigma"]
      == ["factrs", "noise", "GaussianNoise", "from_split_sigma"];
    assert CastFamily("std") == Some(Sigma);
  }
}
