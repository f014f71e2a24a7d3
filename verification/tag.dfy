/** The `#[tag]` attribute of factrs-proc: it classifies an `impl` block by
    the name of the trait it implements and hands the block to the tagging
    routine of that kind. */
module ProcTag {
  import opened Util
  import opened Syntax

  /** The four kinds of boxed trait objects that can be tagged. */
  datatype BoxedType = Residual | Variable | Noise | Robust

  const MissingTrait := "Missing trait"
  const NotValidTrait := "Not a valid trait"

  /** The identifier of the last segment of the implemented trait's path. */
  function TraitName(item: ItemImpl): (r: Option<string>)
    ensures r.Some? <==> item.traitPath.Some? && |item.traitPath.value| > 0
    ensures r.Some? ==> r.value == item.traitPath.value[|item.traitPath.value| - 1]
  {
    match item.traitPath
    case None => None
    case Some(segments) => if |segments| == 0 then None else Some(segments[|segments| - 1])
  }

  /** Classification of a trait name by substring, first match wins. */
  function Classify(name: string): (r: Option<BoxedType>)
    ensures r == Some(Residual) <==> Contains(name, "Residual")
    ensures r == Some(Variable) <==> !Contains(name, "Residual") && Contains(name, "Variable")
    ensures r == Some(Noise) <==>
      !Contains(name, "Residual") && !Contains(name, "Variable") && Contains(name, "Noise")
    ensures r == Some(Robust) <==>
      !Contains(name, "Residual") && !Contains(name, "Variable") && !Contains(name, "Noise")
      && Contains(name, "Robust")
    ensures r.None? <==>
      !Contains(name, "Residual") && !Contains(name, "Variable") && !Contains(name, "Noise")
      && !Contains(name, "Robust")
  {
    if Contains(name, "Residual") then Some(Residual)
    else if Contains(name, "Variable") then Some(Variable)
    else if Contains(name, "Noise") then Some(Noise)
    else if Contains(name, "Robust") then Some(Robust)
    else None
  }

  /** `check_type`: the kind of an `impl` block, or the error message. */
  function CheckType(item: ItemImpl): (r: Result<BoxedType, string>)
    ensures TraitName(item).None? ==> r == Err(MissingTrait)
    ensures TraitName(item).Some? ==>
      match Classify(TraitName(item).value)
      case Some(kind) => r == Ok(kind)
      case None => r == Err(NotValidTrait)
  {
    match TraitName(item)
    case None => Err(MissingTrait)
    case Some(name) =>
      match Classify(name)
      case Some(kind) => Ok(kind)
      case None => Err(NotValidTrait)
  }

  /** What `tag` expands to: the compile error of a failed classification,
      or the unchanged item handed to the `tag` function of one module. */
  datatype TagOutput = CompileError(msg: string) | Dispatched(target: BoxedType, item: ItemImpl)

  function Tag(item: ItemImpl): (r: TagOutput)
    ensures r.CompileError? <==> CheckType(item).Err?
    ensures r.CompileError? ==> CheckType(item) == Err(r.msg)
    ensures r.CompileError? ==> r.msg == MissingTrait || r.msg == NotValidTrait
    ensures r.Dispatched? ==> r.item == item && CheckType(item) == Ok(r.target)
  {
    match CheckType(item)
    case Err(msg) => CompileError(msg)
    case Ok(kind) => Dispatched(kind, item)
  }

  /** Only the last path segment matters: `factrs::residuals::Residual2`
      classifies like `Residual2`, whatever the self type and generics. */
  lemma OnlyLastSegmentMatters(a: ItemImpl, b: ItemImpl)
    requires a.traitPath.Some? && b.traitPath.Some?
    requires |a.traitPath.value| > 0 && |b.traitPath.value| > 0
    requires a.traitPath.value[|a.traitPath.value| - 1] == b.traitPath.value[|b.traitPath.value| - 1]
    ensures CheckType(a) == CheckType(b)
    ensures Tag(a).CompileError? <==> Tag(b).CompileError?
  {
  }

  /** A name that mentions both `Residual` and `Noise` is a residual. */
  lemma ResidualBeatsNoise(name: string)
    requires Contains(name, "Residual") && Contains(name, "Noise")
    ensures Classify(name) == Some(Residual)
  {
  }

  /** A pattern with a character that never appears in `s` does not occur in it. */
  lemma AbsentChar(s: string, pat: string, k: nat)
    requires k < |pat| && pat[k] !in s
    ensures !Contains(s, pat)
  {
  }

  /** `RobustCost` is a robust kernel. */
  lemma ClassifyRobust()
    ensures Classify("RobustCost") == Some(Robust)
  {
    AbsentChar("RobustCost", "Residual", 7);
    AbsentChar("RobustCost", "Variable", 0);
    AbsentChar("RobustCost", "Noise", 0);
    assert MatchesAt("RobustCost", "Robust", 0);
  }

  /** A trait outside the four kinds, such as `Clone`, is refused. */
  lemma ClassifyClone()
    ensures Classify("Clone") == None
  {
    AbsentChar("Clone", "Residual", 0);
    AbsentChar("Clone", "Variable", 0);
    AbsentChar("Clone", "Noise", 0);
    AbsentChar("Clone", "Robust", 0);
  }
}
