/** The `mark` attribute for variables (factrs-proc/src/variable.rs): with
    serialisation enabled it registers the variable and its prior and between
    residuals under their type names. Only the names and the shape of the
    expansion are modelled, not the registry itself. */
module VariableMark {
  import opened Util
  import opened Syntax

  const DtypeGeneric := "variable should have dtype generic"

  /** The type with every invisible `Group` wrapper removed. */
  function StripGroups(ty: Type): (r: Type)
    ensures !r.Group?
  {
    match ty
    case Group(inner) => StripGroups(inner)
    case _ => ty
  }

  /** `ty` wrapped in `k` invisible groups. */
  function Grouped(k: nat, ty: Type): Type
  {
    if k == 0 then ty else Group(Grouped(k - 1, ty))
  }

  /** What `type_name` yields once the type is no longer a group: the last
      segment of an unqualified path, nothing for a qualified path or any
      other type, and a panic on the `unwrap` of an empty path. */
  function NameOfBare(ty: Type): Result<Option<string>, Panic>
  {
    match ty
    case TypePath(qself, segments) =>
      if qself then Ok(None)
      else if |segments| == 0 then Err(UnwrapOnNone)
      else Ok(Some(segments[|segments| - 1]))
    case _ => Ok(None)
  }

  /** `type_name`: the loop that unwraps groups until it meets a path or
      another type. */
  function TypeName(ty: Type): (r: Result<Option<string>, Panic>)
    ensures r == NameOfBare(StripGroups(ty))
    ensures r.Ok? && r.value.Some? ==>
      StripGroups(ty).TypePath? && !StripGroups(ty).qself
      && r.value.value == StripGroups(ty).segments[|StripGroups(ty).segments| - 1]
  {
    match ty
    case TypePath(qself, segments) =>
      if qself then Ok(None)
      else if |segments| == 0 then Err(UnwrapOnNone)
      else Ok(Some(segments[|segments| - 1]))
    case Group(inner) => TypeName(inner)
    case OtherType(_) => Ok(None)
  }

  /** Any number of group wrappers is transparent to `type_name`. */
  lemma {:induction false} GroupsAreTransparent(k: nat, ty: Type)
    ensures TypeName(Grouped(k, ty)) == TypeName(ty)
  {
    if k > 0 {
      GroupsAreTransparent(k - 1, ty);
    }
  }

  /** Which registry a name is submitted to. */
  datatype Registry = VariableRegistry | ResidualRegistry

  /** The type a registered deserialiser produces: the variable itself, or a
      prior or between residual over it. */
  datatype Wrapper = Bare | Prior | Between

  /** One piece of the expansion. */
  datatype Token =
    | ItemTokens(item: ItemImpl)
    | Register(registry: Registry, name: string, wrapper: Wrapper, kind: string)
    | TaggedImpl(forType: string, tag: string)
    | CompileError(msg: string)

  function PriorName(name: string): string
  {
    "PriorResidual<" + name + ">"
  }

  function BetweenName(name: string): string
  {
    "BetweenResidual<" + name + ">"
  }

  /** `tag_all`: the three registrations for the variable type `kind` named `name`. */
  function TagAll(kind: string, name: string): (r: seq<Token>)
    ensures |r| == 3
    ensures forall i :: 0 <= i < 3 ==> r[i].Register? && r[i].kind == kind
    ensures r[0].registry == VariableRegistry && r[0].wrapper == Bare && r[0].name == name
    ensures r[1].registry == ResidualRegistry && r[1].wrapper == Prior && r[1].name == PriorName(name)
    ensures r[2].registry == ResidualRegistry && r[2].wrapper == Between && r[2].name == BetweenName(name)
    ensures forall i, j :: 0 <= i < j < 3 ==> r[i].name != r[j].name
  {
    [ Register(VariableRegistry, name, Bare, kind),
      Register(ResidualRegistry, PriorName(name), Prior, kind),
      Register(ResidualRegistry, BetweenName(name), Between, kind) ]
  }

  /** The names registered by an expansion, in order. */
  function RegisteredNames(tokens: seq<Token>): (r: seq<string>)
    ensures |r| <= |tokens|
  {
    if |tokens| == 0 then []
    else
      (if tokens[0].Register? then [tokens[0].name] else []) + RegisteredNames(tokens[1..])
  }

  /** Registration names of a concatenation are the concatenated names. */
  lemma {:induction false} RegisteredNamesAppend(a: seq<Token>, b: seq<Token>)
    ensures RegisteredNames(a + b) == RegisteredNames(a) + RegisteredNames(b)
    decreases |a|
  {
    if |a| > 0 {
      var head := if a[0].Register? then [a[0].name] else [];
      assert (a + b)[0] == a[0];
      assert (a + b)[1..] == a[1..] + b;
      calc {
        RegisteredNames(a + b);
        head + RegisteredNames(a[1..] + b);
        { RegisteredNamesAppend(a[1..], b); }
        head + (RegisteredNames(a[1..]) + RegisteredNames(b));
        (head + RegisteredNames(a[1..])) + RegisteredNames(b);
      }
    } else {
      assert a + b == b;
    }
  }

  /** `tag_all` registers exactly the variable, prior and between names. */
  lemma RegisteredNamesOfTagAll(kind: string, name: string)
    ensures RegisteredNames(TagAll(kind, name)) == [name, PriorName(name), BetweenName(name)]
  {
    var r := TagAll(kind, name);
    assert RegisteredNames(r[2..]) == [BetweenName(name)] by {
      assert r[2..][1..] == [];
    }
    assert r[1..][1..] == r[2..];
    assert RegisteredNames(r[1..]) == [PriorName(name)] + RegisteredNames(r[2..]);
  }

  /** `mark`: the expansion of `#[mark]` on an `impl Variable for T` block,
      with the `serde` feature as a flag. */
  function Mark(item: ItemImpl, serde: bool): (r: Result<seq<Token>, Panic>)
    ensures !serde ==> r == Ok([ItemTokens(item)])
    ensures serde && !(TypeName(item.selfTy).Ok? && TypeName(item.selfTy).value.Some?) ==> r == Err(UnwrapOnNone)
    ensures serde && TypeName(item.selfTy).Ok? && TypeName(item.selfTy).value.Some? ==>
      var name := TypeName(item.selfTy).value.value;
      && r.Ok?
      && (|item.generics| == 0 ==> r.value == [CompileError(DtypeGeneric)])
      && (|item.generics| == 1 ==>
            && |r.value| == 5
            && r.value[0] == ItemTokens(item)
            && r.value[1..4] == TagAll(name, name)
            && RegisteredNames(r.value) == [name, PriorName(name), BetweenName(name)]
            && r.value[|r.value| - 1] == TaggedImpl(name, name))
      && (|item.generics| >= 2 ==> r.value == [ItemTokens(item)])
  {
    if !serde then Ok([ItemTokens(item)])
    else
      match TypeName(item.selfTy)
      case Err(p) => Err(p)
      case Ok(None) => Err(UnwrapOnNone)
      case Ok(Some(name)) =>
        if |item.generics| == 0 then Ok([CompileError(DtypeGeneric)])
        else if |item.generics| == 1 then
          var expanded := [ItemTokens(item)] + TagAll(name, name) + [TaggedImpl(name, name)];
          assert RegisteredNames(expanded) == [name, PriorName(name), BetweenName(name)] by {
            RegisteredNamesAppend([ItemTokens(item)] + TagAll(name, name), [TaggedImpl(name, name)]);
            RegisteredNamesAppend([ItemTokens(item)], TagAll(name, name));
            RegisteredNamesOfTagAll(name, name);
          }
          Ok(expanded)
        else Ok([ItemTokens(item)])
  }

  /** A Rust identifier never contains angle brackets. */
  predicate IsIdent(s: string)
  {
    |s| > 0 && '<' !in s && '>' !in s
  }

  /** The three names registered for a variable named `name`. */
  function Registrations(name: string): seq<string>
  {
    [name, PriorName(name), BetweenName(name)]
  }

  /** An identifier is never one of the bracketed residual names. */
  lemma IdentIsNotBracketed(a: string, b: string)
    requires IsIdent(a)
    ensures a != PriorName(b) && a != BetweenName(b)
  {
  }

  /** The bracketed names determine the variable name and its wrapper. */
  lemma WrappedNamesInjective(a: string, b: string)
    ensures PriorName(a) == PriorName(b) ==> a == b
    ensures BetweenName(a) == BetweenName(b) ==> a == b
    ensures PriorName(a) != BetweenName(b) && BetweenName(a) != PriorName(b)
  {
    assert a == PriorName(a)[14..|PriorName(a)| - 1] && b == PriorName(b)[14..|PriorName(b)| - 1];
    assert a == BetweenName(a)[16..|BetweenName(a)| - 1] && b == BetweenName(b)[16..|BetweenName(b)| - 1];
    assert PriorName(a)[0] == 'P' && BetweenName(b)[0] == 'B';
    assert BetweenName(a)[0] == 'B' && PriorName(b)[0] == 'P';
  }

  /** Two differently named variables never register the same name, so
      marking both cannot collide in either registry. */
  lemma DistinctVariablesDoNotCollide(a: string, b: string)
    requires IsIdent(a) && IsIdent(b) && a != b
    ensures forall i, j :: 0 <= i < 3 && 0 <= j < 3 ==> Registrations(a)[i] != Registrations(b)[j]
  {
    IdentIsNotBracketed(a, b);
    IdentIsNotBracketed(b, a);
    WrappedNamesInjective(a, b);
  }

  /** A variable `T<D>` marked with serialisation on registers `T`,
      `PriorResidual<T>` and `BetweenResidual<T>` and tags itself `T`. */
  lemma MarkSimpleVariable(name: string, dtype: string)
    ensures
      var item := ItemImpl(Some(["Variable"]), TypePath(false, ["factrs", name]), [dtype]);
      Mark(item, true) == Ok([
        ItemTokens(item),
        Register(VariableRegistry, name, Bare, name),
        Register(ResidualRegistry, PriorName(name), Prior, name),
        Register(ResidualRegistry, BetweenName(name), Between, name),
        TaggedImpl(name, name)])
  {
    var item := ItemImpl(Some(["Variable"]), TypePath(false, ["factrs", name]), [dtype]);
    assert TypeName(item.selfTy) == Ok(Some(name));
    assert |item.generics| == 1;
    assert Mark(item, true) == Ok([ItemTokens(item)] + TagAll(name, name) + [TaggedImpl(name, name)]);
    assert TagAll(name, name) == [
      Register(VariableRegistry, name, Bare, name),
      Register(ResidualRegistry, PriorName(name), Prior, name),
      Register(ResidualRegistry, BetweenName(name), Between, name)];
    assert [ItemTokens(item)] + TagAll(name, name) + [TaggedImpl(name, name)] == [
        ItemTokens(item),
        Register(VariableRegistry, name, Bare, name),
        Register(ResidualRegistry, PriorName(name), Prior, name),
        Register(ResidualRegistry, BetweenName(name), Between, name),
        TaggedImpl(name, name)];
  }

  /** A reference self type has no name, so `mark` panics even before it
      looks at the generics. */
  lemma MarkReferencePanics(generics: seq<string>)
    ensures Mark(ItemImpl(Some(["Variable"]), Group(OtherType("&T")), generics), true) == Err(UnwrapOnNone)
  {
  }
}
