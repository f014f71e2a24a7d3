/** The fragment of `syn`'s syntax tree the procedural macros inspect.
    Everything the macros pass through untouched is kept as opaque text. */
module Syntax {
  import opened Util

  /** A Rust expression, as far as `fac!` distinguishes expressions. */
  datatype Expr =
    | Array(elems: seq<Expr>)             // `[a, b]`
    | Tuple(elems: seq<Expr>)             // `(a, b)`
    | Path(segments: seq<string>)         // `x`, `a::b::C`
    | Call(func: Expr, args: seq<Expr>)   // `f(a, b)`
    | Cast(expr: Expr, ty: string)        // `e as ty`, the type as its token text
    | Infer                               // `_`
    | Lit(text: string)                   // `0.1`
    | Other(text: string)                 // any other expression

  /** A Rust type, as far as `type_name` distinguishes types. */
  datatype Type =
    | TypePath(qself: bool, segments: seq<string>)  // `Foo<T>`, `<T as Tr>::X` when `qself`
    | Group(elem: Type)                             // an invisible group from a macro expansion
    | OtherType(text: string)                       // references, tuples, slices, ...

  /** An `impl` block: the implemented trait's path (if any), the self type
      and the names of its generic parameters. */
  datatype ItemImpl = ItemImpl(traitPath: Option<seq<string>>, selfTy: Type, generics: seq<string>)
}
