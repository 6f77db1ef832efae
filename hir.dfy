/** The high-level intermediate representation built by the parser of
    crates/compiler/src/parser/mod.rs: a spanned value tree and the three
    statement forms. The declaring file is not part of this model; the shape
    is taken from the constructor calls of the parser and the lowering. */
module Hir {
  import opened Common

  /** A value and the source range it was parsed from. */
  datatype HirValue = HirValue(quote: Quote, kind: HirValueType)

  datatype HirValueType =
    | Number(number: nat)
    | Bool(flag: bool)
    /** `E0.5`, `5.3`: prefix character (NUL for a raw address), byte
        pointer and bit. */
    | BitAddress(prefix: Byte, ptr: nat, bit: nat)
    | Not(operand: HirValue)
    | And(left: HirValue, right: HirValue)
    | Or(left: HirValue, right: HirValue)
    | Xor(left: HirValue, right: HirValue)
    /** A reference to a variable by the text of its span. */
    | VarRef
    | Call(call: HirCall)

  /** `name(args, ...)`. */
  datatype HirCall = HirCall(name: Quote, args: seq<HirValue>)

  datatype HirStatement =
    /** `let name = value;` */
    | Let(quote: Quote, name: Quote, value: HirValue)
    /** `name = value;` */
    | Write(quote: Quote, name: Quote, value: HirValue)
    /** `name(args, ...);` */
    | CallStatement(quote: Quote, name: Quote, args: seq<HirValue>)

  /** The tree holds no `Or` or `Xor` node. */
  predicate OnlyAnd(v: HirValue) {
    match v.kind
    case Not(x) => OnlyAnd(x)
    case And(l, r) => OnlyAnd(l) && OnlyAnd(r)
    case Or(_, _) => false
    case Xor(_, _) => false
    case Call(c) => forall i :: 0 <= i < |c.args| ==> OnlyAnd(c.args[i])
    case _ => true
  }
}

/** The value tree of the older parser (crates/compiler/src/parser.rs), which
    classifies bit addresses into inputs, outputs and other addresses while
    parsing and keeps no value for number literals. */
module LegacyHir {
  import opened Common

  datatype HirValue = HirValue(quote: Quote, kind: HirValueType)

  datatype HirValueType =
    | Number
    | Bool(flag: bool)
    | Address(prefix: Byte, x: nat, y: nat)
    | Not(operand: HirValue)
    | And(left: HirValue, right: HirValue)
    | Or(left: HirValue, right: HirValue)
    | Xor(left: HirValue, right: HirValue)
    | Input(x: nat, y: nat)
    | Output(x: nat, y: nat)
    | Variable
    | Call(name: Quote, args: seq<HirValue>)

  datatype HirStatement =
    | Let(quote: Quote, name: Quote, value: HirValue)
    | Write(quote: Quote, name: Quote, value: HirValue)

  /** The tree holds no `Or` or `Xor` node. */
  predicate OnlyAnd(v: HirValue) {
    match v.kind
    case Not(x) => OnlyAnd(x)
    case And(l, r) => OnlyAnd(l) && OnlyAnd(r)
    case Or(_, _) => false
    case Xor(_, _) => false
    case Call(_, args) => forall i :: 0 <= i < |args| ==> OnlyAnd(args[i])
    case _ => true
  }
}
