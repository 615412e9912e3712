/**
 * Go's reflect.Kind enumeration, with the names Kind.String() prints, and a
 * dynamically typed value for the `interface{}` fields of the parg snapshot
 * (flag.go and argument.go), whose setters compare a value's kind against a
 * required kind.
 */
module Kinds {

  datatype Kind =
    | Invalid | Bool | Int | Int8 | Int16 | Int32 | Int64
    | Uint | Uint8 | Uint16 | Uint32 | Uint64 | Uintptr
    | Float32 | Float64 | Complex64 | Complex128
    | Array | Chan | Func | Interface | Map | Ptr | Slice | String | Struct | UnsafePointer

  /** reflect.Kind.String() */
  function KindName(k: Kind): string
  {
    match k
    case Invalid => "invalid"
    case Bool => "bool"
    case Int => "int"
    case Int8 => "int8"
    case Int16 => "int16"
    case Int32 => "int32"
    case Int64 => "int64"
    case Uint => "uint"
    case Uint8 => "uint8"
    case Uint16 => "uint16"
    case Uint32 => "uint32"
    case Uint64 => "uint64"
    case Uintptr => "uintptr"
    case Float32 => "float32"
    case Float64 => "float64"
    case Complex64 => "complex64"
    case Complex128 => "complex128"
    case Array => "array"
    case Chan => "chan"
    case Func => "func"
    case Interface => "interface"
    case Map => "map"
    case Ptr => "ptr"
    case Slice => "slice"
    case String => "string"
    case Struct => "struct"
    case UnsafePointer => "unsafe.Pointer"
  }

  /**
   * A value held in an `interface{}`: nil, the three scalar kinds the parg
   * snapshot uses, or any other Go value, known only by its kind.
   */
  datatype Dyn = Nil | BoolVal(b: bool) | IntVal(i: int) | StringVal(s: string) | OtherVal(kind: Kind)

  /** reflect.ValueOf(v).Kind(); the kind of a nil interface is Invalid. */
  function KindOf(v: Dyn): Kind
  {
    match v
    case Nil => Invalid
    case BoolVal(_) => Bool
    case IntVal(_) => Int
    case StringVal(_) => String
    case OtherVal(k) => k
  }

  /** The check the parg setters make: no kind required, or the value has the required kind. */
  predicate KindFits(required: Kind, v: Dyn)
  {
    required == Invalid || KindOf(v) == required
  }
}
