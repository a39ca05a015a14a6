/**
  The abstract syntax tree produced by the grammar parser (src/parser.rs).
  Integer literals are Rust `i32` values.
 */
module Ast {

  /** Rust's `i32` */
  type I32 = x: int | -0x8000_0000 <= x < 0x8000_0000

  /** A parsed file: the label it was read from, its syntax version and its declarations. */
  datatype Proto = Proto(file: string, syntax: string, elems: seq<Elem>)

  /** Field multiplicity marker; `Required` is proto2 only. */
  datatype Flag = None | Optional | Repeated | Required

  /** A `reserved` statement inside a message: all field numbers or all quoted names. */
  datatype ReservedField = Idx(idx: seq<I32>) | Name(name: seq<string>)

  datatype Field =
    | Single(name: string, fieldType: string, idx: I32, flag: Flag)
    | Map(name: string, keyType: string, valueType: string, idx: I32)
    | OneOf(name: string, fields: seq<Field>)
    | SubMessage(msg: Msg)
    | SubEnum(enum: Enum)
    | Reserved(reserved: ReservedField)
    | Extensions(from: string, to: string)

  datatype Rpc = Rpc(name: string, request: string, streamRequest: bool, response: string, streamResponse: bool)

  datatype EnumValue = Single(name: string, idx: I32) | Reserved(idx: I32)

  /** The value of an option; the contents of a `{ ... }` value are not kept (`Msg` always holds ""). */
  datatype OptionValue =
    | Str(value: string)
    | Constant(value: string)
    | Num(number: I32)
    | Bool(flag: bool)
    | Msg(value: string)

  datatype Msg = Msg(name: string, fields: seq<Field>)

  datatype Enum = Enum(name: string, values: seq<EnumValue>)

  /** An `option name = value;` statement (the struct named `Option` in the source). */
  datatype OptionDecl = OptionDecl(name: string, value: OptionValue)

  datatype ServiceNode = Rpc(rpc: Rpc) | Option(option: OptionDecl)

  datatype Elem =
    | Message(msg: Msg)
    | Enum(enum: Enum)
    | Option(option: OptionDecl)
    | Import(name: string)
    | Package(name: string)
    | Extend(name: string, fields: seq<Field>)
    | Service(name: string, nodes: seq<ServiceNode>)
}
