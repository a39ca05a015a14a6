/**
  The zod schema generator (src/typescript.rs). Each formatting step is a
  function that says what text it produces, and a method with the loops of
  the original that is proved to produce exactly that text.

  The first error aborts the whole output. The `elements` vector that
  `format_field` and `format_oneof` push nested blocks onto is an input
  sequence here, and the methods return it extended.
 */
module Generator {
  import opened Wrappers
  import opened Errors
  import opened Ast
  import opened Text
  import opened Naming
  import opened Symbols

  // ---------------------------------------------------------------------
  // Types
  // ---------------------------------------------------------------------

  /**
    The validator of a scalar type or of `google.protobuf.Timestamp`, and no
    validator for any other name: strings and bytes are `z.string()`, 32-bit
    integers and floating-point numbers `z.number()`, 64-bit integers
    `z.coerce.bigint()`, `bool` is `z.boolean()` and timestamps `z.coerce.date()`.
   */
  function Builtin(t: string): (r: Option<string>)
    ensures r.Some? ==> r.value in {"z.string()", "z.number()", "z.coerce.bigint()", "z.boolean()", "z.coerce.date()"}
    ensures r == Some("z.string()") <==> t in {"string", "bytes"}
    ensures r == Some("z.number()") <==> t in {"int32", "double", "float", "uint32", "sint32", "fixed32", "sfixed32"}
    ensures r == Some("z.coerce.bigint()") <==> t in {"int64", "uint64", "fixed64", "sfixed64", "sint64"}
    ensures r == Some("z.boolean()") <==> t == "bool"
    ensures r == Some("z.coerce.date()") <==> t == "google.protobuf.Timestamp"
    ensures r.Some? <==> t in {"string", "bytes", "int32", "double", "float", "uint32", "sint32", "fixed32", "sfixed32",
                               "int64", "uint64", "fixed64", "sfixed64", "sint64", "bool", "google.protobuf.Timestamp"}
  {
    if t == "string" || t == "bytes" then Some("z.string()")
    else if t in {"int32", "double", "float", "uint32", "sint32", "fixed32", "sfixed32"} then Some("z.number()")
    else if t in {"int64", "uint64", "fixed64", "sfixed64", "sint64"} then Some("z.coerce.bigint()")
    else if t == "bool" then Some("z.boolean()")
    else if t == "google.protobuf.Timestamp" then Some("z.coerce.date()")
    else Option.None
  }

  /** A looked-up declaration, or `ProtobufTypeNotFound` carrying the name that was looked up. */
  function Found(p: Option<ProtoType>, name: string): (r: Result<ProtoType>)
    ensures r.Ok? <==> p.Some?
    ensures r.Ok? ==> r.value == p.value
    ensures r.Err? ==> r.error == ProtobufTypeNotFound(name)
  {
    if p.Some? then Ok(p.value) else Err(ProtobufTypeNotFound(name))
  }

  /**
    `type_name`: the built-in validator when there is one, without consulting
    the table; otherwise the schema of the declaration the name resolves to.
   */
  function TypeName(ctx: Context, t: string, parent: Option<ProtoType>): (r: Result<string>)
    ensures Builtin(t).Some? ==> r == Ok(Builtin(t).value)
    ensures Builtin(t).None? ==> (r.Ok? <==> Get(ctx, t, parent).Some?)
    ensures Builtin(t).None? && r.Ok? ==> r.value == Get(ctx, t, parent).value.schema
    ensures r.Err? ==> r.error == ProtobufTypeNotFound(t)
  {
    if Builtin(t).Some? then Ok(Builtin(t).value)
    else
      var p :- Found(Get(ctx, t, parent), t);
      Ok(p.schema)
  }

  /**
    `flagged_field`: `optional` wraps the validator in `z.optional(..)`,
    `repeated` in `z.array(..)`; no flag and `required` leave it as it is.
   */
  function FlaggedField(field: string, flag: Flag): (r: string)
    ensures r == field <==> !flag.Optional? && !flag.Repeated?
    ensures |r| == |field| + if flag.Optional? then 12 else if flag.Repeated? then 9 else 0
    ensures flag.Optional? ==> r[..11] == "z.optional(" && r[11..|r| - 1] == field && r[|r| - 1] == ')'
    ensures flag.Repeated? ==> r[..8] == "z.array(" && r[8..|r| - 1] == field && r[|r| - 1] == ')'
  {
    match flag
    case Optional => "z.optional(" + field + ")"
    case Repeated => "z.array(" + field + ")"
    case None => field
    case Required => field
  }

  // ---------------------------------------------------------------------
  // What each part of a message produces
  // ---------------------------------------------------------------------

  /** The outcome of `format_field`: the object member it returns, if any, and the blocks it pushes onto `elements`. */
  datatype Formatted = Formatted(line: Option<string>, nested: seq<string>)

  /** The object members and the nested blocks of a list of fields, in field order. */
  datatype Body = Body(lines: seq<string>, nested: seq<string>)

  function Lines(line: Option<string>): seq<string>
  {
    if line.Some? then [line.value] else []
  }

  /** `format_field` */
  function FieldOut(ctx: Context, field: Field, parent: Option<ProtoType>): (r: Result<Formatted>)
    ensures r.Ok? ==> (r.value.line.Some? <==> field.Single? || field.Map? || field.OneOf?)
    ensures r.Ok? && (field.SubMessage? || field.SubEnum?) ==> |r.value.nested| == 1
    ensures !(field.OneOf? || field.SubMessage? || field.SubEnum?) ==> r.Ok? ==> r.value.nested == []
    ensures field.Reserved? || field.Extensions? ==> r == Ok(Formatted(Option.None, []))
    decreases field
  {
    match field
    case Single(name, fieldType, _, flag) =>
      var t :- TypeName(ctx, fieldType, parent);
      Ok(Formatted(Some(SnakeToCamel(name) + ": " + FlaggedField(t, flag)), []))
    case Map(name, keyType, valueType, _) =>
      var k :- TypeName(ctx, keyType, parent);
      var v :- TypeName(ctx, valueType, parent);
      Ok(Formatted(Some(SnakeToCamel(name) + ": z.record(" + k + ", " + v + ")"), []))
    case OneOf(name, fields) =>
      var body :- FieldsOut(ctx, fields, parent);
      Ok(Formatted(Some(SnakeToCamel(name) + ": " + OneofText(body.lines)), body.nested))
    case SubMessage(msg) =>
      var block :- MsgBlock(ctx, msg, parent);
      Ok(Formatted(Option.None, [block]))
    case SubEnum(e) =>
      var block :- EnumBlock(ctx, e, parent);
      Ok(Formatted(Option.None, [block]))
    case Reserved(_) => Ok(Formatted(Option.None, []))
    case Extensions(_, _) => Ok(Formatted(Option.None, []))
  }

  /** `format_field` over a list of fields, stopping at the first error. */
  function FieldsOut(ctx: Context, fields: seq<Field>, parent: Option<ProtoType>): (r: Result<Body>)
    ensures r.Ok? ==> |r.value.lines| <= |fields|
    decreases fields
  {
    if |fields| == 0 then Ok(Body([], []))
    else
      var body :- FieldsOut(ctx, fields[..|fields| - 1], parent);
      var f :- FieldOut(ctx, fields[|fields| - 1], parent);
      Ok(Body(body.lines + Lines(f.line), body.nested + f.nested))
  }

  /** Each member of a oneof as an object of its own. */
  function Cases(lines: seq<string>): (cases: seq<string>)
    ensures |cases| == |lines|
    ensures forall k :: 0 <= k < |lines| ==> cases[k] == "z.object({ " + lines[k] + " })"
  {
    if |lines| == 0 then [] else Cases(lines[..|lines| - 1]) + ["z.object({ " + lines[|lines| - 1] + " })"]
  }

  /**
    `format_oneof`'s text: a single case is that object alone, since
    `z.union` needs several; any other number of cases is a `z.union` of
    the cases in order.
   */
  function OneofText(lines: seq<string>): (r: string)
    ensures |lines| == 1 ==> r == "z.object({ " + lines[0] + " })"
    ensures |lines| != 1 ==> r == "z.union([" + Join(Cases(lines), ", ") + "])"
  {
    var cases := Cases(lines);
    if |cases| == 1 then cases[0] else "z.union([" + Join(cases, ", ") + "])"
  }

  /** The members of a `z.object`, one per line. */
  function Members(lines: seq<string>): (r: string)
  {
    if |lines| == 0 then "" else Members(lines[..|lines| - 1]) + "  " + lines[|lines| - 1] + ",\n"
  }

  /** The schema and type declarations of a message, after its nested blocks. */
  function ObjectDecl(ptype: ProtoType, lines: seq<string>): string
  {
    ("export const " + ptype.schema + " = z.object({\n") + Members(lines) + "});\n\n"
    + ("export type " + ptype.tsName + " = z.infer<typeof " + ptype.schema + ">;\n\n")
  }

  /** `format_msg`: the blocks of the nested declarations, then the message's own object and type. */
  function MsgBlock(ctx: Context, msg: Msg, parent: Option<ProtoType>): (r: Result<string>)
    ensures Get(ctx, msg.name, parent).None? ==> r == Err(ProtobufTypeNotFound(msg.name))
    decreases msg
  {
    var ptype :- Found(Get(ctx, msg.name, parent), msg.name);
    var body :- FieldsOut(ctx, msg.fields, Some(ptype));
    Ok(Concat(body.nested) + ObjectDecl(ptype, body.lines))
  }

  /** The members of a TypeScript enum: one per `Single` value, each mapped to its own name. */
  function EnumLines(values: seq<EnumValue>): string
  {
    if |values| == 0 then ""
    else
      var line := match values[|values| - 1]
        case Single(name, _) => "  " + name + " = \"" + name + "\",\n"
        case Reserved(_) => "";
      EnumLines(values[..|values| - 1]) + line
  }

  predicate IsDefault(v: EnumValue)
  {
    v.Single? && v.idx == 0
  }

  /** The name of the first `Single` value numbered 0 (`find_map`). */
  function FirstZero(values: seq<EnumValue>): (r: Option<string>)
    ensures r.Some? ==> exists k :: 0 <= k < |values| && values[k] == EnumValue.Single(r.value, 0)
                                   && forall j :: 0 <= j < k ==> !IsDefault(values[j])
    ensures r.None? <==> forall k :: 0 <= k < |values| ==> !IsDefault(values[k])
  {
    if |values| == 0 then Option.None
    else if IsDefault(values[0]) then Some(values[0].name)
    else
      var r := FirstZero(values[1..]);
      assert forall k :: 1 <= k < |values| ==> values[k] == values[1..][k - 1];
      r
  }

  function Catch(enumName: string, default: Option<string>): string
  {
    if default.Some? then ".catch(" + enumName + "." + default.value + ")" else ""
  }

  /** `format_enum`: the TypeScript enum, then its `z.nativeEnum` schema that falls back to the default value if there is one. */
  function EnumBlock(ctx: Context, e: Enum, parent: Option<ProtoType>): (r: Result<string>)
    ensures r.Ok? <==> Get(ctx, e.name, parent).Some?
    ensures r.Err? ==> r.error == ProtobufTypeNotFound(e.name)
  {
    var ptype :- Found(Get(ctx, e.name, parent), e.name);
    Ok("export enum " + ptype.tsName + " {\n" + EnumLines(e.values) + "}\n\n"
       + "export const " + ptype.schema + " = z.nativeEnum(" + ptype.tsName + ")" + Catch(ptype.tsName, FirstZero(e.values)) + ";\n\n")
  }

  // ---------------------------------------------------------------------
  // The file
  // ---------------------------------------------------------------------

  function Header(file: string): string
  {
    "//\n" + "// Code generated by protots - DO NOT EDIT\n" + "// Source: " + file + "\n" + "//\n" + "\n"
    + "import { z } from \"zod\";" + "\n" + "\n"
  }

  /** The block of a top-level element: messages and enums have one; imports, options, services and the rest have none. */
  function ElemBlock(ctx: Context, elem: Elem): (r: Result<string>)
    ensures !elem.Message? && !elem.Enum? ==> r == Ok("")
  {
    match elem
    case Message(msg) => MsgBlock(ctx, msg, Option.None)
    case Enum(e) => EnumBlock(ctx, e, Option.None)
    case _ => Ok("")
  }

  function Blocks(ctx: Context, elems: seq<Elem>): Result<string>
  {
    if |elems| == 0 then Ok("")
    else
      var before :- Blocks(ctx, elems[..|elems| - 1]);
      var block :- ElemBlock(ctx, elems[|elems| - 1]);
      Ok(before + block)
  }

  /** `to_schema`: the header, then the blocks of the top-level elements in file order. */
  function Schema(proto: Proto): (r: Result<string>)
    ensures r.Ok? ==> |Header(proto.file)| <= |r.value| && r.value[..|Header(proto.file)|] == Header(proto.file)
  {
    var blocks :- Blocks(ContextOf(proto), proto.elems);
    Ok(Header(proto.file) + blocks)
  }

  // ---------------------------------------------------------------------
  // Steps of the folds
  // ---------------------------------------------------------------------

  /** One more field that formats adds its member, if any, and its nested blocks. */
  lemma FieldsOutStep(ctx: Context, fields: seq<Field>, k: nat, parent: Option<ProtoType>, body: Body)
    requires k < |fields| && FieldsOut(ctx, fields[..k], parent) == Ok(body)
    requires FieldOut(ctx, fields[k], parent).Ok?
    ensures var f := FieldOut(ctx, fields[k], parent).value;
      FieldsOut(ctx, fields[..k + 1], parent) == Ok(Body(body.lines + Lines(f.line), body.nested + f.nested))
  {
    assert fields[..k + 1][..k] == fields[..k];
  }

  /** The first field that fails makes the whole list fail with its error. */
  lemma FieldsOutStepFails(ctx: Context, fields: seq<Field>, k: nat, parent: Option<ProtoType>)
    requires k < |fields| && FieldsOut(ctx, fields[..k], parent).Ok?
    requires FieldOut(ctx, fields[k], parent).Err?
    ensures FieldsOut(ctx, fields, parent) == Err(FieldOut(ctx, fields[k], parent).error)
  {
    assert fields[..k + 1][..k] == fields[..k];
    FieldsOutFailsFrom(ctx, fields, k + 1, parent);
  }

  /** Once a prefix of the fields fails, the whole list fails with the same error. */
  lemma FieldsOutFailsFrom(ctx: Context, fields: seq<Field>, j: nat, parent: Option<ProtoType>)
    requires j <= |fields| && FieldsOut(ctx, fields[..j], parent).Err?
    ensures FieldsOut(ctx, fields, parent) == FieldsOut(ctx, fields[..j], parent)
    decreases |fields| - j
  {
    if j == |fields| {
      assert fields[..j] == fields;
    } else {
      assert fields[..j + 1][..j] == fields[..j];
      FieldsOutFailsFrom(ctx, fields, j + 1, parent);
    }
  }

  lemma BlocksSnoc(ctx: Context, elems: seq<Elem>, k: nat)
    requires k < |elems|
    ensures Blocks(ctx, elems[..k + 1]) ==
      if Blocks(ctx, elems[..k]).Err? then Blocks(ctx, elems[..k])
      else if ElemBlock(ctx, elems[k]).Err? then ElemBlock(ctx, elems[k])
      else Ok(Blocks(ctx, elems[..k]).value + ElemBlock(ctx, elems[k]).value)
  {
    assert elems[..k + 1][..k] == elems[..k];
  }

  lemma BlocksFailFrom(ctx: Context, elems: seq<Elem>, j: nat)
    requires j <= |elems| && Blocks(ctx, elems[..j]).Err?
    ensures Blocks(ctx, elems) == Blocks(ctx, elems[..j])
    decreases |elems| - j
  {
    if j == |elems| {
      assert elems[..j] == elems;
    } else {
      BlocksSnoc(ctx, elems, j);
      BlocksFailFrom(ctx, elems, j + 1);
    }
  }

  // ---------------------------------------------------------------------
  // Properties of the output
  // ---------------------------------------------------------------------

  /** A list of fields formats exactly when every field in it does. */
  lemma {:induction false} FieldsOutOk(ctx: Context, fields: seq<Field>, parent: Option<ProtoType>)
    ensures FieldsOut(ctx, fields, parent).Ok? <==> forall k :: 0 <= k < |fields| ==> FieldOut(ctx, fields[k], parent).Ok?
  {
    if |fields| > 0 {
      var n := |fields| - 1;
      var init := fields[..n];
      FieldsOutOk(ctx, init, parent);
      assert FieldsOut(ctx, fields, parent).Ok? <==> FieldsOut(ctx, init, parent).Ok? && FieldOut(ctx, fields[n], parent).Ok?;
      if FieldsOut(ctx, fields, parent).Ok? {
        forall k | 0 <= k < |fields|
          ensures FieldOut(ctx, fields[k], parent).Ok?
        {
          if k < n {
            assert init[k] == fields[k];
            assert FieldOut(ctx, init[k], parent).Ok?;
          } else {
            assert k == n;
          }
        }
      } else if FieldsOut(ctx, init, parent).Err? {
        var k :| 0 <= k < n && FieldOut(ctx, init[k], parent).Err?;
        assert init[k] == fields[k];
      }
    }
  }

  /** A list of one field formats as that field does. */
  lemma FieldsOutSingle(ctx: Context, field: Field, parent: Option<ProtoType>)
    ensures var f := FieldOut(ctx, field, parent);
      FieldsOut(ctx, [field], parent) == if f.Err? then Err(f.error) else Ok(Body(Lines(f.value.line), f.value.nested))
  {
    assert [field][..0] == [];
    var f := FieldOut(ctx, field, parent);
    if f.Ok? {
      assert [] + Lines(f.value.line) == Lines(f.value.line);
      assert [] + f.value.nested == f.value.nested;
    }
  }

  /**
    A list of fields that fails reports the error of its first failing field:
    the fields before it all format.
   */
  lemma FieldsOutFirstError(ctx: Context, fields: seq<Field>, parent: Option<ProtoType>)
    requires FieldsOut(ctx, fields, parent).Err?
    ensures exists k :: 0 <= k < |fields| && FieldOut(ctx, fields[k], parent) == Err(FieldsOut(ctx, fields, parent).error)
                        && forall j :: 0 <= j < k ==> FieldOut(ctx, fields[j], parent).Ok?
  {
    FieldsOutOk(ctx, fields, parent);
    var k :| 0 <= k < |fields| && FieldOut(ctx, fields[k], parent).Err? && forall j :: 0 <= j < k ==> FieldOut(ctx, fields[j], parent).Ok?
      by { FirstFailingField(ctx, fields, parent, |fields|); }
    FieldsOutOk(ctx, fields[..k], parent);
    assert forall j :: 0 <= j < k ==> fields[..k][j] == fields[j];
    FieldsOutStepFails(ctx, fields, k, parent);
  }

  /** Among the first `n` fields, if one fails, there is a first one that does. */
  lemma {:induction false} FirstFailingField(ctx: Context, fields: seq<Field>, parent: Option<ProtoType>, n: nat)
    requires n <= |fields| && exists k :: 0 <= k < n && FieldOut(ctx, fields[k], parent).Err?
    ensures exists k :: 0 <= k < n && FieldOut(ctx, fields[k], parent).Err? && forall j :: 0 <= j < k ==> FieldOut(ctx, fields[j], parent).Ok?
  {
    if exists k :: 0 <= k < n - 1 && FieldOut(ctx, fields[k], parent).Err? {
      FirstFailingField(ctx, fields, parent, n - 1);
    } else {
      assert FieldOut(ctx, fields[n - 1], parent).Err?;
    }
  }

  /**
    Formatting two lists of fields one after the other: the members and the
    nested blocks of the first come before those of the second, and the first
    error wins.
   */
  lemma {:induction false} FieldsOutAppend(ctx: Context, a: seq<Field>, b: seq<Field>, parent: Option<ProtoType>)
    ensures var x, y := FieldsOut(ctx, a, parent), FieldsOut(ctx, b, parent);
      FieldsOut(ctx, a + b, parent) ==
        if x.Err? then x
        else if y.Err? then y
        else Ok(Body(x.value.lines + y.value.lines, x.value.nested + y.value.nested))
  {
    if |b| == 0 {
      assert a + b == a;
      var x := FieldsOut(ctx, a, parent);
      if x.Ok? {
        assert x.value.lines + [] == x.value.lines && x.value.nested + [] == x.value.nested;
      }
    } else {
      var init := b[..|b| - 1];
      assert (a + b)[..|a + b| - 1] == a + init;
      assert (a + b)[|a + b| - 1] == b[|b| - 1];
      FieldsOutAppend(ctx, a, init, parent);
      var x, z := FieldsOut(ctx, a, parent), FieldsOut(ctx, init, parent);
      if x.Ok? && z.Ok? {
        var f := FieldOut(ctx, b[|b| - 1], parent);
        if f.Ok? {
          AppendAssociates(x.value.lines, z.value.lines, Lines(f.value.line));
          AppendAssociates(x.value.nested, z.value.nested, f.value.nested);
        }
      }
    }
  }

  /** The values of an enum, without the reserved ones. */
  function Singles(values: seq<EnumValue>): (r: seq<EnumValue>)
    ensures forall k :: 0 <= k < |r| ==> r[k].Single?
    ensures |r| <= |values|
  {
    if |values| == 0 then []
    else if values[|values| - 1].Single? then Singles(values[..|values| - 1]) + [values[|values| - 1]]
    else Singles(values[..|values| - 1])
  }

  lemma {:induction false} EnumLinesAppend(a: seq<EnumValue>, b: seq<EnumValue>)
    ensures EnumLines(a + b) == EnumLines(a) + EnumLines(b)
  {
    if |b| == 0 {
      assert a + b == a;
    } else {
      var init := b[..|b| - 1];
      assert (a + b)[..|a + b| - 1] == a + init;
      EnumLinesAppend(a, init);
      var last := b[|b| - 1];
      assert (a + b)[|a + b| - 1] == last;
      var line := if last.Single? then "  " + last.name + " = \"" + last.name + "\",\n" else "";
      AppendAssociates(EnumLines(a), EnumLines(init), line);
    }
  }

  /** Reserved values leave no trace in the TypeScript enum. */
  lemma {:induction false} EnumLinesSkipReserved(values: seq<EnumValue>)
    ensures EnumLines(values) == EnumLines(Singles(values))
  {
    if |values| > 0 {
      var init := values[..|values| - 1];
      EnumLinesSkipReserved(init);
      if values[|values| - 1].Single? {
        EnumLinesAppend(Singles(init), [values[|values| - 1]]);
        assert [values[|values| - 1]][..0] == [];
      }
    }
  }

  /** Each value of an enum without reserved values becomes the member `Name = "Name"`, in declaration order. */
  lemma {:induction false} EnumLinesOfSingles(values: seq<EnumValue>)
    requires forall k :: 0 <= k < |values| ==> values[k].Single?
    ensures EnumLines(values) == Concat(seq(|values|, k requires 0 <= k < |values| => "  " + values[k].name + " = \"" + values[k].name + "\",\n"))
  {
    if |values| > 0 {
      var init := values[..|values| - 1];
      EnumLinesOfSingles(init);
      var parts := seq(|values|, k requires 0 <= k < |values| => "  " + values[k].name + " = \"" + values[k].name + "\",\n");
      assert parts[..|parts| - 1] == seq(|init|, k requires 0 <= k < |init| => "  " + init[k].name + " = \"" + init[k].name + "\",\n");
    }
  }

  /** The top-level blocks are produced exactly when every top-level element's block is. */
  lemma {:induction false} BlocksOk(ctx: Context, elems: seq<Elem>)
    ensures Blocks(ctx, elems).Ok? <==> forall k :: 0 <= k < |elems| ==> ElemBlock(ctx, elems[k]).Ok?
  {
    if |elems| > 0 {
      var init := elems[..|elems| - 1];
      BlocksOk(ctx, init);
      assert forall k :: 0 <= k < |init| ==> init[k] == elems[k];
    }
  }

  /**
    Two lists of top-level elements one after the other: the output of the
    first comes before that of the second, and the first error wins.
   */
  lemma {:induction false} BlocksAppend(ctx: Context, a: seq<Elem>, b: seq<Elem>)
    ensures var x, y := Blocks(ctx, a), Blocks(ctx, b);
      Blocks(ctx, a + b) == if x.Err? then x else if y.Err? then y else Ok(x.value + y.value)
  {
    if |b| == 0 {
      assert a + b == a;
      var x := Blocks(ctx, a);
      if x.Ok? {
        assert x.value + "" == x.value;
      }
    } else {
      var init := b[..|b| - 1];
      assert (a + b)[..|a + b| - 1] == a + init;
      assert (a + b)[|a + b| - 1] == b[|b| - 1];
      BlocksAppend(ctx, a, init);
      var x, z := Blocks(ctx, a), Blocks(ctx, init);
      var e := ElemBlock(ctx, b[|b| - 1]);
      if x.Ok? && z.Ok? && e.Ok? {
        AppendAssociates(x.value, z.value, e.value);
      }
    }
  }

  /** Elements other than messages and enums add nothing to the output. */
  lemma {:induction false} BlocksSkipOthers(ctx: Context, elems: seq<Elem>, other: Elem)
    requires !other.Message? && !other.Enum?
    ensures Blocks(ctx, elems + [other]) == Blocks(ctx, elems)
  {
    assert (elems + [other])[..|elems|] == elems;
    var x := Blocks(ctx, elems);
    if x.Ok? {
      assert x.value + "" == x.value;
    }
  }

  // ---------------------------------------------------------------------
  // The generator as the original runs it
  // ---------------------------------------------------------------------

  /** `format_field`: returns the object member, and pushes the blocks of nested declarations onto `elements`. */
  method FormatField(ctx: Context, field: Field, parent: Option<ProtoType>, elements: seq<string>)
    returns (r: Result<Option<string>>, elements': seq<string>)
    ensures var spec := FieldOut(ctx, field, parent);
      && (r.Ok? <==> spec.Ok?)
      && (r.Ok? ==> r.value == spec.value.line && elements' == elements + spec.value.nested)
      && (r.Err? ==> r.error == spec.error)
    decreases field
  {
    elements' := elements;
    match field {
      case Single(name, fieldType, _, flag) =>
        var t := TypeName(ctx, fieldType, parent);
        if t.Err? {
          return Err(t.error), elements';
        }
        r := Ok(Some(SnakeToCamel(name) + ": " + FlaggedField(t.value, flag)));
      case Map(name, keyType, valueType, _) =>
        var k := TypeName(ctx, keyType, parent);
        if k.Err? {
          return Err(k.error), elements';
        }
        var v := TypeName(ctx, valueType, parent);
        if v.Err? {
          return Err(v.error), elements';
        }
        r := Ok(Some(SnakeToCamel(name) + ": z.record(" + k.value + ", " + v.value + ")"));
      case OneOf(name, fields) =>
        var text;
        text, elements' := FormatOneof(ctx, fields, parent, elements);
        if text.Err? {
          return Err(text.error), elements';
        }
        r := Ok(Some(SnakeToCamel(name) + ": " + text.value));
      case SubMessage(msg) =>
        var block := FormatMsg(ctx, msg, parent);
        if block.Err? {
          return Err(block.error), elements';
        }
        elements' := elements' + [block.value];
        r := Ok(Option.None);
      case SubEnum(e) =>
        var block := FormatEnum(ctx, e, parent);
        if block.Err? {
          return Err(block.error), elements';
        }
        elements' := elements' + [block.value];
        r := Ok(Option.None);
      case Reserved(_) =>
        r := Ok(Option.None);
      case Extensions(_, _) =>
        r := Ok(Option.None);
    }
  }

  /**
    The loop that `format_msg` and `format_oneof` share: `format_field` on
    each field in order, keeping the members it returns and stopping at the
    first error.
   */
  method FormatFields(ctx: Context, fields: seq<Field>, parent: Option<ProtoType>, elements: seq<string>)
    returns (r: Result<seq<string>>, elements': seq<string>)
    ensures var body := FieldsOut(ctx, fields, parent);
      && (r.Ok? <==> body.Ok?)
      && (r.Ok? ==> r.value == body.value.lines && elements' == elements + body.value.nested)
      && (r.Err? ==> r.error == body.error)
    decreases fields, 1
  {
    elements' := elements;
    var lines: seq<string> := [];
    ghost var nested: seq<string> := [];
    var k := 0;
    assert fields[..0] == [];
    while k < |fields|
      invariant 0 <= k <= |fields|
      invariant elements' == elements + nested
      invariant FieldsOut(ctx, fields[..k], parent) == Ok(Body(lines, nested))
    {
      var next;
      ghost var nested';
      next, nested', elements' := FormatNext(ctx, fields, k, parent, lines, nested, elements, elements');
      if next.Err? {
        return Err(next.error), elements';
      }
      lines, nested := next.value, nested';
      k := k + 1;
    }
    assert fields[..k] == fields;
    r := Ok(lines);
  }

  /** One turn of `FormatFields`' loop: the field at `k`, after the members and blocks of those before it. */
  method FormatNext(ctx: Context, fields: seq<Field>, k: nat, parent: Option<ProtoType>, lines: seq<string>,
                    ghost nested: seq<string>, ghost elements: seq<string>, current: seq<string>)
    returns (r: Result<seq<string>>, ghost nested': seq<string>, elements': seq<string>)
    requires k < |fields| && FieldsOut(ctx, fields[..k], parent) == Ok(Body(lines, nested))
    requires current == elements + nested
    ensures r.Err? ==> FieldsOut(ctx, fields, parent) == Err(r.error)
    ensures r.Ok? ==> FieldsOut(ctx, fields[..k + 1], parent) == Ok(Body(r.value, nested')) && elements' == elements + nested'
    decreases fields, 0
  {
    var value;
    value, elements' := FormatField(ctx, fields[k], parent, current);
    if value.Err? {
      FieldsOutStepFails(ctx, fields, k, parent);
      return Err(value.error), nested, elements';
    }
    ghost var f := FieldOut(ctx, fields[k], parent).value;
    FieldsOutStep(ctx, fields, k, parent, Body(lines, nested));
    nested' := nested + f.nested;
    AppendAssociates(elements, nested, f.nested);
    if value.value.Some? {
      r := Ok(lines + [value.value.value]);
    } else {
      assert lines + Lines(value.value) == lines;
      r := Ok(lines);
    }
  }

  /** `format_oneof`: the members of the cases, each wrapped in an object, under the one-case rule. */
  method FormatOneof(ctx: Context, fields: seq<Field>, parent: Option<ProtoType>, elements: seq<string>)
    returns (r: Result<string>, elements': seq<string>)
    ensures var body := FieldsOut(ctx, fields, parent);
      && (r.Ok? <==> body.Ok?)
      && (r.Ok? ==> r.value == OneofText(body.value.lines) && elements' == elements + body.value.nested)
      && (r.Err? ==> r.error == body.error)
    decreases fields, 2
  {
    var lines;
    lines, elements' := FormatFields(ctx, fields, parent, elements);
    if lines.Err? {
      return Err(lines.error), elements';
    }
    var cases: seq<string> := [];
    var k := 0;
    while k < |lines.value|
      invariant 0 <= k <= |lines.value|
      invariant cases == Cases(lines.value[..k])
    {
      assert lines.value[..k + 1][..k] == lines.value[..k];
      cases := cases + ["z.object({ " + lines.value[k] + " })"];
      k := k + 1;
    }
    assert lines.value[..k] == lines.value;
    if |cases| == 1 {
      r := Ok(cases[0]);
    } else {
      r := Ok("z.union([" + Join(cases, ", ") + "])");
    }
  }

  /** `push_str` of each part in order. */
  method AppendAll(str: string, parts: seq<string>) returns (str': string)
    ensures str' == str + Concat(parts)
  {
    str' := str;
    var j := 0;
    while j < |parts|
      invariant 0 <= j <= |parts|
      invariant str' == str + Concat(parts[..j])
    {
      assert parts[..j + 1][..j] == parts[..j];
      str' := str' + parts[j];
      j := j + 1;
    }
    assert parts[..j] == parts;
  }

  /** The member lines of `format_msg`'s object. */
  method AppendMembers(str: string, lines: seq<string>) returns (str': string)
    ensures str' == str + Members(lines)
  {
    str' := str;
    var j := 0;
    while j < |lines|
      invariant 0 <= j <= |lines|
      invariant str' == str + Members(lines[..j])
    {
      assert lines[..j + 1][..j] == lines[..j];
      str' := str' + "  ";
      str' := str' + lines[j];
      str' := str' + ",\n";
      j := j + 1;
    }
    assert lines[..j] == lines;
  }

  /** `format_msg` */
  method FormatMsg(ctx: Context, msg: Msg, parent: Option<ProtoType>) returns (r: Result<string>)
    ensures r == MsgBlock(ctx, msg, parent)
    decreases msg
  {
    var found := Get(ctx, msg.name, parent);
    if found.None? {
      return Err(ProtobufTypeNotFound(msg.name));
    }
    var ptype := found.value;
    var fields, subMessages := FormatFields(ctx, msg.fields, Some(ptype), []);
    if fields.Err? {
      return Err(fields.error);
    }
    var str := AppendAll("", subMessages);
    ghost var nested := str;
    var open := "export const " + ptype.schema + " = z.object({\n";
    str := str + open;
    str := AppendMembers(str, fields.value);
    AppendAssociates(nested, open, Members(fields.value));
    str := str + "});\n\n";
    AppendAssociates(nested, open + Members(fields.value), "});\n\n");
    var typeDecl := "export type " + ptype.tsName + " = z.infer<typeof " + ptype.schema + ">;\n\n";
    str := str + typeDecl;
    AppendAssociates(nested, open + Members(fields.value) + "});\n\n", typeDecl);
    assert str == nested + ObjectDecl(ptype, fields.value);
    assert nested == Concat(subMessages);
    ghost var body := FieldsOut(ctx, msg.fields, Some(ptype));
    assert body.Ok? && body.value.lines == fields.value;
    assert [] + body.value.nested == body.value.nested;
    assert body.value.nested == subMessages;
    assert Found(Get(ctx, msg.name, parent), msg.name) == Ok(ptype);
    assert MsgBlock(ctx, msg, parent) == Ok(Concat(subMessages) + ObjectDecl(ptype, fields.value));
    r := Ok(str);
  }

  /** `format_enum` */
  method FormatEnum(ctx: Context, e: Enum, parent: Option<ProtoType>) returns (r: Result<string>)
    ensures r == EnumBlock(ctx, e, parent)
  {
    var found := Get(ctx, e.name, parent);
    if found.None? {
      return Err(ProtobufTypeNotFound(e.name));
    }
    var ptype := found.value;
    var enumName := ptype.tsName;
    var str := "export enum " + enumName + " {\n";
    ghost var head := str;
    var k := 0;
    while k < |e.values|
      invariant 0 <= k <= |e.values|
      invariant str == head + EnumLines(e.values[..k])
    {
      assert e.values[..k + 1][..k] == e.values[..k];
      match e.values[k] {
        case Single(name, _) =>
          str := str + "  " + name + " = \"" + name + "\",\n";
        case Reserved(_) =>
      }
      k := k + 1;
    }
    assert e.values[..k] == e.values;
    str := str + "}\n\n";
    var catch := Catch(enumName, FirstZero(e.values));
    str := str + "export const " + ptype.schema + " = z.nativeEnum(" + enumName + ")" + catch + ";\n\n";
    r := Ok(str);
  }

  /** The text that `to_schema` pushes for one top-level element. */
  method FormatElem(ctx: Context, elem: Elem) returns (r: Result<string>)
    ensures r == ElemBlock(ctx, elem)
  {
    match elem {
      case Message(msg) =>
        r := FormatMsg(ctx, msg, Option.None);
      case Enum(e) =>
        r := FormatEnum(ctx, e, Option.None);
      case _ =>
        r := Ok("");
    }
  }

  /** The comment and import lines that open every generated file. */
  method PushHeader(file: string) returns (str: string)
    ensures str == Header(file)
  {
    str := "//\n";
    str := str + "// Code generated by protots - DO NOT EDIT\n";
    str := str + ("// Source: " + file + "\n");
    str := str + "//\n";
    str := str + "\n";
    str := str + "import { z } from \"zod\";";
    str := str + "\n";
    str := str + "\n";
  }

  /** `to_schema` */
  method ToSchema(proto: Proto) returns (r: Result<string>)
    ensures r == Schema(proto)
  {
    var ctx := NewContext(proto);
    var str := PushHeader(proto.file);
    assert proto.elems[..0] == [];
    var k := 0;
    while k < |proto.elems|
      invariant 0 <= k <= |proto.elems|
      invariant Blocks(ctx, proto.elems[..k]).Ok?
      invariant str == Header(proto.file) + Blocks(ctx, proto.elems[..k]).value
    {
      ghost var before := Blocks(ctx, proto.elems[..k]).value;
      BlocksSnoc(ctx, proto.elems, k);
      var block := FormatElem(ctx, proto.elems[k]);
      if block.Err? {
        BlocksFailFrom(ctx, proto.elems, k + 1);
        return Err(block.error);
      }
      str := str + block.value;
      AppendAssociates(Header(proto.file), before, block.value);
      k := k + 1;
    }
    assert proto.elems[..k] == proto.elems;
    r := Ok(str);
  }
}
