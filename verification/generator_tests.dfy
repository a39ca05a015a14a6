/**
  The generator on small files: the two exact-output tests of
  src/typescript.rs, and the error and ordering cases of the generator on
  files of the same shape.
 */
module GeneratorTests {
  import opened Wrappers
  import opened Errors
  import opened Ast
  import opened Text
  import opened Naming
  import opened Symbols
  import opened Generator
  import opened ExpectedText

  // ---------------------------------------------------------------------
  // A file with one message `Test`
  // ---------------------------------------------------------------------

  function MessageFile(fields: seq<Field>): Proto
  {
    Proto("file.proto", "proto3", [Elem.Message(Msg.Msg("Test", fields))])
  }

  /** The file of the tests: `Test` holding the one oneof `test`. */
  function OneofFile(cases: seq<Field>): Proto
  {
    MessageFile([Field.OneOf("test", cases)])
  }

  function TestType(): ProtoType
  {
    NewProtoType("Test", [])
  }

  /** A field that declares nothing adds no entry, so the only entry is `Test`. */
  lemma SingleFieldContext(field: Field)
    requires !field.SubMessage? && !field.SubEnum?
    ensures ContextOf(MessageFile([field])).types == map["Test" := TestType()]
  {
    var elem := Elem.Message(Msg.Msg("Test", [field]));
    assert [field][..0] == [];
    assert CollectedAll([field], ["Test"]) == [];
    assert ElemEntries(elem) == [TestType()];
    assert [elem][..0] == [];
    assert Entries([elem]) == [TestType()];
    assert [TestType()][..0] == [];
  }

  /** Declarations inside the oneof are not collected, so the only entry is `Test`. */
  lemma OneofFileContext(cases: seq<Field>)
    ensures ContextOf(OneofFile(cases)).types == map["Test" := TestType()]
  {
    SingleFieldContext(Field.OneOf("test", cases));
  }

  /** A file whose one element is the message `msg`, declared as `ptype`: the header, the nested blocks, then the object. */
  lemma OneMessageSchema(proto: Proto, msg: Msg, ptype: ProtoType, body: Body)
    requires proto.elems == [Elem.Message(msg)]
    requires Get(ContextOf(proto), msg.name, Option.None) == Some(ptype)
    requires FieldsOut(ContextOf(proto), msg.fields, Some(ptype)) == Ok(body)
    ensures Schema(proto) == Ok(Header(proto.file) + (Concat(body.nested) + ObjectDecl(ptype, body.lines)))
  {
    var ctx := ContextOf(proto);
    var block := Concat(body.nested) + ObjectDecl(ptype, body.lines);
    assert MsgBlock(ctx, msg, Option.None) == Ok(block);
    assert proto.elems[..0] == [];
    assert Blocks(ctx, proto.elems) == Ok("" + block);
    assert "" + block == block;
  }

  /** When a field of the one message of a file fails to format, so does the file, with that error. */
  lemma OneMessageFails(proto: Proto, msg: Msg, ptype: ProtoType)
    requires proto.elems == [Elem.Message(msg)]
    requires Get(ContextOf(proto), msg.name, Option.None) == Some(ptype)
    requires FieldsOut(ContextOf(proto), msg.fields, Some(ptype)).Err?
    ensures Schema(proto) == Err(FieldsOut(ContextOf(proto), msg.fields, Some(ptype)).error)
  {
    var ctx := ContextOf(proto);
    var e := FieldsOut(ctx, msg.fields, Some(ptype)).error;
    assert MsgBlock(ctx, msg, Option.None) == Err(e);
    assert proto.elems[..0] == [];
    assert Blocks(ctx, proto.elems) == Err(e);
  }

  /** The oneof `test` becomes the one member of `Test`. */
  lemma OneofMember(ctx: Context, cases: seq<Field>, lines: seq<string>)
    requires FieldsOut(ctx, cases, Some(TestType())) == Ok(Body(lines, []))
    ensures FieldsOut(ctx, [Field.OneOf("test", cases)], Some(TestType())) == Ok(Body(["test" + ": " + OneofText(lines)], []))
  {
    var oneof := Field.OneOf("test", cases);
    SnakeToCamelKeepsPlainName("test");
    var member := "test" + ": " + OneofText(lines);
    assert FieldOut(ctx, oneof, Some(TestType())) == Ok(Formatted(Some(member), []));
    FieldsOutSingle(ctx, oneof, Some(TestType()));
  }

  /** With the oneof's cases formatted to `lines`, the file is the header and `Test`'s object with the one member `test`. */
  lemma OneofFileSchema(cases: seq<Field>, lines: seq<string>)
    requires FieldsOut(ContextOf(OneofFile(cases)), cases, Some(TestType())) == Ok(Body(lines, []))
    ensures Schema(OneofFile(cases)) == Ok(Header("file.proto") + ObjectDecl(TestType(), ["test" + ": " + OneofText(lines)]))
  {
    var ctx := ContextOf(OneofFile(cases));
    OneofFileContext(cases);
    OneofMember(ctx, cases, lines);
    var member := "test" + ": " + OneofText(lines);
    OneMessageSchema(OneofFile(cases), Msg.Msg("Test", [Field.OneOf("test", cases)]), TestType(), Body([member], []));
    assert Concat([]) + ObjectDecl(TestType(), [member]) == ObjectDecl(TestType(), [member]);
  }

  /** The declarations of `Test` with one member, line by line. */
  lemma TestObjectDecl(member: string)
    ensures ObjectDecl(TestType(), [member]) ==
      "export const TestSchema = z.object({\n" + ("  " + member + ",\n") + "});\n\n" + "export type Test = z.infer<typeof TestSchema>;\n\n"
  {
    assert TestType().tsName == "Test" && TestType().schema == "Test" + "Schema";
    SchemaName();
    OpenLine();
    TypeLine();
    assert [member][..0] == [];
    assert Members([member]) == "" + "  " + member + ",\n";
    assert "" + "  " == "  ";
  }

  /** The case `string one = 1;` of the tests. */
  function One(): Field
  {
    Field.Single("one", "string", 1, Flag.None)
  }

  /** The case `int32 two = 2;` of the tests. */
  function Two(): Field
  {
    Field.Single("two", "int32", 2, Flag.None)
  }

  /** A field without underscores, of a built-in type and without a flag, is its name and the type's validator. */
  lemma BuiltinField(ctx: Context, name: string, t: string, number: I32, parent: Option<ProtoType>)
    requires '_' !in name && Builtin(t).Some?
    ensures FieldOut(ctx, Field.Single(name, t, number, Flag.None), parent)
         == Ok(Formatted(Some(name + ": " + Builtin(t).value), []))
  {
    SnakeToCamelKeepsPlainName(name);
  }

  /** Two fields that format without error: their members and nested blocks in order. */
  lemma FieldsOutPair(ctx: Context, f1: Field, f2: Field, parent: Option<ProtoType>)
    requires FieldOut(ctx, f1, parent).Ok? && FieldOut(ctx, f2, parent).Ok?
    ensures var a, b := FieldOut(ctx, f1, parent).value, FieldOut(ctx, f2, parent).value;
      FieldsOut(ctx, [f1, f2], parent) == Ok(Body(Lines(a.line) + Lines(b.line), a.nested + b.nested))
  {
    var fields := [f1, f2];
    assert fields[..1] == [f1] && fields[1] == f2 && fields[..2] == fields;
    FieldsOutSingle(ctx, f1, parent);
    var a := FieldOut(ctx, f1, parent).value;
    FieldsOutStep(ctx, fields, 1, parent, Body(Lines(a.line), a.nested));
  }

  lemma OneFormats(ctx: Context, parent: Option<ProtoType>)
    ensures FieldOut(ctx, One(), parent) == Ok(Formatted(Some("one: z.string()"), []))
  {
    StringValidator();
    BuiltinField(ctx, "one", "string", 1, parent);
    OneMember();
  }

  lemma StringValidator()
    ensures Builtin("string") == Some("z.string()")
  {
  }

  lemma Int32Validator()
    ensures Builtin("int32") == Some("z.number()")
  {
    assert "int32" in {"int32", "double", "float", "uint32", "sint32", "fixed32", "sfixed32"};
  }

  /** The validators of the two scalar types the tests use, whatever the table holds. */
  lemma ScalarValidators(ctx: Context, parent: Option<ProtoType>)
    ensures TypeName(ctx, "string", parent) == Ok("z.string()")
    ensures TypeName(ctx, "int32", parent) == Ok("z.number()")
  {
    StringValidator();
    Int32Validator();
  }

  lemma TwoFormats(ctx: Context, parent: Option<ProtoType>)
    ensures FieldOut(ctx, Two(), parent) == Ok(Formatted(Some("two: z.number()"), []))
  {
    Int32Validator();
    BuiltinField(ctx, "two", "int32", 2, parent);
    TwoMember();
  }

  /** The member line that the test with a single case expects. */
  lemma SingleCaseLine()
    ensures "  " + ("test" + ": " + OneofText(["one: z.string()"])) + ",\n" == "  test: z.object({ one: z.string() }),\n"
  {
    assert OneofText(["one: z.string()"]) == "z.object({ " + "one: z.string()" + " })";
    SingleCaseText();
  }

  /** `to_schema_single_oneof`: a oneof with one case is that case's object alone, without `z.union`. */
  lemma ToSchemaSingleOneof()
    ensures Schema(OneofFile([One()])) == Ok(
      "//\n" + "// Code generated by protots - DO NOT EDIT\n" + "// Source: " + "file.proto" + "\n" + "//\n" + "\n"
      + "import { z } from \"zod\";" + "\n" + "\n"
      + "export const TestSchema = z.object({\n"
      + "  test: z.object({ one: z.string() }),\n"
      + "});\n\n"
      + "export type Test = z.infer<typeof TestSchema>;\n\n")
  {
    var ctx := ContextOf(OneofFile([One()]));
    OneFormats(ctx, Some(TestType()));
    FieldsOutSingle(ctx, One(), Some(TestType()));
    assert Lines(Some("one: z.string()")) == ["one: z.string()"];
    OneofFileSchema([One()], ["one: z.string()"]);
    var member := "test" + ": " + OneofText(["one: z.string()"]);
    TestObjectDecl(member);
    SingleCaseLine();
    FileOfFourLines(Header("file.proto"), "export const TestSchema = z.object({\n", "  test: z.object({ one: z.string() }),\n",
                    "});\n\n", "export type Test = z.infer<typeof TestSchema>;\n\n");
  }

  /** The union of the two cases of the test, before the pieces are joined into one text. */
  lemma TwoCasesText()
    ensures OneofText(["one: z.string()", "two: z.number()"])
         == "z.union([" + ("z.object({ " + "one: z.string()" + " })" + ", " + ("z.object({ " + "two: z.number()" + " })")) + "])"
  {
    var lines := ["one: z.string()", "two: z.number()"];
    var x1, x2 := "z.object({ " + lines[0] + " })", "z.object({ " + lines[1] + " })";
    assert Cases(lines) == [x1, x2];
    assert [x1, x2][1..] == [x2];
    assert Join([x1, x2], ", ") == x1 + ", " + x2;
  }

  /** The member line that the test with two cases expects. */
  lemma MultipleCasesLine()
    ensures "  " + ("test" + ": " + OneofText(["one: z.string()", "two: z.number()"])) + ",\n"
         == "  test: z.union([z.object({ one: z.string() }), z.object({ two: z.number() })]),\n"
  {
    TwoCasesText();
    UnionCaseText();
  }

  /** The two cases of the test format to their members, in order. */
  lemma TwoCasesFormat(ctx: Context)
    ensures FieldsOut(ctx, [One(), Two()], Some(TestType())) == Ok(Body(["one: z.string()", "two: z.number()"], []))
  {
    OneFormats(ctx, Some(TestType()));
    TwoFormats(ctx, Some(TestType()));
    FieldsOutPair(ctx, One(), Two(), Some(TestType()));
    assert Lines(Some("one: z.string()")) + Lines(Some("two: z.number()")) == ["one: z.string()", "two: z.number()"];
    assert FieldOut(ctx, One(), Some(TestType())).value.nested + FieldOut(ctx, Two(), Some(TestType())).value.nested == [];
  }

  /** `to_schema_multiple_oneof`: two cases become a `z.union` of their objects, in order. */
  lemma ToSchemaMultipleOneof()
    ensures Schema(OneofFile([One(), Two()])) == Ok(
      "//\n" + "// Code generated by protots - DO NOT EDIT\n" + "// Source: " + "file.proto" + "\n" + "//\n" + "\n"
      + "import { z } from \"zod\";" + "\n" + "\n"
      + "export const TestSchema = z.object({\n"
      + "  test: z.union([z.object({ one: z.string() }), z.object({ two: z.number() })]),\n"
      + "});\n\n"
      + "export type Test = z.infer<typeof TestSchema>;\n\n")
  {
    var lines := ["one: z.string()", "two: z.number()"];
    TwoCasesFormat(ContextOf(OneofFile([One(), Two()])));
    OneofFileSchema([One(), Two()], lines);
    TestObjectDecl("test" + ": " + OneofText(lines));
    MultipleCasesLine();
    FileOfFourLines(Header("file.proto"), "export const TestSchema = z.object({\n",
                    "  test: z.union([z.object({ one: z.string() }), z.object({ two: z.number() })]),\n",
                    "});\n\n", "export type Test = z.infer<typeof TestSchema>;\n\n");
  }

  // ---------------------------------------------------------------------
  // Errors
  // ---------------------------------------------------------------------

  /** A field of a type that is neither built in nor found in the table fails with `ProtobufTypeNotFound` naming that type. */
  lemma UnknownField(ctx: Context, name: string, t: string, number: I32, parent: Option<ProtoType>)
    requires Builtin(t).None? && Get(ctx, t, parent).None?
    ensures FieldOut(ctx, Field.Single(name, t, number, Flag.None), parent) == Err(ProtobufTypeNotFound(t))
  {
  }

  /** A field of a type that is neither built in nor declared aborts the file with `ProtobufTypeNotFound` naming that type. */
  lemma UnknownTypeAborts()
    ensures Schema(MessageFile([Field.Single("f", "Foo", 1, Flag.None)])) == Err(ProtobufTypeNotFound("Foo"))
  {
    var field := Field.Single("f", "Foo", 1, Flag.None);
    SingleFieldContext(field);
    var ctx := ContextOf(MessageFile([field]));
    assert Builtin("Foo").None?;
    assert "Test" + "." + "Foo" != "Test";
    UnknownField(ctx, "f", "Foo", 1, Some(TestType()));
    FieldsOutSingle(ctx, field, Some(TestType()));
    OneMessageFails(MessageFile([field]), Msg.Msg("Test", [field]), TestType());
  }

  /**
    A message declared inside a oneof has no entry, so formatting it fails:
    the file is `ProtobufTypeNotFound("B")`.
   */
  lemma MessageInOneofNotFound()
    ensures Schema(OneofFile([SubMessage(Msg.Msg("B", []))])) == Err(ProtobufTypeNotFound("B"))
  {
    var sub := SubMessage(Msg.Msg("B", []));
    var oneof := Field.OneOf("test", [sub]);
    OneofFileContext([sub]);
    var ctx := ContextOf(OneofFile([sub]));
    assert "Test" + "." + "B" != "Test";
    assert Get(ctx, "B", Some(TestType())).None?;
    assert FieldOut(ctx, sub, Some(TestType())) == Err(ProtobufTypeNotFound("B"));
    FieldsOutSingle(ctx, sub, Some(TestType()));
    assert FieldOut(ctx, oneof, Some(TestType())) == Err(ProtobufTypeNotFound("B"));
    FieldsOutSingle(ctx, oneof, Some(TestType()));
    OneMessageFails(OneofFile([sub]), Msg.Msg("Test", [oneof]), TestType());
  }

  // ---------------------------------------------------------------------
  // Nested declarations come first
  // ---------------------------------------------------------------------

  /** The fields of `message Test { message X {} int32 y = 1; }` */
  function NestedFields(): seq<Field>
  {
    [SubMessage(Msg.Msg("X", [])), Field.Single("y", "int32", 1, Flag.None)]
  }

  function NestedFile(): Proto
  {
    MessageFile(NestedFields())
  }

  function NestedType(): ProtoType
  {
    NewProtoType("X", ["Test"])
  }

  /** The table of the nested file: `Test`, and `X` under `Test.X`. */
  predicate NestedTable(ctx: Context)
  {
    ctx.types == map["Test" := TestType(), "Test.X" := NestedType()]
  }

  lemma NestedFileContext()
    ensures NestedTable(ContextOf(NestedFile()))
  {
    var fields := NestedFields();
    assert fields[..1] == [fields[0]] && fields[..1][..0] == [];
    assert Collected(fields[0], ["Test"]) == [NestedType()];
    assert CollectedAll(fields, ["Test"]) == [NestedType()];
    var entries := [TestType(), NestedType()];
    assert NestedFile().elems[..0] == [];
    assert Entries(NestedFile().elems) == entries;
    assert entries[..1] == [TestType()] && entries[..1][..0] == [];
    assert TestType().fullName == "Test";
    assert Table(entries[..1]) == map["Test" := TestType()];
    assert NestedType().fullName == "Test" + "." + "X" == "Test.X";
  }

  lemma NestedTypeNames()
    ensures NestedType().tsName == "Test_X" && NestedType().schema == "Test_XSchema"
  {
    DeclaredNames(["Test", "X"]);
    assert ["Test", "X"][1..] == ["X"];
    assert Join(["Test", "X"], "_") == "Test" + "_" + "X";
    NestedNames();
  }

  /** Inside `Test`, the name `X` resolves to `Test.X`, whose block has no members. */
  lemma NestedMessageBlock(ctx: Context)
    requires NestedTable(ctx)
    ensures FieldOut(ctx, SubMessage(Msg.Msg("X", [])), Some(TestType()))
         == Ok(Formatted(Option.None, [ObjectDecl(NestedType(), [])]))
  {
    assert TestType().fullName == "Test" && "Test" + "." + "X" == "Test.X";
    assert Get(ctx, "X", Some(TestType())) == Some(NestedType());
    assert FieldsOut(ctx, [], Some(NestedType())) == Ok(Body([], []));
    assert Concat([]) + ObjectDecl(NestedType(), []) == ObjectDecl(NestedType(), []);
  }

  /** The fields of `Test`: the nested block goes to the nested list, the member `y` to the lines. */
  lemma NestedFileFields(ctx: Context)
    requires NestedTable(ctx)
    ensures FieldsOut(ctx, NestedFields(), Some(TestType()))
         == Ok(Body(["y" + ": " + "z.number()"], [ObjectDecl(NestedType(), [])]))
  {
    var x, y := SubMessage(Msg.Msg("X", [])), Field.Single("y", "int32", 1, Flag.None);
    NestedMessageBlock(ctx);
    Int32Validator();
    BuiltinField(ctx, "y", "int32", 1, Some(TestType()));
    FieldsOutPair(ctx, x, y, Some(TestType()));
    assert [x, y] == NestedFields();
    assert Lines(Option.None) + Lines(Some("y" + ": " + "z.number()")) == ["y" + ": " + "z.number()"];
    assert [ObjectDecl(NestedType(), [])] + [] == [ObjectDecl(NestedType(), [])];
  }

  /**
    `format_msg` puts the block of a nested message before the object of
    its container, although the nested message is declared among the
    fields; the nested message is named by its scope path joined with `_`.
   */
  lemma NestedBlockFirst()
    ensures NestedType().tsName == "Test_X" && NestedType().schema == "Test_XSchema"
    ensures Schema(NestedFile()) == Ok(Header("file.proto") + (ObjectDecl(NestedType(), []) + ObjectDecl(TestType(), ["y" + ": " + "z.number()"])))
  {
    NestedTypeNames();
    NestedFileContext();
    var ctx := ContextOf(NestedFile());
    NestedFileFields(ctx);
    var xDecl := ObjectDecl(NestedType(), []);
    assert Get(ctx, "Test", Option.None) == Some(TestType());
    assert Concat([xDecl]) == xDecl by { assert [xDecl][..0] == []; }
    OneMessageSchema(NestedFile(), Msg.Msg("Test", NestedFields()), TestType(), Body(["y" + ": " + "z.number()"], [xDecl]));
  }

  // ---------------------------------------------------------------------
  // Fields and enums
  // ---------------------------------------------------------------------

  /** A map field is a `z.record` of the key's and the value's validators. */
  lemma MapFieldIsRecord(ctx: Context, parent: Option<ProtoType>)
    ensures FieldOut(ctx, Field.Map("counts", "string", "int32", 1), parent)
         == Ok(Formatted(Some("counts: z.record(z.string(), z.number())"), []))
  {
    StringValidator();
    Int32Validator();
    BuiltinMapField(ctx, "counts", "string", "int32", 1, parent);
    RecordText();
  }

  /** A map field without underscores in its name, between built-in types: a `z.record` of the two validators. */
  lemma BuiltinMapField(ctx: Context, name: string, key: string, value: string, number: I32, parent: Option<ProtoType>)
    requires '_' !in name && Builtin(key).Some? && Builtin(value).Some?
    ensures FieldOut(ctx, Field.Map(name, key, value, number), parent)
         == Ok(Formatted(Some(name + ": z.record(" + Builtin(key).value + ", " + Builtin(value).value + ")"), []))
  {
    SnakeToCamelKeepsPlainName(name);
  }

  /** `enum E { A = 1; B = 0; C = 2; reserved 5; }` */
  function EnumValues(): seq<EnumValue>
  {
    [EnumValue.Single("A", 1), EnumValue.Single("B", 0), EnumValue.Single("C", 2), EnumValue.Reserved(5)]
  }

  /**
    The default of an enum is its first value numbered 0, wherever it is
    declared; the reserved value leaves no member.
   */
  lemma EnumDefaultIsFirstZero()
    ensures FirstZero(EnumValues()) == Some("B")
    ensures Catch("E", FirstZero(EnumValues())) == ".catch(E.B)"
    ensures EnumLines(EnumValues()) == EnumLines(EnumValues()[..3])
  {
    var values := EnumValues();
    assert !IsDefault(values[0]) && IsDefault(values[1]);
    assert values[1..][0] == values[1];
    CatchText();
    assert values[..3] == values[..|values| - 1];
    assert EnumLines(values[..3]) + "" == EnumLines(values[..3]);
  }

  /** A reserved number 0 is not a default: with no `Single` value numbered 0 there is no `.catch`. */
  lemma ReservedZeroIsNoDefault()
    ensures FirstZero([EnumValue.Single("A", 1), EnumValue.Reserved(0)]) == Option.None
    ensures Catch("E", FirstZero([EnumValue.Single("A", 1), EnumValue.Reserved(0)])) == ""
  {
  }
}
