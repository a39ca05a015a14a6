/**
  Proof steps of the generator tests, not claims about the generator: each
  lemma shows that pieces of literal text, as the generator appends them,
  concatenate to the text a test expects. They live in a module that sees
  only `Text`, so that each equality of literal strings is proved on its own.
 */
module ExpectedText {
  import opened Text

  lemma SchemaName()
    ensures "Test" + "Schema" == "TestSchema"
  {
  }

  /** The first line of `Test`'s object declaration. */
  lemma OpenLine()
    ensures "export const " + "TestSchema" + " = z.object({\n" == "export const TestSchema = z.object({\n"
  {
    assert "export const " + "TestSchema" == "export const TestSchema";
  }

  /** The type declaration of `Test`. */
  lemma TypeLine()
    ensures "export type " + "Test" + " = z.infer<typeof " + "TestSchema" + ">;\n\n"
         == "export type Test = z.infer<typeof TestSchema>;\n\n"
  {
    assert "export type " + "Test" == "export type Test";
    assert "export type Test" + " = z.infer<typeof " == "export type Test = z.infer<typeof ";
    assert "export type Test = z.infer<typeof " + "TestSchema" == "export type Test = z.infer<typeof TestSchema";
  }

  lemma OneMember()
    ensures "one" + ": " + "z.string()" == "one: z.string()"
  {
  }

  lemma TwoMember()
    ensures "two" + ": " + "z.number()" == "two: z.number()"
  {
  }

  /** The header followed by an object declaration of four lines is the five parts in order. */
  lemma FileOfFourLines(header: string, open: string, member: string, close: string, typeDecl: string)
    ensures header + (open + member + close + typeDecl) == header + open + member + close + typeDecl
  {
    AppendAssociates(header, open + member + close, typeDecl);
    AppendAssociates(header, open + member, close);
    AppendAssociates(header, open, member);
  }

  /** The member line of a oneof `test` with the single case `one: z.string()`. */
  lemma SingleCaseText()
    ensures "  " + ("test" + ": " + ("z.object({ " + "one: z.string()" + " })")) + ",\n" == "  test: z.object({ one: z.string() }),\n"
  {
    var inner := "z.object({ " + "one: z.string()" + " })";
    AppendAssociates("  ", "test" + ": ", inner);
    assert "test" + ": " == "test: " && "  " + "test: " == "  test: ";
    AppendAssociates("  test: ", "z.object({ " + "one: z.string()", " })");
    AppendAssociates("  test: ", "z.object({ ", "one: z.string()");
    assert "  test: " + "z.object({ " == "  test: z.object({ ";
    assert "  test: z.object({ " + "one: z.string()" == "  test: z.object({ one: z.string()";
    assert "  test: z.object({ one: z.string()" + " })" == "  test: z.object({ one: z.string() })";
  }

  /** Text after `p`: one case object. */
  lemma AppendCase(p: string, line: string)
    ensures p + ("z.object({ " + line + " })") == p + "z.object({ " + line + " })"
  {
    AppendAssociates(p, "z.object({ " + line, " })");
    AppendAssociates(p, "z.object({ ", line);
  }

  /** The member line of the union up to the second case's member. */
  lemma UnionLineHead()
    ensures "  test: z.union([" + "z.object({ " + "one: z.string()" + " })" + ", " + "z.object({ "
         == "  test: z.union([z.object({ one: z.string() }), z.object({ "
  {
    assert "  test: z.union([" + "z.object({ " == "  test: z.union([z.object({ ";
    assert "  test: z.union([z.object({ " + "one: z.string()" == "  test: z.union([z.object({ one: z.string()";
    assert "  test: z.union([z.object({ one: z.string()" + " })" == "  test: z.union([z.object({ one: z.string() })";
    assert "  test: z.union([z.object({ one: z.string() })" + ", " == "  test: z.union([z.object({ one: z.string() }), ";
  }

  lemma UnionLineSecondCase()
    ensures "  test: z.union([z.object({ one: z.string() }), z.object({ " + "two: z.number()" + " })"
         == "  test: z.union([z.object({ one: z.string() }), z.object({ two: z.number() })"
  {
    assert "  test: z.union([z.object({ one: z.string() }), z.object({ " + "two: z.number()"
        == "  test: z.union([z.object({ one: z.string() }), z.object({ two: z.number()";
  }

  lemma UnionLineTail()
    ensures "  test: z.union([z.object({ one: z.string() }), z.object({ two: z.number() })" + "])" + ",\n"
         == "  test: z.union([z.object({ one: z.string() }), z.object({ two: z.number() })]),\n"
  {
    assert "  test: z.union([z.object({ one: z.string() }), z.object({ two: z.number() })" + "])"
        == "  test: z.union([z.object({ one: z.string() }), z.object({ two: z.number() })])";
  }

  /** The member line of the union, written out piece by piece. */
  lemma UnionLinePieces()
    ensures "  test: z.union([" + "z.object({ " + "one: z.string()" + " })" + ", " + "z.object({ " + "two: z.number()" + " })" + "])" + ",\n"
         == "  test: z.union([z.object({ one: z.string() }), z.object({ two: z.number() })]),\n"
  {
    UnionLineHead();
    UnionLineSecondCase();
    UnionLineTail();
  }

  /** The member line of a oneof `test` whose two cases are `one: z.string()` and `two: z.number()`. */
  lemma UnionCaseText()
    ensures "  " + ("test" + ": " + ("z.union([" + (("z.object({ " + "one: z.string()" + " })") + ", " + ("z.object({ " + "two: z.number()" + " })")) + "])")) + ",\n"
         == "  test: z.union([z.object({ one: z.string() }), z.object({ two: z.number() })]),\n"
  {
    UnionLinePieces();
    var x1, x2 := "z.object({ " + "one: z.string()" + " })", "z.object({ " + "two: z.number()" + " })";
    var j := x1 + ", " + x2;
    var u := "z.union([" + j + "])";
    AppendAssociates("  ", "test" + ": ", u);
    assert "test" + ": " == "test: " && "  " + "test: " == "  test: ";
    AppendAssociates("  test: ", "z.union([" + j, "])");
    AppendAssociates("  test: ", "z.union([", j);
    var p1 := "  test: z.union([";
    assert "  test: " + "z.union([" == p1;
    AppendAssociates(p1, x1 + ", ", x2);
    AppendAssociates(p1, x1, ", ");
    AppendCase(p1, "one: z.string()");
    AppendCase(p1 + "z.object({ " + "one: z.string()" + " })" + ", ", "two: z.number()");
  }

  /** The member of a map field `counts` from `string` to `int32`. */
  lemma RecordText()
    ensures "counts" + ": z.record(" + "z.string()" + ", " + "z.number()" + ")" == "counts: z.record(z.string(), z.number())"
  {
    assert "counts" + ": z.record(" == "counts: z.record(";
    assert "counts: z.record(" + "z.string()" == "counts: z.record(z.string()";
    assert "counts: z.record(z.string()" + ", " == "counts: z.record(z.string(), ";
    assert "counts: z.record(z.string(), " + "z.number()" == "counts: z.record(z.string(), z.number()";
  }

  /** The names of `X` nested in `Test`. */
  lemma NestedNames()
    ensures "Test" + "_" + "X" == "Test_X" && "Test_X" + "Schema" == "Test_XSchema"
  {
  }

  /** The default of the enum `E` being `B`. */
  lemma CatchText()
    ensures ".catch(" + "E" + "." + "B" + ")" == ".catch(E.B)"
  {
    assert ".catch(" + "E" == ".catch(E" && ".catch(E" + "." == ".catch(E." && ".catch(E." + "B" == ".catch(E.B";
  }
}
