/**
  The symbol table of the generator (src/typescript.rs, `ProtoType` and
  `Context`): every message and enum the file declares, at the top level or
  nested in messages, under its dotted full name.
 */
module Symbols {
  import opened Wrappers
  import opened Text
  import opened Ast

  /** The three names of one declaration. */
  datatype ProtoType = ProtoType(fullName: string, tsName: string, schema: string)

  /**
    `ProtoType::new`: the names of `name` declared in the scope `parents`
    (outermost first); the scope path joined with '.', joined with '_', and
    the latter followed by `Schema`.
   */
  function NewProtoType(name: string, parents: seq<string>): (p: ProtoType)
    ensures parents == [] ==> p.fullName == name && p.tsName == name
    ensures parents != [] ==> p.fullName == Join(parents, ".") + "." + name
    ensures parents != [] ==> p.tsName == Join(parents, "_") + "_" + name
    ensures p.schema == p.tsName + "Schema"
  {
    JoinSnoc(parents, name, ".");
    JoinSnoc(parents, name, "_");
    var parts := parents + [name];
    ProtoType(Join(parts, "."), Join(parts, "_"), Join(parts, "_") + "Schema")
  }

  /** The declaration at the scope path `path`, innermost name last. */
  function Declared(path: seq<string>): ProtoType
    requires |path| > 0
  {
    NewProtoType(path[|path| - 1], path[..|path| - 1])
  }

  /** The names of a declaration are its scope path joined with '.' and with '_'. */
  lemma DeclaredNames(path: seq<string>)
    requires |path| > 0
    ensures Declared(path).fullName == Join(path, ".") && Declared(path).tsName == Join(path, "_")
  {
    var init, last := path[..|path| - 1], path[|path| - 1];
    var parts := init + [last];
    assert Declared(path) == ProtoType(Join(parts, "."), Join(parts, "_"), Join(parts, "_") + "Schema");
    assert parts == path;
  }

  /** A declaration nested one level deeper is named after its container's full name. */
  lemma NestedFullName(name: string, inner: string, parents: seq<string>)
    ensures NewProtoType(name, parents + [inner]).fullName == NewProtoType(inner, parents).fullName + "." + name
    ensures NewProtoType(name, parents + [inner]).tsName == NewProtoType(inner, parents).tsName + "_" + name
  {
    JoinSnoc(parents, inner, ".");
    JoinSnoc(parents, inner, "_");
  }

  // ---------------------------------------------------------------------
  // Collecting the declarations
  // ---------------------------------------------------------------------

  /** `Context::collect`: the declarations a field introduces, in the scope `parents`, container before contents. */
  function Collected(field: Field, parents: seq<string>): seq<ProtoType>
    decreases field
  {
    match field
    case SubMessage(msg) => [NewProtoType(msg.name, parents)] + CollectedAll(msg.fields, parents + [msg.name])
    case SubEnum(e) => [NewProtoType(e.name, parents)]
    case _ => []
  }

  /** The declarations of a list of fields, field by field (`flat_map` over `collect`). */
  function CollectedAll(fields: seq<Field>, parents: seq<string>): seq<ProtoType>
    decreases fields
  {
    if |fields| == 0 then []
    else CollectedAll(fields[..|fields| - 1], parents) + Collected(fields[|fields| - 1], parents)
  }

  /** The declarations of one top-level element, in the order `Context::new` inserts them. */
  function ElemEntries(elem: Elem): seq<ProtoType>
  {
    match elem
    case Message(msg) => [NewProtoType(msg.name, [])] + CollectedAll(msg.fields, [msg.name])
    case Enum(e) => [NewProtoType(e.name, [])]
    case _ => []
  }

  function Entries(elems: seq<Elem>): seq<ProtoType>
  {
    if |elems| == 0 then [] else Entries(elems[..|elems| - 1]) + ElemEntries(elems[|elems| - 1])
  }

  /** The map after inserting the entries in order, each under its full name. */
  function Table(entries: seq<ProtoType>): map<string, ProtoType>
  {
    if |entries| == 0 then map[]
    else
      var last := entries[|entries| - 1];
      Table(entries[..|entries| - 1])[last.fullName := last]
  }

  datatype Context = Context(types: map<string, ProtoType>)

  /** The table `Context::new` builds for a file. */
  function ContextOf(proto: Proto): Context
  {
    Context(Table(Entries(proto.elems)))
  }

  /**
    `Context::get`: the name as written, and only when that is missing and a
    parent is given, the name prefixed with the parent's full name and '.'.
   */
  function Get(ctx: Context, name: string, parent: Option<ProtoType>): (r: Option<ProtoType>)
    ensures name in ctx.types ==> r == Some(ctx.types[name])
    ensures name !in ctx.types && parent.None? ==> r.None?
    ensures name !in ctx.types && parent.Some? ==>
      var scoped := parent.value.fullName + "." + name;
      r == if scoped in ctx.types then Some(ctx.types[scoped]) else Option.None
  {
    if name in ctx.types then Some(ctx.types[name])
    else if parent.None? then Option.None
    else
      var scoped := parent.value.fullName + "." + name;
      if scoped in ctx.types then Some(ctx.types[scoped]) else Option.None
  }

  // ---------------------------------------------------------------------
  // The imperative construction
  // ---------------------------------------------------------------------

  lemma TableSnoc(entries: seq<ProtoType>, e: ProtoType)
    ensures Table(entries + [e]) == Table(entries)[e.fullName := e]
  {
    assert (entries + [e])[..|entries|] == entries;
  }

  lemma CollectedAllSnoc(fields: seq<Field>, k: nat, parents: seq<string>)
    requires k < |fields|
    ensures CollectedAll(fields[..k + 1], parents) == CollectedAll(fields[..k], parents) + Collected(fields[k], parents)
  {
    assert fields[..k + 1][..k] == fields[..k];
  }

  /** `Context::collect`, pushing onto a vector and recursing with the extended scope. */
  method Collect(field: Field, parents: seq<string>) returns (types: seq<ProtoType>)
    ensures types == Collected(field, parents)
    decreases field
  {
    types := [];
    match field {
      case SubMessage(msg) =>
        types := types + [NewProtoType(msg.name, parents)];
        var scope := parents + [msg.name];
        var k := 0;
        while k < |msg.fields|
          invariant 0 <= k <= |msg.fields|
          invariant types == [NewProtoType(msg.name, parents)] + CollectedAll(msg.fields[..k], scope)
        {
          var inner := Collect(msg.fields[k], scope);
          CollectedAllSnoc(msg.fields, k, scope);
          types := types + inner;
          k := k + 1;
        }
        assert msg.fields[..k] == msg.fields;
      case SubEnum(e) =>
        types := types + [NewProtoType(e.name, parents)];
      case _ =>
    }
  }

  /** Inserts `entries` into `types` in order. */
  method InsertAll(types: map<string, ProtoType>, ghost before: seq<ProtoType>, entries: seq<ProtoType>)
    returns (types': map<string, ProtoType>)
    requires types == Table(before)
    ensures types' == Table(before + entries)
  {
    types' := types;
    var n := 0;
    assert before + entries[..0] == before;
    while n < |entries|
      invariant 0 <= n <= |entries|
      invariant types' == Table(before + entries[..n])
    {
      TableSnoc(before + entries[..n], entries[n]);
      assert before + entries[..n + 1] == before + entries[..n] + [entries[n]];
      types' := types'[entries[n].fullName := entries[n]];
      n := n + 1;
    }
    assert entries[..n] == entries;
  }

  /** The `Elem::Message` arm of `Context::new`: the message itself, then what each of its fields collects. */
  method InsertMessage(types: map<string, ProtoType>, ghost before: seq<ProtoType>, msg: Msg)
    returns (types': map<string, ProtoType>)
    requires types == Table(before)
    ensures types' == Table(before + ElemEntries(Elem.Message(msg)))
  {
    var top := NewProtoType(msg.name, []);
    TableSnoc(before, top);
    types' := types[msg.name := top];
    ghost var done := before + [top];
    var j := 0;
    assert CollectedAll(msg.fields[..0], [msg.name]) == [];
    while j < |msg.fields|
      invariant 0 <= j <= |msg.fields|
      invariant done == before + [top] + CollectedAll(msg.fields[..j], [msg.name])
      invariant types' == Table(done)
    {
      var collected := Collect(msg.fields[j], [msg.name]);
      types' := InsertAll(types', done, collected);
      CollectedAllSnoc(msg.fields, j, [msg.name]);
      AppendAssociates(before + [top], CollectedAll(msg.fields[..j], [msg.name]), collected);
      done := done + collected;
      j := j + 1;
    }
    assert msg.fields[..j] == msg.fields;
    AppendAssociates(before, [top], CollectedAll(msg.fields, [msg.name]));
  }

  /** `Context::new`: the top-level messages and enums and everything nested in messages, in file order. */
  method NewContext(proto: Proto) returns (ctx: Context)
    ensures ctx == ContextOf(proto)
  {
    var types: map<string, ProtoType> := map[];
    var k := 0;
    while k < |proto.elems|
      invariant 0 <= k <= |proto.elems|
      invariant types == Table(Entries(proto.elems[..k]))
    {
      ghost var before := Entries(proto.elems[..k]);
      match proto.elems[k] {
        case Message(msg) =>
          types := InsertMessage(types, before, msg);
        case Enum(e) =>
          TableSnoc(before, NewProtoType(e.name, []));
          types := types[e.name := NewProtoType(e.name, [])];
        case _ =>
          assert before == before + ElemEntries(proto.elems[k]);
      }
      assert proto.elems[..k + 1][..k] == proto.elems[..k];
      k := k + 1;
    }
    assert proto.elems[..k] == proto.elems;
    ctx := Context(types);
  }

  // ---------------------------------------------------------------------
  // What the table holds
  // ---------------------------------------------------------------------

  /** A name is in the table exactly when some entry carries it as its full name. */
  lemma {:induction false} TableKeys(entries: seq<ProtoType>, name: string)
    ensures name in Table(entries) <==> exists j :: 0 <= j < |entries| && entries[j].fullName == name
  {
    if |entries| > 0 {
      var init := entries[..|entries| - 1];
      TableKeys(init, name);
      if name in Table(entries) && name != entries[|entries| - 1].fullName {
        var j :| 0 <= j < |init| && init[j].fullName == name;
        assert entries[j].fullName == name;
      }
      if exists j :: 0 <= j < |entries| && entries[j].fullName == name {
        var j :| 0 <= j < |entries| && entries[j].fullName == name;
        if j < |entries| - 1 {
          assert init[j].fullName == name;
        }
      }
    }
  }

  /** Of several entries with the same full name, the one inserted last is the one the table keeps. */
  lemma {:induction false} TableLastWins(entries: seq<ProtoType>, j: nat)
    requires j < |entries|
    requires forall later :: j < later < |entries| ==> entries[later].fullName != entries[j].fullName
    ensures entries[j].fullName in Table(entries) && Table(entries)[entries[j].fullName] == entries[j]
  {
    if j < |entries| - 1 {
      var init := entries[..|entries| - 1];
      assert init[j] == entries[j];
      TableLastWins(init, j);
    }
  }

  /** Every value in the table is an entry, stored under its own full name. */
  lemma {:induction false} TableValues(entries: seq<ProtoType>, name: string)
    requires name in Table(entries)
    ensures Table(entries)[name] in entries && Table(entries)[name].fullName == name
  {
    var init := entries[..|entries| - 1];
    if name != entries[|entries| - 1].fullName {
      TableValues(init, name);
    }
  }

  /**
    `path` is the scope path, relative to the container of `fields`, of a
    message or enum declared in `fields` or, recursively, in the nested
    messages among them. Declarations inside a `oneof` do not count.
   */
  ghost predicate FieldsDeclare(fields: seq<Field>, path: seq<string>)
    decreases fields
  {
    exists k :: 0 <= k < |fields| && FieldDeclares(fields[k], path)
  }

  ghost predicate FieldDeclares(field: Field, path: seq<string>)
    decreases field
  {
    match field
    case SubMessage(msg) => |path| > 0 && msg.name == path[0] && (|path| == 1 || FieldsDeclare(msg.fields, path[1..]))
    case SubEnum(e) => path == [e.name]
    case _ => false
  }

  /** `path` is the full scope path of a message or enum of the file: a top-level one, or one nested in messages. */
  ghost predicate Declares(proto: Proto, path: seq<string>)
  {
    exists k :: 0 <= k < |proto.elems| && ElemDeclares(proto.elems[k], path)
  }

  ghost predicate ElemDeclares(elem: Elem, path: seq<string>)
  {
    match elem
    case Message(msg) => FieldDeclares(SubMessage(msg), path)
    case Enum(e) => path == [e.name]
    case _ => false
  }

  lemma {:induction false} CollectedComplete(field: Field, parents: seq<string>, path: seq<string>)
    requires FieldDeclares(field, path)
    ensures |path| > 0 && Declared(parents + path) in Collected(field, parents)
    decreases field
  {
    match field {
      case SubMessage(msg) =>
        if |path| == 1 {
          assert (parents + path)[..|parents + path| - 1] == parents;
        } else {
          CollectedAllComplete(msg.fields, parents + [msg.name], path[1..]);
          assert parents + [msg.name] + path[1..] == parents + path;
        }
      case SubEnum(e) =>
        assert (parents + path)[..|parents + path| - 1] == parents;
    }
  }

  lemma {:induction false} CollectedAllComplete(fields: seq<Field>, parents: seq<string>, path: seq<string>)
    requires FieldsDeclare(fields, path)
    ensures |path| > 0 && Declared(parents + path) in CollectedAll(fields, parents)
    decreases fields
  {
    var k :| 0 <= k < |fields| && FieldDeclares(fields[k], path);
    var init := fields[..|fields| - 1];
    if k == |fields| - 1 {
      CollectedComplete(fields[k], parents, path);
    } else {
      assert init[k] == fields[k];
      CollectedAllComplete(init, parents, path);
    }
  }

  lemma {:induction false} CollectedSound(field: Field, parents: seq<string>, p: ProtoType)
    requires p in Collected(field, parents)
    ensures exists path :: |path| > 0 && FieldDeclares(field, path) && p == Declared(parents + path)
    decreases field
  {
    match field {
      case SubMessage(msg) =>
        if p == NewProtoType(msg.name, parents) {
          var path := [msg.name];
          assert (parents + path)[..|parents + path| - 1] == parents;
          assert FieldDeclares(field, path);
        } else {
          CollectedAllSound(msg.fields, parents + [msg.name], p);
          var rest :| |rest| > 0 && FieldsDeclare(msg.fields, rest) && p == Declared(parents + [msg.name] + rest);
          var path := [msg.name] + rest;
          assert path[1..] == rest;
          AppendAssociates(parents, [msg.name], rest);
          assert FieldDeclares(field, path);
        }
      case SubEnum(e) =>
        var path := [e.name];
        assert (parents + path)[..|parents + path| - 1] == parents;
        assert FieldDeclares(field, path);
    }
  }

  lemma {:induction false} CollectedAllSound(fields: seq<Field>, parents: seq<string>, p: ProtoType)
    requires p in CollectedAll(fields, parents)
    ensures exists path :: |path| > 0 && FieldsDeclare(fields, path) && p == Declared(parents + path)
    decreases fields
  {
    var n := |fields| - 1;
    var init := fields[..n];
    if p in Collected(fields[n], parents) {
      CollectedSound(fields[n], parents, p);
      var path :| |path| > 0 && FieldDeclares(fields[n], path) && p == Declared(parents + path);
      assert FieldsDeclare(fields, path);
    } else {
      CollectedAllSound(init, parents, p);
      var path :| |path| > 0 && FieldsDeclare(init, path) && p == Declared(parents + path);
      var k :| 0 <= k < |init| && FieldDeclares(init[k], path);
      assert fields[k] == init[k];
      assert FieldsDeclare(fields, path);
    }
  }

  /** The entries of one element are what `collect` makes of it as a field of the empty scope. */
  lemma ElemEntriesAsCollected(elem: Elem)
    ensures elem.Message? ==> ElemEntries(elem) == Collected(SubMessage(elem.msg), [])
    ensures elem.Enum? ==> ElemEntries(elem) == Collected(SubEnum(elem.enum), [])
  {
    if elem.Message? {
      assert [] + [elem.msg.name] == [elem.msg.name];
    }
  }

  lemma ElemEntriesSound(elem: Elem, p: ProtoType)
    requires p in ElemEntries(elem)
    ensures exists path :: |path| > 0 && ElemDeclares(elem, path) && p == Declared(path)
  {
    ElemEntriesAsCollected(elem);
    match elem {
      case Message(msg) =>
        CollectedSound(SubMessage(msg), [], p);
        var path :| |path| > 0 && FieldDeclares(SubMessage(msg), path) && p == Declared([] + path);
        assert [] + path == path;
        assert ElemDeclares(elem, path);
      case Enum(e) =>
        CollectedSound(SubEnum(e), [], p);
        var path :| |path| > 0 && FieldDeclares(SubEnum(e), path) && p == Declared([] + path);
        assert [] + path == path;
        assert ElemDeclares(elem, path);
    }
  }

  lemma ElemEntriesComplete(elem: Elem, path: seq<string>)
    requires ElemDeclares(elem, path)
    ensures |path| > 0 && Declared(path) in ElemEntries(elem)
  {
    ElemEntriesAsCollected(elem);
    assert [] + path == path;
    match elem {
      case Message(msg) => CollectedComplete(SubMessage(msg), [], path);
      case Enum(e) => CollectedComplete(SubEnum(e), [], path);
    }
  }

  /** Every entry of the file is a declaration, named after its scope path. */
  lemma {:induction false} EntriesSound(elems: seq<Elem>, p: ProtoType)
    requires p in Entries(elems)
    ensures exists path, k :: |path| > 0 && 0 <= k < |elems| && ElemDeclares(elems[k], path) && p == Declared(path)
  {
    var n := |elems| - 1;
    var init := elems[..n];
    if p in ElemEntries(elems[n]) {
      ElemEntriesSound(elems[n], p);
    } else {
      EntriesSound(init, p);
      var path, k :| |path| > 0 && 0 <= k < |init| && ElemDeclares(init[k], path) && p == Declared(path);
      assert elems[k] == init[k];
    }
  }

  /** Every declaration of the file is an entry. */
  lemma {:induction false} EntriesComplete(elems: seq<Elem>, path: seq<string>, k: nat)
    requires k < |elems| && ElemDeclares(elems[k], path)
    ensures |path| > 0 && Declared(path) in Entries(elems)
  {
    var n := |elems| - 1;
    var init := elems[..n];
    if k == n {
      ElemEntriesComplete(elems[n], path);
    } else {
      assert init[k] == elems[k];
      EntriesComplete(init, path, k);
    }
  }

  /**
    Each key of a file's table is the dotted scope path of a declaration of
    the file, and the entry under it is that declaration's names.
   */
  lemma ContextKeySound(proto: Proto, name: string)
    requires name in ContextOf(proto).types
    ensures exists path :: |path| > 0 && Declares(proto, path) && Join(path, ".") == name
                            && ContextOf(proto).types[name] == Declared(path)
  {
    var entries := Entries(proto.elems);
    TableValues(entries, name);
    var p := Table(entries)[name];
    EntriesSound(proto.elems, p);
    var path, k :| |path| > 0 && 0 <= k < |proto.elems| && ElemDeclares(proto.elems[k], path) && p == Declared(path);
    assert Declares(proto, path);
    DeclaredNames(path);
  }

  /** Every declaration of a file, top-level or nested in messages, is in the table under its dotted scope path. */
  lemma ContextKeyComplete(proto: Proto, path: seq<string>)
    requires Declares(proto, path)
    ensures |path| > 0 && Join(path, ".") in ContextOf(proto).types
  {
    var entries := Entries(proto.elems);
    var k :| 0 <= k < |proto.elems| && ElemDeclares(proto.elems[k], path);
    EntriesComplete(proto.elems, path, k);
    DeclaredNames(path);
    var j :| 0 <= j < |entries| && entries[j] == Declared(path);
    TableKeys(entries, Join(path, "."));
  }

  // ---------------------------------------------------------------------
  // Consequences for name resolution
  // ---------------------------------------------------------------------

  /** A message declared inside a `oneof` gets no entry: the table of `message A { oneof o { message B {} } }` holds only `A`. */
  lemma OneofDeclarationsNotCollected()
    ensures var proto := Proto("a.proto", "proto3", [Elem.Message(Msg.Msg("A", [Field.OneOf("o", [SubMessage(Msg.Msg("B", []))])]))]);
      ContextOf(proto).types.Keys == {"A"}
  {
    var oneof := Field.OneOf("o", [SubMessage(Msg.Msg("B", []))]);
    var elem := Elem.Message(Msg.Msg("A", [oneof]));
    assert CollectedAll([oneof], ["A"]) == CollectedAll([], ["A"]) + Collected(oneof, ["A"]);
    assert ElemEntries(elem) == [NewProtoType("A", [])];
    assert [elem][..0] == [];
    assert Entries([elem]) == [NewProtoType("A", [])];
  }

  /**
    The names of `message A { message X {} message B {} }`: the top-level
    message and its two nested ones.
   */
  function NestedExample(): Proto
  {
    Proto("a.proto", "proto3", [Elem.Message(Msg.Msg("A", [SubMessage(Msg.Msg("X", [])), SubMessage(Msg.Msg("B", []))]))])
  }

  lemma NestedExampleTable()
    ensures ContextOf(NestedExample()).types.Keys == {"A", "A.X", "A.B"}
  {
    var x, b := SubMessage(Msg.Msg("X", [])), SubMessage(Msg.Msg("B", []));
    assert Collected(x, ["A"]) == [NewProtoType("X", ["A"])];
    assert Collected(b, ["A"]) == [NewProtoType("B", ["A"])];
    assert [x, b][..1] == [x] && [x][..0] == [];
    assert CollectedAll([x], ["A"]) == [NewProtoType("X", ["A"])];
    assert CollectedAll([x, b], ["A"]) == [NewProtoType("X", ["A"]), NewProtoType("B", ["A"])];
    assert NestedExample().elems[..0] == [];
    var entries := [NewProtoType("A", []), NewProtoType("X", ["A"]), NewProtoType("B", ["A"])];
    assert Entries(NestedExample().elems) == entries;
    assert entries[..2][..1] == entries[..1] && entries[..1][..0] == [];
    assert Table(entries[..1]).Keys == {"A"};
    assert NewProtoType("X", ["A"]).fullName == "A.X";
    assert Table(entries[..2]).Keys == {"A", "A.X"};
    assert NewProtoType("B", ["A"]).fullName == "A.B";
  }

  /**
    `get` does not search enclosing scopes: inside `A.B`, the name `X` does
    not find its sibling-of-parent `A.X`, because only `X` and `A.B.X` are
    tried.
   */
  lemma GetNoAncestorSearch()
    ensures "A.X" in ContextOf(NestedExample()).types
    ensures Get(ContextOf(NestedExample()), "X", Some(NewProtoType("B", ["A"]))) == Option.None
  {
    NestedExampleTable();
    assert NewProtoType("B", ["A"]).fullName + "." + "X" == "A.B.X";
  }

  /** `message B {}` followed by `message A { message B {} }`. */
  function ShadowExample(): Proto
  {
    Proto("a.proto", "proto3", [Elem.Message(Msg.Msg("B", [])), Elem.Message(Msg.Msg("A", [SubMessage(Msg.Msg("B", []))]))])
  }

  lemma ShadowExampleEntries()
    ensures Entries(ShadowExample().elems) == [NewProtoType("B", []), NewProtoType("A", []), NewProtoType("B", ["A"])]
  {
    var elems := ShadowExample().elems;
    var inner := SubMessage(Msg.Msg("B", []));
    assert [inner][..0] == [];
    assert CollectedAll([inner], ["A"]) == [NewProtoType("B", ["A"])];
    assert elems[..1][..0] == [] && elems[..1] == [elems[0]];
  }

  /**
    A name that exists at the top level wins over a nested namesake: in
    `ShadowExample`, the name `B` inside `A` resolves to the top-level `B`,
    not to `A.B`.
   */
  lemma TopLevelNameShadowsNested()
    ensures "A.B" in ContextOf(ShadowExample()).types
    ensures Get(ContextOf(ShadowExample()), "B", Some(NewProtoType("A", []))) == Some(NewProtoType("B", []))
  {
    ShadowExampleEntries();
    var entries := [NewProtoType("B", []), NewProtoType("A", []), NewProtoType("B", ["A"])];
    assert NewProtoType("B", ["A"]).fullName == "A.B";
    assert entries[..2][..1] == entries[..1] && entries[..1][..0] == [];
    assert NewProtoType("B", []).fullName == "B" && NewProtoType("A", []).fullName == "A";
    assert Table(entries[..1]) == map["B" := NewProtoType("B", [])];
    assert Table(entries[..2]) == map["B" := NewProtoType("B", []), "A" := NewProtoType("A", [])];
    assert Table(entries)["B"] == NewProtoType("B", []);
  }
}
