/**
  The grammar rules of the protobuf parser (src/parser.rs), one function per
  nom rule, over the input `s` and a cursor `i` (see module Lexer).

  `ws(p)` is written out as `Whitespace` before and after `p`; `opt(p)` keeps
  the cursor when `p` fails; `alt` tries its alternatives in order at the same
  cursor; every `many0` stops at the first attempt that fails and keeps the
  cursor from before that attempt. nom's `many0` also fails when its parser
  succeeds without consuming anything; every parser repeated here consumes at
  least one character when it succeeds (their `ensures` say so), so that case
  never arises and is not written out.
 */
module Parser {
  import opened Errors
  import opened Ast
  import opened Lexer

  // ---------------------------------------------------------------------
  // `ws(..)` around the token rules
  // ---------------------------------------------------------------------

  function WsTag(s: string, i: nat, t: string): (r: Res<string>)
    requires i <= |s| && |t| > 0
    ensures r.Parsed? ==> i < r.pos <= |s|
  {
    var tag :- Tag(s, Whitespace(s, i), t);
    Parsed(t, Whitespace(s, tag.pos))
  }

  function WsIdentifier(s: string, i: nat): (r: Res<string>)
    requires i <= |s|
    ensures r.Parsed? ==> i < r.pos <= |s|
  {
    var id :- Identifier(s, Whitespace(s, i));
    Parsed(id.value, Whitespace(s, id.pos))
  }

  function WsAlphanumeric1(s: string, i: nat): (r: Res<string>)
    requires i <= |s|
    ensures r.Parsed? ==> i < r.pos <= |s|
    ensures r.Parsed? ==> |r.value| > 0 && forall k :: 0 <= k < |r.value| ==> IsAlphanumeric(r.value[k])
  {
    var word :- Alphanumeric1(s, Whitespace(s, i));
    Parsed(word.value, Whitespace(s, word.pos))
  }

  function WsNumber(s: string, i: nat): (r: Res<I32>)
    requires i <= |s|
    ensures r.Parsed? ==> i < r.pos <= |s|
  {
    var n :- Number(s, Whitespace(s, i));
    Parsed(n.value, Whitespace(s, n.pos))
  }

  function WsStr(s: string, i: nat): (r: Res<string>)
    requires i <= |s|
    ensures r.Parsed? ==> i < r.pos <= |s|
  {
    var str :- Lexer.Str(s, Whitespace(s, i));
    Parsed(str.value, Whitespace(s, str.pos))
  }

  /** The cursor after `opt(p)`, given the outcome of `p`. */
  function After<T>(r: Res<T>, i: nat): nat
  {
    if r.Parsed? then r.pos else i
  }

  // ---------------------------------------------------------------------
  // Options
  // ---------------------------------------------------------------------

  /** `option_value`: a string, a number, a boolean, a `{ key: value }` block, or a bare constant, tried in that order. */
  function OptionValueRule(s: string, i: nat): (r: Res<OptionValue>)
    requires i <= |s|
    ensures r.Parsed? ==> i < r.pos <= |s|
    decreases |s| - i, 1
  {
    var str := Lexer.Str(s, i);
    if str.Parsed? then Parsed(OptionValue.Str(str.value), str.pos)
    else
      var num := Number(s, i);
      if num.Parsed? then Parsed(Num(num.value), num.pos)
      else
        var b := Boolean(s, i);
        if b.Parsed? then Parsed(Bool(b.value), b.pos)
        else
          var msg := OptionMsg(s, i);
          if msg.Parsed? then msg
          else
            var constant :- Alphanumeric1(s, i);
            Parsed(Constant(constant.value), constant.pos)
  }

  /** The `{ key: value ... }` alternative of `option_value`; the pairs are checked and dropped. */
  function OptionMsg(s: string, i: nat): (r: Res<OptionValue>)
    requires i <= |s|
    ensures r.Parsed? ==> i < r.pos <= |s|
    decreases |s| - i, 0
  {
    var open :- Tag(s, i, "{");
    var pairs := OptionMapValues(s, open.pos);
    var close :- WsTag(s, pairs.pos, "}");
    Parsed(OptionValue.Msg(""), close.pos)
  }

  /** `many0(ws(option_map_value))` */
  function OptionMapValues(s: string, i: nat): (r: Res<()>)
    requires i <= |s|
    ensures r.Parsed? && i <= r.pos <= |s|
    decreases |s| - i, 1
  {
    var pair := OptionMapValue(s, Whitespace(s, i));
    if pair.Fail? then Parsed((), i)
    else OptionMapValues(s, Whitespace(s, pair.pos))
  }

  /** `option_map_value`: `key : value` with an optional ',' or ';' after it. */
  function OptionMapValue(s: string, i: nat): (r: Res<()>)
    requires i <= |s|
    ensures r.Parsed? ==> i < r.pos <= |s|
    decreases |s| - i, 0
  {
    var key :- Identifier(s, i);
    var colon :- WsTag(s, key.pos, ":");
    var value :- OptionValueRule(s, colon.pos);
    Parsed((), After(Lexer.OneOf(s, value.pos, {',', ';'}), value.pos))
  }

  /** `option_name`: an identifier, optionally in parentheses (each parenthesis optional on its own). */
  function OptionName(s: string, i: nat): (r: Res<string>)
    requires i <= |s|
    ensures r.Parsed? ==> i < r.pos <= |s|
  {
    var name :- WsIdentifier(s, After(Tag(s, i, "("), i));
    Parsed(name.value, After(Tag(s, name.pos, ")"), name.pos))
  }

  /** `option`: `option name = value;` */
  function OptionStatement(s: string, i: nat): (r: Res<OptionDecl>)
    requires i <= |s|
    ensures r.Parsed? ==> i < r.pos <= |s|
  {
    var kw :- Tag(s, i, "option");
    var w := Whitespace(s, kw.pos);
    var name :- OptionName(s, w);
    var eq :- Tag(s, Whitespace(s, name.pos), "=");
    var w' := Whitespace(s, eq.pos);
    var value :- OptionValueRule(s, w');
    var semi :- Tag(s, Whitespace(s, value.pos), ";");
    Parsed(OptionDecl(name.value, value.value), semi.pos)
  }

  /** `field_options`: `[name = value]`; the option is checked and dropped. */
  function FieldOptions(s: string, i: nat): (r: Res<()>)
    requires i <= |s|
    ensures r.Parsed? ==> i < r.pos <= |s|
  {
    var open :- Tag(s, i, "[");
    var w := Whitespace(s, open.pos);
    var name :- OptionName(s, w);
    var eq :- Tag(s, Whitespace(s, name.pos), "=");
    var w' := Whitespace(s, eq.pos);
    var value :- OptionValueRule(s, w');
    var close :- Tag(s, Whitespace(s, value.pos), "]");
    Parsed((), close.pos)
  }

  // ---------------------------------------------------------------------
  // File header and simple top-level statements
  // ---------------------------------------------------------------------

  /** `syntax`: `syntax = "version";` */
  function Syntax(s: string, i: nat): (r: Res<string>)
    requires i <= |s|
    ensures r.Parsed? ==> i < r.pos <= |s| && OccursAt(s, i, "syntax")
  {
    var kw :- Tag(s, i, "syntax");
    var eq :- WsTag(s, kw.pos, "=");
    var version :- WsStr(s, eq.pos);
    var semi :- Tag(s, version.pos, ";");
    Parsed(version.value, semi.pos)
  }

  /** `import "file";` */
  function Import(s: string, i: nat): (r: Res<Elem>)
    requires i <= |s|
    ensures r.Parsed? ==> i < r.pos <= |s| && r.value.Import?
  {
    var kw :- Tag(s, i, "import");
    var name :- WsStr(s, kw.pos);
    var semi :- Tag(s, name.pos, ";");
    Parsed(Elem.Import(name.value), semi.pos)
  }

  predicate NotSemicolon(c: char) { c != ';' }

  /** `package name;` where the name is everything up to the ';' (`is_not(";")`). */
  function Package(s: string, i: nat): (r: Res<Elem>)
    requires i <= |s|
    ensures r.Parsed? ==> i < r.pos <= |s| && r.value.Package?
  {
    var kw :- Tag(s, i, "package");
    var name :- Run1(s, Whitespace(s, kw.pos), NotSemicolon);
    var semi :- Tag(s, Whitespace(s, name.pos), ";");
    Parsed(Elem.Package(name.value), semi.pos)
  }

  // ---------------------------------------------------------------------
  // Enums
  // ---------------------------------------------------------------------

  /** `enum_reserved_value`: `reserved N;` */
  function EnumReservedValue(s: string, i: nat): (r: Res<EnumValue>)
    requires i <= |s|
    ensures r.Parsed? ==> i < r.pos <= |s| && r.value.Reserved?
  {
    var kw :- Tag(s, i, "reserved");
    var idx :- WsNumber(s, kw.pos);
    var semi :- Tag(s, idx.pos, ";");
    Parsed(EnumValue.Reserved(idx.value), semi.pos)
  }

  /** `enum_value`: `NAME = N [option];` */
  function EnumValueRule(s: string, i: nat): (r: Res<EnumValue>)
    requires i <= |s|
    ensures r.Parsed? ==> i < r.pos <= |s| && r.value.Single?
  {
    var name :- WsIdentifier(s, i);
    var eq :- Tag(s, name.pos, "=");
    var idx :- WsNumber(s, eq.pos);
    var semi :- Tag(s, Space0(s, After(FieldOptions(s, idx.pos), idx.pos)), ";");
    Parsed(EnumValue.Single(name.value, idx.value), semi.pos)
  }

  /** `many0(ws(alt((enum_reserved_value, enum_value))))` */
  function EnumValues(s: string, i: nat): (r: Res<seq<EnumValue>>)
    requires i <= |s|
    ensures r.Parsed? && i <= r.pos <= |s|
    decreases |s| - i
  {
    var w := Whitespace(s, i);
    var reserved := EnumReservedValue(s, w);
    var v := if reserved.Parsed? then reserved else EnumValueRule(s, w);
    if v.Fail? then Parsed([], i)
    else
      var rest := EnumValues(s, Whitespace(s, v.pos));
      Parsed([v.value] + rest.value, rest.pos)
  }

  /** `enum0`: `enum Name { values }` with an optional ';'; the name is ASCII letters and digits only. */
  function Enum0(s: string, i: nat): (r: Res<Enum>)
    requires i <= |s|
    ensures r.Parsed? ==> i < r.pos <= |s| && OccursAt(s, i, "enum")
    ensures r.Parsed? ==> |r.value.name| > 0 && forall k :: 0 <= k < |r.value.name| ==> IsAlphanumeric(r.value.name[k])
  {
    var kw :- Tag(s, i, "enum");
    var name :- WsAlphanumeric1(s, kw.pos);
    var open :- Tag(s, name.pos, "{");
    var values := EnumValues(s, open.pos);
    var close :- WsTag(s, values.pos, "}");
    Parsed(Enum.Enum(name.value, values.value), After(Tag(s, close.pos, ";"), close.pos))
  }

  // ---------------------------------------------------------------------
  // Fields
  // ---------------------------------------------------------------------

  /** `message_field`: `[flag] type name = N [option];` */
  function MessageField(s: string, i: nat): (r: Res<Field>)
    requires i <= |s|
    ensures r.Parsed? ==> i < r.pos <= |s| && r.value.Single?
  {
    var flag := FieldFlag(s, i);
    var fieldType :- WsIdentifier(s, flag.pos);
    var name :- WsIdentifier(s, fieldType.pos);
    var idx :- FieldNumberEnd(s, name.pos);
    Parsed(Field.Single(name.value, fieldType.value, idx.value, flag.value), idx.pos)
  }

  /** The end of a typed field: `= N`, an optional option list, optional spaces and `;`; yields the field number. */
  function FieldNumberEnd(s: string, i: nat): (r: Res<I32>)
    requires i <= |s|
    ensures r.Parsed? ==> i < r.pos <= |s|
  {
    var eq :- Tag(s, i, "=");
    var idx :- WsNumber(s, eq.pos);
    var semi :- Tag(s, Space0(s, After(FieldOptions(s, idx.pos), idx.pos)), ";");
    Parsed(idx.value, semi.pos)
  }

  /** `proto_map`: `map<K, V> name = N [option];` */
  function ProtoMap(s: string, i: nat): (r: Res<Field>)
    requires i <= |s|
    ensures r.Parsed? ==> i < r.pos <= |s| && r.value.Map?
  {
    var kw :- Tag(s, i, "map");
    var lt :- Tag(s, Space0(s, kw.pos), "<");
    var key :- WsIdentifier(s, lt.pos);
    var comma :- Tag(s, key.pos, ",");
    var value :- WsIdentifier(s, comma.pos);
    var gt :- Tag(s, value.pos, ">");
    var name :- WsIdentifier(s, gt.pos);
    var eq :- Tag(s, name.pos, "=");
    var idx :- WsNumber(s, eq.pos);
    var semi :- Tag(s, After(FieldOptions(s, idx.pos), idx.pos), ";");
    Parsed(Field.Map(name.value, key.value, value.value, idx.value), semi.pos)
  }

  /** `extensions_field`: `extensions A to B;` */
  function ExtensionsField(s: string, i: nat): (r: Res<Field>)
    requires i <= |s|
    ensures r.Parsed? ==> i < r.pos <= |s| && r.value.Extensions?
  {
    var kw :- Tag(s, i, "extensions");
    var from :- WsAlphanumeric1(s, kw.pos);
    var to :- Tag(s, from.pos, "to");
    var upto :- WsAlphanumeric1(s, to.pos);
    var semi :- Tag(s, upto.pos, ";");
    Parsed(Extensions(from.value, upto.value), semi.pos)
  }

  /** The rest of `separated_list1(ws(char(',')), number)` after its first element. */
  function NumberListTail(s: string, i: nat): (r: Res<seq<I32>>)
    requires i <= |s|
    ensures r.Parsed? && i <= r.pos <= |s|
    ensures WsTag(s, r.pos, ",").Fail? || Number(s, WsTag(s, r.pos, ",").pos).Fail?
    decreases |s| - i
  {
    var sep := WsTag(s, i, ",");
    if sep.Fail? then Parsed([], i)
    else
      var n := Number(s, sep.pos);
      if n.Fail? then Parsed([], i)
      else
        var rest := NumberListTail(s, n.pos);
        Parsed([n.value] + rest.value, rest.pos)
  }

  /** The rest of `separated_list1(ws(char(',')), str)` after its first element. */
  function StrListTail(s: string, i: nat): (r: Res<seq<string>>)
    requires i <= |s|
    ensures r.Parsed? && i <= r.pos <= |s|
    ensures WsTag(s, r.pos, ",").Fail? || Lexer.Str(s, WsTag(s, r.pos, ",").pos).Fail?
    decreases |s| - i
  {
    var sep := WsTag(s, i, ",");
    if sep.Fail? then Parsed([], i)
    else
      var str := Lexer.Str(s, sep.pos);
      if str.Fail? then Parsed([], i)
      else
        var rest := StrListTail(s, str.pos);
        Parsed([str.value] + rest.value, rest.pos)
  }

  /**
    `reserved_field`: a list of numbers or, if the first item is not a number,
    a list of quoted names; the list kind is fixed by its first item.
   */
  function ReservedFieldRule(s: string, i: nat): (r: Res<ReservedField>)
    requires i <= |s|
    ensures r.Parsed? ==> i < r.pos <= |s|
  {
    var first := Number(s, i);
    if first.Parsed? then
      var rest := NumberListTail(s, first.pos);
      Parsed(Idx([first.value] + rest.value), rest.pos)
    else
      var name :- Lexer.Str(s, i);
      var rest := StrListTail(s, name.pos);
      Parsed(ReservedField.Name([name.value] + rest.value), rest.pos)
  }

  /** `message_field_reserved`: `reserved list;` */
  function MessageFieldReserved(s: string, i: nat): (r: Res<Field>)
    requires i <= |s|
    ensures r.Parsed? ==> i < r.pos <= |s| && r.value.Reserved?
  {
    var kw :- Tag(s, i, "reserved");
    var w := Whitespace(s, kw.pos);
    var list :- ReservedFieldRule(s, w);
    var semi :- Tag(s, Whitespace(s, list.pos), ";");
    Parsed(Field.Reserved(list.value), semi.pos)
  }

  /**
    `field`: the alternatives of a message body, tried in this order: oneof,
    reserved, typed field, map, extensions, nested message, nested enum.
   */
  function FieldRule(s: string, i: nat): (r: Res<Field>)
    requires i <= |s|
    ensures r.Parsed? ==> i < r.pos <= |s|
    decreases |s| - i, 1
  {
    var oneof := Oneof(s, i);
    if oneof.Parsed? then oneof
    else
      var reserved := MessageFieldReserved(s, i);
      if reserved.Parsed? then reserved
      else
        var single := MessageField(s, i);
        if single.Parsed? then single
        else
          var mapField := ProtoMap(s, i);
          if mapField.Parsed? then mapField
          else
            var extensions := ExtensionsField(s, i);
            if extensions.Parsed? then extensions
            else
              var msg := Message(s, i);
              if msg.Parsed? then Parsed(SubMessage(msg.value), msg.pos)
              else
                var e :- Enum0(s, i);
                Parsed(SubEnum(e.value), e.pos)
  }

  /** `many0(ws(field))` */
  function Fields(s: string, i: nat): (r: Res<seq<Field>>)
    requires i <= |s|
    ensures r.Parsed? && i <= r.pos <= |s|
    decreases |s| - i, 2
  {
    var f := FieldRule(s, Whitespace(s, i));
    if f.Fail? then Parsed([], i)
    else
      var rest := Fields(s, Whitespace(s, f.pos));
      Parsed([f.value] + rest.value, rest.pos)
  }

  /** `oneof name { fields }` with an optional ';' */
  function Oneof(s: string, i: nat): (r: Res<Field>)
    requires i <= |s|
    ensures r.Parsed? ==> i < r.pos <= |s| && r.value.OneOf?
    decreases |s| - i, 0
  {
    var kw :- Tag(s, i, "oneof");
    var name :- WsIdentifier(s, kw.pos);
    var open :- Tag(s, name.pos, "{");
    var fields := Fields(s, open.pos);
    var close :- WsTag(s, fields.pos, "}");
    Parsed(Field.OneOf(name.value, fields.value), After(Tag(s, close.pos, ";"), close.pos))
  }

  /** `message Name { fields }` with an optional ';'; the name is ASCII letters and digits only. */
  function Message(s: string, i: nat): (r: Res<Msg>)
    requires i <= |s|
    ensures r.Parsed? ==> i < r.pos <= |s| && OccursAt(s, i, "message")
    ensures r.Parsed? ==> |r.value.name| > 0 && forall k :: 0 <= k < |r.value.name| ==> IsAlphanumeric(r.value.name[k])
    decreases |s| - i, 0
  {
    var kw :- Tag(s, i, "message");
    var name :- WsAlphanumeric1(s, kw.pos);
    var open :- WsTag(s, name.pos, "{");
    var fields := Fields(s, open.pos);
    var close :- WsTag(s, fields.pos, "}");
    Parsed(Msg.Msg(name.value, fields.value), After(Tag(s, close.pos, ";"), close.pos))
  }

  /** `many0(ws(message_field))` */
  function MessageFields(s: string, i: nat): (r: Res<seq<Field>>)
    requires i <= |s|
    ensures r.Parsed? && i <= r.pos <= |s|
    decreases |s| - i
  {
    var f := MessageField(s, Whitespace(s, i));
    if f.Fail? then Parsed([], i)
    else
      var rest := MessageFields(s, Whitespace(s, f.pos));
      Parsed([f.value] + rest.value, rest.pos)
  }

  /** `extend Name { typed fields }`; no whitespace is skipped before the '}'. */
  function Extend(s: string, i: nat): (r: Res<Elem>)
    requires i <= |s|
    ensures r.Parsed? ==> i < r.pos <= |s| && r.value.Extend?
  {
    var kw :- Tag(s, i, "extend");
    var name :- WsIdentifier(s, kw.pos);
    var open :- Tag(s, name.pos, "{");
    var fields := MessageFields(s, open.pos);
    var close :- Tag(s, fields.pos, "}");
    Parsed(Elem.Extend(name.value, fields.value), close.pos)
  }

  // ---------------------------------------------------------------------
  // Services
  // ---------------------------------------------------------------------

  /** `many0(ws(option))` */
  function OptionStatements(s: string, i: nat): (r: Res<seq<OptionDecl>>)
    requires i <= |s|
    ensures r.Parsed? && i <= r.pos <= |s|
    decreases |s| - i
  {
    var o := OptionStatement(s, Whitespace(s, i));
    if o.Fail? then Parsed([], i)
    else
      var rest := OptionStatements(s, Whitespace(s, o.pos));
      Parsed([o.value] + rest.value, rest.pos)
  }

  /** `rpc_opts`: `{ option ...; }` after an rpc; the options are dropped. */
  function RpcOpts(s: string, i: nat): (r: Res<()>)
    requires i <= |s|
    ensures r.Parsed? ==> i < r.pos <= |s|
  {
    var open :- Tag(s, i, "{");
    var options := OptionStatements(s, Whitespace(s, open.pos));
    var close :- WsTag(s, options.pos, "}");
    Parsed((), close.pos)
  }

  /** The `(stream? Type)` part of an rpc, with the whitespace around it: whether `stream` was given, and the type. */
  function RpcArgument(s: string, i: nat): (r: Res<(bool, string)>)
    requires i <= |s|
    ensures r.Parsed? ==> i < r.pos <= |s|
  {
    var open :- WsTag(s, i, "(");
    var stream := Tag(s, open.pos, "stream");
    var name :- WsIdentifier(s, After(stream, open.pos));
    var close :- WsTag(s, name.pos, ")");
    Parsed((stream.Parsed?, name.value), close.pos)
  }

  /** `rpc Name (stream? Request) returns (stream? Response)` then an optional option block and an optional ';'. */
  function RpcRule(s: string, i: nat): (r: Res<ServiceNode>)
    requires i <= |s|
    ensures r.Parsed? ==> i < r.pos <= |s| && r.value.Rpc?
  {
    var kw :- Tag(s, i, "rpc");
    var name :- WsAlphanumeric1(s, kw.pos);
    var request :- RpcArgument(s, name.pos);
    var response :- RpcReturns(s, request.pos);
    var rpc := Rpc.Rpc(name.value, request.value.1, request.value.0, response.value.1, response.value.0);
    Parsed(ServiceNode.Rpc(rpc), response.pos)
  }

  /** `returns (stream? Response)`, then an optional option block and an optional `;`. */
  function RpcReturns(s: string, i: nat): (r: Res<(bool, string)>)
    requires i <= |s|
    ensures r.Parsed? ==> i < r.pos <= |s|
  {
    var returnsKw :- Tag(s, i, "returns");
    var response :- RpcArgument(s, returnsKw.pos);
    var end := After(RpcOpts(s, response.pos), response.pos);
    Parsed(response.value, After(Tag(s, end, ";"), end))
  }

  /** `many0(ws(alt((rpc, service_option))))` */
  function ServiceNodes(s: string, i: nat): (r: Res<seq<ServiceNode>>)
    requires i <= |s|
    ensures r.Parsed? && i <= r.pos <= |s|
    decreases |s| - i
  {
    var w := Whitespace(s, i);
    var rpc := RpcRule(s, w);
    var node := if rpc.Parsed? then rpc
      else
        var o := OptionStatement(s, w);
        if o.Parsed? then Parsed(ServiceNode.Option(o.value), o.pos) else Fail;
    if node.Fail? then Parsed([], i)
    else
      var rest := ServiceNodes(s, Whitespace(s, node.pos));
      Parsed([node.value] + rest.value, rest.pos)
  }

  /** `service Name { rpcs and options }` */
  function Service(s: string, i: nat): (r: Res<Elem>)
    requires i <= |s|
    ensures r.Parsed? ==> i < r.pos <= |s| && r.value.Service?
  {
    var kw :- Tag(s, i, "service");
    var name :- WsAlphanumeric1(s, kw.pos);
    var open :- WsTag(s, name.pos, "{");
    var nodes := ServiceNodes(s, Whitespace(s, open.pos));
    var close :- WsTag(s, nodes.pos, "}");
    Parsed(Elem.Service(name.value, nodes.value), close.pos)
  }

  // ---------------------------------------------------------------------
  // The file
  // ---------------------------------------------------------------------

  /** One top-level declaration: import, package, extend, option, message, enum, service, tried in that order. */
  function TopElem(s: string, i: nat): (r: Res<Elem>)
    requires i <= |s|
    ensures r.Parsed? ==> i < r.pos <= |s|
  {
    var imp := Import(s, i);
    if imp.Parsed? then imp
    else
      var pkg := Package(s, i);
      if pkg.Parsed? then pkg
      else
        var ext := Extend(s, i);
        if ext.Parsed? then ext
        else
          var o := OptionStatement(s, i);
          if o.Parsed? then Parsed(Elem.Option(o.value), o.pos)
          else
            var m := Message(s, i);
            if m.Parsed? then Parsed(Elem.Message(m.value), m.pos)
            else
              var e := Enum0(s, i);
              if e.Parsed? then Parsed(Elem.Enum(e.value), e.pos)
              else Service(s, i)
  }

  /** `many0(ws(TopElem))` */
  function TopElems(s: string, i: nat): (r: Res<seq<Elem>>)
    requires i <= |s|
    ensures r.Parsed? && i <= r.pos <= |s|
    ensures TopElem(s, Whitespace(s, r.pos)).Fail?
    decreases |s| - i
  {
    var e := TopElem(s, Whitespace(s, i));
    if e.Fail? then Parsed([], i)
    else
      var rest := TopElems(s, Whitespace(s, e.pos));
      Parsed([e.value] + rest.value, rest.pos)
  }

  /** `parse0`: the `syntax` header, then any number of top-level declarations. */
  function Parse0(file: string, s: string): (r: Res<Proto>)
    ensures r.Fail? <==> Syntax(s, Whitespace(s, 0)).Fail?
    ensures r.Parsed? ==> r.pos <= |s| && r.value.file == file && r.value.syntax == Syntax(s, Whitespace(s, 0)).value
    ensures r.Parsed? ==> TopElem(s, Whitespace(s, r.pos)).Fail?
  {
    var syntax :- Syntax(s, Whitespace(s, 0));
    var elems := TopElems(s, Whitespace(s, syntax.pos));
    Parsed(Proto(file, syntax.value, elems.value), elems.pos)
  }

  /**
    `parse`: the file only when the whole input was consumed; a parse that
    stops early is `IncompleteParsing`, a rule failure is `ParsingError`.
   */
  function Parse(file: string, s: string): (r: Result<Proto>)
    ensures r.Ok? <==> Parse0(file, s).Parsed? && Parse0(file, s).pos == |s|
    ensures r.Ok? ==> r.value == Parse0(file, s).value
    ensures r == Err(IncompleteParsing) <==> Parse0(file, s).Parsed? && Parse0(file, s).pos < |s|
    ensures r == Err(ParsingError) <==> Parse0(file, s).Fail?
    ensures r.Ok? ==> OccursAt(s, Whitespace(s, 0), "syntax")
    ensures r == Err(ParsingError) <==> Syntax(s, Whitespace(s, 0)).Fail?
    ensures r == Err(IncompleteParsing) ==> TopElem(s, Whitespace(s, Parse0(file, s).pos)).Fail?
  {
    match Parse0(file, s)
    case Parsed(proto, pos) => if pos == |s| then Ok(proto) else Err(IncompleteParsing)
    case Fail => Err(ParsingError)
  }

  // ---------------------------------------------------------------------
  // Properties of the grammar
  // ---------------------------------------------------------------------

  /** In front of `map<` there is no flag, `map` reads as a type name, and no field name follows it. */
  lemma MapReadAsType(s: string, i: nat)
    requires i <= |s| && OccursAt(s, i, "map<")
    ensures FieldFlag(s, i) == Parsed(Flag.None, i)
    ensures WsIdentifier(s, i).Parsed? && WsIdentifier(s, i).pos == i + 3 && WsIdentifier(s, i + 3).Fail?
  {
    assert s[i..i + 4] == "map<";
    assert s[i] == 'm' && s[i + 1] == 'a' && s[i + 2] == 'p' && s[i + 3] == '<';
    NoFlag(s, i);
    WhitespaceStays(s, i);
    IdentifierStopsAt(s, i, i + 3);
    WhitespaceStays(s, i + 3);
  }

  /** The typed-field rule fails on `map<`: it reads `map` as the type and then finds no field name at the `<`. */
  lemma TypedFieldRejectsMap(s: string, i: nat)
    requires i <= |s| && OccursAt(s, i, "map<")
    ensures MessageField(s, i).Fail?
  {
    MapReadAsType(s, i);
  }

  /** No keyword-led alternative of `field` other than `map` parses in front of `map<`. */
  lemma OtherKeywordsRejectMap(s: string, i: nat)
    requires i <= |s| && OccursAt(s, i, "map<")
    ensures Oneof(s, i).Fail? && MessageFieldReserved(s, i).Fail?
    ensures ExtensionsField(s, i).Fail? && Message(s, i).Fail? && Enum0(s, i).Fail?
  {
    assert s[i..i + 4] == "map<";
    assert s[i] == 'm' && s[i + 1] == 'a';
    Mismatch(s, i, "oneof", 0);
    Mismatch(s, i, "reserved", 0);
    Mismatch(s, i, "extensions", 0);
    Mismatch(s, i, "message", 1);
    Mismatch(s, i, "enum", 0);
  }

  /**
    `map<K, V> ...` is not taken for a typed field named `map`: oneof and
    reserved do not start with `m`, and the typed-field alternative fails, so
    a field starting with `map<` is exactly what the map rule makes of it.
   */
  lemma MapFieldReachesMapRule(s: string, i: nat)
    requires i <= |s| && OccursAt(s, i, "map<")
    ensures FieldRule(s, i) == ProtoMap(s, i)
  {
    OtherKeywordsRejectMap(s, i);
    TypedFieldRejectsMap(s, i);
  }

  /** A number list stops in front of a `,` that a quoted name follows. */
  lemma NumberListStopsAtName(s: string, i: nat)
    requires i <= |s| && Number(s, i).Parsed?
    requires var sep := WsTag(s, Number(s, i).pos, ",");
      sep.Parsed? && sep.pos < |s| && s[sep.pos] == '"'
    ensures ReservedFieldRule(s, i) == Parsed(Idx([Number(s, i).value]), Number(s, i).pos)
  {
    var n := Number(s, i);
    var sep := WsTag(s, n.pos, ",");
    assert Span(s, sep.pos, IsNumberChar) == sep.pos;
    assert Number(s, sep.pos).Fail?;
    assert NumberListTail(s, n.pos) == Parsed([], n.pos);
    assert [n.value] + [] == [n.value];
  }

  /**
    A reserved list that starts with numbers cannot continue with a quoted
    name: the number list ends before the `,`, and `reserved` then finds the
    `,` where it needs its `;`.
   */
  lemma MixedReservedListRejected(s: string, i: nat)
    requires i + 8 <= |s| && OccursAt(s, i, "reserved")
    requires Number(s, Whitespace(s, i + 8)).Parsed?
    requires var sep := WsTag(s, Number(s, Whitespace(s, i + 8)).pos, ",");
      sep.Parsed? && sep.pos < |s| && s[sep.pos] == '"'
    ensures MessageFieldReserved(s, i).Fail?
  {
    var w0 := Whitespace(s, i + 8);
    var n := Number(s, w0);
    NumberListStopsAtName(s, w0);
    assert Tag(s, i, "reserved") == Parsed("reserved", i + 8);
    var w := Whitespace(s, n.pos);
    assert Tag(s, w, ",").Parsed?;
    TagFirstChar(s, w, ",");
    TagMismatch(s, w, ";");
  }
  /** A name list stops in front of a `,` that a number follows. */
  lemma StrListStopsAtNumber(s: string, i: nat)
    requires i <= |s| && Lexer.Str(s, i).Parsed?
    requires var sep := WsTag(s, Lexer.Str(s, i).pos, ",");
      sep.Parsed? && sep.pos < |s| && IsNumberChar(s[sep.pos])
    ensures ReservedFieldRule(s, i) == Parsed(ReservedField.Name([Lexer.Str(s, i).value]), Lexer.Str(s, i).pos)
  {
    var str := Lexer.Str(s, i);
    StrSound(s, i);
    assert Number(s, i).Fail?;
    var sep := WsTag(s, str.pos, ",");
    assert Lexer.Str(s, sep.pos).Fail? by {
      TagMismatch(s, sep.pos, "\"");
    }
    assert StrListTail(s, str.pos) == Parsed([], str.pos);
    assert [str.value] + [] == [str.value];
  }

  /**
    In an accepted `reserved` statement no `,` follows the list: the list of
    either kind runs as far as its items go, and `;` must come next. With
    the stop conditions of `NumberListTail` and `StrListTail`, a list that
    switches from numbers to names or from names to numbers, at any
    position, is rejected.
   */
  lemma ReservedListNeverStopsAtComma(s: string, i: nat)
    requires i <= |s| && MessageFieldReserved(s, i).Parsed?
    ensures var l := ReservedFieldRule(s, Whitespace(s, i + 8));
      l.Parsed? && WsTag(s, l.pos, ",").Fail?
  {
    assert Tag(s, i, "reserved").pos == i + 8;
    var l := ReservedFieldRule(s, Whitespace(s, i + 8));
    var w := Whitespace(s, l.pos);
    TagFirstChar(s, w, ";");
    TagMismatch(s, w, ",");
  }
}
