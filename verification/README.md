# protots in Dafny

protots compiles a Protocol Buffers IDL file into a TypeScript module of
[zod](https://zod.dev) schemas. This project models its two stages and proves
properties of them:

- **The grammar parser** (`src/parser.rs`) is a recursive-descent parser built
  from nom combinators. It turns the text of a `.proto` file into a `Proto`
  syntax tree, or reports `ParsingError` or `IncompleteParsing`. Every rule is a
  Dafny function over the whole input `s` and a cursor `i`. It returns
  `Parsed(value, pos)` or `Fail`, where nom's remaining input is `s[pos..]`.
  nom's combinators are written out as module `Lexer` (`tag`, `take_while`,
  `take_until`, `one_of`, `alpha1`, `alphanumeric1`, `multispace1`, `space0`,
  `escaped`), and `ws`, `opt`, `alt`, `many0`, `separated_list1` become
  ordinary control flow in module `Parser`.
- **The zod generator** (`src/typescript.rs`) builds a symbol table with three
  names for every message and enum of the file: the dotted full name, the
  `_`-joined TypeScript name and the schema name. It then emits the header
  followed by one block per top-level message and enum. Nested declarations
  come before their container, oneofs become `z.union`s, enums become native
  enums with an optional `.catch` default, and field names go from snake_case
  to camelCase.

Each generator step is modelled twice. A function states what text the step
produces. A method with the loops and `push_str` calls of the original is
proved to produce exactly that text. The generator's properties are lemmas
about the functions.

Modules:

| module | models |
|---|---|
| `Wrappers`, `Errors` | `Option`; the error kinds of `src/errors.rs` and the `Result` of the fallible operations |
| `Ast` | the syntax tree of `src/parser.rs` |
| `Lexer`, `Parser` | the token rules and the grammar rules of `src/parser.rs` |
| `Text` | `join`, `concat` and `split` from Rust's standard library |
| `Naming` | `to_camel`, `snake_to_camel` |
| `Symbols` | `ProtoType`, `Context` |
| `Generator` | `to_schema`, `format_msg`, `format_field`, `format_oneof`, `format_enum`, `type_name`, `flagged_field` |
| `GeneratorTests`, `ExpectedText` | the two exact-output unit tests of `src/typescript.rs`, and further small files with their exact outcomes |

Three behaviours of the source are worth stating plainly:

- An rpc may end with `;`, an option block, both, or neither
  (`Parser.RpcReturns`).
- The enum default is the first `Single` value numbered 0, wherever it is
  and however many there are (`Generator.FirstZero`).
- The typed-field rule is tried before `map`. `Parser.MapFieldReachesMapRule`
  proves that a field starting with `map<` still reaches the map rule.

The lemmas about `whitespace` determine it on every input. At a run of
whitespace or a comment, it goes on from that item's end
(`Lexer.WhitespaceAfterSpaces`, `Lexer.WhitespaceAfterLineComment`,
`Lexer.WhitespaceAfterBlockComment`). Elsewhere it consumes nothing
(`Lexer.WhitespaceConsumesNothing`).

## Model

| member | source | states |
|---|---|---|
| Lexer.Span | src/parser.rs:540 | `take_while`: the end of the longest run from the cursor whose characters all satisfy the predicate; the character after it does not |
| Lexer.Tag | src/parser.rs:146 | `tag` succeeds exactly when the literal occurs at the cursor, and then yields it and moves past it |
| Lexer.OneOf | src/parser.rs:175 | `one_of` succeeds exactly when the next character is in the set, and consumes just that character |
| Lexer.Run1 | src/parser.rs:545 | a non-empty maximal run (`multispace1`, `is_not`, `many1(one_of(..))`) succeeds exactly when the first character qualifies, and consumes exactly the longest run |
| Lexer.Alpha1 | src/parser.rs:551 | `alpha1` succeeds exactly on an ASCII letter and consumes the longest run of ASCII letters |
| Lexer.Alpha1Text | src/parser.rs:551 | what `alpha1` yields is exactly the text it consumed |
| Lexer.Alphanumeric1 | src/parser.rs:198-205 | `alphanumeric1` succeeds exactly on an ASCII letter or digit, consumes the longest run of them, and yields exactly the consumed text |
| Lexer.Space0 | src/parser.rs:281 | `space0` never fails and skips exactly the longest run of spaces and tabs |
| Lexer.TakeUntil | src/parser.rs:541 | `take_until` stops in front of the first occurrence of the terminator and yields the text before it; it fails exactly when the terminator does not occur |
| Lexer.LineComment | src/parser.rs:540 | a line comment succeeds exactly on `//`, and runs up to, not over, the first CR or LF (or the end of the input) |
| Lexer.BlockComment | src/parser.rs:541 | a block comment succeeds exactly on `/*` with a later `*/`, and ends just after the first such `*/` |
| Lexer.BlockCommentExact | src/parser.rs:541 | for an opening and the first closing after it, the comment ends two characters after that closing |
| Lexer.WsItem | src/parser.rs:542-546 | each alternative of `whitespace` consumes at least one character when it succeeds |
| Lexer.Whitespace | src/parser.rs:539-547 | `whitespace` never fails, and it stops only where no comment or whitespace run can start |
| Lexer.WhitespaceStays | src/parser.rs:539-547 | in front of a character that is neither `/` nor whitespace, `whitespace` consumes nothing |
| Lexer.WhitespaceConsumesNothing | src/parser.rs:539-547 | `whitespace` consumes nothing exactly when the input ends or the next character is no whitespace and opens neither a line comment nor a closed block comment |
| Lexer.WhitespaceEnd | src/parser.rs:539-547 | where `whitespace` stops, no whitespace, line comment or closed block comment starts |
| Lexer.WhitespaceAfterSpaces | src/parser.rs:545 | a maximal run of spaces, tabs, CRs and LFs is skipped and `whitespace` goes on from its end |
| Lexer.WhitespaceAfterLineComment | src/parser.rs:540 | a line comment is skipped up to its line end and `whitespace` goes on from there |
| Lexer.WhitespaceAfterBlockComment | src/parser.rs:541 | a block comment is skipped up to just after its first closing and `whitespace` goes on from there |
| Lexer.UnterminatedBlockCommentStays | src/parser.rs:541 | an opening `/*` that is never closed is left unconsumed |
| Lexer.IdentifierPiece | src/parser.rs:552 | one piece of an identifier's tail succeeds exactly on a letter, digit, `.` or `_`, and consumes only such characters |
| Lexer.IdentifierTail | src/parser.rs:552 | `many0` of the pieces consumes the longest run of identifier characters |
| Lexer.Identifier | src/parser.rs:549-554 | `identifier` succeeds exactly on an ASCII letter, consumes the longest run of letters, digits, `.` and `_`, and yields exactly the consumed text |
| Lexer.IdentifierStopsAt | src/parser.rs:549-554 | an identifier ends at the first character that cannot continue it |
| Lexer.Number | src/parser.rs:517-519 | `number` consumes the longest run of digits and `-`, and yields the `i32` that `str::parse` makes of it |
| Lexer.NumberAccepts | src/parser.rs:517-519 | `number` succeeds exactly when that run is digits with at most one leading `-` and the value fits an `i32`, and then yields that value |
| Lexer.NegativeNumberAccepted | src/parser.rs:517-519 | `-5` is accepted as -5 |
| Lexer.InnerMinusRejected | src/parser.rs:517-519 | `1-2` is consumed as one run and rejected |
| Lexer.DoubleMinusRejected | src/parser.rs:517-519 | `--1` is rejected |
| Lexer.Boolean | src/parser.rs:521-529 | `boolean` succeeds exactly on `true` or `false`, yields true exactly for `true`, and consumes the literal |
| Lexer.Escaped | src/parser.rs:559 | `escaped` yields exactly the text it consumed, and it consumes something unless the input is exhausted |
| Lexer.Str | src/parser.rs:556-562 | `str` yields the raw text between the opening and the closing quote |
| Lexer.EscapedSound | src/parser.rs:559 | what `escaped` consumes is plain characters and backslashes each followed by `"`, LF or CR, and it stops at a quote or at the end of the input |
| Lexer.StrSound | src/parser.rs:556-562 | an accepted string is quoted on both sides, and its value is a non-empty raw body with escapes kept as written |
| Lexer.EscapedComplete | src/parser.rs:559 | `escaped` consumes every raw body up to the next quote |
| Lexer.StrComplete | src/parser.rs:556-562 | every non-empty raw body between two quotes is accepted and returned as written |
| Lexer.EmptyStringRejected | src/parser.rs:556-562 | the empty literal `""` is rejected |
| Lexer.FieldFlag | src/parser.rs:256-266 | `field_flag` never fails; it consumes exactly the keyword of the flag it yields, and yields `None`, consuming nothing, only when no flag keyword is there |
| Lexer.NoFlag | src/parser.rs:256-266 | without `o` or `r` at the cursor, `field_flag` yields `None` and consumes nothing |
| Parser.WsTag | src/parser.rs:532-537 | `ws(tag(..))` consumes at least the literal |
| Parser.WsIdentifier | src/parser.rs:532-537 | `ws(identifier)` consumes at least one character |
| Parser.WsAlphanumeric1 | src/parser.rs:532-537 | `ws(alphanumeric1)` consumes at least one character and yields a non-empty run of ASCII letters and digits |
| Parser.WsNumber | src/parser.rs:532-537 | `ws(number)` consumes at least one character |
| Parser.WsStr | src/parser.rs:532-537 | `ws(str)` consumes at least one character |
| Parser.OptionValueRule | src/parser.rs:180-221 | `option_value` consumes at least one character when it succeeds |
| Parser.OptionMsg | src/parser.rs:207-218 | the `{ key: value }` alternative consumes at least its braces |
| Parser.OptionMapValues | src/parser.rs:209 | `many0(ws(option_map_value))` never fails and never moves back |
| Parser.OptionMapValue | src/parser.rs:171-178 | `option_map_value` consumes at least one character when it succeeds |
| Parser.OptionName | src/parser.rs:223-229 | `option_name` consumes at least one character when it succeeds |
| Parser.OptionStatement | src/parser.rs:231-245 | `option` consumes at least one character when it succeeds |
| Parser.FieldOptions | src/parser.rs:368-376 | `field_options` consumes at least one character when it succeeds |
| Parser.Syntax | src/parser.rs:247-254 | the `syntax` header starts with the keyword `syntax` and consumes at least one character |
| Parser.Import | src/parser.rs:145-156 | `import` yields an `Import` element and consumes at least one character |
| Parser.Package | src/parser.rs:158-169 | `package` yields a `Package` element and consumes at least one character |
| Parser.EnumReservedValue | src/parser.rs:268-274 | `enum_reserved_value` yields a `Reserved` value and consumes at least one character |
| Parser.EnumValueRule | src/parser.rs:276-291 | `enum_value` yields a `Single` value and consumes at least one character |
| Parser.EnumValues | src/parser.rs:297 | the `many0` of enum values never fails and never moves back |
| Parser.Enum0 | src/parser.rs:293-308 | `enum0` starts with the keyword `enum`, and the enum's name is non-empty ASCII letters and digits only |
| Parser.MessageField | src/parser.rs:378-397 | `message_field` yields a `Single` field and consumes at least one character |
| Parser.FieldNumberEnd | src/parser.rs:382-386 | the `= N [options] ;` tail of a typed field consumes at least one character |
| Parser.ProtoMap | src/parser.rs:310-333 | `proto_map` yields a `Map` field and consumes at least one character |
| Parser.ExtensionsField | src/parser.rs:399-407 | `extensions_field` yields an `Extensions` field and consumes at least one character |
| Parser.NumberListTail | src/parser.rs:410 | the number list after its first item stops only where no `,` followed by a number comes next |
| Parser.StrListTail | src/parser.rs:413 | the name list after its first item stops only where no `,` followed by a string comes next |
| Parser.ReservedFieldRule | src/parser.rs:409-420 | `reserved_field` consumes at least one character when it succeeds |
| Parser.MessageFieldReserved | src/parser.rs:422-428 | `message_field_reserved` yields a `Reserved` field and consumes at least one character |
| Parser.FieldRule | src/parser.rs:430-440 | `field` consumes at least one character when it succeeds |
| Parser.Fields | src/parser.rs:504 | `many0(ws(field))` never fails and never moves back |
| Parser.Oneof | src/parser.rs:335-350 | `oneof` yields a `OneOf` field and consumes at least one character |
| Parser.Message | src/parser.rs:500-515 | `message` starts with the keyword `message`, and the message's name is non-empty ASCII letters and digits only |
| Parser.MessageFields | src/parser.rs:356 | `many0(ws(message_field))` never fails and never moves back |
| Parser.Extend | src/parser.rs:352-366 | `extend` yields an `Extend` element and consumes at least one character |
| Parser.OptionStatements | src/parser.rs:445 | `many0(ws(option))` never fails and never moves back |
| Parser.RpcOpts | src/parser.rs:442-449 | `rpc_opts` consumes at least one character when it succeeds |
| Parser.RpcArgument | src/parser.rs:454-457 | the parenthesised argument of an rpc consumes at least one character when it succeeds |
| Parser.RpcRule | src/parser.rs:451-476 | `rpc` yields an `Rpc` node and consumes at least one character |
| Parser.RpcReturns | src/parser.rs:458-464 | the `returns (..)` part of an rpc, with its optional option block and `;`, consumes at least one character |
| Parser.ServiceNodes | src/parser.rs:488 | `many0(ws(alt((rpc, service_option))))` never fails and never moves back |
| Parser.Service | src/parser.rs:483-498 | `service` yields a `Service` element and consumes at least one character |
| Parser.TopElem | src/parser.rs:566-574 | each top-level alternative consumes at least one character when it succeeds |
| Parser.TopElems | src/parser.rs:566-574 | the `many0` of top-level declarations never fails, and it stops only where no further declaration parses |
| Parser.Parse0 | src/parser.rs:564-586 | `parse0` fails exactly when the `syntax` header fails; it keeps the file label and the header's version, and it stops only where no further declaration parses |
| Parser.Parse | src/parser.rs:588-600 | `Ok` exactly when `parse0` consumed the whole input; `IncompleteParsing` exactly when it succeeded on a proper prefix; `ParsingError` exactly when the `syntax` header failed; a parsed file starts with `syntax` |
| Parser.MapReadAsType | src/parser.rs:378-381 | in front of `map<` there is no flag, the typed-field rule reads `map` as the type, and no field name follows it |
| Parser.TypedFieldRejectsMap | src/parser.rs:378-397 | the typed-field rule fails on `map<` |
| Parser.OtherKeywordsRejectMap | src/parser.rs:430-440 | oneof, reserved, extensions, message and enum all fail on `map<` |
| Parser.MapFieldReachesMapRule | src/parser.rs:430-440 | a field starting with `map<` is exactly what `proto_map` makes of it, despite the alternatives tried before it |
| Parser.NumberListStopsAtName | src/parser.rs:409-420 | a number list ends in front of a `,` that a quoted name follows |
| Parser.MixedReservedListRejected | src/parser.rs:409-428 | `reserved N, "x"`, one number and then a quoted name, is rejected: the list ends after the number and `;` meets the `,` |
| Parser.StrListStopsAtNumber | src/parser.rs:409-420 | a name list ends in front of a `,` that a number or `-` follows |
| Parser.ReservedListNeverStopsAtComma | src/parser.rs:408-428 | in an accepted `reserved` statement no `,` follows the list; with the stop conditions of `NumberListTail` and `StrListTail`, a list that switches kind after any number of items, in either order, is rejected |
| Text.Join | src/typescript.rs:138 | joining no parts gives the empty text (the `z.union([])` of an empty oneof); joining a single part gives that part |
| Text.JoinSnoc | src/typescript.rs:267-268 | joining one more part appends the separator and that part |
| Text.ConcatAppend | src/typescript.rs:252 | concatenating two lists of parts concatenates their concatenations |
| Text.ConcatAvoids | src/typescript.rs:252 | a character found in no part is not found in the concatenation |
| Text.Split | src/typescript.rs:241 | `split` yields at least one piece, and no piece holds the separator |
| Text.JoinSplit | src/typescript.rs:241 | joining the pieces of a split with the separator gives the input back |
| Text.SplitLength | src/typescript.rs:241 | the pieces of a split hold every character except the separators |
| Naming.ToAsciiUpper | src/typescript.rs:232 | `to_ascii_uppercase` maps `a`..`z` to `A`..`Z` and leaves every other character unchanged |
| Naming.ToCamel | src/typescript.rs:227-237 | `to_camel` upper-cases the first character, keeps the rest and the length, and leaves the empty word unchanged |
| Naming.NonEmpty | src/typescript.rs:242 | the filter keeps only non-empty parts, all taken from the input |
| Naming.NonEmptyAppend | src/typescript.rs:242 | the filter distributes over concatenation, so every non-empty part is kept, in its order |
| Naming.NonEmptyOne | src/typescript.rs:242 | a single part is kept exactly when it is non-empty |
| Naming.CamelParts | src/typescript.rs:243-250 | the first part is kept as it is and every later part goes through `to_camel` |
| Naming.NonEmptyConcat | src/typescript.rs:242 | dropping empty parts does not change the concatenation |
| Naming.CamelPartsLength | src/typescript.rs:243-250 | capitalising parts does not change the total length |
| Naming.SnakeToCamelNoUnderscore | src/typescript.rs:239-253 | a renamed field holds no `_` |
| Naming.SnakeToCamelLength | src/typescript.rs:239-253 | renaming keeps every character except the underscores |
| Naming.SplitWithoutSeparator | src/typescript.rs:241 | splitting a text without the separator gives that text as the one piece |
| Naming.SnakeToCamelKeepsPlainName | src/typescript.rs:239-253 | a name without underscores is returned unchanged |
| Naming.SnakeToCamelIdempotent | src/typescript.rs:239-253 | renaming a renamed field changes nothing |
| Naming.SnakeToCamelKeepsFirstPiece | src/typescript.rs:239-253 | the first non-empty piece starts the result unchanged |
| Symbols.NewProtoType | src/typescript.rs:262-276 | the full name is the scope path and the name joined with `.`, the TypeScript name the same joined with `_`, and the schema name is the TypeScript name plus `Schema`; a top-level name is its own full and TypeScript name |
| Symbols.DeclaredNames | src/typescript.rs:262-276 | a declaration's full name and TypeScript name are its whole scope path joined with `.` and with `_` |
| Symbols.NestedFullName | src/typescript.rs:324-331 | a declaration one level deeper is named after its container's full name and TypeScript name |
| Symbols.Get | src/typescript.rs:310-318 | the name as written is tried first; only when it is missing and a parent is given is the parent's full name, `.` and the name tried; nothing else is tried |
| Symbols.Collect | src/typescript.rs:320-338 | `collect` yields each nested message before what it contains, and each nested enum; other fields yield nothing |
| Symbols.InsertAll | src/typescript.rs:292-298 | inserting the collected entries in order gives the table of all entries so far |
| Symbols.InsertMessage | src/typescript.rs:289-299 | the message arm of `Context::new` inserts the message, then everything its fields collect |
| Symbols.NewContext | src/typescript.rs:284-308 | `Context::new` builds the table of the file's top-level messages and enums and everything nested in messages, in file order |
| Symbols.TableKeys | src/typescript.rs:285-307 | a name is a key exactly when some entry has it as its full name |
| Symbols.TableLastWins | src/typescript.rs:290-301 | of several entries with the same full name, the one inserted last is kept |
| Symbols.TableValues | src/typescript.rs:285-307 | every value in the table is an entry, stored under its own full name |
| Symbols.CollectedComplete | src/typescript.rs:320-338 | a field collects every message and enum it declares, at any depth of nested messages |
| Symbols.CollectedAllComplete | src/typescript.rs:328-332 | a list of fields collects every declaration among them |
| Symbols.CollectedSound | src/typescript.rs:320-338 | everything a field collects is a declaration in it, named after its scope path |
| Symbols.CollectedAllSound | src/typescript.rs:328-332 | everything a list of fields collects is a declaration among them |
| Symbols.ElemEntriesAsCollected | src/typescript.rs:289-302 | a top-level message or enum gets the entries that `collect` gives it in the empty scope |
| Symbols.ElemEntriesSound | src/typescript.rs:287-305 | every entry of a top-level element is one of its declarations |
| Symbols.ElemEntriesComplete | src/typescript.rs:287-305 | every declaration of a top-level element is among its entries |
| Symbols.EntriesSound | src/typescript.rs:287-305 | every entry of a file is a declaration of one of its elements |
| Symbols.EntriesComplete | src/typescript.rs:287-305 | every declaration of a file is an entry |
| Symbols.ContextKeySound | src/typescript.rs:284-308 | every key of a file's table is the dotted scope path of one of its declarations, and maps to that declaration's names |
| Symbols.ContextKeyComplete | src/typescript.rs:284-308 | every message and enum of a file, top-level or nested in messages, is in the table under its dotted scope path |
| Symbols.OneofDeclarationsNotCollected | src/typescript.rs:320-336 | a message declared inside a oneof gets no entry |
| Symbols.NestedExampleTable | src/typescript.rs:284-308 | `message A { message X {} message B {} }` gives exactly the keys `A`, `A.X`, `A.B` |
| Symbols.GetNoAncestorSearch | src/typescript.rs:310-318 | inside `A.B`, the name `X` does not find `A.X`: enclosing scopes are not searched |
| Symbols.ShadowExampleEntries | src/typescript.rs:287-305 | the entries of `message B {}` then `message A { message B {} }` are `B`, `A`, `A.B` in that order |
| Symbols.TopLevelNameShadowsNested | src/typescript.rs:310-318 | inside `A`, the name `B` resolves to the top-level `B`, not to `A.B` |
| Generator.Builtin | src/typescript.rs:192-209 | exactly the scalar type names and `google.protobuf.Timestamp` have a built-in validator: `string`/`bytes` get `z.string()`, the 32-bit integers, `double` and `float` `z.number()`, the 64-bit integers `z.coerce.bigint()`, `bool` `z.boolean()` and the timestamp `z.coerce.date()`, each group exactly |
| Generator.Found | src/typescript.rs:36-38 | a missing declaration is `ProtobufTypeNotFound` with the name looked up |
| Generator.TypeName | src/typescript.rs:187-216 | a built-in name gets its validator without consulting the table; any other name succeeds exactly when it resolves, giving the schema name; a failure is `ProtobufTypeNotFound` with the name as written |
| Generator.FlaggedField | src/typescript.rs:218-225 | `optional` wraps the validator in `z.optional(..)`, `repeated` in `z.array(..)`, and no flag or `required` leave it unchanged |
| Generator.FieldOut | src/typescript.rs:72-115 | single, map and oneof fields give a member and nested messages and enums give none; nested declarations each give one block; reserved and extensions fields give nothing |
| Generator.FieldsOut | src/typescript.rs:41-45 | a list of fields gives at most one member per field |
| Generator.Cases | src/typescript.rs:123-130 | each member of a oneof becomes `z.object({ member })`, in order |
| Generator.OneofText | src/typescript.rs:132-138 | one case is that case's object alone; any other number of cases is `z.union([..])` of the case objects joined by `, ` |
| Generator.MsgBlock | src/typescript.rs:36-38 | a message that does not resolve is `ProtobufTypeNotFound` with its name |
| Generator.FirstZero | src/typescript.rs:161-170 | the default is the first `Single` value numbered 0; there is none exactly when no `Single` value is numbered 0 |
| Generator.EnumBlock | src/typescript.rs:141-185 | an enum formats exactly when its name resolves, and otherwise fails with `ProtobufTypeNotFound` of its name |
| Generator.ElemBlock | src/typescript.rs:21-27 | elements other than messages and enums give no text |
| Generator.Schema | src/typescript.rs:8-30 | every generated file starts with the header |
| Generator.FieldsOutStepFails | src/typescript.rs:41-45 | the first field that fails makes the whole list fail with its error |
| Generator.FieldsOutFailsFrom | src/typescript.rs:41-45 | once a prefix of the fields fails, the whole list fails with the same error |
| Generator.BlocksFailFrom | src/typescript.rs:21-27 | once a prefix of the top-level elements fails, the file fails with the same error |
| Generator.FieldsOutOk | src/typescript.rs:41-45 | a list of fields formats exactly when every field in it does |
| Generator.FieldsOutSingle | src/typescript.rs:41-45 | a list of one field formats as that field does |
| Generator.FieldsOutFirstError | src/typescript.rs:41-45 | a failing list reports the error of its first failing field, and all fields before it format |
| Generator.FieldsOutAppend | src/typescript.rs:41-51 | the members and nested blocks of two lists of fields come in order, and the first error wins |
| Generator.Singles | src/typescript.rs:150-157 | the values kept in the TypeScript enum are `Single` values only |
| Generator.EnumLinesAppend | src/typescript.rs:150-157 | the enum members of two lists of values come in order |
| Generator.EnumLinesSkipReserved | src/typescript.rs:150-157 | reserved values leave no trace in the TypeScript enum |
| Generator.EnumLinesOfSingles | src/typescript.rs:150-157 | each `Single` value becomes the member `Name = "Name"`, in declaration order |
| Generator.BlocksOk | src/typescript.rs:21-29 | a file's blocks are produced exactly when every top-level element's block is |
| Generator.BlocksAppend | src/typescript.rs:21-27 | the blocks of two lists of top-level elements come in order, and the first error wins |
| Generator.BlocksSkipOthers | src/typescript.rs:25 | imports, options, services and other elements add nothing to the output |
| Generator.FormatField | src/typescript.rs:72-115 | `format_field` returns the field's member and appends the field's nested blocks to `elements`, or fails with the field's error |
| Generator.FormatFields | src/typescript.rs:41-45 | the field loop returns the members of all fields in order and appends all nested blocks to `elements`, or fails with the first error |
| Generator.FormatNext | src/typescript.rs:41-45 | one turn of the field loop extends the members and blocks by those of the next field, or fails with the error of the whole list |
| Generator.FormatOneof | src/typescript.rs:117-139 | `format_oneof` returns the oneof text of its cases' members and appends their nested blocks to `elements`, or fails with the first error |
| Generator.AppendAll | src/typescript.rs:49-51 | the `push_str` loop appends the concatenation of the parts |
| Generator.AppendMembers | src/typescript.rs:54-58 | the member loop appends one indented line per member |
| Generator.FormatMsg | src/typescript.rs:32-70 | `format_msg` produces exactly the message's block: nested blocks first, then its object and type declarations |
| Generator.FormatEnum | src/typescript.rs:141-185 | `format_enum` produces exactly the enum's block |
| Generator.FormatElem | src/typescript.rs:22-26 | the loop body of `to_schema` produces exactly the element's block |
| Generator.PushHeader | src/typescript.rs:12-19 | the header lines are pushed in order |
| Generator.ToSchema | src/typescript.rs:8-30 | `to_schema` produces exactly the header and the blocks of the top-level elements in file order, or the first error and no output |
| GeneratorTests.SingleFieldContext | src/typescript.rs:284-308 | a message whose one field declares nothing has a table holding only itself |
| GeneratorTests.OneofFileContext | src/typescript.rs:320-336 | declarations inside a oneof leave the table holding only the message |
| GeneratorTests.OneMessageSchema | src/typescript.rs:8-70 | a file of one message is the header, the nested blocks and then the message's object and type |
| GeneratorTests.OneMessageFails | src/typescript.rs:21-45 | when a field of the one message fails, the file fails with that field's error |
| GeneratorTests.OneofMember | src/typescript.rs:100-104 | a oneof becomes one member, its name followed by the oneof text of its cases |
| GeneratorTests.OneofFileSchema | src/typescript.rs:355-368 | the file of the tests is the header and `Test`'s object with the one member `test` |
| GeneratorTests.TestObjectDecl | src/typescript.rs:53-67 | the declarations of `Test` with one member, written out line by line |
| GeneratorTests.BuiltinField | src/typescript.rs:79-88 | a plain field of a built-in type with no flag is its name, `: ` and the validator |
| GeneratorTests.FieldsOutPair | src/typescript.rs:41-45 | two fields that format give their members and nested blocks in order |
| GeneratorTests.OneFormats | src/typescript.rs:361-366 | `string one = 1` becomes `one: z.string()` |
| GeneratorTests.StringValidator | src/typescript.rs:196 | `string` is validated by `z.string()` |
| GeneratorTests.Int32Validator | src/typescript.rs:198-200 | `int32` is validated by `z.number()` |
| GeneratorTests.ScalarValidators | src/typescript.rs:192-200 | `string` and `int32` get their validators whatever the table holds |
| GeneratorTests.TwoFormats | src/typescript.rs:404-409 | `int32 two = 2` becomes `two: z.number()` |
| GeneratorTests.SingleCaseLine | src/typescript.rs:382 | a oneof with the one case `one` is the member line the single-case test expects |
| GeneratorTests.ToSchemaSingleOneof | src/typescript.rs:355-389 | `to_schema_single_oneof`: the file is exactly the expected text, with no `z.union` |
| GeneratorTests.TwoCasesText | src/typescript.rs:138 | two cases become the `z.union` of their objects separated by `, ` |
| GeneratorTests.MultipleCasesLine | src/typescript.rs:426 | the oneof with the cases `one` and `two` is the member line the multiple-case test expects |
| GeneratorTests.TwoCasesFormat | src/typescript.rs:397-410 | the two cases of the test format to their members, in order |
| GeneratorTests.ToSchemaMultipleOneof | src/typescript.rs:391-433 | `to_schema_multiple_oneof`: the file is exactly the expected text, with the cases in a `z.union` in order |
| GeneratorTests.UnknownField | src/typescript.rs:210-214 | a field of a type that is neither built in nor resolvable fails with `ProtobufTypeNotFound` naming the type as written |
| GeneratorTests.UnknownTypeAborts | src/typescript.rs:8-30 | a field of an undeclared type aborts the whole file with `ProtobufTypeNotFound` |
| GeneratorTests.MessageInOneofNotFound | src/typescript.rs:105-108 | a message declared inside a oneof cannot be formatted: the file fails with `ProtobufTypeNotFound` of its name |
| GeneratorTests.NestedFileContext | src/typescript.rs:284-308 | `message Test { message X {} int32 y = 1; }` has the table `Test`, `Test.X` |
| GeneratorTests.NestedTypeNames | src/typescript.rs:262-276 | the nested `X` is named `Test_X` with the schema `Test_XSchema` |
| GeneratorTests.NestedMessageBlock | src/typescript.rs:105-108 | inside `Test`, the nested `X` resolves to `Test.X` and becomes one block and no member |
| GeneratorTests.NestedFileFields | src/typescript.rs:41-45 | the nested message goes to the nested blocks and the field `y` to the members |
| GeneratorTests.NestedBlockFirst | src/typescript.rs:49-53 | the nested message's block comes before its container's object, although it is declared among the fields |
| GeneratorTests.MapFieldIsRecord | src/typescript.rs:89-99 | `map<string, int32> counts` becomes `counts: z.record(z.string(), z.number())` |
| GeneratorTests.BuiltinMapField | src/typescript.rs:89-99 | a map field between built-in types is a `z.record` of the key's and the value's validators |
| GeneratorTests.EnumDefaultIsFirstZero | src/typescript.rs:150-174 | the default is the first value numbered 0 even when it is not the first value, and a reserved value leaves no member |
| GeneratorTests.ReservedZeroIsNoDefault | src/typescript.rs:161-174 | a reserved 0 is not a default: there is no `.catch` |

## Left out

- `src/main.rs` (argument handling, reading the file, writing to standard output and error, exit codes) is input and output around the core and is not part of this model.
- `src/errors.rs` is modelled as the error kinds only. Their display text is not modelled.
- `ParsingError` carries nom's diagnostic text in the source. Here it carries nothing, because the diagnostic is nom's internal trace.
- The `eprintln!` of the parsed tree on an incomplete parse is output only and is left out.
- The pairs inside an option value `{ key: value }` are parsed and dropped, as in the source. `OptionValue::Msg` always holds `""`.
- The capacity hints of `String::with_capacity` and `HashMap`, and the hashing, do not change any result. The table is a Dafny `map`.
- The unit test `parse_example_file_is_ok` reads `assets/example.proto`. That file is not part of this model.
- nom's `many0` fails when its parser succeeds without consuming anything. Every repeated rule here provably consumes at least one character, so that case is not written out.
- `escaped` is modelled with nom 7's behaviour: it fails when it consumes nothing. So the empty literal `""` is rejected (`Lexer.EmptyStringRejected`). A different nom version could accept it.
- `elements: &mut Vec<String>` in `format_field` and `format_oneof` is passed in and returned extended, not shared by reference.
- The iterator chains of `format_oneof`, `format_enum` and `Context::new` (`map`, `collect::<Result<..>>`, `flatten`, `find_map`, `flat_map`) are modelled by the functions they compute and by loops.
- Grammar rule functions: their own contracts state how far they move the cursor and which kind of node they yield. What each rule accepts is its definition. The properties of the grammar are separate lemmas in `Lexer` and `Parser`.
- Generator.MsgBlock: its own contract states only the error case. The text it produces is its definition, and `Generator.FormatMsg`, `GeneratorTests.OneMessageSchema` and `GeneratorTests.NestedBlockFirst` state it.
- Generator.FieldsOut: its own contract bounds only the number of members. The order of members and the first-error rule are `Generator.FieldsOutAppend`, `Generator.FieldsOutOk` and `Generator.FieldsOutFirstError`.
