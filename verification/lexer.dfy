/**
  The lexical layer of the grammar parser (src/parser.rs): nom's primitive
  combinators and the token rules built from them.

  A rule reads the input `s` from the cursor `i` and either fails or returns
  its value together with the cursor after what it consumed; nom's
  `(rest, value)` pair is `Parsed(value, pos)` with `rest == s[pos..]`. All
  character classes are ASCII, as in nom's `&str` parsers.
 */
module Lexer {
  import opened Wrappers
  import opened Ast

  /** The outcome of a rule: nom's recoverable error is `Fail`. */
  datatype Res<+T> = Parsed(value: T, pos: nat) | Fail {
    predicate IsFailure() { Fail? }
    function PropagateFailure<U>(): Res<U> requires Fail? { Fail }
    function Extract(): Res<T> requires Parsed? { this }
  }

  predicate IsAlpha(c: char) { 'a' <= c <= 'z' || 'A' <= c <= 'Z' }
  predicate IsDigit(c: char) { '0' <= c <= '9' }
  predicate IsAlphanumeric(c: char) { IsAlpha(c) || IsDigit(c) }
  /** nom's `multispace`: space, tab, carriage return, line feed */
  predicate IsMultispace(c: char) { c == ' ' || c == '\t' || c == '\r' || c == '\n' }
  /** nom's `space`: space and tab */
  predicate IsSpace(c: char) { c == ' ' || c == '\t' }
  predicate IsIdentifierChar(c: char) { IsAlphanumeric(c) || c == '.' || c == '_' }
  /** the characters of `one_of("01234567890-")` */
  predicate IsNumberChar(c: char) { IsDigit(c) || c == '-' }
  predicate NotLineEnd(c: char) { c != '\r' && c != '\n' }
  /** the double quote that delimits a string literal */
  const Quote: char := 34 as char
  /** the two slashes that open a line comment */
  const LineOpen: string := ['/', '/']
  /** the slash and star that open a block comment */
  const BlockOpen: string := ['/', '*']
  /** the star and slash that close a block comment */
  const BlockClose: string := ['*', '/']
  /** the characters of `is_not("\\\"")` */
  predicate IsPlainStringChar(c: char) { c != '\\' && c != Quote }

  /** `take_while(p)`: the end of the longest run of characters satisfying `p` from `i`. */
  function Span(s: string, i: nat, p: char -> bool): (j: nat)
    requires i <= |s|
    ensures i <= j <= |s|
    ensures forall k :: i <= k < j ==> p(s[k])
    ensures j < |s| ==> !p(s[j])
    decreases |s| - i
  {
    if i < |s| && p(s[i]) then Span(s, i + 1, p) else i
  }

  /** `tag(t)`: the literal `t` at the cursor. */
  function Tag(s: string, i: nat, t: string): (r: Res<string>)
    requires i <= |s|
    ensures r.Parsed? <==> i + |t| <= |s| && s[i..i + |t|] == t
    ensures r.Parsed? ==> r.value == t && r.pos == i + |t|
  {
    if i + |t| <= |s| && s[i..i + |t|] == t then Parsed(t, i + |t|) else Fail
  }

  /** A tag that matched starts with the tag's first character. */
  lemma TagFirstChar(s: string, i: nat, t: string)
    requires i <= |s| && |t| > 0 && Tag(s, i, t).Parsed?
    ensures i < |s| && s[i] == t[0]
  {
    assert s[i..i + |t|][0] == s[i];
  }

  /** A tag fails where its first character is not. */
  lemma TagMismatch(s: string, i: nat, t: string)
    requires i < |s| && |t| > 0 && s[i] != t[0]
    ensures Tag(s, i, t).Fail?
  {
    assert !OccursAt(s, i, t) by {
      Mismatch(s, i, t, 0);
    }
  }

  /** `one_of(chars)`: one character from the set. */
  function OneOf(s: string, i: nat, chars: set<char>): (r: Res<char>)
    requires i <= |s|
    ensures r.Parsed? <==> i < |s| && s[i] in chars
    ensures r.Parsed? ==> r.value == s[i] && r.pos == i + 1
  {
    if i < |s| && s[i] in chars then Parsed(s[i], i + 1) else Fail
  }

  /** A non-empty maximal run (`alpha1`, `alphanumeric1`, `multispace1`, `is_not`, `many1(one_of(..))`). */
  function Run1(s: string, i: nat, p: char -> bool): (r: Res<string>)
    requires i <= |s|
    ensures r.Parsed? <==> i < |s| && p(s[i])
    ensures r.Parsed? ==> r.pos == Span(s, i, p) && r.value == s[i..r.pos]
  {
    var j := Span(s, i, p);
    if j == i then Fail else Parsed(s[i..j], j)
  }

  /** `alpha1`: the longest non-empty run of ASCII letters. */
  function Alpha1(s: string, i: nat): (r: Res<string>)
    requires i <= |s|
    ensures r.Parsed? <==> i < |s| && IsAlpha(s[i])
    ensures r.Parsed? ==> i < r.pos <= |s|
    ensures r.Parsed? ==> forall k :: i <= k < r.pos ==> IsAlpha(s[k])
    ensures r.Parsed? && r.pos < |s| ==> !IsAlpha(s[r.pos])
  {
    Run1(s, i, IsAlpha)
  }

  /** What `alpha1` yields is exactly the text it consumed. */
  lemma Alpha1Text(s: string, i: nat)
    requires i <= |s| && Alpha1(s, i).Parsed?
    ensures Alpha1(s, i).value == s[i..Alpha1(s, i).pos]
  {
  }

  /** `alphanumeric1`: the longest non-empty run of ASCII letters and digits. */
  function Alphanumeric1(s: string, i: nat): (r: Res<string>)
    requires i <= |s|
    ensures r.Parsed? <==> i < |s| && IsAlphanumeric(s[i])
    ensures r.Parsed? ==> i < r.pos <= |s| && r.value == s[i..r.pos]
    ensures r.Parsed? ==> forall k :: 0 <= k < |r.value| ==> IsAlphanumeric(r.value[k])
    ensures r.Parsed? ==> r.pos == |s| || !IsAlphanumeric(s[r.pos])
  {
    Run1(s, i, IsAlphanumeric)
  }

  /** `space0`: never fails; skips spaces and tabs (not line breaks). */
  function Space0(s: string, i: nat): (j: nat)
    requires i <= |s|
    ensures i <= j <= |s|
    ensures forall k :: i <= k < j ==> IsSpace(s[k])
    ensures j == |s| || !IsSpace(s[j])
  {
    Span(s, i, IsSpace)
  }

  /** The literal `t` occurs in `s` at position `k`. */
  predicate OccursAt(s: string, k: nat, t: string)
  {
    k + |t| <= |s| && s[k..k + |t|] == t
  }

  /** One differing character rules out an occurrence. */
  lemma Mismatch(s: string, k: nat, t: string, j: nat)
    requires j < |t| && k + j < |s| && s[k + j] != t[j]
    ensures !OccursAt(s, k, t)
  {
  }

  /** `take_until(t)`: everything up to the first occurrence of `t`; fails if there is none. */
  function TakeUntil(s: string, i: nat, t: string): (r: Res<string>)
    requires i <= |s|
    ensures r.Parsed? ==> i <= r.pos && OccursAt(s, r.pos, t) && r.value == s[i..r.pos]
    ensures r.Parsed? ==> forall k :: i <= k < r.pos ==> !OccursAt(s, k, t)
    ensures r.Fail? ==> forall k :: i <= k ==> !OccursAt(s, k, t)
    decreases |s| - i
  {
    if i + |t| > |s| then Fail
    else if s[i..i + |t|] == t then Parsed(s[i..i], i)
    else
      var r := TakeUntil(s, i + 1, t);
      if r.Parsed? then Parsed(s[i..r.pos], r.pos) else Fail
  }

  /** A line comment: its two slashes and everything up to, not including, the next CR or LF. */
  function LineComment(s: string, i: nat): (r: Res<()>)
    requires i <= |s|
    ensures r.Parsed? <==> OccursAt(s, i, LineOpen)
    ensures r.Parsed? ==> i + 2 <= r.pos <= |s|
    ensures r.Parsed? ==> (forall k :: i + 2 <= k < r.pos ==> NotLineEnd(s[k])) && (r.pos == |s| || !NotLineEnd(s[r.pos]))
  {
    var open :- Tag(s, i, LineOpen);
    Parsed((), Span(s, open.pos, NotLineEnd))
  }

  // The opening slash-star, everything up to the first star-slash, and that
  // star-slash; block comments do not nest.
  function BlockComment(s: string, i: nat): (r: Res<()>)
    requires i <= |s|
    ensures r.Parsed? <==> OccursAt(s, i, BlockOpen) && exists k :: i + 2 <= k && OccursAt(s, k, BlockClose)
    ensures r.Parsed? ==> i + 4 <= r.pos <= |s| && OccursAt(s, r.pos - 2, BlockClose)
    ensures r.Parsed? ==> forall k :: i + 2 <= k < r.pos - 2 ==> !OccursAt(s, k, BlockClose)
  {
    var open :- Tag(s, i, BlockOpen);
    var body :- TakeUntil(s, open.pos, BlockClose);
    // `take_until` stopped in front of the closing star-slash, so the closing `tag` succeeds
    Parsed((), body.pos + 2)
  }

  /** One alternative of `whitespace`, tried in the source's order. */
  function WsItem(s: string, i: nat): (r: Res<()>)
    requires i <= |s|
    ensures r.Parsed? ==> i < r.pos <= |s|
  {
    var line := LineComment(s, i);
    if line.Parsed? then line
    else
      var block := BlockComment(s, i);
      if block.Parsed? then block
      else
        var spaces :- Run1(s, i, IsMultispace);
        Parsed((), spaces.pos)
  }

  /**
    `whitespace`: never fails; skips any interleaving of line comments, block
    comments and whitespace, and stops where none of them applies.
   */
  function Whitespace(s: string, i: nat): (j: nat)
    requires i <= |s|
    ensures i <= j <= |s|
    ensures WsItem(s, j).Fail?
    decreases |s| - i
  {
    match WsItem(s, i)
    case Parsed(_, k) => Whitespace(s, k)
    case Fail => i
  }

  /**
    Nothing of `whitespace` starts at `i`: the input ends, or the next
    character is no whitespace and starts no line comment and no closed
    block comment.
   */
  predicate NoWsAt(s: string, i: nat)
    requires i <= |s|
  {
    || i == |s|
    || (&& !IsMultispace(s[i])
        && !OccursAt(s, i, LineOpen)
        && (OccursAt(s, i, BlockOpen) ==> forall k :: i + 2 <= k <= |s| ==> !OccursAt(s, k, BlockClose)))
  }

  /** `whitespace` consumes nothing in front of a character that can start neither a comment nor a run of whitespace. */
  lemma WhitespaceStays(s: string, i: nat)
    requires i <= |s| && (i == |s| || (s[i] != '/' && !IsMultispace(s[i])))
    ensures Whitespace(s, i) == i
  {
    assert !OccursAt(s, i, LineOpen) && !OccursAt(s, i, BlockOpen);
    assert WsItem(s, i).Fail?;
  }

  /** `whitespace` consumes nothing exactly where nothing of it starts. */
  lemma WhitespaceConsumesNothing(s: string, i: nat)
    requires i <= |s|
    ensures Whitespace(s, i) == i <==> NoWsAt(s, i)
  {
    if NoWsAt(s, i) {
      if i < |s| {
        assert LineComment(s, i).Fail? && BlockComment(s, i).Fail?;
      }
      assert WsItem(s, i).Fail?;
    } else {
      assert WsItem(s, i).Parsed? by {
        if !LineComment(s, i).Parsed? && !BlockComment(s, i).Parsed? {
          assert IsMultispace(s[i]);
        }
      }
    }
  }

  /** Where `whitespace` stops, nothing of it starts. */
  lemma WhitespaceEnd(s: string, i: nat)
    requires i <= |s|
    ensures NoWsAt(s, Whitespace(s, i))
  {
    WhitespaceConsumesNothing(s, Whitespace(s, i));
    WhitespaceIdle(s, Whitespace(s, i));
  }

  /** `whitespace` started where it stopped consumes nothing more. */
  lemma WhitespaceIdle(s: string, j: nat)
    requires j <= |s| && WsItem(s, j).Fail?
    ensures Whitespace(s, j) == j
  {
  }

  /** `take_while(p)` from `i` ends at `k` when every character before `k` satisfies `p` and the one at `k` does not. */
  lemma {:induction false} SpanExact(s: string, i: nat, k: nat, p: char -> bool)
    requires i <= k <= |s| && (forall m :: i <= m < k ==> p(s[m])) && (k == |s| || !p(s[k]))
    ensures Span(s, i, p) == k
    decreases k - i
  {
    if i < k {
      SpanExact(s, i + 1, k, p);
    }
  }

  /** A maximal run of whitespace is skipped, and `whitespace` goes on from its end. */
  lemma WhitespaceAfterSpaces(s: string, i: nat, k: nat)
    requires i < k <= |s| && (forall m :: i <= m < k ==> IsMultispace(s[m])) && (k == |s| || !IsMultispace(s[k]))
    ensures Whitespace(s, i) == Whitespace(s, k)
  {
    Mismatch(s, i, LineOpen, 0);
    Mismatch(s, i, BlockOpen, 0);
    SpanExact(s, i, k, IsMultispace);
  }

  /** A line comment is skipped up to its line end, and `whitespace` goes on from there. */
  lemma WhitespaceAfterLineComment(s: string, i: nat, e: nat)
    requires OccursAt(s, i, LineOpen) && i + 2 <= e <= |s|
    requires (forall m :: i + 2 <= m < e ==> NotLineEnd(s[m])) && (e == |s| || !NotLineEnd(s[e]))
    ensures Whitespace(s, i) == Whitespace(s, e)
  {
    SpanExact(s, i + 2, e, NotLineEnd);
  }

  /** A block comment is skipped up to just after its first closing, and `whitespace` goes on from there. */
  lemma WhitespaceAfterBlockComment(s: string, i: nat, c: nat)
    requires OccursAt(s, i, BlockOpen) && i + 2 <= c && OccursAt(s, c, BlockClose)
    requires forall m :: i + 2 <= m < c ==> !OccursAt(s, m, BlockClose)
    ensures Whitespace(s, i) == Whitespace(s, c + 2)
  {
    BlockCommentExact(s, i, c);
    WhitespaceAfterBlock(s, i, c + 2);
  }

  /** `whitespace` goes on from where a block comment at the cursor ends. */
  lemma WhitespaceAfterBlock(s: string, i: nat, e: nat)
    requires OccursAt(s, i, BlockOpen) && BlockComment(s, i).Parsed? && BlockComment(s, i).pos == e
    ensures Whitespace(s, i) == Whitespace(s, e)
  {
    WsItemBlock(s, i);
    WhitespaceAfterItem(s, i);
  }

  /** After one item, `whitespace` goes on from where the item ended. */
  lemma WhitespaceAfterItem(s: string, i: nat)
    requires i <= |s| && WsItem(s, i).Parsed?
    ensures Whitespace(s, i) == Whitespace(s, WsItem(s, i).pos)
  {
  }

  /** Where a block comment opens and closes, it is the item `whitespace` takes. */
  lemma WsItemBlock(s: string, i: nat)
    requires i <= |s| && OccursAt(s, i, BlockOpen) && BlockComment(s, i).Parsed?
    ensures WsItem(s, i) == BlockComment(s, i)
  {
    BlockIsNoLineComment(s, i);
  }

  /** Where a block comment opens, no line comment does. */
  lemma BlockIsNoLineComment(s: string, i: nat)
    requires OccursAt(s, i, BlockOpen)
    ensures LineComment(s, i).Fail?
  {
    Mismatch(s, i, LineOpen, 1);
  }

  /** A block comment ends just after the first closing that follows its opening. */
  lemma BlockCommentExact(s: string, i: nat, c: nat)
    requires OccursAt(s, i, BlockOpen) && i + 2 <= c && OccursAt(s, c, BlockClose)
    requires forall m :: i + 2 <= m < c ==> !OccursAt(s, m, BlockClose)
    ensures BlockComment(s, i).Parsed? && BlockComment(s, i).pos == c + 2
  {
    TakeUntilExact(s, i + 2, BlockClose, c);
  }

  /** `take_until(t)` from `i` stops at `c` when `t` occurs at `c` and nowhere from `i` before it. */
  lemma TakeUntilExact(s: string, i: nat, t: string, c: nat)
    requires i <= c && OccursAt(s, c, t) && forall m :: i <= m < c ==> !OccursAt(s, m, t)
    ensures TakeUntil(s, i, t) == Parsed(s[i..c], c)
  {
  }

  /** One piece of an identifier's tail: `alt((alphanumeric1, tag("."), tag("_")))`. */
  function IdentifierPiece(s: string, i: nat): (r: Res<string>)
    requires i <= |s|
    ensures r.Parsed? <==> i < |s| && IsIdentifierChar(s[i])
    ensures r.Parsed? ==> i < r.pos <= |s| && forall k :: i <= k < r.pos ==> IsIdentifierChar(s[k])
  {
    var word := Alphanumeric1(s, i);
    if word.Parsed? then word
    else
      var dot := Tag(s, i, ".");
      if dot.Parsed? then dot else Tag(s, i, "_")
  }

  /** `many0(IdentifierPiece)`: the longest run of identifier characters. */
  function IdentifierTail(s: string, i: nat): (j: nat)
    requires i <= |s|
    ensures i <= j <= |s|
    ensures forall k :: i <= k < j ==> IsIdentifierChar(s[k])
    ensures j < |s| ==> !IsIdentifierChar(s[j])
    decreases |s| - i
  {
    match IdentifierPiece(s, i)
    case Parsed(_, k) => IdentifierTail(s, k)
    case Fail => i
  }

  /**
    `identifier`: an ASCII letter, then the longest run of ASCII letters,
    digits, '.' and '_'; the value is exactly the consumed text.
   */
  function Identifier(s: string, i: nat): (r: Res<string>)
    requires i <= |s|
    ensures r.Parsed? <==> i < |s| && IsAlpha(s[i])
    ensures r.Parsed? ==> i < r.pos <= |s| && r.value == s[i..r.pos]
    ensures r.Parsed? ==> forall k :: i <= k < r.pos ==> IsIdentifierChar(s[k])
    ensures r.Parsed? ==> r.pos == |s| || !IsIdentifierChar(s[r.pos])
  {
    var head :- Alpha1(s, i);
    var j := IdentifierTail(s, head.pos);
    Parsed(s[i..j], j)
  }

  /** The value of a string of decimal digits. */
  predicate AllDigits(d: string) { forall k :: 0 <= k < |d| ==> IsDigit(d[k]) }

  /** The value of a string of decimal digits. */
  function Decimal(d: string): (v: int)
    requires AllDigits(d)
    ensures v >= 0
  {
    if |d| == 0 then 0 else Decimal(d[..|d| - 1]) * 10 + (d[|d| - 1] as int - '0' as int)
  }

  predicate InI32(v: int) { -0x8000_0000 <= v < 0x8000_0000 }

  /** `str::parse::<i32>`: an optional sign, at least one digit, no other character, no overflow. */
  function ParseI32(t: string): Option<I32>
  {
    if |t| == 0 then Option.None
    else if (t[0] == '+' || t[0] == '-') && |t| == 1 then Option.None
    else
      var negative := t[0] == '-';
      var digits := if t[0] == '+' || t[0] == '-' then t[1..] else t;
      if !AllDigits(digits) then Option.None
      else
        var v := if negative then -Decimal(digits) else Decimal(digits);
        if InI32(v) then Some(v) else Option.None
  }

  /**
    `number`: the longest non-empty run of digits and '-', converted to an
    `i32`; the rule fails if the conversion does.
   */
  function Number(s: string, i: nat): (r: Res<I32>)
    requires i <= |s|
    ensures r.Parsed? ==> i < r.pos <= |s| && r.pos == Span(s, i, IsNumberChar)
    ensures r.Parsed? ==> ParseI32(s[i..r.pos]) == Some(r.value)
  {
    var run :- Run1(s, i, IsNumberChar);
    match ParseI32(run.value)
    case Some(v) => Parsed(v, run.pos)
    case None => Fail
  }

  /** `boolean`: the literal `true` or `false`, with no check of what follows. */
  function Boolean(s: string, i: nat): (r: Res<bool>)
    requires i <= |s|
    ensures r.Parsed? <==> OccursAt(s, i, "true") || OccursAt(s, i, "false")
    ensures r.Parsed? ==> (r.value <==> OccursAt(s, i, "true"))
    ensures r.Parsed? ==> r.pos == i + if r.value then 4 else 5
  {
    var t := Tag(s, i, "true");
    if t.Parsed? then Parsed(true, t.pos)
    else
      var f :- Tag(s, i, "false");
      Parsed(false, f.pos)
  }

  /**
    nom's `escaped(is_not("\\\""), '\\', one_of("\"\n\r"))` on the text that
    starts at `start`, continued at `j`: plain characters, or a backslash
    followed by a double quote, LF or CR. It stops before the first other character and
    fails if that is a backslash, or if it stops without having consumed
    anything.
   */
  function Escaped(s: string, start: nat, j: nat): (r: Res<string>)
    requires start <= j <= |s|
    ensures r.Parsed? ==> j <= r.pos <= |s| && r.value == s[start..r.pos]
    ensures r.Parsed? ==> start < r.pos || start == |s|
    decreases |s| - j
  {
    if j == |s| then Parsed(s[start..], |s|)
    else
      var n := Span(s, j, IsPlainStringChar);
      if n > j then
        if n == |s| then Parsed(s[start..], |s|) else Escaped(s, start, n)
      else if s[j] == '\\' then
        if j + 1 >= |s| then Fail
        else if s[j + 1] in {Quote, '\n', '\r'} then
          if j + 2 == |s| then Parsed(s[start..], |s|) else Escaped(s, start, j + 2)
        else Fail
      else if j == start then Fail
      else Parsed(s[start..j], j)
  }

  /** `str`: a double-quoted string; the value is the raw text between the quotes. */
  function Str(s: string, i: nat): (r: Res<string>)
    requires i <= |s|
    ensures r.Parsed? ==> i + 2 <= r.pos <= |s| && r.value == s[i + 1..r.pos - 1]
  {
    var open :- Tag(s, i, "\"");
    var body :- Escaped(s, open.pos, open.pos);
    var close :- Tag(s, body.pos, "\"");
    Parsed(body.value, close.pos)
  }

  /** The keyword that `field_flag` consumes for a flag. */
  function FlagKeyword(f: Flag): string
  {
    match f
    case None => ""
    case Optional => "optional"
    case Repeated => "repeated"
    case Required => "required"
  }

  /**
    `field_flag`: never fails; consumes a leading `optional`, `repeated` or
    `required` (with no check of what follows), or nothing for `Flag::None`.
   */
  function FieldFlag(s: string, i: nat): (r: Res<Flag>)
    requires i <= |s|
    ensures r.Parsed?
    ensures OccursAt(s, i, FlagKeyword(r.value)) && r.pos == i + |FlagKeyword(r.value)|
    ensures r.value.None? ==> !OccursAt(s, i, "optional") && !OccursAt(s, i, "repeated") && !OccursAt(s, i, "required")
  {
    if Tag(s, i, "optional").Parsed? then Parsed(Flag.Optional, i + 8)
    else if Tag(s, i, "repeated").Parsed? then Parsed(Flag.Repeated, i + 8)
    else if Tag(s, i, "required").Parsed? then Parsed(Flag.Required, i + 8)
    else Parsed(Flag.None, i)
  }

  // ---------------------------------------------------------------------
  // Properties of the token rules
  // ---------------------------------------------------------------------

  /** Without a flag keyword at `i`, `field_flag` consumes nothing. */
  lemma NoFlag(s: string, i: nat)
    requires i < |s| && s[i] != 'o' && s[i] != 'r'
    ensures FieldFlag(s, i) == Parsed(Flag.None, i)
  {
    TagMismatch(s, i, "optional");
    TagMismatch(s, i, "repeated");
    TagMismatch(s, i, "required");
  }

  /** An identifier ends at the first character that cannot continue it. */
  lemma IdentifierStopsAt(s: string, i: nat, j: nat)
    requires i < j < |s| && IsAlpha(s[i]) && !IsIdentifierChar(s[j])
    requires forall k :: i <= k < j ==> IsIdentifierChar(s[k])
    ensures Identifier(s, i) == Parsed(s[i..j], j)
  {
  }

  /** An opening block comment that is never closed is not skipped: `whitespace` stops in front of it. */
  lemma UnterminatedBlockCommentStays(s: string, i: nat)
    requires i <= |s| && OccursAt(s, i, BlockOpen)
    requires forall k :: i + 2 <= k ==> !OccursAt(s, k, BlockClose)
    ensures Whitespace(s, i) == i
  {
    assert s[i..i + 2] == BlockOpen;
    assert s[i + 1] == '*';
    assert !OccursAt(s, i, LineOpen);
    assert TakeUntil(s, i + 2, BlockClose).Fail?;
  }

  /** The shape of a token that `number` accepts: digits, optionally after one '-', within the `i32` range. */
  predicate IsI32Literal(t: string)
  {
    || (|t| > 0 && AllDigits(t) && InI32(Decimal(t)))
    || (|t| > 1 && t[0] == '-' && AllDigits(t[1..]) && InI32(-Decimal(t[1..])))
  }

  /** The value of such a literal. */
  function LiteralValue(t: string): int
    requires IsI32Literal(t)
  {
    if |t| > 0 && t[0] == '-' then -Decimal(t[1..]) else Decimal(t)
  }

  /**
    `number` succeeds exactly when the longest run of digits and '-' is a
    decimal literal with at most one leading '-' whose value fits an `i32`;
    so `1-2`, `--1` and `2147483648` are rejected while `-5` is accepted.
   */
  lemma NumberAccepts(s: string, i: nat)
    requires i <= |s|
    ensures Number(s, i).Parsed? <==> IsI32Literal(s[i..Span(s, i, IsNumberChar)])
    ensures Number(s, i).Parsed? ==> Number(s, i).value == LiteralValue(s[i..Span(s, i, IsNumberChar)])
  {
    var j := Span(s, i, IsNumberChar);
    var t := s[i..j];
    if |t| > 0 {
      assert t[0] == s[i];
      assert t[0] != '+';
      if t[0] == '-' {
        assert !AllDigits(t);
      }
    }
  }

  /** `-5` is the number -5; the cursor stops in front of the ';'. */
  lemma NegativeNumberAccepted()
    ensures Number("-5;", 0) == Parsed(-5, 2)
  {
    var s := "-5;";
    assert Span(s, 2, IsNumberChar) == 2;
    assert Span(s, 0, IsNumberChar) == 2;
    assert s[0..2] == "-5" && "-5"[1..] == "5";
    assert Decimal("5") == 5 by { assert "5"[..0] == ""; }
    NumberAccepts(s, 0);
  }

  /** `1-2` is consumed as one token and then rejected by the conversion. */
  lemma InnerMinusRejected()
    ensures Number("1-2;", 0).Fail?
  {
    var s := "1-2;";
    assert Span(s, 3, IsNumberChar) == 3;
    assert Span(s, 0, IsNumberChar) == 3;
    assert s[0..3] == "1-2";
    assert !AllDigits("1-2"[1..]) && !AllDigits("1-2") by { assert "1-2"[1] == '-'; }
    NumberAccepts(s, 0);
  }

  /** `--1` is rejected: only one leading '-' is allowed. */
  lemma DoubleMinusRejected()
    ensures Number("--1;", 0).Fail?
  {
    var s := "--1;";
    assert Span(s, 3, IsNumberChar) == 3;
    assert Span(s, 0, IsNumberChar) == 3;
    assert s[0..3] == "--1";
    assert !AllDigits("--1"[1..]) by { assert "--1"[1..][0] == '-'; }
    NumberAccepts(s, 0);
  }

  /**
    The text of a string literal between its quotes: characters other than
    backslashes and double quotes, and backslashes each followed by a double quote, LF or CR. Escapes are
    kept as written, not decoded.
   */
  predicate RawStringBody(b: string)
    decreases |b|
  {
    || |b| == 0
    || (IsPlainStringChar(b[0]) && RawStringBody(b[1..]))
    || (|b| >= 2 && b[0] == '\\' && b[1] in {Quote, '\n', '\r'} && RawStringBody(b[2..]))
  }

  lemma {:induction false} RawAfterPlainRun(x: string, m: nat)
    requires m <= |x| && forall k :: 0 <= k < m ==> IsPlainStringChar(x[k])
    ensures RawStringBody(x) <==> RawStringBody(x[m..])
    decreases m
  {
    if m > 0 {
      assert x[1..][m - 1..] == x[m..];
      RawAfterPlainRun(x[1..], m - 1);
    }
  }

  /** What `escaped` consumes is a raw string body, and it stops at a quote or at the end of the input. */
  lemma {:induction false} EscapedSound(s: string, start: nat, j: nat)
    requires start <= j <= |s|
    ensures var r := Escaped(s, start, j);
      r.Parsed? ==> RawStringBody(s[j..r.pos]) && (r.pos == |s| || s[r.pos] == Quote)
    decreases |s| - j
  {
    var r := Escaped(s, start, j);
    if j < |s| && r.Parsed? {
      var n := Span(s, j, IsPlainStringChar);
      if n > j {
        if n < |s| {
          EscapedSound(s, start, n);
        } else {
          assert RawStringBody(s[n..r.pos]) by { assert s[n..r.pos] == []; }
        }
        RawRunThen(s, j, n, r.pos);
      } else if s[j] == '\\' {
        if j + 2 < |s| {
          EscapedSound(s, start, j + 2);
        } else {
          assert RawStringBody(s[j + 2..r.pos]) by { assert s[j + 2..r.pos] == []; }
        }
        RawEscapeThen(s, j, r.pos);
      } else {
        assert RawStringBody(s[j..r.pos]) by { assert s[j..r.pos] == []; }
      }
    }
  }

  /** A run of plain characters followed by a raw body is a raw body. */
  lemma RawRunThen(s: string, j: nat, n: nat, e: nat)
    requires j <= n <= e <= |s| && forall k :: j <= k < n ==> IsPlainStringChar(s[k])
    requires RawStringBody(s[n..e])
    ensures RawStringBody(s[j..e])
  {
    RawAfterPlainRun(s[j..e], n - j);
    assert s[j..e][n - j..] == s[n..e];
  }

  /** An escaped quote, LF or CR followed by a raw body is a raw body. */
  lemma RawEscapeThen(s: string, j: nat, e: nat)
    requires j + 2 <= e <= |s| && s[j] == '\\' && s[j + 1] in {Quote, '\n', '\r'}
    requires RawStringBody(s[j + 2..e])
    ensures RawStringBody(s[j..e])
  {
    assert s[j..e][2..] == s[j + 2..e];
  }

  /** `str` accepts a non-empty raw body between two quotes. */
  lemma StrSound(s: string, i: nat)
    requires i <= |s| && Str(s, i).Parsed?
    ensures var r := Str(s, i);
      s[i] == Quote && s[r.pos - 1] == Quote && |r.value| > 0 && RawStringBody(r.value)
  {
    EscapedSound(s, i + 1, i + 1);
  }

  lemma {:induction false} EscapedComplete(s: string, start: nat, j: nat, k: nat)
    requires start <= j <= k < |s| && start < k
    requires RawStringBody(s[j..k]) && s[k] == Quote
    ensures Escaped(s, start, j) == Parsed(s[start..k], k)
    decreases k - j
  {
    var n := Span(s, j, IsPlainStringChar);
    if j < k {
      if IsPlainStringChar(s[j]) {
        assert !IsPlainStringChar(s[k]);
        RawAfterPlainRun(s[j..k], n - j);
        assert s[j..k][n - j..] == s[n..k];
        EscapedComplete(s, start, n, k);
      } else {
        assert s[j..k][2..] == s[j + 2..k];
        EscapedComplete(s, start, j + 2, k);
      }
    }
  }

  /** Conversely, every non-empty raw body between two quotes is a string literal, returned as written. */
  lemma StrComplete(s: string, i: nat, k: nat)
    requires i + 1 < k < |s| && s[i] == Quote && s[k] == Quote
    requires RawStringBody(s[i + 1..k])
    ensures Str(s, i) == Parsed(s[i + 1..k], k + 1)
  {
    assert s[i..i + 1] == "\"";
    EscapedComplete(s, i + 1, i + 1, k);
  }

  /** The empty literal `""` is not a string: `escaped` refuses to match nothing. */
  lemma EmptyStringRejected(s: string, i: nat)
    requires i <= |s| && OccursAt(s, i, "\"\"")
    ensures Str(s, i).Fail?
  {
    assert s[i + 1] == Quote;
  }
}
