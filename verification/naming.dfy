/**
  Field renaming of the generator (src/typescript.rs, `to_camel` and
  `snake_to_camel`): snake_case field names become camelCase.
 */
module Naming {
  import opened Text

  /** `char::to_ascii_uppercase`: only 'a'..'z' change. */
  function ToAsciiUpper(c: char): (u: char)
    ensures 'a' <= c <= 'z' ==> 'A' <= u <= 'Z' && u as int == c as int - 32
    ensures !('a' <= c <= 'z') ==> u == c
  {
    if 'a' <= c <= 'z' then (c as int - 32) as char else c
  }

  /** `to_camel`: the word with its first character upper-cased; the empty word is unchanged. */
  function ToCamel(word: string): (r: string)
    ensures |r| == |word|
    ensures |word| > 0 ==> r[0] == ToAsciiUpper(word[0]) && r[1..] == word[1..]
    ensures '_' !in word ==> '_' !in r
  {
    if |word| == 0 then word else [ToAsciiUpper(word[0])] + word[1..]
  }

  /** The non-empty parts, in order (`filter(|part| !part.is_empty())`). */
  function NonEmpty(parts: seq<string>): (r: seq<string>)
    ensures forall k :: 0 <= k < |r| ==> r[k] != "" && r[k] in parts
  {
    if |parts| == 0 then []
    else
      var init := NonEmpty(parts[..|parts| - 1]);
      if parts[|parts| - 1] == "" then init else init + [parts[|parts| - 1]]
  }

  /** Filtering a concatenation filters each half: every non-empty part is kept, in order. */
  lemma {:induction false} NonEmptyAppend(a: seq<string>, b: seq<string>)
    ensures NonEmpty(a + b) == NonEmpty(a) + NonEmpty(b)
  {
    if |b| > 0 {
      var init := b[..|b| - 1];
      assert (a + b)[..|a + b| - 1] == a + init;
      NonEmptyAppend(a, init);
    } else {
      assert a + b == a;
    }
  }

  /** A single part is kept exactly when it is non-empty. */
  lemma NonEmptyOne(x: string)
    ensures NonEmpty([x]) == if x == "" then [] else [x]
  {
    assert [x][..0] == [];
  }

  /** `enumerate().map(..)`: the first part as it is, every later part through `to_camel`. */
  function CamelParts(parts: seq<string>): (r: seq<string>)
    ensures |r| == |parts|
    ensures |parts| > 0 ==> r[0] == parts[0]
    ensures forall k :: 0 < k < |parts| ==> r[k] == ToCamel(parts[k])
  {
    if |parts| <= 1 then parts
    else CamelParts(parts[..|parts| - 1]) + [ToCamel(parts[|parts| - 1])]
  }

  /** `snake_to_camel`: split on '_', drop empty pieces, capitalise every piece but the first, concatenate. */
  function SnakeToCamel(input: string): string
  {
    Concat(CamelParts(NonEmpty(Split(input, '_'))))
  }

  lemma {:induction false} NonEmptyConcat(parts: seq<string>)
    ensures Concat(NonEmpty(parts)) == Concat(parts)
  {
    if |parts| > 0 {
      var init := parts[..|parts| - 1];
      NonEmptyConcat(init);
      if parts[|parts| - 1] != "" {
        assert (NonEmpty(init) + [parts[|parts| - 1]])[..|NonEmpty(init)|] == NonEmpty(init);
      }
    }
  }

  lemma {:induction false} CamelPartsLength(parts: seq<string>)
    ensures |Concat(CamelParts(parts))| == |Concat(parts)|
  {
    if |parts| > 1 {
      var init := parts[..|parts| - 1];
      CamelPartsLength(init);
      assert (CamelParts(init) + [ToCamel(parts[|parts| - 1])])[..|parts| - 1] == CamelParts(init);
    }
  }

  /** The result holds no underscore. */
  lemma SnakeToCamelNoUnderscore(input: string)
    ensures '_' !in SnakeToCamel(input)
  {
    var parts := CamelParts(NonEmpty(Split(input, '_')));
    forall k | 0 <= k < |parts| ensures '_' !in parts[k] {
    }
    ConcatAvoids(parts, '_');
  }

  /** Every character but the underscores is kept: the length drops by the number of underscores. */
  lemma SnakeToCamelLength(input: string)
    ensures |SnakeToCamel(input)| == |input| - multiset(input)['_']
  {
    var pieces := Split(input, '_');
    SplitLength(input, '_');
    NonEmptyConcat(pieces);
    CamelPartsLength(NonEmpty(pieces));
  }

  lemma {:induction false} SplitWithoutSeparator(s: string, sep: char)
    requires sep !in s
    ensures Split(s, sep) == [s]
  {
    if |s| > 0 {
      assert s[1..] == s[|s| - |s[1..]|..];
      SplitWithoutSeparator(s[1..], sep);
      assert s == [s[0]] + s[1..];
    }
  }

  /** A name without underscores is already camel case and is returned unchanged. */
  lemma SnakeToCamelKeepsPlainName(input: string)
    requires '_' !in input
    ensures SnakeToCamel(input) == input
  {
    SplitWithoutSeparator(input, '_');
    assert [input][..0] == [];
    if input == "" {
      assert NonEmpty([input]) == [];
    } else {
      assert NonEmpty([input]) == [input];
      assert Concat([input]) == Concat([]) + input;
    }
  }

  /** Renaming a renamed field changes nothing. */
  lemma SnakeToCamelIdempotent(input: string)
    ensures SnakeToCamel(SnakeToCamel(input)) == SnakeToCamel(input)
  {
    SnakeToCamelNoUnderscore(input);
    SnakeToCamelKeepsPlainName(SnakeToCamel(input));
  }

  /** The first non-empty piece is copied as it is and starts the result. */
  lemma SnakeToCamelKeepsFirstPiece(input: string)
    requires NonEmpty(Split(input, '_')) != []
    ensures var first := NonEmpty(Split(input, '_'))[0];
      |first| <= |SnakeToCamel(input)| && SnakeToCamel(input)[..|first|] == first
  {
    var parts := CamelParts(NonEmpty(Split(input, '_')));
    assert parts == [parts[0]] + parts[1..];
    ConcatCons(parts[0], parts[1..]);
  }
}
