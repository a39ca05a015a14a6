/**
  The string operations of Rust's standard library that the generator relies
  on: `join`, `concat` and `split` on one separator character.
 */
module Text {

  /** `parts.join(sep)`: the parts with `sep` between neighbours. */
  function Join(parts: seq<string>, sep: string): (r: string)
    ensures |parts| == 0 ==> r == ""
    ensures |parts| == 1 ==> r == parts[0]
  {
    if |parts| == 0 then ""
    else if |parts| == 1 then parts[0]
    else parts[0] + sep + Join(parts[1..], sep)
  }

  /** Joining one more part appends the separator and that part. */
  lemma {:induction false} JoinSnoc(parts: seq<string>, last: string, sep: string)
    ensures Join(parts + [last], sep) == if parts == [] then last else Join(parts, sep) + sep + last
  {
    if |parts| == 0 {
      assert parts + [last] == [last];
    } else if |parts| == 1 {
      assert (parts + [last])[1..] == [last];
    } else {
      assert (parts + [last])[1..] == parts[1..] + [last];
      JoinSnoc(parts[1..], last, sep);
    }
  }

  /** Appending is associative; stated once so that long proofs need not rediscover it. */
  lemma AppendAssociates<T>(a: seq<T>, b: seq<T>, c: seq<T>)
    ensures (a + b) + c == a + (b + c)
  {
  }

  /** The concatenation of the parts, in order (`concat`, or a `push_str` loop). */
  function Concat(parts: seq<string>): string
  {
    if |parts| == 0 then "" else Concat(parts[..|parts| - 1]) + parts[|parts| - 1]
  }

  lemma {:induction false} ConcatAppend(a: seq<string>, b: seq<string>)
    ensures Concat(a + b) == Concat(a) + Concat(b)
  {
    if |b| == 0 {
      assert a + b == a;
    } else {
      var init, last := b[..|b| - 1], b[|b| - 1];
      assert (a + b)[..|a + b| - 1] == a + init && (a + b)[|a + b| - 1] == last;
      ConcatAppend(a, init);
      assert Concat(a + b) == Concat(a + init) + last;
      AppendAssociates(Concat(a), Concat(init), last);
    }
  }

  lemma ConcatCons(x: string, parts: seq<string>)
    ensures Concat([x] + parts) == x + Concat(parts)
  {
    ConcatAppend([x], parts);
    assert Concat([x]) == Concat([]) + x;
  }

  /** A character found in no part is not found in their concatenation. */
  lemma {:induction false} ConcatAvoids(parts: seq<string>, c: char)
    requires forall k :: 0 <= k < |parts| ==> c !in parts[k]
    ensures c !in Concat(parts)
  {
    if |parts| > 0 {
      ConcatAvoids(parts[..|parts| - 1], c);
    }
  }

  /** `s.split(sep)`: the pieces between occurrences of `sep`, empty pieces included. */
  function Split(s: string, sep: char): (parts: seq<string>)
    ensures |parts| > 0
    ensures forall k :: 0 <= k < |parts| ==> sep !in parts[k]
  {
    if |s| == 0 then [""]
    else
      var rest := Split(s[1..], sep);
      assert s == [s[0]] + s[1..];
      if s[0] == sep then [""] + rest else [[s[0]] + rest[0]] + rest[1..]
  }

  /** Joining the pieces of a split with the separator gives the input back. */
  lemma {:induction false} JoinSplit(s: string, sep: char)
    ensures Join(Split(s, sep), [sep]) == s
  {
    if |s| > 0 {
      JoinSplit(s[1..], sep);
      JoinSplitStep(s, sep, Split(s[1..], sep));
    }
  }

  lemma JoinSplitStep(s: string, sep: char, rest: seq<string>)
    requires |s| > 0 && rest == Split(s[1..], sep)
    requires Join(rest, [sep]) == s[1..]
    ensures Join(Split(s, sep), [sep]) == s
  {
    assert s == [s[0]] + s[1..];
    if s[0] == sep {
      JoinCons("", rest, [sep]);
      assert Join(Split(s, sep), [sep]) == "" + [sep] + s[1..];
    } else {
      var head := [s[0]] + rest[0];
      assert Split(s, sep) == [head] + rest[1..];
      assert rest == [rest[0]] + rest[1..];
      JoinCons(head, rest[1..], [sep]);
      JoinCons(rest[0], rest[1..], [sep]);
      if rest[1..] == [] {
        assert Join(Split(s, sep), [sep]) == [s[0]] + rest[0];
      } else {
        AppendAssociates([s[0]], rest[0], [sep] + Join(rest[1..], [sep]));
        assert Join(Split(s, sep), [sep]) == [s[0]] + (rest[0] + [sep] + Join(rest[1..], [sep]));
      }
    }
  }

  lemma JoinCons(x: string, parts: seq<string>, sep: string)
    ensures Join([x] + parts, sep) == if parts == [] then x else x + sep + Join(parts, sep)
  {
    if parts != [] {
      assert ([x] + parts)[1..] == parts;
    }
  }

  /** The pieces of a split hold every character of the input except the separators. */
  lemma {:induction false} SplitLength(s: string, sep: char)
    ensures |Concat(Split(s, sep))| == |s| - multiset(s)[sep]
  {
    if |s| > 0 {
      var rest := Split(s[1..], sep);
      SplitLength(s[1..], sep);
      assert s == [s[0]] + s[1..];
      if s[0] == sep {
        ConcatCons("", rest);
      } else {
        ConcatCons([s[0]] + rest[0], rest[1..]);
        assert rest == [rest[0]] + rest[1..];
        ConcatCons(rest[0], rest[1..]);
      }
    }
  }
}
