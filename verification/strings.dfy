/** The two string operations of Go's `strings` package the error formatters use:
    `strings.Replace(s, old, new, -1)` with one-character operands, and `strings.Join`.
    `Split` is the inverse of `Join`, used to state what a joined location still records. */
module Strings {

  /** `strings.Replace(s, [from], [to], -1)`: every occurrence of `from` becomes `to`. */
  function ReplaceAll(s: string, from: char, to: char): (r: string)
    ensures |r| == |s|
    ensures forall i :: 0 <= i < |s| ==> r[i] == (if s[i] == from then to else s[i])
  {
    if |s| == 0 then ""
    else [if s[0] == from then to else s[0]] + ReplaceAll(s[1..], from, to)
  }

  /** After replacement no `from` is left. */
  lemma ReplaceAllRemoves(s: string, from: char, to: char)
    requires from != to
    ensures from !in ReplaceAll(s, from, to)
  {
  }

  /** Replacing twice is replacing once. */
  lemma ReplaceAllIdempotent(s: string, from: char, to: char)
    requires from != to
    ensures ReplaceAll(ReplaceAll(s, from, to), from, to) == ReplaceAll(s, from, to)
  {
  }

  /** `strings.Join(tokens, [sep])`: no tokens give "", one token is returned as is. */
  function Join(tokens: seq<string>, sep: char): (r: string)
    ensures |tokens| == 0 ==> r == ""
    ensures |tokens| == 1 ==> r == tokens[0]
  {
    if |tokens| == 0 then ""
    else if |tokens| == 1 then tokens[0]
    else tokens[0] + [sep] + Join(tokens[1..], sep)
  }

  /** Tokens free of the separator are glued by exactly one separator between each pair. */
  lemma {:induction false} JoinSeparatorCount(tokens: seq<string>, sep: char)
    requires |tokens| > 0
    requires forall k :: 0 <= k < |tokens| ==> sep !in tokens[k]
    ensures multiset(Join(tokens, sep))[sep] == |tokens| - 1
  {
    if |tokens| > 1 {
      JoinSeparatorCount(tokens[1..], sep);
      assert multiset(tokens[0])[sep] == 0;
      assert multiset(tokens[0] + [sep] + Join(tokens[1..], sep))
          == multiset(tokens[0]) + multiset([sep]) + multiset(Join(tokens[1..], sep));
    }
  }

  /** `strings.Split(s, [sep])`: always at least one piece; "" splits into [""]. */
  function Split(s: string, sep: char): (r: seq<string>)
    ensures |r| > 0
  {
    if |s| == 0 then [""]
    else
      var rest := Split(s[1..], sep);
      if s[0] == sep then [""] + rest else [[s[0]] + rest[0]] + rest[1..]
  }

  /** A string without the separator is one piece. */
  lemma {:induction false} SplitNoSep(s: string, sep: char)
    requires sep !in s
    ensures Split(s, sep) == [s]
  {
    if |s| > 0 {
      SplitNoSep(s[1..], sep);
      assert [s[0]] + s[1..] == s;
    }
  }

  /** Splitting `a + sep + b` where `a` has no separator peels `a` off. */
  lemma {:induction false} SplitCons(a: string, b: string, sep: char)
    requires sep !in a
    ensures Split(a + [sep] + b, sep) == [a] + Split(b, sep)
  {
    if |a| == 0 {
      assert a + [sep] + b == [sep] + b;
      assert ([sep] + b)[1..] == b;
    } else {
      SplitCons(a[1..], b, sep);
      assert (a + [sep] + b)[1..] == a[1..] + [sep] + b;
      assert [a[0]] + a[1..] == a;
    }
  }

  /** Join and Split are inverse when no token contains the separator
      (JSON Pointer reference tokens of a plain object path, section 3 of RFC 6901). */
  lemma {:induction false} SplitJoin(tokens: seq<string>, sep: char)
    requires |tokens| > 0
    requires forall k :: 0 <= k < |tokens| ==> sep !in tokens[k]
    ensures Split(Join(tokens, sep), sep) == tokens
  {
    if |tokens| == 1 {
      SplitNoSep(tokens[0], sep);
    } else {
      SplitJoin(tokens[1..], sep);
      SplitCons(tokens[0], Join(tokens[1..], sep), sep);
      assert [tokens[0]] + tokens[1..] == tokens;
    }
  }

  /** The joined string ends with the last token. */
  lemma {:induction false} JoinEndsWithLast(tokens: seq<string>, sep: char)
    requires |tokens| > 0
    ensures var j := Join(tokens, sep); var last := tokens[|tokens| - 1];
      |last| <= |j| && j[|j| - |last|..] == last
  {
    if |tokens| > 1 {
      JoinEndsWithLast(tokens[1..], sep);
      var j := Join(tokens[1..], sep);
      var last := tokens[|tokens| - 1];
      assert tokens[1..][|tokens[1..]| - 1] == last;
      var whole := tokens[0] + [sep] + j;
      assert whole[|whole| - |last|..] == j[|j| - |last|..];
    }
  }

  /** Dots inside a token make the joined location ambiguous. */
  lemma DottedTokenAmbiguity()
    ensures Join(["a.b"], '.') == Join(["a", "b"], '.')
  {
  }
}
