/** String operations of the standard library that several parsers call. */
module Text {
  import opened Wrappers

  /** Splits at the first occurrence of `c`. */
  function SplitOnce(s: string, c: char): Option<(string, string)> {
    if s == "" then None
    else if s[0] == c then Some(("", s[1..]))
    else
      match SplitOnce(s[1..], c)
      case None => None
      case Some((a, b)) => Some(([s[0]] + a, b))
  }

  lemma {:induction false} SplitOnceAt(a: string, c: char, b: string)
    requires c !in a
    ensures SplitOnce(a + [c] + b, c) == Some((a, b))
  {
    if a == "" {
      assert a + [c] + b == [c] + b;
    } else {
      assert (a + [c] + b)[1..] == a[1..] + [c] + b;
      assert (a + [c] + b)[0] == a[0] && [a[0]] + a[1..] == a;
      SplitOnceAt(a[1..], c, b);
    }
  }

  lemma {:induction false} SplitOnceMeans(s: string, c: char)
    ensures SplitOnce(s, c).Some? <==> c in s
    ensures SplitOnce(s, c).Some? ==>
              var (a, b) := SplitOnce(s, c).value; c !in a && s == a + [c] + b
  {
    if s != "" && s[0] != c {
      SplitOnceMeans(s[1..], c);
      assert s == [s[0]] + s[1..];
    }
  }
}
