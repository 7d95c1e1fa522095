/** Searching and stripping strings. */
module Text {

  /** The first position of `c`, or the length. */
  function Find(s: string, c: char): (n: nat)
    ensures n <= |s| && c !in s[..n] && (n < |s| ==> s[n] == c)
  {
    if s == "" || s[0] == c then 0 else 1 + Find(s[1..], c)
  }

  lemma {:induction false} FindIs(a: string, c: char, b: string)
    requires c !in a
    ensures Find(a + [c] + b, c) == |a|
  {
    if a != "" {
      FindIs(a[1..], c, b);
      assert (a + [c] + b)[1..] == a[1..] + [c] + b;
    }
  }

  lemma {:induction false} FindLast(s: string, c: char)
    requires s != "" && s[|s| - 1] == c
    ensures Find(s, c) < |s|
  {
    if s[0] != c {
      FindLast(s[1..], c);
    }
  }

  /** Without the leading characters that `drop` holds of. */
  function TrimStart(s: string, drop: char -> bool): (t: string)
    ensures t == "" || !drop(t[0])
  {
    if s != "" && drop(s[0]) then TrimStart(s[1..], drop) else s
  }

  /** Without the trailing ones. */
  function TrimEnd(s: string, drop: char -> bool): (t: string)
    ensures t == "" || !drop(t[|t| - 1])
  {
    if s != "" && drop(s[|s| - 1]) then TrimEnd(s[..|s| - 1], drop) else s
  }

  function Strip(s: string, drop: char -> bool): string {
    TrimEnd(TrimStart(s, drop), drop)
  }

  predicate Stripped(s: string, drop: char -> bool) {
    s == "" || (!drop(s[0]) && !drop(s[|s| - 1]))
  }

  lemma StrippedIff(s: string, drop: char -> bool)
    ensures Strip(s, drop) == s <==> Stripped(s, drop)
  {
    TrimStartShorter(s, drop);
    TrimEndShorter(TrimStart(s, drop), drop);
  }

  lemma {:induction false} TrimStartShorter(s: string, drop: char -> bool)
    ensures |TrimStart(s, drop)| <= |s| && (s != "" && drop(s[0]) ==> |TrimStart(s, drop)| < |s|)
  {
    if s != "" && drop(s[0]) {
      TrimStartShorter(s[1..], drop);
    }
  }

  lemma {:induction false} TrimEndShorter(s: string, drop: char -> bool)
    ensures |TrimEnd(s, drop)| <= |s| && (s != "" && drop(s[|s| - 1]) ==> |TrimEnd(s, drop)| < |s|)
  {
    if s != "" && drop(s[|s| - 1]) {
      TrimEndShorter(s[..|s| - 1], drop);
    }
  }

  lemma {:induction false} TrimStartConcat(a: string, b: string, drop: char -> bool)
    ensures TrimStart(a + b, drop) == if TrimStart(a, drop) == "" then TrimStart(b, drop) else TrimStart(a, drop) + b
  {
    if a == "" {
      assert a + b == b;
    } else {
      TrimStartConcat(a[1..], b, drop);
      assert (a + b)[1..] == a[1..] + b;
    }
  }

  lemma {:induction false} TrimEndConcat(a: string, b: string, drop: char -> bool)
    ensures TrimEnd(a + b, drop) == if TrimEnd(b, drop) == "" then TrimEnd(a, drop) else a + TrimEnd(b, drop)
  {
    if b == "" {
      assert a + b == a;
    } else {
      TrimEndConcat(a, b[..|b| - 1], drop);
      assert (a + b)[..|a + b| - 1] == a + b[..|b| - 1];
    }
  }

  /** A dropped character at the end does not matter. */
  lemma StripDropsLast(s: string, c: char, drop: char -> bool)
    requires drop(c)
    ensures Strip(s + [c], drop) == Strip(s, drop)
  {
    TrimStartConcat(s, [c], drop);
    TrimEndConcat(TrimStart(s, drop), [c], drop);
    assert [c][..0] == "" && [c][1..] == "";
    assert TrimEnd([c], drop) == TrimEnd([c][..0], drop) == "";
    assert TrimStart([c], drop) == TrimStart([c][1..], drop) == "";
  }

  lemma {:induction false} StripAfterTrimEnd(s: string, drop: char -> bool)
    ensures Strip(TrimEnd(s, drop), drop) == Strip(s, drop)
  {
    if s != "" && drop(s[|s| - 1]) {
      var before := s[..|s| - 1];
      StripAfterTrimEnd(before, drop);
      StripDropsLast(before, s[|s| - 1], drop);
      assert before + [s[|s| - 1]] == s;
    }
  }

  lemma StripAfterDropped(c: char, s: string, drop: char -> bool)
    requires drop(c)
    ensures Strip([c] + s, drop) == Strip(s, drop)
  {
    assert ([c] + s)[1..] == s;
  }
}
