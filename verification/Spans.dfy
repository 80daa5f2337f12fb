/** Where a sequence occurs inside another one. */
module Spans {

  /** `s` occurs in `src` at position `i`. */
  predicate At<T(==)>(src: seq<T>, i: nat, s: seq<T>): (b: bool)
    ensures b ==> i + |s| <= |src|
  {
    i + |s| <= |src| && src[i..i + |s|] == s
  }

  lemma {:induction false} AtConcat<T>(src: seq<T>, i: nat, a: seq<T>, b: seq<T>)
    ensures At(src, i, a + b) <==> At(src, i, a) && At(src, i + |a|, b)
  {
    var n := i + |a|;
    if i + |a + b| <= |src| {
      var w := src[i..i + |a + b|];
      assert w[..|a|] == src[i..n] && w[|a|..] == src[n..n + |b|];
      assert (a + b)[..|a|] == a && (a + b)[|a|..] == b;
      assert w == w[..|a|] + w[|a|..];
    }
  }

  lemma {:induction false} AtHead<T>(src: seq<T>, i: nat, s: seq<T>)
    requires At(src, i, s) && s != []
    ensures src[i] == s[0] && At(src, i + 1, s[1..])
  {
    AtConcat(src, i, [s[0]], s[1..]);
    assert s == [s[0]] + s[1..];
    assert src[i..i + 1] == [src[i]];
  }

  lemma {:induction false} AtCons<T>(src: seq<T>, i: nat, x: T, s: seq<T>)
    ensures At(src, i, [x] + s) <==> i < |src| && src[i] == x && At(src, i + 1, s)
  {
    AtConcat(src, i, [x], s);
    if i < |src| {
      assert src[i..i + 1] == [src[i]];
    }
  }

  lemma {:induction false} WholeAt<T>(s: seq<T>)
    ensures At(s, 0, s)
  {
  }
}
