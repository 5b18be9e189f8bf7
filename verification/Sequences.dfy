/** Small facts about sequences that the solver is better told than left to find. */
module Sequences {
  lemma Associative<T>(a: seq<T>, b: seq<T>, c: seq<T>)
    ensures (a + b) + c == a + (b + c)
  {
  }

  lemma SlicesOfTwo<T>(t: seq<T>, i: nat, a: seq<T>, b: seq<T>)
    requires i + |a| + |b| <= |t| && t[i..i + |a| + |b|] == a + b
    ensures t[i..i + |a|] == a && t[i + |a|..i + |a| + |b|] == b
  {
    var u := t[i..i + |a| + |b|];
    assert t[i..i + |a|] == u[..|a|];
    assert t[i + |a|..i + |a| + |b|] == u[|a|..];
  }

  lemma RightUnit<T>(a: seq<T>)
    ensures a + [] == a
  {
  }
}
