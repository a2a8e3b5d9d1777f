/** Lexicographic comparison of integer sequences: a total order. */
module Lex {

  /** -1, 0 or 1 as `s` comes before, equals or comes after `t`. */
  function Compare(s: seq<int>, t: seq<int>): (r: int)
    ensures -1 <= r <= 1
  {
    if s == [] then (if t == [] then 0 else -1)
    else if t == [] then 1
    else if s[0] < t[0] then -1
    else if s[0] > t[0] then 1
    else Compare(s[1..], t[1..])
  }

  predicate Less(s: seq<int>, t: seq<int>) {
    Compare(s, t) < 0
  }

  lemma {:induction false} CompareEqual(s: seq<int>, t: seq<int>)
    ensures Compare(s, t) == 0 <==> s == t
  {
    if s != [] && t != [] {
      CompareEqual(s[1..], t[1..]);
      assert s == [s[0]] + s[1..] && t == [t[0]] + t[1..];
    }
  }

  lemma {:induction false} CompareReverse(s: seq<int>, t: seq<int>)
    ensures Compare(t, s) == -Compare(s, t)
  {
    if s != [] && t != [] {
      CompareReverse(s[1..], t[1..]);
    }
  }

  lemma {:induction false} LessTransitive(s: seq<int>, t: seq<int>, u: seq<int>)
    requires Compare(s, t) <= 0 && Compare(t, u) <= 0
    ensures Compare(s, u) <= 0
    ensures Less(s, t) || Less(t, u) ==> Less(s, u)
  {
    if s != [] && t != [] && u != [] && s[0] == t[0] == u[0] {
      LessTransitive(s[1..], t[1..], u[1..]);
    }
  }
}
