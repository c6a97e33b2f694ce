/** The deterministic key of a one-to-one private room: the two usernames are
    put in ascending string order and joined with a fixed separator. */
module PrivateRoom {

  /** The separator placed between the two sorted usernames. */
  const Separator: string := "___PRIVATE___"

  /** Lexicographic order on strings, character by character, a proper prefix
      coming first: the order a default array sort uses. */
  predicate LessEq(a: string, b: string)
    decreases |a|
  {
    if |a| == 0 then true
    else if |b| == 0 then false
    else if a[0] != b[0] then a[0] < b[0]
    else LessEq(a[1..], b[1..])
  }

  /** The two usernames in ascending order. */
  function SortPair(a: string, b: string): (p: (string, string))
    ensures LessEq(p.0, p.1)
    ensures (p.0 == a && p.1 == b) || (p.0 == b && p.1 == a)
  {
    if LessEq(a, b) then (a, b)
    else
      LessEqTotal(a, b);
      (b, a)
  }

  /** The room key of the private conversation between `a` and `b`: the
      earlier name in sort order, the separator, then the other name. */
  function Key(a: string, b: string): (k: string)
    ensures |k| == |a| + |Separator| + |b|
    ensures (LessEq(a, b) && k == a + Separator + b) || (LessEq(b, a) && k == b + Separator + a)
  {
    var p := SortPair(a, b);
    p.0 + Separator + p.1
  }

  lemma {:induction false} LessEqTotal(a: string, b: string)
    ensures LessEq(a, b) || LessEq(b, a)
    decreases |a|
  {
    if |a| > 0 && |b| > 0 && a[0] == b[0] {
      LessEqTotal(a[1..], b[1..]);
    }
  }

  lemma {:induction false} LessEqAntisymmetric(a: string, b: string)
    requires LessEq(a, b) && LessEq(b, a)
    ensures a == b
    decreases |a|
  {
    if |a| > 0 && |b| > 0 {
      assert a[0] == b[0];
      LessEqAntisymmetric(a[1..], b[1..]);
      assert a == [a[0]] + a[1..];
      assert b == [b[0]] + b[1..];
    }
  }

  /** Both orders of the same two usernames give the same room key. */
  lemma KeySymmetric(a: string, b: string)
    ensures Key(a, b) == Key(b, a)
  {
    if LessEq(a, b) && LessEq(b, a) {
      LessEqAntisymmetric(a, b);
    } else {
      LessEqTotal(a, b);
    }
  }

  /** True when `t` occurs somewhere inside `s`. */
  ghost predicate Contains(s: string, t: string)
  {
    exists i :: OccursAt(s, t, i)
  }

  /** True when `t` occurs in `s` starting at index `i`. */
  predicate OccursAt(s: string, t: string, i: int)
  {
    0 <= i && i + |t| <= |s| && s[i..i + |t|] == t
  }

  /** The index of the first underscore of `s`, or its length when there is none. */
  function FirstUnderscore(s: string): (n: nat)
    ensures n <= |s|
  {
    if |s| == 0 || s[0] == '_' then 0 else 1 + FirstUnderscore(s[1..])
  }

  lemma {:induction false} FirstUnderscoreAfter(x: string, rest: string)
    requires '_' !in x && |rest| > 0 && rest[0] == '_'
    ensures FirstUnderscore(x + rest) == |x|
    decreases |x|
  {
    if |x| > 0 {
      assert (x + rest)[1..] == x[1..] + rest;
      FirstUnderscoreAfter(x[1..], rest);
    }
  }

  /** Splitting `x + Separator + y` back into its parts is unique when the
      left part holds no underscore: the first underscore marks the split. */
  lemma SplitUnique(x: string, y: string, z: string, w: string)
    requires '_' !in x && '_' !in z
    requires x + Separator + y == z + Separator + w
    ensures x == z && y == w
  {
    var l := x + Separator + y;
    var rr := z + Separator + w;
    assert l == x + (Separator + y);
    assert rr == z + (Separator + w);
    FirstUnderscoreAfter(x, Separator + y);
    FirstUnderscoreAfter(z, Separator + w);
    assert x == l[..|x|];
    assert z == rr[..|z|];
    assert y == l[|x| + |Separator|..];
    assert w == rr[|z| + |Separator|..];
  }

  /** Usernames without an underscore never share a private room with any
      other pair: equal keys mean the same two usernames. */
  lemma KeyInjectiveWithoutUnderscore(a: string, b: string, c: string, d: string)
    requires '_' !in a && '_' !in b && '_' !in c && '_' !in d
    requires Key(a, b) == Key(c, d)
    ensures (a == c && b == d) || (a == d && b == c)
  {
    var p := SortPair(a, b);
    var q := SortPair(c, d);
    SplitUnique(p.0, p.1, q.0, q.1);
  }

  /** Keeping the separator out of usernames is not enough to avoid
      collisions: two different pairs, none of whose names contains the
      separator, are given the same room. */
  lemma SeparatorFreeNamesCollide()
    ensures !Contains("A", Separator) && !Contains("PRIVATE___b", Separator)
    ensures !Contains("A___PRIVATE", Separator) && !Contains("b", Separator)
    ensures Key("A", "PRIVATE___b") == Key("A___PRIVATE", "b")
    ensures Key("A", "PRIVATE___b") == "A___PRIVATE___PRIVATE___b"
  {
    assert LessEq("A", "PRIVATE___b");
    assert LessEq("A___PRIVATE", "b");
  }
}
