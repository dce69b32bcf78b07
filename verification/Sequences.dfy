/** What the models share: options, minimum, maximum and powers of two, looking up a key, and flattening, splitting
    and counting sequences. */
module Sequences {

  datatype Option<+T> = None | Some(value: T)

  function Min(a: int, b: int): int {
    if a <= b then a else b
  }

  function Max(a: int, b: int): int {
    if a >= b then a else b
  }

  function Pow2(n: nat): nat {
    if n == 0 then 1 else 2 * Pow2(n - 1)
  }

  function Lookup<K, V>(m: map<K, V>, k: K): Option<V> {
    if k in m then Some(m[k]) else None
  }

  function Last<T>(s: seq<T>): (x: T)
    requires s != []
  {
    s[|s| - 1]
  }

  function Front<T>(s: seq<T>): seq<T>
    requires s != []
  {
    s[..|s| - 1]
  }

  function Flatten<T>(ss: seq<seq<T>>): seq<T> {
    if ss == [] then [] else Flatten(Front(ss)) + Last(ss)
  }

  lemma FlattenSnoc<T>(a: seq<seq<T>>, x: seq<T>)
    ensures Flatten(a + [x]) == Flatten(a) + x
  {
    assert Front(a + [x]) == a;
  }

  lemma {:induction false} FlattenAppend<T>(a: seq<seq<T>>, b: seq<seq<T>>)
    ensures Flatten(a + b) == Flatten(a) + Flatten(b)
  {
    if b == [] {
      assert a + b == a;
    } else {
      assert Flatten(b) == Flatten(Front(b)) + Last(b);
      hide Flatten;
      assert a + b == a + Front(b) + [Last(b)];
      FlattenSnoc(a + Front(b), Last(b));
      FlattenAppend(a, Front(b));
    }
  }

  /** Adds one element to a sequence that is being cut into pieces at `sep`. */
  function Extend<T(==)>(pieces: seq<seq<T>>, x: T, sep: T): (more: seq<seq<T>>)
    requires pieces != []
    ensures more != []
  {
    if x == sep then pieces + [[]] else Front(pieces) + [Last(pieces) + [x]]
  }

  /** The pieces of `s` between occurrences of `sep`; n separators give n + 1 pieces. */
  function SplitOn<T(==)>(s: seq<T>, sep: T): (pieces: seq<seq<T>>)
    ensures pieces != []
  {
    if s == [] then [[]] else Extend(SplitOn(Front(s), sep), Last(s), sep)
  }

  lemma SplitSnoc<T>(s: seq<T>, x: T, sep: T)
    ensures SplitOn(s + [x], sep) == Extend(SplitOn(s, sep), x, sep)
  {
    assert Front(s + [x]) == s;
  }

  lemma ExtendAfter<T>(done: seq<seq<T>>, pieces: seq<seq<T>>, x: T, sep: T)
    requires pieces != []
    ensures Extend(done + pieces, x, sep) == done + Extend(pieces, x, sep)
  {
    assert Front(done + pieces) == done + Front(pieces);
  }

  lemma {:induction false} SplitNone<T>(s: seq<T>, sep: T)
    requires sep !in s
    ensures SplitOn(s, sep) == [s]
  {
    if s != [] {
      SplitNone(Front(s), sep);
      SplitSnoc(Front(s), Last(s), sep);
      assert Front(s) + [Last(s)] == s;
    }
  }

  lemma SplitAppendOne<T>(x: seq<T>, y: T, done: seq<seq<T>>, rest: seq<T>, sep: T)
    requires SplitOn(x, sep) == done + SplitOn(rest, sep)
    ensures SplitOn(x + [y], sep) == done + SplitOn(rest + [y], sep)
  {
    SplitSnoc(x, y, sep);
    SplitSnoc(rest, y, sep);
    ExtendAfter(done, SplitOn(rest, sep), y, sep);
  }

  /** Only the unfinished end of what was split so far matters for what is appended later. */
  lemma {:induction false} SplitAppend<T>(x: seq<T>, y: seq<T>, done: seq<seq<T>>, rest: seq<T>, sep: T)
    requires SplitOn(x, sep) == done + SplitOn(rest, sep)
    ensures SplitOn(x + y, sep) == done + SplitOn(rest + y, sep)
    decreases |y|
  {
    if y == [] {
      assert x + y == x && rest + y == rest;
    } else {
      SplitAppendOne(x, y[0], done, rest, sep);
      SplitAppend(x + [y[0]], y[1..], done, rest + [y[0]], sep);
      Shift(x, y);
      Shift(rest, y);
    }
  }

  lemma Shift<T>(x: seq<T>, y: seq<T>)
    requires y != []
    ensures x + [y[0]] + y[1..] == x + y
  {
  }

  lemma SplitFirst<T>(s: seq<T>, i: nat, sep: T)
    requires i < |s| && s[i] == sep && sep !in s[..i]
    ensures SplitOn(s, sep) == [s[..i]] + SplitOn(s[i + 1..], sep)
  {
    assert s == s[..i] + [sep] + s[i + 1..];
    assert SplitOn(s[..i] + [sep], sep) == [s[..i]] + [[]] by {
      SplitNone(s[..i], sep);
      SplitSnoc(s[..i], sep, sep);
    }
    SplitFirstRest(s[..i], s[i + 1..], sep);
  }

  lemma SplitFirstRest<T>(head: seq<T>, rest: seq<T>, sep: T)
    requires SplitOn(head + [sep], sep) == [head] + [[]]
    ensures SplitOn(head + [sep] + rest, sep) == [head] + SplitOn(rest, sep)
  {
    var none: seq<T> := [];
    assert none + rest == rest;
    SplitAppend(head + [sep], rest, [head], none, sep);
  }

  lemma {:induction false} PiecesHaveNoSeparator<T>(s: seq<T>, sep: T)
    ensures forall p :: p in SplitOn(s, sep) ==> sep !in p
  {
    if s != [] {
      PiecesHaveNoSeparator(Front(s), sep);
    }
  }

  function IndexOf<T(==)>(s: seq<T>, x: T): (i: nat)
    requires x in s
    ensures i < |s| && s[i] == x && x !in s[..i]
  {
    if s[0] == x then 0 else
      var rest := IndexOf(s[1..], x);
      assert s[..rest + 1] == [s[0]] + s[1..][..rest];
      rest + 1
  }

  function Count<T>(s: seq<T>, p: T -> bool): nat {
    if s == [] then 0 else Count(Front(s), p) + if p(Last(s)) then 1 else 0
  }

  lemma {:induction false} CountAppend<T>(a: seq<T>, b: seq<T>, p: T -> bool)
    ensures Count(a + b, p) == Count(a, p) + Count(b, p)
  {
    if b == [] {
      assert a + b == a;
    } else {
      assert Front(a + b) == a + Front(b);
      CountAppend(a, Front(b), p);
    }
  }

  lemma CountOne<T>(x: T, p: T -> bool)
    ensures Count([x], p) == if p(x) then 1 else 0
  {
    assert Front([x]) == [];
  }

  lemma {:induction false} CountUpdate<T>(s: seq<T>, i: nat, x: T, p: T -> bool)
    requires i < |s|
    ensures Count(s[i := x], p) == Count(s, p) - (if p(s[i]) then 1 else 0) + (if p(x) then 1 else 0)
  {
    var t := s[i := x];
    if i == |s| - 1 {
      assert Front(t) == Front(s);
    } else {
      assert Front(t) == Front(s)[i := x];
      CountUpdate(Front(s), i, x, p);
    }
  }

  lemma {:induction false} CountBound<T>(s: seq<T>, p: T -> bool)
    ensures Count(s, p) <= |s|
  {
    if s != [] {
      CountBound(Front(s), p);
    }
  }

  lemma {:induction false} SubsetSize<T>(a: set<T>, b: set<T>)
    requires a <= b
    ensures |a| <= |b|
  {
    if a != {} {
      var x :| x in a;
      SubsetSize(a - {x}, b - {x});
    }
  }
}
