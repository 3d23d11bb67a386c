/** Values shared by every component of the model. */
module Common {

  datatype Option<+T> = None | Some(value: T)

  /** The outcome of a source function that returns a value or raises.  Which
      message an exception carries is not modelled. */
  datatype Result<+T> = Ok(value: T) | Rejected

  type byte = b: int | 0 <= b < 256
  type Bytes = seq<byte>

  function Max(a: int, b: int): int { if a < b then b else a }

  function Pow2(n: nat): (p: nat)
    ensures p > 0
  {
    if n == 0 then 1 else 2 * Pow2(n - 1)
  }

  lemma {:induction false} Pow2Sum(m: nat, n: nat)
    ensures Pow2(m + n) == Pow2(m) * Pow2(n)
  {
    if m == 0 {
      assert 1 * Pow2(n) == Pow2(n);
    } else {
      Pow2Sum(m - 1, n);
      assert m + n - 1 == m - 1 + n;
      DoubledProduct(Pow2(m - 1), Pow2(n));
    }
  }

  lemma DoubledProduct(a: int, b: int)
    ensures 2 * (a * b) == (2 * a) * b
  {
  }

  predicate Distinct<T(==)>(xs: seq<T>) {
    forall i, j :: 0 <= i < j < |xs| ==> xs[i] != xs[j]
  }

  /** A list is free of duplicates exactly when its set is as large as it is long. */
  lemma {:induction false} DistinctCount<T>(xs: seq<T>)
    ensures |set x | x in xs| <= |xs|
    ensures |set x | x in xs| == |xs| <==> Distinct(xs)
  {
    if xs == [] {
      assert Distinct(xs);
    } else {
      hide Distinct;
      var first, rest := xs[0], xs[1..];
      DistinctCount(rest);
      DistinctTail(first, rest);
      assert xs == [first] + rest;
      var elements := set x | x in rest;
      assert (set x | x in xs) == elements + {first};
      assert first in rest ==> elements + {first} == elements;
    }
  }

  lemma DistinctMore<T>(xs: seq<T>, x: T)
    requires Distinct(xs) && x !in xs
    ensures Distinct(xs + [x])
  {
  }

  lemma DistinctTail<T>(first: T, rest: seq<T>)
    ensures Distinct([first] + rest) <==> first !in rest && Distinct(rest)
  {
    var xs := [first] + rest;
    assert forall i :: 0 <= i < |rest| ==> xs[i + 1] == rest[i];
    if first in rest {
      var j :| 0 <= j < |rest| && rest[j] == first;
      assert xs[0] == xs[j + 1];
    }
    if Distinct(xs) {
      forall i, j | 0 <= i < j < |rest| ensures rest[i] != rest[j] {
        assert xs[i + 1] != xs[j + 1];
      }
    }
  }

  /** Items found first, in front of what the rest finds; either may raise. */
  function Prepend<T>(first: Result<seq<T>>, rest: Result<seq<T>>): Result<seq<T>> {
    if first.Ok? && rest.Ok? then Ok(first.value + rest.value) else Rejected
  }

  lemma PrependNothing<T>(rest: Result<seq<T>>)
    ensures Prepend(Ok([]), rest) == rest
  {
    if rest.Ok? { assert [] + rest.value == rest.value; }
  }

  lemma PrependAssociative<T>(a: seq<T>, b: seq<T>, rest: Result<seq<T>>)
    ensures Prepend(Ok(a), Prepend(Ok(b), rest)) == Prepend(Ok(a + b), rest)
  {
    if rest.Ok? { assert a + (b + rest.value) == a + b + rest.value; }
  }

  lemma Associate<T>(a: seq<T>, b: seq<T>, c: seq<T>)
    ensures a + (b + c) == a + b + c
  {
  }

  function Concat<T>(xss: seq<seq<T>>): (r: seq<T>) {
    if xss == [] then [] else xss[0] + Concat(xss[1..])
  }
}

/** Shifts and bitwise or of natural numbers. */
module Bits {
  /** Bitwise or of two naturals. */
  function BitOr(a: nat, b: nat): nat
    decreases a + b
  {
    if a == 0 then b
    else if b == 0 then a
    else (if a % 2 == 1 || b % 2 == 1 then 1 else 0) + 2 * BitOr(a / 2, b / 2)
  }

  /** `a << n` */
  function Shl(a: nat, n: nat): nat {
    if n == 0 then a else 2 * Shl(a, n - 1)
  }

  lemma {:induction false} ShlAdd(a: nat, b: nat, n: nat)
    ensures Shl(a + b, n) == Shl(a, n) + Shl(b, n)
  {
    if n > 0 { ShlAdd(a, b, n - 1); }
  }

  lemma {:induction false} ShlTwice(a: nat, m: nat, n: nat)
    ensures Shl(a, m + n) == Shl(Shl(a, m), n)
  {
    if n > 0 { ShlTwice(a, m, n - 1); }
  }

  /** Or-ing on bits shifted past those of the first operand is addition. */
  lemma {:induction false} OrDisjoint(a: nat, b: nat, shift: nat)
    requires a < Shl(1, shift)
    ensures BitOr(a, Shl(b, shift)) == a + Shl(b, shift)
    decreases shift
  {
    if a != 0 && Shl(b, shift) != 0 {
      OrDisjoint(a / 2, b, shift - 1);
    }
  }

  lemma {:induction false} OrCommutes(a: nat, b: nat)
    ensures BitOr(a, b) == BitOr(b, a)
    decreases a + b
  {
    if a != 0 && b != 0 { OrCommutes(a / 2, b / 2); }
  }

  lemma Shl32(a: nat)
    ensures Shl(a, 32) == 0x1_0000_0000 * a
  {
    ShlByte(a);
    ShlTwice(a, 8, 8);
    ShlByte(256 * a);
    ShlTwice(a, 16, 8);
    ShlByte(0x1_0000 * a);
    ShlTwice(a, 24, 8);
    ShlByte(0x100_0000 * a);
  }

  lemma ShlByte(a: nat)
    ensures Shl(a, 8) == 256 * a
  {
    assert Shl(a, 1) == 2 * a;
    assert Shl(a, 3) == 8 * a;
    assert Shl(a, 5) == 32 * a;
    assert Shl(a, 7) == 128 * a;
  }
}

/** Python's sorted(): a stable result fixed by the elements and a total order. */
module Sorting {
  import opened Common

  /** Lexicographic comparison of two sequences under a strict order on elements. */
  predicate Lex<T(==)>(a: seq<T>, b: seq<T>, less: (T, T) -> bool) {
    if b == [] then false
    else if a == [] then true
    else if a[0] == b[0] then Lex(a[1..], b[1..], less)
    else less(a[0], b[0])
  }

  /** Order of two Python strings: code points, first difference decides. */
  predicate StrLess(a: string, b: string) { Lex(a, b, (x: char, y: char) => x < y) }

  ghost predicate StrictTotal<T(!new)>(less: (T, T) -> bool) {
    && (forall a: T :: !less(a, a))
    && (forall a: T, b: T :: a == b || less(a, b) || less(b, a))
    && (forall a: T, b: T, c: T :: less(a, b) && less(b, c) ==> less(a, c))
  }

  lemma {:induction false} LexIrreflexive<T>(a: seq<T>, less: (T, T) -> bool)
    ensures !Lex(a, a, less)
  {
    if a == [] {
    } else {
      LexIrreflexive(a[1..], less);
    }
  }

  lemma {:induction false} LexTotal<T(!new)>(a: seq<T>, b: seq<T>, less: (T, T) -> bool)
    requires StrictTotal(less)
    ensures a == b || Lex(a, b, less) || Lex(b, a, less)
  {
    if a != [] && b != [] && a[0] == b[0] {
      LexTotal(a[1..], b[1..], less);
      assert a == [a[0]] + a[1..] && b == [b[0]] + b[1..];
    }
  }

  lemma {:induction false} LexTransitive<T(!new)>(a: seq<T>, b: seq<T>, c: seq<T>, less: (T, T) -> bool)
    requires StrictTotal(less)
    requires Lex(a, b, less) && Lex(b, c, less)
    ensures Lex(a, c, less)
  {
    if a != [] && b != [] && c != [] && a[0] == b[0] && b[0] == c[0] {
      LexTransitive(a[1..], b[1..], c[1..], less);
    }
  }

  /** Lexicographic order inherits strict totality from its element order. */
  lemma LexStrictTotal<T(!new)>(less: (T, T) -> bool)
    requires StrictTotal(less)
    ensures StrictTotal((a: seq<T>, b: seq<T>) => Lex(a, b, less))
  {
    forall a: seq<T> { LexIrreflexive(a, less); }
    forall a: seq<T>, b: seq<T> ensures a == b || Lex(a, b, less) || Lex(b, a, less) { LexTotal(a, b, less); }
    forall a: seq<T>, b: seq<T>, c: seq<T> | Lex(a, b, less) && Lex(b, c, less)
      ensures Lex(a, c, less)
    {
      LexTransitive(a, b, c, less);
    }
  }

  function Insert<T(==)>(x: T, xs: seq<T>, less: (T, T) -> bool): seq<T> {
    if xs == [] then [x]
    else if less(xs[0], x) then [xs[0]] + Insert(x, xs[1..], less)
    else [x] + xs
  }

  function Sort<T(==)>(xs: seq<T>, less: (T, T) -> bool): seq<T> {
    if xs == [] then [] else Insert(xs[0], Sort(xs[1..], less), less)
  }

  /** Nothing later in the list belongs before something earlier. */
  predicate Ordered<T>(xs: seq<T>, less: (T, T) -> bool) {
    forall i, j :: 0 <= i < j < |xs| ==> !less(xs[j], xs[i])
  }

  lemma {:induction false} InsertElements<T>(x: T, xs: seq<T>, less: (T, T) -> bool)
    ensures multiset(Insert(x, xs, less)) == multiset(xs) + multiset{x}
    ensures forall y :: y in Insert(x, xs, less) ==> y == x || y in xs
  {
    if xs == [] {
    } else {
      assert xs == [xs[0]] + xs[1..];
      InsertElements(x, xs[1..], less);
    }
  }

  lemma {:induction false} InsertOrdered<T(!new)>(x: T, xs: seq<T>, less: (T, T) -> bool)
    requires StrictTotal(less) && Ordered(xs, less)
    ensures Ordered(Insert(x, xs, less), less)
  {
    if xs == [] {
    } else {
      if less(xs[0], x) {
        var rest := Insert(x, xs[1..], less);
        InsertOrdered(x, xs[1..], less);
        InsertElements(x, xs[1..], less);
        forall j | 0 <= j < |rest| ensures !less(rest[j], xs[0]) {
          if rest[j] != x {
            assert rest[j] in rest;
            assert rest[j] in xs[1..];
          }
        }
      } else {
        forall j | 0 <= j < |xs| ensures !less(xs[j], x) {
          assert j == 0 || !less(xs[j], xs[0]);
        }
      }
    }
  }

  lemma {:induction false} SortProperties<T(!new)>(xs: seq<T>, less: (T, T) -> bool)
    requires StrictTotal(less)
    ensures multiset(Sort(xs, less)) == multiset(xs)
    ensures Ordered(Sort(xs, less), less)
  {
    if xs == [] {
    } else {
      SortProperties(xs[1..], less);
      InsertElements(xs[0], Sort(xs[1..], less), less);
      InsertOrdered(xs[0], Sort(xs[1..], less), less);
      assert xs == [xs[0]] + xs[1..];
    }
  }

  lemma TailElements<T>(xs: seq<T>)
    requires xs != []
    ensures multiset(xs[1..]) == multiset(xs) - multiset{xs[0]}
  {
    assert xs == [xs[0]] + xs[1..];
  }

  /** The first of an ordered list is the least of its elements. */
  lemma SameFirst<T(!new)>(xs: seq<T>, ys: seq<T>, less: (T, T) -> bool)
    requires StrictTotal(less) && Ordered(xs, less) && Ordered(ys, less)
    requires xs != [] && ys != [] && multiset(xs) == multiset(ys)
    ensures xs[0] == ys[0]
  {
    assert xs[0] in multiset(ys) && ys[0] in multiset(xs);
    var i :| 0 <= i < |ys| && ys[i] == xs[0];
    var j :| 0 <= j < |xs| && xs[j] == ys[0];
    assert i == 0 || !less(ys[i], ys[0]);
    assert j == 0 || !less(xs[j], xs[0]);
  }

  lemma OrderedTail<T(!new)>(xs: seq<T>, less: (T, T) -> bool)
    requires xs != [] && Ordered(xs, less)
    ensures Ordered(xs[1..], less)
  {
  }

  lemma {:induction false} OrderedUnique<T(!new)>(xs: seq<T>, ys: seq<T>, less: (T, T) -> bool)
    requires StrictTotal(less)
    requires Ordered(xs, less) && Ordered(ys, less)
    requires multiset(xs) == multiset(ys)
    ensures xs == ys
  {
    hide StrictTotal, Ordered;
    SameLength(xs, ys);
    if xs == [] {
    } else {
      SameFirst(xs, ys, less);
      OrderedTail(xs, less);
      OrderedTail(ys, less);
      TailElements(xs);
      TailElements(ys);
      OrderedUnique(xs[1..], ys[1..], less);
      HeadAndTail(xs, ys);
    }
  }

  lemma SameLength<T>(xs: seq<T>, ys: seq<T>)
    requires multiset(xs) == multiset(ys)
    ensures |xs| == |ys|
  {
    assert |xs| == |multiset(xs)| == |multiset(ys)| == |ys|;
  }

  lemma HeadAndTail<T>(xs: seq<T>, ys: seq<T>)
    requires xs != [] && ys != [] && xs[0] == ys[0] && xs[1..] == ys[1..]
    ensures xs == ys
  {
    assert xs == [xs[0]] + xs[1..] && ys == [ys[0]] + ys[1..];
  }

  /** A sorted list depends only on the multiset of its elements. */
  lemma SortUnique<T(!new)>(xs: seq<T>, ys: seq<T>, less: (T, T) -> bool)
    requires StrictTotal(less) && multiset(xs) == multiset(ys)
    ensures Sort(xs, less) == Sort(ys, less)
  {
    SortProperties(xs, less);
    SortProperties(ys, less);
    OrderedUnique(Sort(xs, less), Sort(ys, less), less);
  }

  /** Two orders that agree on the listed elements sort them alike. */
  lemma {:induction false} SortAgrees<T(!new)>(xs: seq<T>, less: (T, T) -> bool, other: (T, T) -> bool)
    requires forall a, b :: a in xs && b in xs ==> less(a, b) == other(a, b)
    ensures Sort(xs, less) == Sort(xs, other)
    ensures forall x :: x in Sort(xs, less) ==> x in xs
  {
    if xs == [] {
    } else {
      SortAgrees(xs[1..], less, other);
      InsertAgrees(xs[0], Sort(xs[1..], less), less, other);
    }
  }

  lemma {:induction false} InsertAgrees<T(!new)>(x: T, xs: seq<T>, less: (T, T) -> bool, other: (T, T) -> bool)
    requires forall a :: a in xs ==> less(a, x) == other(a, x)
    ensures Insert(x, xs, less) == Insert(x, xs, other)
    ensures forall a :: a in Insert(x, xs, less) ==> a == x || a in xs
  {
    if xs == [] {
    } else {
      InsertAgrees(x, xs[1..], less, other);
    }
  }

  lemma StrLessStrictTotal()
    ensures StrictTotal(StrLess)
  {
    var less := (x: char, y: char) => x < y;
    forall a: string { LexIrreflexive(a, less); }
    forall a: string, b: string ensures a == b || StrLess(a, b) || StrLess(b, a) { LexTotal(a, b, less); }
    forall a: string, b: string, c: string | StrLess(a, b) && StrLess(b, c)
      ensures StrLess(a, c)
    {
      LexTransitive(a, b, c, less);
    }
  }

  lemma {:induction false} DistinctMultiset<T>(xs: seq<T>)
    requires Distinct(xs)
    ensures forall x :: multiset(xs)[x] == if x in xs then 1 else 0
  {
    if xs == [] {
    } else {
      assert xs == [xs[0]] + xs[1..];
      DistinctMultiset(xs[1..]);
      assert multiset(xs) == multiset{xs[0]} + multiset(xs[1..]);
    }
  }

  /** Having no duplicates depends only on the multiset of elements. */
  lemma DistinctAlike<T>(xs: seq<T>, ys: seq<T>)
    requires Distinct(xs) && multiset(xs) == multiset(ys)
    ensures Distinct(ys)
  {
    DistinctMultiset(xs);
    forall i, j | 0 <= i < j < |ys| ensures ys[i] != ys[j] {
      assert multiset(ys)[ys[i]] == multiset(xs)[ys[i]] <= 1;
      if ys[i] == ys[j] { CountTwice(ys, i, j); }
    }
  }

  lemma CountTwice<T>(ys: seq<T>, i: nat, j: nat)
    requires i < j < |ys| && ys[i] == ys[j]
    ensures multiset(ys)[ys[i]] >= 2
  {
    assert ys == ys[..j] + [ys[j]] + ys[j + 1..];
    assert ys[..j][i] == ys[i];
  }
}
