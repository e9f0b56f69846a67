/** Three-way comparison and lexicographic order. */
module Lex {

  datatype Ord = LT | EQ | GT {
    function Flip(): Ord {
      match this
      case LT => GT
      case EQ => EQ
      case GT => LT
    }

    function Then(next: Ord): Ord {
      if EQ? then next else this
    }
  }

  function IntCmp(a: int, b: int): Ord {
    if a < b then LT else if a == b then EQ else GT
  }

  function CharCmp(a: char, b: char): Ord {
    if a < b then LT else if a == b then EQ else GT
  }

  /** The order of lists in the source language: the first difference decides, a proper prefix is less. */
  function LexCmp<T>(cmp: (T, T) -> Ord, a: seq<T>, b: seq<T>): Ord {
    if a == [] && b == [] then EQ
    else if a == [] then LT
    else if b == [] then GT
    else cmp(a[0], b[0]).Then(LexCmp(cmp, a[1..], b[1..]))
  }

  /** Order of strings by code point. */
  function StrCmp(a: string, b: string): Ord {
    LexCmp(CharCmp, a, b)
  }

  ghost predicate IsTotalOrder<T(!new)>(cmp: (T, T) -> Ord) {
    && (forall x, y :: cmp(x, y) == EQ <==> x == y)
    && (forall x, y :: cmp(x, y) == cmp(y, x).Flip())
    && (forall x, y, z :: cmp(x, y) == LT && cmp(y, z) == LT ==> cmp(x, z) == LT)
  }

  lemma {:induction false} LexEq<T(!new)>(cmp: (T, T) -> Ord, a: seq<T>, b: seq<T>)
    requires IsTotalOrder(cmp)
    ensures LexCmp(cmp, a, b) == EQ <==> a == b
  {
    if a != [] && b != [] {
      LexEq(cmp, a[1..], b[1..]);
      if LexCmp(cmp, a, b) == EQ {
        assert a == [a[0]] + a[1..] && b == [b[0]] + b[1..];
      }
    }
  }

  lemma {:induction false} LexFlip<T(!new)>(cmp: (T, T) -> Ord, a: seq<T>, b: seq<T>)
    requires IsTotalOrder(cmp)
    ensures LexCmp(cmp, a, b) == LexCmp(cmp, b, a).Flip()
  {
    if a != [] && b != [] {
      LexFlip(cmp, a[1..], b[1..]);
      assert cmp(a[0], b[0]) == cmp(b[0], a[0]).Flip();
    }
  }

  lemma {:induction false} LexTransitive<T(!new)>(cmp: (T, T) -> Ord, a: seq<T>, b: seq<T>, c: seq<T>)
    requires IsTotalOrder(cmp)
    requires LexCmp(cmp, a, b) == LT && LexCmp(cmp, b, c) == LT
    ensures LexCmp(cmp, a, c) == LT
  {
    if a != [] && b != [] && c != [] {
      if cmp(a[0], b[0]) == EQ && cmp(b[0], c[0]) == EQ {
        LexTransitive(cmp, a[1..], b[1..], c[1..]);
      }
    }
  }

  /** The lexicographic order over a total order is total. */
  lemma LexIsTotalOrder<T(!new)>(cmp: (T, T) -> Ord)
    requires IsTotalOrder(cmp)
    ensures forall a, b :: LexCmp(cmp, a, b) == EQ <==> a == b
    ensures forall a, b :: LexCmp(cmp, a, b) == LexCmp(cmp, b, a).Flip()
    ensures forall a, b, c :: LexCmp(cmp, a, b) == LT && LexCmp(cmp, b, c) == LT ==> LexCmp(cmp, a, c) == LT
  {
    forall a, b ensures LexCmp(cmp, a, b) == EQ <==> a == b { LexEq(cmp, a, b); }
    forall a, b ensures LexCmp(cmp, a, b) == LexCmp(cmp, b, a).Flip() { LexFlip(cmp, a, b); }
    forall a, b, c | LexCmp(cmp, a, b) == LT && LexCmp(cmp, b, c) == LT
      ensures LexCmp(cmp, a, c) == LT
    {
      LexTransitive(cmp, a, b, c);
    }
  }

  lemma StrCons(c: char, x: string, d: char, y: string)
    ensures StrCmp([c] + x, [d] + y) == CharCmp(c, d).Then(StrCmp(x, y))
  {
    assert ([c] + x)[1..] == x && ([d] + y)[1..] == y;
  }

  lemma {:induction false} StrEqual(s: string)
    ensures StrCmp(s, s) == EQ
  {
    if s != "" {
      StrEqual(s[1..]);
    }
  }

  /** Blocks of equal length are compared block by block. */
  lemma {:induction false} LexBlocks(x: string, y: string, r: string, q: string)
    requires |x| == |y|
    ensures StrCmp(x + r, y + q) == StrCmp(x, y).Then(StrCmp(r, q))
  {
    if x == [] {
      assert x + r == r && y + q == q;
    } else {
      assert (x + r)[1..] == x[1..] + r && (y + q)[1..] == y[1..] + q;
      LexBlocks(x[1..], y[1..], r, q);
    }
  }

  predicate Above(x: string, bound: char) {
    forall c | c in x :: c > bound
  }

  predicate StartsLow(r: string, bound: char) {
    r == "" || r[0] <= bound
  }

  /** Words over characters above `bound`, each followed by something that starts at or below it,
      are compared word first. */
  lemma {:induction false} LexWords(x: string, y: string, r: string, q: string, bound: char)
    requires Above(x, bound) && Above(y, bound) && StartsLow(r, bound) && StartsLow(q, bound)
    ensures StrCmp(x + r, y + q) == StrCmp(x, y).Then(StrCmp(r, q))
  {
    if x == [] && y == [] {
      assert x + r == r && y + q == q;
    } else if x == [] {
      assert y[0] in y && x + r == r && (y + q)[0] == y[0];
    } else if y == [] {
      assert x[0] in x && y + q == q && (x + r)[0] == x[0];
    } else {
      assert (x + r)[1..] == x[1..] + r && (y + q)[1..] == y[1..] + q;
      assert forall c | c in x[1..] :: c in x;
      assert forall c | c in y[1..] :: c in y;
      LexWords(x[1..], y[1..], r, q, bound);
    }
  }
}
