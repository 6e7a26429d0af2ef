/** Shift registers in the abstract: a step that is injective and linear over an
    exclusive-or. Nothing here looks inside a register. */
module Register {

  function Iter<T>(step: T -> T, x: T, n: nat): T {
    if n == 0 then x else step(Iter(step, x, n - 1))
  }

  function Fold<T, B>(f: (T, B) -> T, x: T, data: seq<B>): T {
    if data == [] then x else f(Fold(f, x, data[..|data| - 1]), data[|data| - 1])
  }

  ghost predicate Injective<T(!new)>(step: T -> T) {
    forall x, y :: step(x) == step(y) ==> x == y
  }

  ghost predicate Linear<T(!new)>(step: T -> T, xor: (T, T) -> T) {
    forall x, y :: step(xor(x, y)) == xor(step(x), step(y))
  }

  ghost predicate InjectiveIn<T(!new), B(!new)>(f: (T, B) -> T) {
    forall x, y, b :: f(x, b) == f(y, b) ==> x == y
  }

  lemma {:induction false} IterInjective<T(!new)>(step: T -> T, x: T, y: T, n: nat)
    requires Injective(step)
    ensures Iter(step, x, n) == Iter(step, y, n) ==> x == y
  {
    if n == 0 {
    } else {
      IterInjective(step, x, y, n - 1);
    }
  }

  lemma {:induction false} IterLinear<T(!new)>(step: T -> T, xor: (T, T) -> T, x: T, y: T, n: nat)
    requires Linear(step, xor)
    ensures Iter(step, xor(x, y), n) == xor(Iter(step, x, n), Iter(step, y, n))
  {
    if n == 0 {
    } else {
      IterLinear(step, xor, x, y, n - 1);
    }
  }

  lemma {:induction false} IterAdd<T>(step: T -> T, x: T, m: nat, n: nat)
    ensures Iter(step, Iter(step, x, m), n) == Iter(step, x, m + n)
  {
    if n == 0 {
    } else {
      IterAdd(step, x, m, n - 1);
    }
  }

  lemma IterEight<T>(step: T -> T, x0: T, x1: T, x2: T, x3: T, x4: T, x5: T, x6: T, x7: T, x8: T)
    requires step(x0) == x1 && step(x1) == x2 && step(x2) == x3 && step(x3) == x4
    requires step(x4) == x5 && step(x5) == x6 && step(x6) == x7 && step(x7) == x8
    ensures Iter(step, x0, 8) == x8
  {
  }

  /** A word `w0` mixed into `c0` and fed in four pieces, each leaving the rest of
      the word still mixed in. */
  lemma FourPieces<T>(step: T -> T, xor: (T, T) -> T, n: nat,
                      c0: T, c1: T, c2: T, c3: T, c4: T, w0: T, w1: T, w2: T, w3: T, w4: T)
    requires Iter(step, xor(c0, w0), n) == xor(c1, w1)
    requires Iter(step, xor(c1, w1), n) == xor(c2, w2)
    requires Iter(step, xor(c2, w2), n) == xor(c3, w3)
    requires Iter(step, xor(c3, w3), n) == xor(c4, w4)
    ensures Iter(step, xor(c0, w0), 4 * n) == xor(c4, w4)
  {
    IterAdd(step, xor(c0, w0), n, n);
    IterAdd(step, xor(c0, w0), 2 * n, n);
    IterAdd(step, xor(c0, w0), 3 * n, n);
  }

  lemma FoldFour<T, B>(f: (T, B) -> T, x: T, d: seq<B>)
    requires |d| == 4
    ensures Fold(f, x, d) == f(f(f(f(x, d[0]), d[1]), d[2]), d[3])
  {
    assert d[..3][..2] == d[..2] && d[..2][..1] == d[..1] && d[..1][..0] == [];
    assert Fold(f, x, d[..1]) == f(x, d[0]);
    assert Fold(f, x, d[..2]) == f(Fold(f, x, d[..1]), d[1]);
    assert Fold(f, x, d[..3]) == f(Fold(f, x, d[..2]), d[2]);
  }

  lemma {:induction false} FoldAppend<T, B>(f: (T, B) -> T, x: T, a: seq<B>, b: seq<B>)
    ensures Fold(f, x, a + b) == Fold(f, Fold(f, x, a), b)
  {
    if b == [] {
      assert a + b == a;
    } else {
      var front := b[..|b| - 1];
      FoldAppend(f, x, a, front);
      assert (a + b)[..|a + b| - 1] == a + front;
    }
  }

  lemma {:induction false} FoldInjective<T(!new), B(!new)>(f: (T, B) -> T, x: T, y: T, data: seq<B>)
    requires InjectiveIn(f)
    ensures Fold(f, x, data) == Fold(f, y, data) ==> x == y
  {
    if data == [] {
    } else {
      FoldInjective(f, x, y, data[..|data| - 1]);
    }
  }

  /** Stepping a register into which a word was mixed: the part of the word not in
      `piece` passes through to `next`. */
  lemma PeelPiece<T(!new)>(step: T -> T, xor: (T, T) -> T, x: T, word: T, piece: T, rest: T, next: T, n: nat)
    requires Linear(step, xor)
    requires xor(x, word) == xor(xor(x, piece), rest) && Iter(step, rest, n) == next
    ensures Iter(step, xor(x, word), n) == xor(Iter(step, xor(x, piece), n), next)
  {
    IterLinear(step, xor, xor(x, piece), rest, n);
  }
}
