/**
 * The carousel index of `src/components/common/HeroSlider.tsx`: one current slide,
 * moved forward or back modulo the number of slides, or set directly.
 */
module HeroSlider {
  /**
   * JavaScript `a % n` for a positive `n`: `a` minus `n` times the quotient truncated toward zero,
   * so the remainder takes the sign of `a`.
   */
  function Rem(a: int, n: nat): (r: int)
    requires n > 0
    ensures 0 <= a ==> 0 <= r < n && r == a % n
    ensures a < 0 ==> 0 - n < r <= 0 && r == a + n * ((-a) / n)
  {
    if a >= 0 then a % n else -((-a) % n)
  }

  /** `(prev + 1) % slides.length`. */
  function Next(i: int, n: nat): (r: int)
    requires n > 0
    ensures 0 <= i ==> 0 <= r < n
  {
    Rem(i + 1, n)
  }

  /** `(prev - 1 + slides.length) % slides.length`. */
  function Prev(i: int, n: nat): (r: int)
    requires n > 0
    ensures 0 <= i ==> 0 <= r < n
  {
    Rem(i - 1 + n, n)
  }

  /** Off the slide indices the remainder keeps its sign: forward from -5 of 3 slides is -1, not a slide. */
  lemma NextOfNegative()
    ensures Next(-5, 3) == -1
  {
    assert 4 % 3 == 1;
  }

  /** The remainder below twice the divisor, stated without division. */
  lemma SmallMod(a: int, n: nat)
    requires n > 0 && 0 <= a < 2 * n
    ensures a % n == if a < n then a else a - n
  {
    if a < n {
      assert a == 0 * n + a;
    } else {
      assert a == 1 * n + (a - n);
    }
  }

  /** On a slide index, forward is the next index, wrapping from the last slide to the first. */
  lemma NextStep(i: int, n: nat)
    requires n > 0 && 0 <= i < n
    ensures Next(i, n) == if i + 1 == n then 0 else i + 1
  {
    SmallMod(i + 1, n);
  }

  /** On a slide index, back is the previous index, wrapping from the first slide to the last. */
  lemma PrevStep(i: int, n: nat)
    requires n > 0 && 0 <= i < n
    ensures Prev(i, n) == if i == 0 then n - 1 else i - 1
  {
    SmallMod(i - 1 + n, n);
  }

  /** Going back undoes going forward, and going forward undoes going back, on every slide index. */
  lemma PrevUndoesNext(i: int, n: nat)
    requires n > 0 && 0 <= i < n
    ensures Prev(Next(i, n), n) == i
    ensures Next(Prev(i, n), n) == i
  {
    NextStep(i, n);
    PrevStep(i, n);
    PrevStep(Next(i, n), n);
    NextStep(Prev(i, n), n);
  }

  /** `k` forward moves from slide `i`. */
  function Advance(i: int, n: nat, k: nat): int
    requires n > 0
  {
    if k == 0 then i else Next(Advance(i, n, k - 1), n)
  }

  /** Moves from a slide index stay on slide indices. */
  lemma {:induction false} AdvanceInRange(i: int, n: nat, k: nat)
    requires n > 0 && 0 <= i < n
    ensures 0 <= Advance(i, n, k) < n
  {
    if k > 0 {
      AdvanceInRange(i, n, k - 1);
      NextStep(Advance(i, n, k - 1), n);
    }
  }

  /** Before the last slide is passed, `k` moves forward add `k`. */
  lemma {:induction false} AdvanceNoWrap(i: int, n: nat, k: nat)
    requires n > 0 && 0 <= i && i + k < n
    ensures Advance(i, n, k) == i + k
  {
    if k > 0 {
      AdvanceNoWrap(i, n, k - 1);
      NextStep(i + k - 1, n);
    }
  }

  /** `a` moves then `b` moves are `a + b` moves. */
  lemma {:induction false} AdvanceAdd(i: int, n: nat, a: nat, b: nat)
    requires n > 0
    ensures Advance(i, n, a + b) == Advance(Advance(i, n, a), n, b)
  {
    if b > 0 {
      AdvanceAdd(i, n, a, b - 1);
    }
  }

  /** `n` forward moves bring every slide back to itself. */
  lemma FullCycle(i: int, n: nat)
    requires n > 0 && 0 <= i < n
    ensures Advance(i, n, n) == i
  {
    AdvanceNoWrap(i, n, n - 1 - i);
    NextStep(n - 1, n);
    assert Advance(i, n, n - i) == 0;
    AdvanceAdd(i, n, n - i, i);
    if i > 0 {
      AdvanceNoWrap(0, n, i);
    }
  }

  /** The slider state: the number of slides and the current one. */
  class Slider {
    const count: nat
    var current: int

    /** Slides are shown one at a time and `slides.length` is positive. */
    ghost predicate Valid()
      reads this
    {
      count > 0 && 0 <= current < count
    }

    /** `useState(0)`. */
    constructor(n: nat)
      requires n > 0
      ensures Valid() && count == n && current == 0
    {
      count := n;
      current := 0;
    }

    /** The arrow to the right. */
    method NextSlide()
      requires Valid()
      modifies this
      ensures Valid() && current == Next(old(current), count)
    {
      current := Rem(current + 1, count);
    }

    /** The arrow to the left. */
    method PrevSlide()
      requires Valid()
      modifies this
      ensures Valid() && current == Prev(old(current), count)
    {
      current := Rem(current - 1 + count, count);
    }

    /** The auto-play interval's callback applies the same rule as the right arrow. */
    method Tick()
      requires Valid()
      modifies this
      ensures Valid() && current == Next(old(current), count)
    {
      NextSlide();
    }

    /** A dot sets the index exactly as given; the dots only offer indices of slides. */
    method GoToSlide(index: int)
      requires count > 0
      modifies this
      ensures current == index
      ensures 0 <= index < count ==> Valid()
    {
      current := index;
    }
  }
}
