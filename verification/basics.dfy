/**
  The repository's `basics` scenario on unsigned 8-bit values: push 3, 6
  and 9 onto a new stack, then peek, pop, search and pop again.
 */
module Basics {
  import opened Options
  import opened Stacks

  /** Rust's `u8`. */
  newtype U8 = x: int | 0 <= x < 256

  lemma BasicsScenario()
    ensures var s := Push(Push(Push(New<U8>(), 3), 6), 9);
            && Valid(s)
            && s.size == 3
            && Peek(s) == Some(9)
            && Pop(s).0 == Some(9)
            && Position(Pop(s).1, 6) == Some(2)
            && Pop(s).1.size == 2
            && Pop(Pop(s).1).0 == Some(6)
            && Peek(Pop(Pop(s).1).1) == Some(3)
            && Pop(Pop(s).1).1.head.Some?
            && Pop(Pop(s).1).1.head.value.value == 3
  {
  }

  /** The count is a public field and may exceed the chain: a one-tile chain
      holding 5 under a count of 7 is scanned without underflow, and 5 is
      reported at position 7. */
  lemma OversizedCountScenario()
    ensures var s := Stack(Some(NewTile(5 as U8)), 7);
            && CountCoversChain(s) && !Valid(s)
            && Position(s, 5) == Some(7)
  {
  }
}
