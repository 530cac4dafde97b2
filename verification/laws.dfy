/**
  Laws relating the stack operations to one another: the LIFO round trips,
  what peek promises about the next pop, the count after a run of pushes,
  and how the bottom-relative search position behaves under push and pop.
 */
module StackLaws {
  import opened Options
  import opened Stacks

  /** A valid stack has no head exactly when its count is zero. */
  lemma EmptyIffNoHead<T>(s: Stack<T>)
    requires Valid(s)
    ensures s.head.None? <==> s.size == 0
  {
  }

  /** Pushing `v` and popping at once gives back `v` and the very same stack,
      chain and count alike. */
  lemma PushThenPop<T>(s: Stack<T>, v: T)
    ensures Pop(Push(s, v)) == (Some(v), s)
  {
  }

  /** Peek reports what an immediately following pop returns. */
  lemma PeekMatchesPop<T>(s: Stack<T>)
    requires s.head.None? || s.size > 0
    ensures Peek(s) == Pop(s).0
  {
  }

  function Reverse<T>(vs: seq<T>): (r: seq<T>)
  {
    if vs == [] then [] else Reverse(vs[1..]) + [vs[0]]
  }

  /** Pushes the values of `vs` in order, the last one ending on top. After
      the run the count has grown by the number of pushes and the pushed
      values sit on top in reverse order. */
  function PushAll<T>(s: Stack<T>, vs: seq<T>): (r: Stack<T>)
    ensures Elements(r) == Reverse(vs) + Elements(s)
    ensures r.size == s.size + |vs|
    ensures Valid(r) <==> Valid(s)
    decreases |vs|
  {
    if vs == [] then s else PushAll(Push(s, vs[0]), vs[1..])
  }

  /** Pops until the stack reports None, collecting the popped values. */
  function PopAll<T>(s: Stack<T>): (r: seq<T>)
    requires Valid(s)
    ensures r == Elements(s)
    decreases s.size
  {
    match Pop(s)
    case (None, _) => []
    case (Some(v), rest) => [v] + PopAll(rest)
  }

  /** Last in, first out: starting from the empty stack, popping everything
      returns the pushed values in reverse order. */
  lemma LastInFirstOut<T>(vs: seq<T>)
    ensures PopAll(PushAll(New<T>(), vs)) == Reverse(vs)
  {
  }

  /** A value just pushed is found at the top position, the new count. */
  lemma SearchFindsPushedOnTop<T>(s: Stack<T>, x: T)
    requires CountCoversChain(s)
    ensures Position(Push(s, x), x) == Some(s.size + 1)
  {
  }

  /** Positions are counted from the bottom, so pushing a different value
      does not move any value already on the stack. */
  lemma SearchStableUnderPush<T>(s: Stack<T>, v: T, x: T)
    requires CountCoversChain(s)
    requires v != x
    ensures Position(Push(s, v), x) == Position(s, x)
  {
    var e := Elements(s);
    var pushed := Elements(Push(s, v));
    assert pushed[1..] == e;
    if x in e {
      assert IndexOf(pushed, x) == 1 + IndexOf(e, x);
    }
  }

  /** Popping a top that differs from `x` does not move `x` either. */
  lemma SearchStableUnderPop<T>(s: Stack<T>, x: T)
    requires CountCoversChain(s)
    requires s.head.Some? && s.head.value.value != x
    ensures Position(Pop(s).1, x) == Position(s, x)
  {
    var t := Pop(s).1;
    assert Push(t, s.head.value.value) == s;
    SearchStableUnderPush(t, s.head.value.value, x);
  }
}
