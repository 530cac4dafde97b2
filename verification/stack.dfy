/**
  A singly-linked last-in-first-out stack. The stack holds the topmost tile
  of a chain (or nothing) and a running element count. Each tile holds one
  value and the rest of the chain below it.

  The Rust implementation mutates the stack in place; here every operation is a pure
  function from the old stack to the new one.
 */
module Stacks {
  import opened Options

  /** One node of the chain: a value and the chain below it. */
  datatype Tile<T> = Tile(value: T, next: Option<Tile<T>>)

  /** The stack itself. Both fields are public in the Rust implementation, so a caller can
      build a stack whose count disagrees with its chain; see Valid. */
  datatype Stack<T> = Stack(head: Option<Tile<T>>, size: nat)

  /** The values of a chain, topmost first. */
  function Chain<T>(h: Option<Tile<T>>): (r: seq<T>)
  {
    match h
    case None => []
    case Some(t) => [t.value] + Chain(t.next)
  }

  /** The abstract contents of a stack, topmost first. */
  function Elements<T>(s: Stack<T>): (r: seq<T>)
  {
    Chain(s.head)
  }

  /** The count agrees with the number of tiles reachable from the head. */
  predicate Valid<T>(s: Stack<T>)
  {
    s.size == |Elements(s)|
  }

  /** A tile holding one value and nothing below it. */
  function NewTile<T>(value: T): (t: Tile<T>)
    ensures t.value == value
    ensures Chain(Some(t)) == [value]
  {
    Tile(value, None)
  }

  /** The empty stack. */
  function New<T>(): (s: Stack<T>)
    ensures Valid(s)
    ensures Elements(s) == []
    ensures s.head.None? && s.size == 0
  {
    Stack(None, 0)
  }

  /** The top value, or None when the stack has no head. The stack is not
      changed (it is passed by value). */
  function Peek<T>(s: Stack<T>): (r: Option<T>)
    ensures r.None? <==> Elements(s) == []
    ensures r.Some? ==> r.value == Elements(s)[0]
    ensures Valid(s) ==> (r.None? <==> s.size == 0)
  {
    match s.head
    case Some(v) => Some(v.value)
    case None => None
  }

  /** Puts a new tile holding `data` on top. The count is raised by one
      whatever the chain looks like, as in the Rust implementation. */
  function Push<T>(s: Stack<T>, data: T): (r: Stack<T>)
    ensures Elements(r) == [data] + Elements(s)
    ensures r.head.Some? && r.head.value.value == data && r.head.value.next == s.head
    ensures r.size == s.size + 1
    ensures Valid(r) <==> Valid(s)
  {
    var size := s.size + 1;
    match s.head
    case Some(v) => Stack(Some(Tile(data, Some(v))), size)
    case None => Stack(Some(Tile(data, None)), size)
  }

  /** Removes the top tile and returns its value with the remaining stack;
      on a stack with no head returns None and the stack unchanged. The
      precondition says only that the count cannot drop below zero. */
  function Pop<T>(s: Stack<T>): (r: (Option<T>, Stack<T>))
    requires s.head.None? || s.size > 0
    ensures s.head.None? ==> r.0 == None && r.1 == s
    ensures s.head.Some? ==>
              && r.0 == Some(Elements(s)[0])
              && r.1.head == s.head.value.next
              && Elements(r.1) == Elements(s)[1..]
              && r.1.size == s.size - 1
    ensures Valid(s) ==> Valid(r.1)
    ensures Valid(s) ==> (r.0.None? <==> s.size == 0)
  {
    match s.head
    case Some(v) => (Some(v.value), Stack(v.next, s.size - 1))
    case None => (None, s)
  }

  /** The index of the first occurrence of `x` in `xs`. */
  function IndexOf<T(==)>(xs: seq<T>, x: T): (i: nat)
    requires x in xs
    ensures i < |xs| && xs[i] == x
    ensures forall j :: 0 <= j < i ==> xs[j] != x
  {
    if xs[0] == x then 0 else 1 + IndexOf(xs[1..], x)
  }

  /** The count is at least the number of tiles, so a scan that takes one
      off the count per tile never goes below zero. Every valid stack has
      this property. */
  predicate CountCoversChain<T>(s: Stack<T>)
  {
    s.size >= |Elements(s)|
  }

  /** Reference definition of the position `search` reports: counted from the
      bottom, starting at 1, so the topmost element is at position `size`;
      the topmost occurrence wins. When the count exceeds the chain length
      every position is shifted up by the excess. */
  function Position<T(==)>(s: Stack<T>, x: T): (r: Option<nat>)
    requires CountCoversChain(s)
    ensures r.None? <==> x !in Elements(s)
    ensures r.Some? ==>
              && s.size - |Elements(s)| < r.value <= s.size
              && Elements(s)[s.size - r.value] == x
              && forall j :: 0 <= j < s.size - r.value ==> Elements(s)[j] != x
    ensures Valid(s) && r.Some? ==> 1 <= r.value
  {
    if x in Elements(s) then Some(s.size - IndexOf(Elements(s), x)) else None
  }

  /** Linear scan from the top: the first tile whose value equals `data`
      gives the current position, which starts at `size` and drops by one
      per tile passed. */
  method Search<T(==)>(s: Stack<T>, data: T) returns (r: Option<nat>)
    requires CountCoversChain(s)
    ensures r == Position(s, data)
  {
    var ptr := s.head;
    var pos: nat := s.size;
    ghost var passed: nat := 0;
    while ptr.Some?
      invariant passed <= |Elements(s)| && pos + passed == s.size
      invariant Chain(ptr) == Elements(s)[passed..]
      invariant data !in Elements(s)[..passed]
      decreases |Elements(s)| - passed
    {
      var p := ptr.value;
      if p.value == data {
        FirstOccurrence(Elements(s), data, passed);
        return Some(pos);
      }
      assert Elements(s)[..passed + 1] == Elements(s)[..passed] + [p.value];
      ptr := p.next;
      pos := pos - 1;
      passed := passed + 1;
    }
    assert Elements(s)[..passed] == Elements(s);
    return None;
  }

  /** An index holding `x` with no earlier `x` is the index of the first one. */
  lemma FirstOccurrence<T>(xs: seq<T>, x: T, k: nat)
    requires k < |xs| && xs[k] == x
    requires x !in xs[..k]
    ensures IndexOf(xs, x) == k
  {
  }
}
