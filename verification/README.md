# stack-rs in Dafny

A model of `Stack<T>`, a generic singly-linked last-in-first-out stack. The
stack holds the topmost `Tile` of a chain (or nothing) and a `size` counter.
Each `Tile` holds one value and owns the tile below it. The operations are
`new`, `push`, `pop`, `peek` and the equality-based `search`. `search`
reports a 1-based position counted up from the bottom, so the topmost
element sits at position `size`.

Layout:

- `options.dfy` — `Options.Option`, the `Some`/`None` result used for
  emptiness and "not found".
- `stack.dfy` — module `Stacks`: the `Tile` and `Stack` datatypes, the
  abstraction `Elements` (the chain's values, topmost first) and the validity
  predicate `Valid` (`size` equals the chain's length), and the operations.
  Each operation is a pure function from the old stack to the new one. Only
  `search` is a method, because it keeps the Rust `while let` loop and
  its `pos` counter.
- `laws.dfy` — module `StackLaws`: round trips, last-in-first-out order,
  the count after a run of pushes, and how search positions behave under
  push and pop.
- `basics.dfy` — module `Basics`: the repository's `basics` test scenario
  on `u8` values, stated as a lemma, plus a search on a stack whose count exceeds its chain.

`head` and `size` are public fields in the Rust implementation, so outside code can make
them disagree. `Push` needs no precondition and keeps validity both ways.
`Pop` requires only that its `size -= 1` cannot go below zero. `Search`
requires only that the count is at least the number of tiles
(`CountCoversChain`), so that its `pos -= 1` per tile passed cannot go below
zero; a larger count shifts every reported position up by the excess.

## Model

| member | source | states |
|---|---|---|
| Stacks.NewTile | src/lib.rs:110-114 | `Tile::new(v)` is a one-tile chain holding exactly `[v]` |
| Stacks.New | src/lib.rs:17-22 | a new stack has no head and size 0; it is valid and its contents are the empty sequence |
| Stacks.Peek | src/lib.rs:30-35 | `None` exactly when the stack has no elements (on a valid stack, exactly when `size == 0`); otherwise `Some` of the top element |
| Stacks.Push | src/lib.rs:63-79 | the new top is `data` and the tile below it is exactly the old head, so the contents are `[data]` followed by the old contents; size grows by one; the result is valid exactly when the input was |
| Stacks.Pop | src/lib.rs:45-54 | with no head: returns `None` and the stack unchanged; otherwise returns `Some` of the old top, the head becomes the old top's successor, the contents lose their first element and size drops by one; validity is preserved, and on a valid stack `None` means `size == 0` |
| Stacks.Position | src/lib.rs:90-101 | the position `search` reports, for any count at least the chain length: `None` exactly when the value is absent; otherwise a number in `size - length + 1 .. size` (`1..size` on a valid stack) at which the value sits, counted from the bottom with the top at `size`, with no equal value above it |
| Stacks.Search | src/lib.rs:90-101 | the top-down scan, in which `pos` starts at `size` and drops by one per tile passed, returns exactly `Position` whenever the count is at least the chain length |
| StackLaws.EmptyIffNoHead | src/lib.rs:5-8 | on a valid stack, `head` is absent if and only if `size == 0` |
| StackLaws.PushThenPop | src/lib.rs:45-79 | `push(v)` then `pop()` returns `Some(v)` and restores the original head and size |
| StackLaws.PeekMatchesPop | src/lib.rs:30-54 | `peek` returns what an immediately following `pop` returns |
| StackLaws.PushAll | src/lib.rs:63-79 | after pushing a sequence of values, size has grown by their number and they sit on top in reverse order; validity is unchanged |
| StackLaws.PopAll | src/lib.rs:45-54 | popping until `None` yields the stack's contents, topmost first |
| StackLaws.LastInFirstOut | src/lib.rs:45-79 | pushing a sequence onto a new stack and then popping everything returns the sequence reversed |
| StackLaws.SearchFindsPushedOnTop | src/lib.rs:90-101 | a value just pushed is found at the new size, the topmost position |
| StackLaws.SearchStableUnderPush | src/lib.rs:90-101 | pushing a different value does not change any value's search result, because positions count from the bottom |
| StackLaws.SearchStableUnderPop | src/lib.rs:90-101 | popping a top that differs from the searched value does not change its search result |
| Basics.OversizedCountScenario | src/lib.rs:90-101 | a one-tile chain holding 5 under a count of 7 is not valid, yet searching for 5 reports position 7 |
| Basics.BasicsScenario | src/lib.rs:120-133 | on `u8`: after pushing 3, 6, 9, size is 3 and peek is 9; pop gives 9; search(6) gives 2 with size 2; pop gives 6; peek and the head's value are 3 |

## Left out

- Heap allocation with `Box`, ownership and borrowing: tiles are an immutable datatype, and operations return the new stack rather than mutating in place.
- Stacks.Peek: returns the top value itself, not a reference tied to the stack's lifetime.
- Stacks.Push: `size` is an unbounded `nat`, so the `usize` overflow of `size += 1` and out-of-memory failure are not modelled.
- Stacks.Pop: requires that the count is positive when there is a head, so the `usize` underflow of `size -= 1` on an inconsistent stack is not modelled.
- Stacks.Search: requires the count to be at least the chain length, so the underflow of `pos -= 1` on a stack whose count is smaller than its chain is not modelled. The searched value is passed by value; the move semantics have no counterpart.
- Stacks.Search: elements are compared with Dafny's built-in equality, not the element type's `PartialEq` implementation, so an `eq` that is not reflexive (a floating-point NaN is never found) or coarser than identity (comparing only a key field) is not covered.
- Stacks.Position: states its result in terms of Dafny's built-in equality, for the same reason as `Stacks.Search`.
- Basics.BasicsScenario: states the search step through `Position`, which `Stacks.Search` is proved to return.
- `#[derive(Debug)]` formatting and drop behaviour: formatting and memory release have no logical content to verify.
