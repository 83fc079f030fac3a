# Enhanced stack

A model of `enhanced::enhanced_stack<Type>`, a last-in-first-out stack held in
an owned buffer of `_capacity` slots. The first `_size` slots hold the
contents, bottom first. The buffer starts at 32 slots and doubles when it is
full. Besides the usual stack operations it offers `swap_top`, which exchanges
the two top elements, and a range push. The range push appends a run of
consecutive integers and is allowed only when the element type is integral.

The model has three modules:

- `StackSpec` (`stack_spec.dfy`) holds the pure definitions the operations
  are specified by, with their lemmas:
  - the three errors the stack throws (`StackError`), and the `Outcome` and
    `Result` types that carry them;
  - the capacities the buffer can reach (`IsCapacity`: 32 doubled any number
    of times);
  - the growth loop of range push (`GrownCapacity`);
  - the values a range push writes (`RangeValues`);
  - the effect of `swap_top` on the contents (`Swapped`).
- `Enhanced` (`enhanced_stack.dfy`) holds the class `EnhancedStack<T>`:
  - its state is an `array<T>` buffer, the fields `size`, `capacity` and
    `check`, and a ghost `Contents` sequence;
  - `Valid()` ties them together: `0 <= size <= capacity == data.Length`,
    `capacity` is a reachable capacity, and `Contents == data[..size]`;
  - every method requires and keeps `Valid()`, and states the new contents,
    size, capacity and buffer in terms of the old ones;
  - a throwing operation returns `Fail(error)` and leaves the contents as
    they were;
  - the range push is `PushRange`, a method on `EnhancedStack<int>` (see
    "Left out").
- `Scenarios` (`scenarios.dfy`) holds client code whose outcomes are proved
  from the class contracts alone. Two kinds are covered:
  - round trips: push then pop, and swap twice;
  - concrete runs: a fresh stack, pushing 5 and 7 then swapping, range
    pushes 3 to 7 and 7 to 3 with their draining order, a refused range
    push, and an oversized pop.

The flag `_check` is computed in the source from `std::is_integral_v<Type>`.
Here it is the constructor's `integral` argument, stored in `check`.

## Model

| member | source | states |
|---|---|---|
| `Enhanced.EnhancedStack.constructor` | enhanced_stack.hpp:14-24 | a new stack is empty, with size 0, capacity 32, a fresh buffer of 32 slots, and a range-push flag equal to `integral` |
| `Enhanced.EnhancedStack.Copy` | enhanced_stack.hpp:28-36 | the copy has the same size, capacity, flag and contents as the original, in a freshly allocated buffer |
| `Enhanced.EnhancedStack.Assign` | enhanced_stack.hpp:38-49 | after assignment the stack has the other's size, capacity, flag and contents, in a fresh buffer unless it was assigned to itself; the other stack stays valid |
| `Enhanced.EnhancedStack.Size` | enhanced_stack.hpp:72-74 | the size is the number of elements in the contents |
| `Enhanced.EnhancedStack.IsEmpty` | enhanced_stack.hpp:76-78 | true exactly when the contents are empty |
| `Enhanced.EnhancedStack.Top` | enhanced_stack.hpp:80-85 | fails with `EmptyStack` exactly when the stack is empty; otherwise returns the last element of the contents; reads only |
| `Enhanced.EnhancedStack.AddCapacity` | enhanced_stack.hpp:144-154 | the capacity doubles, the buffer is new, and size, contents and flag are unchanged |
| `Enhanced.EnhancedStack.GrowBeyond` | enhanced_stack.hpp:98-100 | the capacity becomes `GrownCapacity(need, old capacity)`; size, contents and flag are unchanged |
| `Enhanced.EnhancedStack.Push` | enhanced_stack.hpp:87-92 | the contents become the old contents followed by the value, so the size grows by one; the capacity doubles exactly when the stack was full, and otherwise the buffer is the same |
| `Enhanced.EnhancedStack.Pop` | enhanced_stack.hpp:113-118 | fails with `EmptyStack` exactly on an empty stack, changing nothing; otherwise removes exactly the last element; buffer and capacity are kept |
| `Enhanced.EnhancedStack.PopMany` | enhanced_stack.hpp:120-125 | fails with `InsufficientSize` exactly when `num` exceeds the size, changing nothing; otherwise the size drops by `num` and the contents lose their last `num` elements; buffer and capacity are kept |
| `Enhanced.EnhancedStack.SwapTop` | enhanced_stack.hpp:127-132 | fails with `InsufficientSize` exactly when the size is at most 1, changing nothing; otherwise the contents become `Swapped` of the old ones, and no buffer slot other than the top two changes |
| `Enhanced.EnhancedStack.Clear` | enhanced_stack.hpp:134-136 | the stack becomes empty; capacity, flag and buffer are kept |
| `Enhanced.PushRange` | enhanced_stack.hpp:94-111 | fails with `InvalidType` exactly when the flag is off, changing nothing; otherwise appends `RangeValues(left, right)`, grows the size by `abs(left - right)`, and sets the capacity to `GrownCapacity` of the needed size; the capacity grows exactly when `size + abs(left - right) >= capacity`, and on a full stack even `left == right` doubles it |
| `Enhanced.WriteAscending` | enhanced_stack.hpp:101-105 | with room reserved, the ascending loop appends `left, ..., right - 1` and keeps buffer and capacity |
| `Enhanced.WriteDescending` | enhanced_stack.hpp:106-110 | with room reserved, the descending loop appends `left, ..., right + 1` and keeps buffer and capacity |
| `StackSpec.GrownCapacity` | enhanced_stack.hpp:98-100 | doubling until the capacity exceeds `need` ends at a reachable capacity strictly above `need`; when it grew at all, the capacity before the last doubling was at most `need` |
| `StackSpec.GrownCapacityIsLeast` | enhanced_stack.hpp:98-100 | the grown capacity is the smallest reachable capacity, at or above the starting one, that exceeds `need` |
| `StackSpec.CapacityIffPowerOfTwo` | enhanced_stack.hpp:144-154 | the capacities that 32 and repeated doubling reach are exactly the numbers `32 * 2^k` |
| `StackSpec.DoubleIsCapacity` | enhanced_stack.hpp:145 | doubling a reachable capacity gives a reachable capacity |
| `StackSpec.CapacityMultiple` | enhanced_stack.hpp:144-154 | two distinct reachable capacities differ by at least a factor of two |
| `StackSpec.RangeValues` | enhanced_stack.hpp:101-110 | the range has `abs(left - right)` values; value `k` is `left + k` when `left < right` and `left - k` otherwise |
| `StackSpec.AscendingStep` | enhanced_stack.hpp:102-104 | one more iteration of the ascending loop extends the written range by the loop counter |
| `StackSpec.DescendingStep` | enhanced_stack.hpp:107-109 | one more iteration of the descending loop extends the written range by the loop counter |
| `StackSpec.RangeDrainOrder` | enhanced_stack.hpp:94-111 | popping a range push returns the values in reverse write order, which is the range written in the opposite direction |
| `StackSpec.SwappedAt` | enhanced_stack.hpp:131 | swapping exchanges the top two positions and keeps every other one |
| `StackSpec.SwappedTwice` | enhanced_stack.hpp:127-132 | swapping the top two twice restores the contents |
| `Scenarios.PushThenPop` | enhanced_stack.hpp:87-92 | after a push the top is the pushed value, and a pop then succeeds and restores the previous contents and size |
| `Scenarios.SwapTopTwice` | enhanced_stack.hpp:127-132 | two swaps of the top leave the contents as they were; both succeed exactly when there are at least two elements |
| `Scenarios.FreshStack` | enhanced_stack.hpp:14-24 | a new stack is empty, has size 0 and capacity 32, and has no top |
| `Scenarios.PushTwiceAndSwap` | enhanced_stack.hpp:127-132 | after pushing 5 and 7 the size is 2 and the top is 7; after a swap the top is 5 |
| `Scenarios.PopTops` | enhanced_stack.hpp:113-118 | `n` successive top-and-pop steps return the last `n` elements in reverse order and remove them |
| `Scenarios.AscendingRange` | enhanced_stack.hpp:101-105 | range push 3 to 7 gives size 4 and top 6; draining yields 6, 5, 4, 3 and leaves the stack empty |
| `Scenarios.DescendingRange` | enhanced_stack.hpp:106-110 | range push 7 to 3 gives top 4; draining yields 4, 5, 6, 7 |
| `Scenarios.RangeOnNonIntegral` | enhanced_stack.hpp:95-97 | range push on a stack whose element type is not integral fails with `InvalidType` and keeps the size |
| `Scenarios.PopTooMany` | enhanced_stack.hpp:120-125 | popping 3 from a stack of 2 fails with `InsufficientSize`, and the size stays 2 |

## Left out

- `Enhanced.EnhancedStack.PopMany`: requires `num >= 0`. The source does not
  guard a negative `num`. With one, `_size -= num` raises `_size` past the
  valid contents, possibly beyond `_capacity`. This is a gap in the source,
  not modelled.
- `Enhanced.PushRange`: is a method on `EnhancedStack<int>`. Dafny cannot give
  a generic class a method that exists only for integer element types. Other
  integral types (`char`, `long`, ...) are not modelled separately. Neither is
  the narrowing from the `int` loop counter to such a type.
- A non-integral instantiation is modelled as a stack whose `check` flag is
  false. The compile-time trait `std::is_integral_v` is the constructor's
  `integral` argument.
- Machine integers are not modelled. This covers the overflow of
  `_capacity * 2` (enhanced_stack.hpp:145), of `abs(left_val - right_val)` and
  of the `int` loop counter (enhanced_stack.hpp:98-109). All arithmetic is on
  mathematical integers.
- Move construction and move assignment (enhanced_stack.hpp:51-70) are left
  out. The code resets the source object's `_size` to 0 and `_capacity` to
  32 but leaves its buffer empty (null), without allocating a new one. The
  moved-from object therefore no longer has a buffer of `_capacity` slots.
- Ownership through `std::unique_ptr`, the defaulted destructor and the
  freeing of buffers are not modelled: Dafny's heap is garbage collected.
- Exception messages are left out: each throw is the matching `StackError`
  value.
- Self-assignment in copy assignment is modelled only as "nothing changes".
  Aliasing of the buffers is not modelled beyond the freshness of the new
  buffer.
- The growth loop (`GrowBeyond`) and the two write loops of range push
  (`WriteAscending`, `WriteDescending`) are separate methods here. In the
  source they are inline in `push(left_val, right_val)`. The split keeps each
  proof small and does not change the order of writes.
