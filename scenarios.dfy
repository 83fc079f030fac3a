/** Client code that exercises the stack through its contracts alone: the
    round trips and concrete runs a user of the stack relies on. */
module Scenarios {
  import opened StackSpec
  import opened Enhanced

  /** A value pushed is the top until it is popped, and popping it restores
      the previous contents. */
  method PushThenPop<T(0)>(s: EnhancedStack<T>, v: T) returns (top: Result<T>, outcome: Outcome)
    requires s.Valid()
    modifies s, s.data
    ensures s.Valid() && s.Contents == old(s.Contents) && s.size == old(s.size)
    ensures top == Ok(v) && outcome == Pass
  {
    s.Push(v);
    top := s.Top();
    outcome := s.Pop();
  }

  /** Swapping the top two twice leaves the contents as they were. */
  method SwapTopTwice<T(0)>(s: EnhancedStack<T>) returns (first: Outcome, second: Outcome)
    requires s.Valid()
    modifies s, s.data
    ensures s.Valid() && s.Contents == old(s.Contents)
    ensures first == second && (first.Pass? <==> |old(s.Contents)| >= 2)
  {
    first := s.SwapTop();
    second := s.SwapTop();
    if first.Pass? {
      SwappedTwice(old(s.Contents));
    }
  }

  /** A new stack is empty, has size 0, and has no top. */
  method FreshStack() returns (empty: bool, size: int, top: Result<int>, capacity: int)
    ensures empty && size == 0 && top == Err(EmptyStack) && capacity == 32
  {
    var s := new EnhancedStack<int>(true);
    empty := s.IsEmpty();
    size := s.Size();
    top := s.Top();
    capacity := s.capacity;
  }

  /** Push 5 and 7: size 2 and top 7; after a swap the top is 5. */
  method PushTwiceAndSwap() returns (size: int, before: Result<int>, after: Result<int>)
    ensures size == 2 && before == Ok(7) && after == Ok(5)
  {
    var s := new EnhancedStack<int>(true);
    s.Push(5);
    s.Push(7);
    size := s.Size();
    before := s.Top();
    var _ := s.SwapTop();
    after := s.Top();
  }

  /** Pops every element of `s` that `n` pops can reach, recording each top. */
  method PopTops(s: EnhancedStack<int>, n: nat) returns (tops: seq<int>)
    requires s.Valid() && n <= |s.Contents|
    modifies s
    ensures s.Valid() && s.Contents == old(s.Contents)[..|old(s.Contents)| - n]
    ensures tops == Reverse(old(s.Contents)[|old(s.Contents)| - n..])
  {
    tops := [];
    var k := 0;
    while k < n
      invariant 0 <= k <= n
      invariant s.Valid() && s.Contents == old(s.Contents)[..|old(s.Contents)| - k]
      invariant tops == Reverse(old(s.Contents)[|old(s.Contents)| - k..])
    {
      var top := s.Top();
      var _ := s.Pop();
      tops := tops + [top.value];
      k := k + 1;
    }
  }

  lemma ThreeToSeven()
    ensures RangeValues(3, 7) == [3, 4, 5, 6]
    ensures Reverse([3, 4, 5, 6]) == [6, 5, 4, 3]
  {
    assert RangeValues(3, 7) == [3] + RangeValues(4, 7);
  }

  /** Range push 3 to 7 on an empty stack pushes 3, 4, 5, 6; popping four
      times drains 6, 5, 4, 3 and leaves the stack empty. */
  method AscendingRange() returns (size: int, top: Result<int>, drained: seq<int>, empty: bool)
    ensures size == 4 && top == Ok(6) && drained == [6, 5, 4, 3] && empty
  {
    var s := new EnhancedStack<int>(true);
    var _ := PushRange(s, 3, 7);
    ThreeToSeven();
    size := s.Size();
    top := s.Top();
    drained := PopTops(s, 4);
    empty := s.IsEmpty();
  }

  lemma SevenToThree()
    ensures RangeValues(7, 3) == [7, 6, 5, 4]
    ensures Reverse([7, 6, 5, 4]) == [4, 5, 6, 7]
  {
    assert RangeValues(7, 3) == [7] + RangeValues(6, 3);
  }

  /** Range push 7 to 3 on an empty stack pushes 7, 6, 5, 4: the top is 4
      and draining yields 4, 5, 6, 7. */
  method DescendingRange() returns (top: Result<int>, drained: seq<int>)
    ensures top == Ok(4) && drained == [4, 5, 6, 7]
  {
    var s := new EnhancedStack<int>(true);
    var _ := PushRange(s, 7, 3);
    SevenToThree();
    top := s.Top();
    drained := PopTops(s, 4);
  }

  /** Range push on a stack whose element type is not integral fails and
      leaves the stack as it was. */
  method RangeOnNonIntegral() returns (outcome: Outcome, size: int)
    ensures outcome == Fail(InvalidType) && size == 1
  {
    var s := new EnhancedStack<int>(false);
    s.Push(1);
    outcome := PushRange(s, 3, 7);
    size := s.Size();
  }

  /** Popping three from a stack of two fails and keeps both elements. */
  method PopTooMany() returns (outcome: Outcome, size: int)
    ensures outcome == Fail(InsufficientSize) && size == 2
  {
    var s := new EnhancedStack<int>(true);
    s.Push(1);
    s.Push(2);
    outcome := s.PopMany(3);
    size := s.Size();
  }
}
