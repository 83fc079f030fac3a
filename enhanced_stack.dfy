/** The enhanced stack: a LIFO stack over an owned buffer of `capacity`
    slots, whose first `size` slots hold the contents, bottom first. The
    buffer doubles when it is full. */
module Enhanced {
  import opened StackSpec

  class EnhancedStack<T(0)> {
    var data: array<T>
    var size: int
    var capacity: int
    /** Whether range push is allowed: stands in for `is_integral_v<Type>`. */
    var check: bool

    /** The contents, bottom first; the last element is the top. */
    ghost var Contents: seq<T>

    ghost predicate Valid()
      reads this, data
    {
      && 0 <= size <= capacity
      && capacity == data.Length
      && IsCapacity(capacity)
      && Contents == data[..size]
    }

    /** A fresh, empty stack of capacity 32. `integral` says whether the
        element type is an integral type. */
    constructor (integral: bool)
      ensures Valid() && fresh(data)
      ensures size == 0 && capacity == InitialCapacity && Contents == []
      ensures check == integral
    {
      size := 0;
      capacity := InitialCapacity;
      data := new T[InitialCapacity];
      check := integral;
      Contents := [];
    }

    /** The copy constructor: same size, capacity, flag and contents, in a
        buffer of its own. */
    constructor Copy(other: EnhancedStack<T>)
      requires other.Valid()
      ensures Valid() && fresh(data)
      ensures size == other.size && capacity == other.capacity && check == other.check
      ensures Contents == other.Contents
    {
      var buffer := new T[other.capacity];
      var i := 0;
      while i < other.size
        invariant 0 <= i <= other.size
        invariant buffer[..i] == other.data[..i]
      {
        buffer[i] := other.data[i];
        i := i + 1;
      }
      size := other.size;
      capacity := other.capacity;
      data := buffer;
      check := other.check;
      Contents := other.Contents;
    }

    /** Copy assignment: unless `other` is this stack itself, takes over
        `other`'s size, capacity, flag and contents in a new buffer. */
    method Assign(other: EnhancedStack<T>)
      requires other.Valid()
      modifies this
      ensures Valid() && other.Valid()
      ensures size == old(other.size) && capacity == old(other.capacity) && check == old(other.check)
      ensures Contents == old(other.Contents)
      ensures other != this ==> fresh(data)
      ensures other == this ==> data == old(data)
    {
      if other != this {
        var buffer := new T[other.capacity];
        var i := 0;
        while i < other.size
          invariant 0 <= i <= other.size
          invariant buffer[..i] == other.data[..i]
        {
          buffer[i] := other.data[i];
          i := i + 1;
        }
        size := other.size;
        capacity := other.capacity;
        data := buffer;
        check := other.check;
        Contents := other.Contents;
      }
    }

    /** The number of elements. */
    function Size(): (n: int)
      reads this, data
      requires Valid()
      ensures n == |Contents|
    {
      size
    }

    function IsEmpty(): (b: bool)
      reads this, data
      requires Valid()
      ensures b <==> Contents == []
    {
      size == 0
    }

    /** The top element, or `EmptyStack` on an empty stack. */
    function Top(): (r: Result<T>)
      reads this, data
      requires Valid()
      ensures r.Err? <==> Contents == []
      ensures r.Err? ==> r.error == EmptyStack
      ensures r.Ok? ==> r.value == Contents[|Contents| - 1]
    {
      if size == 0 then Err(EmptyStack) else Ok(data[size - 1])
    }

    /** Doubles the capacity, moving the contents into a new buffer. */
    method AddCapacity()
      requires Valid()
      modifies this
      ensures Valid() && fresh(data)
      ensures capacity == 2 * old(capacity)
      ensures size == old(size) && Contents == old(Contents) && check == old(check)
    {
      var newCapacity := capacity * 2;
      var newData := new T[newCapacity];
      var i := 0;
      while i < size
        invariant 0 <= i <= size
        invariant newData[..i] == data[..i]
        modifies newData
      {
        newData[i] := data[i];
        i := i + 1;
      }
      DoubleIsCapacity(capacity);
      data := newData;
      capacity := newCapacity;
    }

    /** Doubles the capacity until it exceeds `need`: the growth loop that
        range push runs before it writes. */
    method GrowBeyond(need: int)
      requires Valid()
      modifies this
      ensures Valid() && (data == old(data) || fresh(data))
      ensures capacity == GrownCapacity(need, old(capacity))
      ensures size == old(size) && Contents == old(Contents) && check == old(check)
    {
      while need >= capacity
        invariant Valid() && size == old(size) && Contents == old(Contents) && check == old(check)
        invariant GrownCapacity(need, capacity) == GrownCapacity(need, old(capacity))
        invariant data == old(data) || fresh(data)
        decreases need - capacity
      {
        AddCapacity();
      }
    }

    /** Appends `value`, doubling the capacity first when the buffer is full. */
    method Push(value: T)
      requires Valid()
      modifies this, data
      ensures Valid()
      ensures Contents == old(Contents) + [value]
      ensures size == old(size) + 1 && check == old(check)
      ensures old(size) == old(capacity) ==> capacity == 2 * old(capacity) && fresh(data)
      ensures old(size) < old(capacity) ==> capacity == old(capacity) && data == old(data)
    {
      if size == capacity {
        AddCapacity();
      }
      data[size] := value;
      size := size + 1;
      Contents := Contents + [value];
    }

    /** Removes the top element; fails with `EmptyStack` on an empty stack. */
    method Pop() returns (outcome: Outcome)
      requires Valid()
      modifies this
      ensures Valid() && data == old(data) && capacity == old(capacity) && check == old(check)
      ensures outcome.Fail? <==> old(Contents) == []
      ensures outcome.Fail? ==> outcome == Fail(EmptyStack) && Contents == old(Contents)
      ensures outcome.Pass? ==> Contents == old(Contents)[..|old(Contents)| - 1]
    {
      if size == 0 {
        return Fail(EmptyStack);
      }
      size := size - 1;
      Contents := Contents[..size];
      outcome := Pass;
    }

    /** Removes the top `num` elements; fails with `InsufficientSize` when
        fewer than `num` are held. */
    method PopMany(num: int) returns (outcome: Outcome)
      requires Valid()
      requires num >= 0
      modifies this
      ensures Valid() && data == old(data) && capacity == old(capacity) && check == old(check)
      ensures outcome.Fail? <==> old(size) < num
      ensures outcome.Fail? ==> outcome == Fail(InsufficientSize) && size == old(size) && Contents == old(Contents)
      ensures outcome.Pass? ==> size == old(size) - num && Contents == old(Contents)[..old(size) - num]
    {
      if size < num {
        return Fail(InsufficientSize);
      }
      size := size - num;
      Contents := Contents[..size];
      outcome := Pass;
    }

    /** Exchanges the two topmost elements in place; fails with
        `InsufficientSize` when fewer than two are held. */
    method SwapTop() returns (outcome: Outcome)
      requires Valid()
      modifies this, data
      ensures Valid() && data == old(data)
      ensures size == old(size) && capacity == old(capacity) && check == old(check)
      ensures outcome.Fail? <==> old(size) <= 1
      ensures outcome.Fail? ==> outcome == Fail(InsufficientSize) && Contents == old(Contents)
      ensures outcome.Pass? ==> |old(Contents)| >= 2 && Contents == Swapped(old(Contents))
      ensures forall i :: 0 <= i < data.Length && (outcome.Fail? || (i != size - 1 && i != size - 2))
                ==> data[i] == old(data[i])
    {
      if size <= 1 {
        return Fail(InsufficientSize);
      }
      data[size - 1], data[size - 2] := data[size - 2], data[size - 1];
      Contents := data[..size];
      outcome := Pass;
    }

    /** Empties the stack; the capacity and the buffer are kept. */
    method Clear()
      requires Valid()
      modifies this
      ensures Valid() && data == old(data) && capacity == old(capacity) && check == old(check)
      ensures size == 0 && Contents == []
    {
      size := 0;
      Contents := [];
    }
  }

  /** Range push on a stack of `int`: appends `RangeValues(left, right)`, after
      doubling the capacity until `size + |left - right| < capacity`. Fails
      with `InvalidType`, changing nothing, when the stack's flag says its
      element type is not integral. */
  method PushRange(s: EnhancedStack<int>, left: int, right: int) returns (outcome: Outcome)
    requires s.Valid()
    modifies s, s.data
    ensures s.Valid()
    ensures outcome.Fail? <==> !old(s.check)
    ensures outcome.Fail? ==> outcome == Fail(InvalidType) && unchanged(s) && unchanged(s.data)
    ensures outcome.Pass? ==>
              && s.Contents == old(s.Contents) + RangeValues(left, right)
              && s.size == old(s.size) + Abs(left - right)
              && s.capacity == GrownCapacity(old(s.size) + Abs(left - right), old(s.capacity))
              && s.check == old(s.check)
    ensures outcome.Pass? ==>
              (s.capacity > old(s.capacity) <==> old(s.size) + Abs(left - right) >= old(s.capacity))
    ensures outcome.Pass? && old(s.size) == old(s.capacity) && left == right ==>
              s.capacity == 2 * old(s.capacity)
  {
    if !s.check {
      return Fail(InvalidType);
    }
    s.GrowBeyond(s.size + Abs(left - right));
    if left < right {
      WriteAscending(s, left, right);
    } else {
      WriteDescending(s, left, right);
    }
    outcome := Pass;
  }

  /** The ascending write loop of range push: appends `left`, ..., `right - 1`
      into room already reserved. */
  method WriteAscending(s: EnhancedStack<int>, left: int, right: int)
    requires s.Valid() && left <= right && s.size + (right - left) < s.capacity
    modifies s, s.data
    ensures s.Valid() && s.data == old(s.data)
    ensures s.capacity == old(s.capacity) && s.check == old(s.check)
    ensures s.size == old(s.size) + (right - left)
    ensures s.Contents == old(s.Contents) + RangeValues(left, right)
  {
    var i := left;
    while i < right
      invariant left <= i <= right
      invariant s.Valid() && s.data == old(s.data)
      invariant s.capacity == old(s.capacity) && s.check == old(s.check)
      invariant s.size == old(s.size) + (i - left)
      invariant s.Contents == old(s.Contents) + RangeValues(left, i)
    {
      AscendingStep(left, i);
      s.data[s.size] := i;
      s.size := s.size + 1;
      s.Contents := s.Contents + [i];
      i := i + 1;
    }
  }

  /** The descending write loop of range push: appends `left`, ..., `right + 1`
      into room already reserved. */
  method WriteDescending(s: EnhancedStack<int>, left: int, right: int)
    requires s.Valid() && right <= left && s.size + (left - right) < s.capacity
    modifies s, s.data
    ensures s.Valid() && s.data == old(s.data)
    ensures s.capacity == old(s.capacity) && s.check == old(s.check)
    ensures s.size == old(s.size) + (left - right)
    ensures s.Contents == old(s.Contents) + RangeValues(left, right)
  {
    var i := left;
    while i > right
      invariant right <= i <= left
      invariant s.Valid() && s.data == old(s.data)
      invariant s.capacity == old(s.capacity) && s.check == old(s.check)
      invariant s.size == old(s.size) + (left - i)
      invariant s.Contents == old(s.Contents) + RangeValues(left, i)
    {
      DescendingStep(left, i);
      s.data[s.size] := i;
      s.size := s.size + 1;
      s.Contents := s.Contents + [i];
      i := i - 1;
    }
  }
}
