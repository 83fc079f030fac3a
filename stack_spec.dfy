/** Pure definitions that the enhanced stack's operations are specified by:
    the failures its operations report, the capacities its buffer can have,
    the values a range push appends and the effect of swapping the top two. */
module StackSpec {

  /** The three runtime errors the stack throws, told apart by their message. */
  datatype StackError =
    | EmptyStack        // "Error: Stack is empty"
    | InsufficientSize  // "Error: Stack size is smaller than ..."
    | InvalidType       // "Error: Invalid Type"

  /** Outcome of a mutating operation that may throw. */
  datatype Outcome = Pass | Fail(error: StackError)

  /** Outcome of an operation that returns a value or throws. */
  datatype Result<T> = Ok(value: T) | Err(error: StackError)

  /** The capacity a fresh stack starts with. */
  const InitialCapacity := 32

  function Abs(x: int): (r: nat)
    ensures r == x || r == -x
  {
    if x < 0 then -x else x
  }

  function Pow2(k: nat): (p: nat)
    ensures p >= 1
  {
    if k == 0 then 1 else 2 * Pow2(k - 1)
  }

  /** A capacity the buffer can reach: the initial capacity, doubled any
      number of times. */
  ghost predicate IsCapacity(c: int)
    decreases c
  {
    c == InitialCapacity || (c > InitialCapacity && c % 2 == 0 && IsCapacity(c / 2))
  }

  lemma DoubleIsCapacity(c: int)
    requires IsCapacity(c)
    ensures IsCapacity(2 * c)
  {
    assert (2 * c) / 2 == c;
  }

  lemma {:induction false} PowerIsCapacity(k: nat)
    ensures IsCapacity(InitialCapacity * Pow2(k))
  {
    if k > 0 {
      PowerIsCapacity(k - 1);
      DoubleIsCapacity(InitialCapacity * Pow2(k - 1));
    }
  }

  lemma {:induction false} CapacityIsPower(c: int)
    requires IsCapacity(c)
    ensures exists k: nat :: c == InitialCapacity * Pow2(k)
    decreases c
  {
    if c != InitialCapacity {
      CapacityIsPower(c / 2);
      var k: nat :| c / 2 == InitialCapacity * Pow2(k);
      assert c == InitialCapacity * Pow2(k + 1);
    } else {
      assert c == InitialCapacity * Pow2(0);
    }
  }

  /** The reachable capacities are exactly 32 times a power of two. */
  lemma CapacityIffPowerOfTwo(c: int)
    ensures IsCapacity(c) <==> exists k: nat :: c == InitialCapacity * Pow2(k)
  {
    if IsCapacity(c) {
      CapacityIsPower(c);
    }
    if exists k: nat :: c == InitialCapacity * Pow2(k) {
      var k: nat :| c == InitialCapacity * Pow2(k);
      PowerIsCapacity(k);
    }
  }

  /** The capacity reached by doubling `cap` for as long as `need >= cap`:
      the growth loop that a range push runs before it writes. */
  function GrownCapacity(need: int, cap: int): (r: int)
    requires IsCapacity(cap)
    ensures IsCapacity(r)
    ensures need < r && cap <= r
    ensures cap < r ==> r % 2 == 0 && cap <= r / 2 <= need
    decreases need - cap
  {
    if need < cap then cap
    else
      DoubleIsCapacity(cap);
      GrownCapacity(need, 2 * cap)
  }

  /** Growing never passes over a capacity that was already large enough:
      every capacity reachable from `cap` that exceeds `need` is at least
      the grown one. */
  lemma {:induction false} GrownCapacityIsLeast(need: int, cap: int, c: int)
    requires IsCapacity(cap) && IsCapacity(c)
    requires cap <= c && need < c
    ensures GrownCapacity(need, cap) <= c
    decreases need - cap
  {
    if need >= cap {
      DoubleIsCapacity(cap);
      CapacityMultiple(cap, c);
      GrownCapacityIsLeast(need, 2 * cap, c);
    }
  }

  /** Between two capacities there is no room for a smaller step than doubling. */
  lemma {:induction false} CapacityMultiple(cap: int, c: int)
    requires IsCapacity(cap) && IsCapacity(c) && cap < c
    ensures 2 * cap <= c
    decreases c
  {
    if c / 2 < cap {
      // then cap < c < 2 * cap, which no pair of capacities satisfies
      assert c != InitialCapacity;
      CapacityBelow(c / 2, cap);
    } else if c / 2 > cap {
      CapacityMultiple(cap, c / 2);
    }
  }

  /** No capacity lies strictly between `small` and `2 * small`. */
  lemma {:induction false} CapacityBelow(small: int, cap: int)
    requires IsCapacity(small) && IsCapacity(cap) && small < cap < 2 * small
    ensures false
    decreases cap
  {
    if cap / 2 >= small {
      // impossible: cap < 2 * small
    } else if small == InitialCapacity {
      // cap is above 32, so its half is a capacity, yet below 32
      NoCapacityBelowInitial(cap / 2);
    } else {
      CapacityBelow(small / 2, cap / 2);
    }
  }

  lemma {:induction false} NoCapacityBelowInitial(c: int)
    requires IsCapacity(c)
    ensures c >= InitialCapacity
    decreases c
  {
    if c != InitialCapacity {
      NoCapacityBelowInitial(c / 2);
    }
  }

  /** The values a range push from `left` to `right` appends, in the order it
      writes them: `left` up to `right - 1` when `left < right`, otherwise
      `left` down to `right + 1`. */
  function RangeValues(left: int, right: int): (vs: seq<int>)
    ensures |vs| == Abs(left - right)
    ensures forall k :: 0 <= k < |vs| ==> vs[k] == if left < right then left + k else left - k
    decreases Abs(left - right)
  {
    if left < right then [left] + RangeValues(left + 1, right)
    else if left > right then [left] + RangeValues(left - 1, right)
    else []
  }

  /** Writing one more value extends the ascending range by that value. */
  lemma AscendingStep(left: int, i: int)
    requires left <= i
    ensures RangeValues(left, i + 1) == RangeValues(left, i) + [i]
  {
    var a, b := RangeValues(left, i + 1), RangeValues(left, i) + [i];
    assert |a| == |b|;
    forall k | 0 <= k < |a| ensures a[k] == b[k] {
      if k < |a| - 1 {
        assert b[k] == RangeValues(left, i)[k];
      }
    }
  }

  /** Writing one more value extends the descending range by that value. */
  lemma DescendingStep(left: int, i: int)
    requires i <= left
    ensures RangeValues(left, i - 1) == RangeValues(left, i) + [i]
  {
    var a, b := RangeValues(left, i - 1), RangeValues(left, i) + [i];
    assert |a| == |b|;
    forall k | 0 <= k < |a| ensures a[k] == b[k] {
      if k < |a| - 1 {
        assert b[k] == RangeValues(left, i)[k];
      }
    }
  }

  function Reverse<T>(s: seq<T>): (r: seq<T>)
    ensures |r| == |s|
    ensures forall k :: 0 <= k < |s| ==> r[k] == s[|s| - 1 - k]
  {
    if s == [] then [] else Reverse(s[1..]) + [s[0]]
  }

  /** Popping a range push one element at a time yields the values of the
      opposite range: pushing 3..7 drains 6, 5, 4, 3, the values a push
      from 6 to 2 would write. */
  lemma {:induction false} RangeDrainOrder(left: int, right: int)
    ensures left < right ==> Reverse(RangeValues(left, right)) == RangeValues(right - 1, left - 1)
    ensures left > right ==> Reverse(RangeValues(left, right)) == RangeValues(right + 1, left + 1)
  {
    var r := Reverse(RangeValues(left, right));
    if left < right {
      var d := RangeValues(right - 1, left - 1);
      assert |r| == |d|;
      forall k | 0 <= k < |r| ensures r[k] == d[k] { }
    } else if left > right {
      var d := RangeValues(right + 1, left + 1);
      assert |r| == |d|;
      forall k | 0 <= k < |r| ensures r[k] == d[k] { }
    }
  }

  /** The contents after exchanging the two topmost elements. */
  function Swapped<T>(s: seq<T>): (r: seq<T>)
    requires |s| >= 2
  {
    s[..|s| - 2] + [s[|s| - 1], s[|s| - 2]]
  }

  /** Swapping exchanges the two top positions and keeps every other one. */
  lemma SwappedAt<T>(s: seq<T>)
    requires |s| >= 2
    ensures |Swapped(s)| == |s|
    ensures Swapped(s)[|s| - 1] == s[|s| - 2] && Swapped(s)[|s| - 2] == s[|s| - 1]
    ensures forall k :: 0 <= k < |s| - 2 ==> Swapped(s)[k] == s[k]
  {
  }

  /** Swapping the top two twice restores the contents. */
  lemma SwappedTwice<T>(s: seq<T>)
    requires |s| >= 2
    ensures Swapped(Swapped(s)) == s
  {
    SwappedAt(s);
    SwappedAt(Swapped(s));
    assert Swapped(Swapped(s)) == s[..|s| - 2] + s[|s| - 2..];
  }
}
