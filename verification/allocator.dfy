/**
 * The global bump-pointer allocator: every allocation rounds the head up to
 * the requested alignment and moves it past the new block; memory is never
 * given back. Addresses are 32-bit `usize` values and 0 is the null pointer.
 */
module Allocator {
  import opened Bits

  const UsizeMax := 0xFFFF_FFFF
  const Null := 0

  /** Alignments handed to the allocator are powers of two. */
  predicate IsPowerOfTwo(n: nat)
    decreases n
  {
    n == 1 || (n >= 2 && n % 2 == 0 && IsPowerOfTwo(n / 2))
  }

  lemma PowerOfTwoPositive(n: nat)
    requires IsPowerOfTwo(n)
    ensures n >= 1
  {
  }

  /** Multiples of `a` that differ at all differ by at least `a`. */
  lemma {:induction false} MultiplesApart(q: nat, p: nat, a: nat)
    requires q > p
    ensures q * a >= p * a + a
    decreases q - p
  {
    if q > p + 1 {
      MultiplesApart(q - 1, p, a);
    }
    assert q * a == (q - 1) * a + a;
  }

  /** Division leaves a unique remainder below the divisor. */
  lemma ModUnique(x: nat, a: nat, q: nat, r: nat)
    requires a >= 1 && r < a && x == q * a + r
    ensures x % a == r
  {
    var q', r' := x / a, x % a;
    assert x == q' * a + r';
    if q > q' {
      MultiplesApart(q, q', a);
      assert false;
    } else if q' > q {
      MultiplesApart(q', q, a);
      assert false;
    }
  }

  /** Rounding down to a multiple of `a` moves by less than `a`. */
  lemma RoundDown(b: nat, a: nat)
    requires a >= 1
    ensures (b - b % a) % a == 0 && b < (b - b % a) + a && b % a <= b
  {
    var q := b / a;
    assert b == q * a + b % a;
    ModUnique(q * a, a, q, 0);
  }

  /**
   * `(x + align - 1) & !(align - 1)`: for a power-of-two `align` the mask
   * clears the low bits, which rounds `x + align - 1` down to a multiple of
   * `align`.
   */
  function AlignUp(x: nat, align: nat): (start: nat)
    requires IsPowerOfTwo(align)
    ensures start % align == 0
    ensures x <= start < x + align
  {
    PowerOfTwoPositive(align);
    var bumped := x + align - 1;
    RoundDown(bumped, align);
    bumped - bumped % align
  }

  /** The result of one allocation: the address handed out and the new head. */
  datatype Allocation = Allocation(ptr: nat, head: nat)

  /** `alloc` on the head and end of the arena: `Null` and the same head when the block does not fit. */
  function Allocate(head: nat, end: nat, size: nat, align: nat): (a: Allocation)
    requires IsPowerOfTwo(align)
    ensures a.head >= head
    ensures a.head == head || (a.ptr == AlignUp(head, align) && a.head == a.ptr + size)
    ensures a.ptr != Null ==> a.ptr % align == 0
  {
    var start := AlignUp(head, align);
    if start + size > end then Allocation(Null, head)
    else Allocation(start, start + size)
  }

  /** A request fits exactly when its aligned block ends inside the arena, and then the block lies in [head, end]. */
  lemma AllocFits(head: nat, end: nat, size: nat, align: nat)
    requires IsPowerOfTwo(align) && head <= end
    ensures var a := Allocate(head, end, size, align);
      (AlignUp(head, align) + size <= end <==> a.ptr == AlignUp(head, align) && a.head == a.ptr + size) &&
      (AlignUp(head, align) + size > end ==> a == Allocation(Null, head)) &&
      head <= a.head <= end
  {
  }

  /** Two successive successful allocations hand out disjoint blocks, the second after the first. */
  lemma SuccessiveAllocsDisjoint(head: nat, end: nat, s1: nat, a1: nat, s2: nat, a2: nat)
    requires IsPowerOfTwo(a1) && IsPowerOfTwo(a2) && head <= end
    requires AlignUp(head, a1) + s1 <= end
    requires var h := Allocate(head, end, s1, a1).head; AlignUp(h, a2) + s2 <= end
    ensures var first := Allocate(head, end, s1, a1);
      var second := Allocate(first.head, end, s2, a2);
      first.ptr + s1 <= second.ptr && second.ptr + s2 <= end && head <= first.ptr
  {
  }

  class BumpPointerAlloc {
    /** The next free address. */
    var head: nat
    /** One past the last address of the arena. */
    const end: nat

    constructor(head: nat, end: nat)
      ensures this.head == head && this.end == end
    {
      this.head := head;
      this.end := end;
    }

    /**
     * `alloc`. The 32-bit additions must not overflow, which debug builds
     * check and release builds do not.
     */
    method Alloc(size: nat, align: nat) returns (ptr: nat)
      requires IsPowerOfTwo(align)
      requires head + align - 1 <= UsizeMax && AlignUp(head, align) + size <= UsizeMax
      modifies this
      ensures Allocation(ptr, head) == Allocate(old(head), end, size, align)
      ensures old(head) <= end ==> head <= end
    {
      PowerOfTwoPositive(align);
      var bumped := head + align - 1;
      var start := bumped - bumped % align;
      if start + size > end {
        ptr := Null;
      } else {
        head := start + size;
        ptr := start;
      }
    }

    /** `dealloc`: memory is never reclaimed. */
    method Dealloc(ptr: nat, size: nat, align: nat)
      ensures unchanged(this)
    {
    }
  }
}
