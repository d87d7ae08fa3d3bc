/** Constants, line states and the address arithmetic of types.h.

    Shifts and masks are written as division and remainder by the same power of
    two. A line is named by its number, that is, its address divided by LINE_SIZE. */
module Types {
  const LINE_SIZE: nat := 64
  const PAGE_SIZE: nat := 4096
  const L1_SETS: nat := 64
  const NUM_L1_WAYS: nat := 8
  const L2_SETS: nat := 4096
  const NUM_L2_WAYS: nat := 16

  type byte = b: int | 0 <= b < 256

  /** The contents of one cache line. */
  type Line = l: seq<byte> | |l| == LINE_SIZE witness seq(LINE_SIZE, _ => 0)

  function ZeroLine(): Line { seq(LINE_SIZE, _ => 0) }

  datatype Mesi = Invalid | Modified | Exclusive | Shared

  datatype Option<+T> = None | Some(value: T)

  /** A call either completes or reaches one of the source's std::abort() calls. */
  datatype Outcome<+T> = Done(value: T) | Abort {
    predicate IsFailure() { Abort? }

    function PropagateFailure<U>(): Outcome<U>
      requires Abort?
    {
      Abort
    }

    function Extract(): T
      requires Done?
    {
      value
    }
  }

  function ToFrame(a: nat): nat { a / 4096 }

  function ToAddress(frame: nat, offset: nat): nat
    requires offset < 4096
  {
    frame * 4096 + offset
  }

  function L1Index(a: nat): nat { a / 64 % 64 }

  function L1Tag(a: nat): nat { a / 4096 }

  function L1Offset(a: nat): nat { a % 64 }

  function L2Index(a: nat): nat { a / 64 % 4096 }

  function L2Tag(a: nat): nat { a / 262144 }

  function LineBase(a: nat): nat { a - a % 64 }

  function L1Addr(tag: nat, index: nat): nat { tag * 4096 + index * 64 }

  function L2Addr(tag: nat, index: nat): nat { tag * 262144 + index * 64 }

  function LineOf(a: nat): nat { a / 64 }

  /** Every field the caches use is a field of the line number, and either level's
      (tag, index) pair rebuilds the line address. */
  lemma SplitRebuild(a: nat)
    ensures L1Index(a) == LineOf(a) % 64 && L1Tag(a) == LineOf(a) / 64
    ensures L2Index(a) == LineOf(a) % 4096 && L2Tag(a) == LineOf(a) / 4096
    ensures L1Addr(L1Tag(a), L1Index(a)) == LineBase(a) == LineOf(a) * 64
    ensures L2Addr(L2Tag(a), L2Index(a)) == LineBase(a)
    ensures LineBase(a) + L1Offset(a) == a
  {
    var n := a / 64;
    assert a == 64 * n + a % 64;
    assert n == 64 * (n / 64) + n % 64;
    assert n == 4096 * (n / 4096) + n % 4096;
  }

  /** Rebuilding and splitting again gives the pair back, so an eviction that goes
      from an L1 way to its L2 set, or the other way, names the same line. */
  lemma RebuildSplit(tag: nat, index: nat)
    ensures LineOf(L1Addr(tag, index)) == tag * 64 + index
    ensures LineOf(L2Addr(tag, index)) == tag * 4096 + index
    ensures index < 64 ==> L1Index(L1Addr(tag, index)) == index && L1Tag(L1Addr(tag, index)) == tag
    ensures index < 4096 ==> L2Index(L2Addr(tag, index)) == index && L2Tag(L2Addr(tag, index)) == tag
  {
    assert tag * 4096 + index * 64 == 64 * (tag * 64 + index);
    assert tag * 262144 + index * 64 == 64 * (tag * 4096 + index);
  }
}
