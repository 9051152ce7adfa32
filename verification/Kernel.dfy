/** Integer widths and conventions shared by the scheduler models. */
module Kernel {
  import opened Arithmetic

  type U32 = x: int | 0 <= x < 0x1_0000_0000
  type U64 = x: int | 0 <= x < 0x1_0000_0000_0000_0000

  datatype Option<T> = None | Some(value: T)

  /** BPF arithmetic (section 4.1 of RFC 9669): a quotient by zero is 0, a remainder by zero is the dividend. */
  function BpfDiv(x: nat, y: nat): (q: nat)
    ensures y > 0 ==> q * y <= x < q * y + y
    ensures y == 0 ==> q == 0
  {
    if y == 0 then 0
    else
      DivBounds(x, y);
      x / y
  }

  function BpfMod(x: U32, y: U32): U32 {
    if y == 0 then x else x % y
  }

  lemma BpfModExactly(x: U32, y: U32)
    ensures y == 0 ==> BpfMod(x, y) == x
    ensures y > 0 ==> BpfMod(x, y) < y && x == BpfDiv(x, y) * y + BpfMod(x, y)
  {
  }

  /** 5000000u / scx_bpf_dsq_nr_queued: a slice in ns that shrinks with the queue it joins. */
  const SHARED_SLICE: nat := 5_000_000

  function SliceFor(queued: nat): (r: nat)
    ensures queued > 0 ==> r * queued <= 5_000_000 < (r + 1) * queued
    ensures queued == 0 ==> r == 0
  {
    MulPlus(BpfDiv(SHARED_SLICE, queued), 1, queued);
    BpfDiv(SHARED_SLICE, queued)
  }

  /** When a task whose slice is over is queued again: before the next dispatch, or after it. */
  datatype Order = EnqueueFirst | DispatchFirst
}
