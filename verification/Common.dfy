/** Constants of kernel/param.h and riscv.h that more than one part of the kernel goes by. */
module Params {
  const NPROC := 64
  const MAXOPBLOCKS := 10
  /** Both are MAXOPBLOCKS * 3. */
  const LOGSIZE := 30
  const NBUF := 30
  const PGSIZE := 4096
}

/** Sizes of finite sets. */
module Sets {

  function Elements(s: seq<nat>): set<nat> {
    set x | x in s
  }

  /** The `k` numbers from `from` on. */
  function UpTo(from: nat, k: nat): (r: set<nat>)
    ensures forall x: nat :: x in r <==> from <= x < from + k
    ensures |r| == k
    decreases k
  {
    if k == 0 then {} else {from} + UpTo(from + 1, k - 1)
  }

  lemma {:induction false} SubsetSize<T>(a: set<T>, b: set<T>)
    requires a <= b
    ensures |a| <= |b|
  {
    if a != {} {
      var x :| x in a;
      SubsetSize(a - {x}, b - {x});
    }
  }
}
