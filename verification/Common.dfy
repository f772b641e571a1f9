/** What several components share. */
module Common {
  datatype Option<+T> = None | Some(value: T)

  type Bytes = seq<bv8>

  const PGSIZE: nat := 4096
  const HUGEPGSIZE: nat := 0x20_0000
  const SECTOR: nat := 512
  const KERNELTOP: nat := 0x4000_0000             // the first gigabyte is the kernel's
  const KERNELFRAMES: nat := 512                 // 2 MB frames below KERNELTOP
  const HUGEFRAMES: nat := 32768                 // 2 MB frames in 64 GB
  const FAILURE: nat := 0xFFFF_FFFF_FFFF_FFFF    // UINT64_MAX

  function Pow2(n: nat): (p: nat)
    ensures p > 0
  {
    if n == 0 then 1 else 2 * Pow2(n - 1)
  }
}
