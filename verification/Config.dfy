/** The constants of the kernel headers (sched.h, sem.c, mm_address.h, errno.h). */
module Config {
  const NR_TASKS: int := 10
  const N_SEMAFORS: int := 20
  const DEFAULT_QUANTUM: int := 30

  const TOTAL_PAGES: int := 1024
  const NUM_PAG_KERNEL: int := 256
  const NUM_PAG_CODE: int := 8
  const NUM_PAG_DATA: int := 20
  const PAGE_SIZE: int := 4096

  /** First logical code page, first logical data page and first page after the data pages. */
  const PAG_CODE: int := 256
  const PAG_DATA: int := 264
  const PAG_END: int := 284

  const DEAD: int := 0xDEAD
  const UINT_MOD: int := 0x1_0000_0000

  const EINVAL: int := 22
  const ENOMEM: int := 12
  const EFAULT: int := 14
}
