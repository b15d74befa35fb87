/** Machine widths and constants that several parts of the scheduler share. */
module SchedConstants {
  const UINT := 0x1_0000_0000                 // values of an unsigned int
  const ULONG := 0x1_0000_0000                // values of an unsigned long
  const LONG_MAX := 0x7FFF_FFFF
  const U64 := 0x1_0000_0000_0000_0000
  const S64_MAX := 0x7FFF_FFFF_FFFF_FFFF
  const RUNTIME_INF := U64 - 1
  const NSEC_PER_USEC := 1000
  const EINVAL := -22
  const EBUSY := -16

  /** WRR_FORE_TIMESLICE and WRR_BACK_TIMESLICE for a tick rate of `hz`. */
  function ForeSlice(hz: nat): nat { 100 * hz / 1000 }
  function BackSlice(hz: nat): nat { 10 * hz / 1000 }
}
