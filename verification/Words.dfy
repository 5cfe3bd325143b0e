/** Machine word sizes: counters and timestamps wrap at these. */
module Words {
  const WORD32 := 0x1_0000_0000
  const WORD64 := 0x1_0000_0000_0000_0000
}
