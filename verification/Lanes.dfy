/** Execution lanes, as the byte that a transaction carries. */
module Lanes {
  import opened Bytes

  const CONSENSUS_LANE: Byte := 0
  const ORACLE_LANE: Byte := 1
  const PRIVATE_LANE: Byte := 2
}
