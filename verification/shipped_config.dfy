/** The timing parameters that come with the simulator's examples. */
module ShippedConfig {
  import opened BitOps
  import opened DramTypes
  import opened AddressMapping
  import opened CommandSpacing
  import opened DataBus
  import opened RunProgress
  import HandoverGap
  import TurnaroundGap

  /** A refresh period of 7800 ns at 1.5 ns a cycle; 8 banks, 32768 rows and 2048 columns behind a 64-bit bus. */
  function Shipped(rowPolicy: RowBufferPolicy, queuing: QueuingStructure, useLowPower: bool, scheme: Scheme): Config {
    Config(
      banks := 8, AL := 0, CL := 10, BL := 8,
      tRAS := 24, tRCD := 10, tRRD := 4, tRC := 34, tRP := 10, tCCD := 4, tRTP := 5, tWTR := 5, tWR := 10,
      tRTRS := 1, tRFC := 107, tFAW := 20, tCKE := 4, tXP := 4, tCMD := 1,
      refreshCycles := 5200, transQueueDepth := 32, cmdQueueDepth := 32, totalRowAccesses := 4, useLowPower := useLowPower,
      rowPolicy := rowPolicy, queuing := queuing, geometry := Geometry(scheme, 0, 0, 3, 15, 8, 3, 3))
  }

  /**
   * Under both policies and queue structures they meet the conditions of the theorems about runs, but not the side condition
   * under which the spacing condition is shown exact: a row cycle of 34 is longer than the 25 cycles a bank takes to come back
   * after a read.
   */
  lemma ShippedIsCovered(cfg: Config)
    requires cfg == Shipped(cfg.rowPolicy, cfg.queuing, cfg.useLowPower, cfg.geometry.scheme)
    ensures cfg.Valid() && TurnaroundCovered(cfg) && BusHandedOver(cfg) && Progressive(cfg) && HandoverGap.Unhurried(cfg)
    ensures !TurnaroundGap.Undisturbed(cfg)
  {
    Pow2Four();
  }
}
