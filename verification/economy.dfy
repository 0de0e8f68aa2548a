/**
 * The economy rules run every tick: train workers (build_workers), add
 * supply (build_pylons) and take a new base (expand).
 */
module Economy {
  import opened Game

  /** Hard cap on workers, whatever the number of bases. */
  const MaxWorkers: nat := 60
  /** Workers wanted per base. */
  const WorkersPerNexus: nat := 16
  /** A pylon is wanted once fewer than this many supply are left. */
  const PylonHeadroom: int := 5

  /** The two limits build_workers checks before looking at any nexus. */
  predicate WorkerGate(c: Census) {
    c.owned[Nexus] * WorkersPerNexus > c.owned[Probe] && c.owned[Probe] < MaxWorkers
  }

  /**
   * The orders build_workers gives: once both worker limits have room, one
   * probe at every idle ready nexus where a probe is affordable when the
   * loop reaches it.
   */
  function WorkerOrders(c: Census): (r: seq<Command>)
    ensures r != [] ==> c.owned[Probe] < MaxWorkers
    ensures r != [] ==> c.owned[Probe] < c.owned[Nexus] * WorkersPerNexus
    ensures |r| == (if WorkerGate(c) then AffordedCount(c.idleNexuses) else 0)
    ensures forall cmd :: cmd in r ==>
      exists i :: 0 <= i < |c.idleNexuses| && c.idleNexuses[i].canAfford && cmd == Train(c.idleNexuses[i].at, Probe)
    ensures WorkerGate(c) ==> forall i :: 0 <= i < |c.idleNexuses| && c.idleNexuses[i].canAfford ==>
      Train(c.idleNexuses[i].at, Probe) in r
  {
    TrainedWhereAffordable(c.idleNexuses, Probe);
    if WorkerGate(c) then Trained(c.idleNexuses, Probe) else []
  }

  /** build_workers: the limits first, then the loop over idle ready nexuses. */
  method BuildWorkers(c: Census) returns (cmds: seq<Command>)
    ensures cmds == WorkerOrders(c)
  {
    if WorkerGate(c) {
      cmds := TrainAtEach(c.idleNexuses, Probe, true);
    } else {
      cmds := [];
    }
  }

  /**
   * The limits are checked against the probes that exist, not against those
   * being ordered, so one tick can take the worker count past a limit, but by
   * less than one probe per idle nexus.
   */
  lemma WorkerOvershootBounded(c: Census)
    ensures c.owned[Probe] + |WorkerOrders(c)| < MaxWorkers + |c.idleNexuses|
            || WorkerOrders(c) == []
    ensures c.owned[Probe] + |WorkerOrders(c)| < c.owned[Nexus] * WorkersPerNexus + |c.idleNexuses|
            || WorkerOrders(c) == []
  {
  }

  /** The order build_pylons gives, if any: one pylon next to the first ready nexus. */
  function PylonOrder(c: Census): (r: Option<Command>)
    ensures r.Some? ==> r.value == Build(Pylon, FirstReadyNexus)
    ensures r.Some? <==>
      c.supplyLeft < PylonHeadroom && Pylon !in c.pending && c.ready[Nexus] > 0 && Pylon in c.affordable
  {
    if c.supplyLeft < PylonHeadroom && Pylon !in c.pending then
      if c.ready[Nexus] > 0 && Pylon in c.affordable then Some(Build(Pylon, FirstReadyNexus)) else None
    else None
  }

  /**
   * The order expand gives, if any. The source compares the base count with
   * the real quotient iteration / 165 (the number of game minutes played).
   */
  function ExpandOrder(c: Census): (r: Option<Command>)
    ensures r.Some? ==> r.value == ExpandNow
    // the same rule in whole numbers: fewer bases than minutes played, strictly
    ensures r.Some? <==> c.owned[Nexus] * IterationsPerMinute < c.iteration && Nexus in c.affordable
  {
    var maxExpansions := c.iteration as real / IterationsPerMinute as real;
    if (c.owned[Nexus] as real) < maxExpansions && Nexus in c.affordable then Some(ExpandNow) else None
  }

  /** Once an expansion is allowed, it stays allowed as ticks pass (other answers equal). */
  lemma ExpansionMonotoneInTime(c: Census, later: nat)
    requires later >= c.iteration
    ensures ExpandOrder(c).Some? ==> ExpandOrder(c.(iteration := later)).Some?
  {
  }
}
