/**
 * The military rules run every tick: the tech-building cascade
 * (offensive_force_buildings) and unit production (build_offensive_force).
 */
module Military {
  import opened Game

  /** Gateways are allowed while at most this many exist, so two in all. */
  const MaxGatewaysBeforeBuild: nat := 1
  /** Robotics facilities are allowed while fewer than this many exist. */
  const MaxRobotics: nat := 1

  /** One build order near a random ready pylon when `wanted` holds. */
  function BuildIf(wanted: bool, structure: UnitType): (r: seq<Command>)
    ensures |r| <= 1
    ensures Build(structure, RandomReadyPylon) in r <==> wanted
    ensures forall cmd :: cmd in r ==> cmd == Build(structure, RandomReadyPylon)
  {
    if wanted then [Build(structure, RandomReadyPylon)] else []
  }

  /** A cybernetics core is wanted: a gateway is ready and no core exists or is on its way. */
  predicate WantCore(c: Census) {
    c.ready[Gateway] > 0 && c.owned[CyberneticsCore] == 0
    && CyberneticsCore in c.affordable && CyberneticsCore !in c.pending
  }

  /** A gateway is wanted: at most one exists and none is on its way. */
  predicate WantGateway(c: Census) {
    c.owned[Gateway] <= MaxGatewaysBeforeBuild && Gateway in c.affordable && Gateway !in c.pending
  }

  /** A robotics facility is wanted: none exists or is on its way. */
  predicate WantRobotics(c: Census) {
    c.owned[RoboticsFacility] < MaxRobotics
    && RoboticsFacility in c.affordable && RoboticsFacility !in c.pending
  }

  /** A stargate is wanted: fewer exist than the real quotient iteration / 165. */
  predicate WantStargate(c: Census) {
    var maxStargates := c.iteration as real / IterationsPerMinute as real;
    (c.owned[Stargate] as real) < maxStargates && Stargate in c.affordable && Stargate !in c.pending
  }

  /**
   * The orders offensive_force_buildings gives, near a random ready pylon:
   * the core and the gateway, then, once a core is ready, the robotics
   * facility and the stargate.
   */
  function TechOrders(c: Census): (r: seq<Command>)
    ensures r != [] ==> c.ready[Pylon] > 0
    ensures |r| <= 4
  {
    if c.ready[Pylon] == 0 then []
    else if c.ready[CyberneticsCore] == 0 then
      BuildIf(WantCore(c), CyberneticsCore) + BuildIf(WantGateway(c), Gateway)
    else
      BuildIf(WantCore(c), CyberneticsCore) + BuildIf(WantGateway(c), Gateway)
      + BuildIf(WantRobotics(c), RoboticsFacility) + BuildIf(WantStargate(c), Stargate)
  }

  /**
   * A proof helper with no meaning of its own: the body of TechOrders,
   * unfolded case by case so the lemmas below can take it apart.
   */
  lemma TechOrdersParts(c: Census)
    ensures c.ready[Pylon] == 0 ==> TechOrders(c) == []
    ensures c.ready[Pylon] > 0 && c.ready[CyberneticsCore] == 0 ==>
      TechOrders(c) == BuildIf(WantCore(c), CyberneticsCore) + BuildIf(WantGateway(c), Gateway)
    ensures c.ready[Pylon] > 0 && c.ready[CyberneticsCore] > 0 ==>
      TechOrders(c) == BuildIf(WantCore(c), CyberneticsCore) + BuildIf(WantGateway(c), Gateway)
                       + BuildIf(WantRobotics(c), RoboticsFacility) + BuildIf(WantStargate(c), Stargate)
  {
  }

  /**
   * Every order of offensive_force_buildings is a build near a random ready
   * pylon, and no structure is ordered twice in one tick.
   */
  lemma TechOrdersDistinct(c: Census)
    ensures forall cmd :: cmd in TechOrders(c) ==>
      cmd.Build? && cmd.near == RandomReadyPylon && cmd.structure in {CyberneticsCore, Gateway, RoboticsFacility, Stargate}
    ensures forall i, j :: 0 <= i < j < |TechOrders(c)| ==>
      TechOrders(c)[i].structure != TechOrders(c)[j].structure
  {
    TechOrdersParts(c);
  }

  /** A cybernetics core is ordered exactly when a pylon and a gateway are ready and no core exists or is pending. */
  lemma CoreOrderedIff(c: Census)
    ensures Build(CyberneticsCore, RandomReadyPylon) in TechOrders(c) <==>
      c.ready[Pylon] > 0 && c.ready[Gateway] > 0 && c.owned[CyberneticsCore] == 0
      && CyberneticsCore in c.affordable && CyberneticsCore !in c.pending
  {
    TechOrdersParts(c);
  }

  /** A gateway is ordered exactly while at most one exists, so, with the one ordered now, at most two. */
  lemma GatewayOrderedIff(c: Census)
    ensures Build(Gateway, RandomReadyPylon) in TechOrders(c) <==>
      c.ready[Pylon] > 0 && c.owned[Gateway] + 1 <= 2
      && Gateway in c.affordable && Gateway !in c.pending
  {
    TechOrdersParts(c);
  }

  /** A robotics facility is ordered exactly when a core is ready and none exists or is pending. */
  lemma RoboticsOrderedIff(c: Census)
    ensures Build(RoboticsFacility, RandomReadyPylon) in TechOrders(c) <==>
      c.ready[Pylon] > 0 && c.ready[CyberneticsCore] > 0 && c.owned[RoboticsFacility] == 0
      && RoboticsFacility in c.affordable && RoboticsFacility !in c.pending
  {
    TechOrdersParts(c);
  }

  /** A stargate is ordered exactly when a core is ready and fewer stargates exist than game minutes played. */
  lemma StargateOrderedIff(c: Census)
    ensures Build(Stargate, RandomReadyPylon) in TechOrders(c) <==>
      c.ready[Pylon] > 0 && c.ready[CyberneticsCore] > 0
      && c.owned[Stargate] * IterationsPerMinute < c.iteration
      && Stargate in c.affordable && Stargate !in c.pending
  {
    TechOrdersParts(c);
    assert WantStargate(c) <==>
      (c.owned[Stargate] * IterationsPerMinute < c.iteration && Stargate in c.affordable && Stargate !in c.pending);
  }

  /** The limits build_offensive_force checks at each idle ready gateway, besides affordability. */
  predicate StalkerGate(c: Census) {
    c.owned[Stalker] <= c.owned[VoidRay] && c.supplyLeft > 0 && c.ready[CyberneticsCore] > 0
  }

  /** The limit build_offensive_force checks at each idle ready stargate, besides affordability. */
  predicate VoidRayGate(c: Census) {
    c.supplyLeft > 0
  }

  /**
   * The orders build_offensive_force gives: stalkers at the idle ready
   * gateways first, then void rays at the idle ready stargates, each where
   * the unit is affordable when the loop reaches the building.
   */
  function ForceOrders(c: Census): (r: seq<Command>)
    ensures |r| == (if StalkerGate(c) then AffordedCount(c.idleGateways) else 0)
                 + (if VoidRayGate(c) then AffordedCount(c.idleStargates) else 0)
    ensures c.supplyLeft <= 0 ==> r == []
    ensures forall i :: 0 <= i < |r| ==> r[i].Train? && r[i].unit in {Stalker, VoidRay}
    // no stalker is ordered after a void ray
    ensures forall i, j :: 0 <= i < j < |r| && r[i].unit == VoidRay ==> r[j].unit == VoidRay
    // a stalker: the limits hold and it comes from a gateway where it was affordable
    ensures forall cmd :: cmd in r && cmd.unit == Stalker ==>
      c.owned[Stalker] <= c.owned[VoidRay] && c.supplyLeft > 0 && c.ready[CyberneticsCore] > 0
      && exists i :: 0 <= i < |c.idleGateways| && c.idleGateways[i].canAfford && cmd.at == c.idleGateways[i].at
    // a void ray: supply is left and it comes from a stargate where it was affordable
    ensures forall cmd :: cmd in r && cmd.unit == VoidRay ==>
      c.supplyLeft > 0
      && exists i :: 0 <= i < |c.idleStargates| && c.idleStargates[i].canAfford && cmd.at == c.idleStargates[i].at
    // and when the limits hold, every such building gets its unit
    ensures StalkerGate(c) ==> forall i :: 0 <= i < |c.idleGateways| && c.idleGateways[i].canAfford ==>
      Train(c.idleGateways[i].at, Stalker) in r
    ensures VoidRayGate(c) ==> forall i :: 0 <= i < |c.idleStargates| && c.idleStargates[i].canAfford ==>
      Train(c.idleStargates[i].at, VoidRay) in r
  {
    TrainedWhereAffordable(c.idleGateways, Stalker);
    TrainedWhereAffordable(c.idleStargates, VoidRay);
    var stalkers := if StalkerGate(c) then Trained(c.idleGateways, Stalker) else [];
    var voidRays := if VoidRayGate(c) then Trained(c.idleStargates, VoidRay) else [];
    assert forall i :: 0 <= i < |stalkers| ==> stalkers[i] in stalkers;
    assert forall i :: 0 <= i < |voidRays| ==> voidRays[i] in voidRays;
    stalkers + voidRays
  }

  /** build_offensive_force: the gateway loop, then the stargate loop. */
  method BuildOffensiveForce(c: Census) returns (cmds: seq<Command>)
    ensures cmds == ForceOrders(c)
  {
    var stalkers := TrainAtEach(c.idleGateways, Stalker, StalkerGate(c));
    var voidRays := TrainAtEach(c.idleStargates, VoidRay, VoidRayGate(c));
    cmds := stalkers + voidRays;
  }
}
