/**
 * What the bot sees of the game in one tick, and the commands it can give.
 *
 * The game-control library owns the real unit lists; the bot only ever asks
 * it for counts (`len(self.units(T))`, `self.units(T).ready`), for the idle
 * ready buildings it loops over (`.ready.noqueue`), and for yes/no answers
 * (`can_afford(T)`, `already_pending(T)`). A `Census` holds those answers for
 * one tick; the bot's decision rules are functions of it.
 */
module Game {

  datatype Option<+T> = None | Some(value: T)

  /** The unit and structure types the bot names. */
  datatype UnitType =
    | Nexus | Probe | Pylon | Assimilator | Gateway | CyberneticsCore
    | Stargate | RoboticsFacility | Stalker | VoidRay | Observer

  /** An opaque handle for one of the bot's own units, as the library gives it. */
  type Tag = nat

  /** Where a structure is placed; the library picks the exact spot. */
  datatype Site = FirstReadyNexus | RandomReadyPylon

  /** A command handed to the library. */
  datatype Command =
    | Train(at: Tag, unit: UnitType)
    | Build(structure: UnitType, near: Site)
    | ExpandNow

  /**
   * One idle ready building as a train loop reaches it, with the answer
   * `can_afford` gave at that moment. An order already given this tick may
   * have spent the money, so the answer can differ from one building to the
   * next.
   */
  datatype Visit = Visit(at: Tag, canAfford: bool)

  /** The library's answers for one tick. */
  datatype Census = Census(
    iteration: nat,                // tick counter passed to on_step
    supplyLeft: int,               // supply_left (negative when over capacity)
    owned: multiset<UnitType>,     // len(self.units(T)), under construction included
    ready: multiset<UnitType>,     // len(self.units(T).ready)
    idleNexuses: seq<Visit>,       // self.units(NEXUS).ready.noqueue, with can_afford(PROBE) at each
    idleGateways: seq<Visit>,      // self.units(GATEWAY).ready.noqueue, with can_afford(STALKER) at each
    idleStargates: seq<Visit>,     // self.units(STARGATE).ready.noqueue, with can_afford(VOIDRAY) at each
    affordable: set<UnitType>,     // T such that can_afford(T), for the types asked once per tick
    pending: set<UnitType>         // T such that already_pending(T) is non-zero
  )

  /** Ticks per game minute, the bot's time scale for expansion and stargates. */
  const IterationsPerMinute: nat := 165

  /** The number of visits at which the unit was affordable. */
  function AffordedCount(visits: seq<Visit>): (n: nat)
    ensures n <= |visits|
  {
    if visits == [] then 0
    else AffordedCount(visits[..|visits| - 1]) + (if visits[|visits| - 1].canAfford then 1 else 0)
  }

  /**
   * What a train loop orders: one `Train` at each visited building where the
   * unit was affordable, in visiting order.
   */
  function Trained(visits: seq<Visit>, unit: UnitType): (r: seq<Command>)
    ensures |r| == AffordedCount(visits)
  {
    if visits == [] then []
    else
      var last := visits[|visits| - 1];
      Trained(visits[..|visits| - 1], unit) + (if last.canAfford then [Train(last.at, unit)] else [])
  }

  /**
   * A train loop orders the unit at exactly the visited buildings where it
   * was affordable: every order comes from such a building, and every such
   * building gets an order.
   */
  lemma {:induction false} TrainedWhereAffordable(visits: seq<Visit>, unit: UnitType)
    ensures forall cmd :: cmd in Trained(visits, unit) ==>
      exists i :: 0 <= i < |visits| && visits[i].canAfford && cmd == Train(visits[i].at, unit)
    ensures forall i :: 0 <= i < |visits| && visits[i].canAfford ==> Train(visits[i].at, unit) in Trained(visits, unit)
  {
    if visits != [] {
      var n := |visits|;
      var front := visits[..n - 1];
      TrainedWhereAffordable(front, unit);
      assert forall i :: 0 <= i < n - 1 ==> front[i] == visits[i];
    }
  }

  /** Once the unit is unaffordable at some building, it stays so for the rest of the loop. */
  predicate AnswersOnlyFall(visits: seq<Visit>) {
    forall i, j :: 0 <= i < j < |visits| && visits[j].canAfford ==> visits[i].canAfford
  }

  /** When the unit is affordable at every building, every building gets one order. */
  lemma {:induction false} TrainedEveryBuilding(visits: seq<Visit>, unit: UnitType)
    requires forall i :: 0 <= i < |visits| ==> visits[i].canAfford
    ensures |Trained(visits, unit)| == |visits|
  {
    if visits != [] {
      var front := visits[..|visits| - 1];
      assert forall i :: 0 <= i < |front| ==> front[i] == visits[i];
      TrainedEveryBuilding(front, unit);
    }
  }

  /**
   * When money spent by earlier orders is not regained within the loop, the
   * orders go to the first buildings visited, one each, in order.
   */
  lemma {:induction false} TrainedFirstBuildings(visits: seq<Visit>, unit: UnitType)
    requires AnswersOnlyFall(visits)
    ensures forall i :: 0 <= i < |Trained(visits, unit)| ==> Trained(visits, unit)[i] == Train(visits[i].at, unit)
  {
    if visits != [] {
      var n := |visits|;
      var front := visits[..n - 1];
      var last := visits[n - 1];
      assert AnswersOnlyFall(front) by {
        forall i, j | 0 <= i < j < |front| && front[j].canAfford ensures front[i].canAfford {
          assert front[i] == visits[i] && front[j] == visits[j];
        }
      }
      TrainedFirstBuildings(front, unit);
      var head := Trained(front, unit);
      var r := Trained(visits, unit);
      if last.canAfford {
        assert forall i :: 0 <= i < |front| ==> front[i].canAfford by {
          forall i | 0 <= i < |front| ensures front[i].canAfford {
            assert front[i] == visits[i];
          }
        }
        TrainedEveryBuilding(front, unit);
        assert r == head + [Train(last.at, unit)];
      } else {
        assert r == head;
      }
      forall i | 0 <= i < |r| ensures r[i] == Train(visits[i].at, unit) {
        if i < |head| {
          assert r[i] == head[i] && front[i] == visits[i];
        }
      }
    }
  }

  /**
   * The loop shared by build_workers and build_offensive_force: walk the idle
   * ready buildings and, when the tick's limits allow it and the unit is
   * affordable there, give the building a train order.
   */
  method TrainAtEach(visits: seq<Visit>, unit: UnitType, allowed: bool) returns (cmds: seq<Command>)
    ensures cmds == if allowed then Trained(visits, unit) else []
  {
    cmds := [];
    for i := 0 to |visits|
      invariant cmds == if allowed then Trained(visits[..i], unit) else []
    {
      assert visits[..i + 1][..i] == visits[..i];
      if allowed && visits[i].canAfford {
        cmds := cmds + [Train(visits[i].at, unit)];
      }
    }
    assert visits[..|visits|] == visits;
  }
}
