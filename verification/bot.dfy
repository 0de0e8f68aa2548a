/**
 * JoeBot's own state and the callbacks that change it: on_start, the part
 * of on_step that stores the tick counter and the intel snapshot, attack,
 * and on_end.
 */
module Bot {
  import opened Game
  import opened Attack

  /** How a game ended, as the library reports it. */
  datatype GameResult = Victory | Defeat | Tie | Undecided

  /** The array np.save writes: where, and the samples it holds. */
  datatype SavedArray = SavedArray(path: string, samples: seq<Sample>)

  /** The folder on_end saves into. */
  const TrainDataFolder: string := "train_data"

  class JoeBot {
    var iteration: nat
    var doSomethingAfter: nat
    var trainData: seq<Sample>
    /** The last frame intel rendered (self.flipped). */
    var flipped: Frame
    /** The start time on_start records, in ISO-8601. */
    var startTimestamp: string

    /** The fields attack works on, as one value. */
    ghost function State(): AttackState
      reads this
    {
      AttackState(iteration, doSomethingAfter, trainData)
    }

    /** Every logged sample is the one-hot label of a choice. */
    ghost predicate Valid()
      reads this
    {
      LogWellFormed(trainData)
    }

    constructor ()
      ensures Valid()
      ensures State() == AttackState(0, 0, [])
    {
      iteration := 0;
      doSomethingAfter := 0;
      trainData := [];
      flipped := [];
      startTimestamp := "";
    }

    /** on_start: remember when the game began. */
    method OnStart(timestamp: string)
      requires Valid()
      modifies this
      ensures Valid()
      ensures startTimestamp == timestamp
      ensures State() == old(State()) && flipped == old(flipped)
    {
      startTimestamp := timestamp;
    }

    /**
     * on_step as far as attack is concerned: store the tick counter and the
     * frame intel rendered, then run attack.
     */
    method Step(tick: nat, frame: Frame, w: Sighting, d: AttackDraws) returns (decision: Decision, orders: seq<AttackOrder>)
      requires Valid() && ValidDraws(w, d)
      modifies this
      ensures Valid()
      ensures iteration == tick && flipped == frame && startTimestamp == old(startTimestamp)
      ensures (State(), decision) == AttackStep(old(State()).(iteration := tick), frame, w, d)
      ensures orders == OrdersFor(w, decision)
    {
      iteration := tick;
      flipped := frame;
      decision, orders := Attack(w, d);
    }

    /**
     * attack: past the cooldown with an idle void ray, act on the drawn
     * choice, send every idle void ray at the target if one was found, and
     * log the choice's one-hot label with the current frame.
     */
    method Attack(w: Sighting, d: AttackDraws) returns (decision: Decision, orders: seq<AttackOrder>)
      requires Valid() && ValidDraws(w, d)
      modifies this
      ensures Valid()
      ensures iteration == old(iteration) && flipped == old(flipped) && startTimestamp == old(startTimestamp)
      ensures (State(), decision) == AttackStep(old(State()), flipped, w, d)
      ensures orders == OrdersFor(w, decision)
    {
      orders := [];
      decision := Skipped;
      if |w.idleVoidRays| > 0 && iteration > doSomethingAfter {
        var target: Option<Target> := None;
        if d.choice == 0 {
          doSomethingAfter := iteration + d.wait;
        } else if d.choice == 1 {
          if w.knownEnemyUnits > 0 {
            if w.nexuses == 0 {
              // random.choice over an empty unit list raises before anything is logged
              decision := Raised;
              return;
            }
            target := Some(ClosestEnemyUnitTo(d.nexusPick));
          }
        } else if d.choice == 2 {
          if w.knownEnemyStructures > 0 {
            target := Some(EnemyStructure(d.structurePick));
          }
        } else if d.choice == 3 {
          target := Some(EnemyStartLocation);
        }
        if target.Some? {
          orders := SendAll(w.idleVoidRays, target.value);
          assert orders == AttackOrders(w.idleVoidRays, target.value);
        }
        var y := Label(d.choice);
        assert y == OneHot(d.choice);
        ActionOfOneHot(d.choice);
        trainData := trainData + [Sample(y, flipped)];
        decision := Decided(d.choice, target);
      }
    }

    /** The loop that sends every idle void ray at the target. */
    static method SendAll(idle: seq<Tag>, target: Target) returns (orders: seq<AttackOrder>)
      ensures |orders| == |idle|
      ensures forall i :: 0 <= i < |orders| ==> orders[i] == AttackOrder(idle[i], target)
    {
      orders := [];
      for i := 0 to |idle|
        invariant orders == AttackOrders(idle[..i], target)
      {
        orders := orders + [AttackOrder(idle[i], target)];
      }
    }

    /** The label of a choice, built as the source does: np.zeros(4), then y[choice] = 1. */
    static method Label(choice: nat) returns (y: seq<real>)
      requires choice < Actions
      ensures |y| == Actions && y[choice] == 1.0
      ensures forall i :: 0 <= i < Actions && i != choice ==> y[i] == 0.0
    {
      var a := new real[Actions](_ => 0.0);
      a[choice] := 1.0;
      y := a[..];
    }

    /**
     * on_end: only a victory saves the log, as one array named after the
     * start time; any other result, or none, saves nothing.
     */
    method OnEnd(result: Option<GameResult>) returns (saved: Option<SavedArray>)
      requires Valid()
      ensures saved.Some? <==> result == Some(Victory)
      // every label in the saved array is the one-hot label of a choice
      ensures saved.Some? ==> LogWellFormed(saved.value.samples)
      ensures saved.Some? ==> saved.value.samples == trainData
      ensures saved.Some? ==> saved.value.path == TrainDataFolder + "/" + startTimestamp + ".npy"
    {
      if result == Some(Victory) {
        saved := Some(SavedArray("train_data/" + startTimestamp + ".npy", trainData));
      } else {
        saved := None;
      }
    }
  }
}
