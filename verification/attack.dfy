/**
 * The attack decision of JoeBot.attack as a state machine over the bot's
 * tick counter, its cooldown deadline and its log of training samples.
 *
 * On a tick where some void ray is idle and the tick counter has passed the
 * deadline, a drawn choice in [0, 4) picks one of four actions: 0 waits
 * (a new deadline 20 to 164 ticks ahead), 1 targets the known enemy unit
 * closest to a random own nexus, 2 a random known enemy structure, 3 the
 * first enemy start location. Whatever the choice, and whether or not a
 * target was found, a one-hot sample of the choice is appended to the log,
 * unless choice 1 raises (known enemy units but no own nexus to pick from).
 */
module Attack {
  import opened Game

  /** The number of actions, and the length of a one-hot label. */
  const Actions: nat := 4
  /** Shortest and (exclusive) longest wait drawn by choice 0. */
  const MinWait: nat := 20
  const MaxWait: nat := 165

  /** The snapshot intel renders each tick: rows of pixels of three bytes. */
  type Frame = seq<seq<seq<bv8>>>

  /** What an attack is aimed at. */
  datatype Target =
    | ClosestEnemyUnitTo(nexus: nat)   // the known enemy unit closest to the chosen own nexus
    | EnemyStructure(index: nat)       // a known enemy structure
    | EnemyStartLocation               // enemy_start_locations[0]

  /** One attack command, given to one idle void ray. */
  datatype AttackOrder = AttackOrder(unit: Tag, target: Target)

  /** One entry of train_data: the one-hot choice and the frame it was made on. */
  datatype Sample = Sample(action: seq<real>, frame: Frame)

  /** The library's answers attack reads. */
  datatype Sighting = Sighting(
    idleVoidRays: seq<Tag>,       // self.units(VOIDRAY).idle
    nexuses: nat,                 // len(self.units(NEXUS))
    knownEnemyUnits: nat,         // len(self.known_enemy_units)
    knownEnemyStructures: nat     // len(self.known_enemy_structures)
  )

  /** The random draws of one call: randrange(0, 4), randrange(20, 165) and two random.choice indices. */
  datatype AttackDraws = AttackDraws(choice: int, wait: int, nexusPick: nat, structurePick: nat)

  /** What a call decided. */
  datatype Decision =
    | Skipped                                      // no idle void ray, or still cooling down
    | Raised                                       // random.choice over zero nexuses raised IndexError
    | Decided(choice: nat, target: Option<Target>) // a choice was acted on; None: nothing to attack

  /** The bot fields attack reads and writes. */
  datatype AttackState = AttackState(iteration: nat, doSomethingAfter: nat, trainData: seq<Sample>)

  /** One on_step call as attack sees it. */
  datatype Tick = Tick(iteration: nat, frame: Frame, sighting: Sighting, draws: AttackDraws)

  /** Draws the random module can return for these answers. */
  predicate ValidDraws(w: Sighting, d: AttackDraws) {
    && 0 <= d.choice < Actions
    && MinWait <= d.wait < MaxWait
    && (w.nexuses > 0 ==> d.nexusPick < w.nexuses)
    && (w.knownEnemyStructures > 0 ==> d.structurePick < w.knownEnemyStructures)
  }

  /** The label np.zeros(4) with a 1 at index k. */
  function OneHot(k: nat): (y: seq<real>)
    requires k < Actions
    ensures |y| == Actions && y[k] == 1.0
    ensures forall i :: 0 <= i < Actions && i != k ==> y[i] == 0.0
  {
    seq(Actions, i => if i == k then 1.0 else 0.0)
  }

  /** The index of the first 1.0 in a label, or -1 if there is none: how a label is read back. */
  function ActionOf(y: seq<real>): (k: int)
    ensures -1 <= k < |y|
    ensures k >= 0 ==> y[k] == 1.0 && forall i :: 0 <= i < k ==> y[i] != 1.0
    ensures k == -1 ==> forall i :: 0 <= i < |y| ==> y[i] != 1.0
  {
    if |y| == 0 then -1
    else if y[0] == 1.0 then 0
    else
      var k := ActionOf(y[1..]);
      if k == -1 then -1 else k + 1
  }

  /** Reading a label back gives the choice it was made from. */
  lemma ActionOfOneHot(k: nat)
    requires k < Actions
    ensures ActionOf(OneHot(k)) == k
  {
    var y := OneHot(k);
    assert y[k] == 1.0;
  }

  /** Every entry of the log is the one-hot label of a choice in [0, 4). */
  predicate LogWellFormed(log: seq<Sample>) {
    forall j :: 0 <= j < |log| ==>
      0 <= ActionOf(log[j].action) < Actions && log[j].action == OneHot(ActionOf(log[j].action))
  }

  /** The target the choice resolves to; None when it needs enemies none are known. */
  function ResolveTarget(w: Sighting, d: AttackDraws): (t: Option<Target>)
    requires ValidDraws(w, d)
    requires !(d.choice == 1 && w.knownEnemyUnits > 0 && w.nexuses == 0)
    ensures t.Some? <==> d.choice == 3 || (d.choice == 1 && w.knownEnemyUnits > 0)
                         || (d.choice == 2 && w.knownEnemyStructures > 0)
    ensures t.Some? && t.value.ClosestEnemyUnitTo? ==> d.choice == 1 && t.value.nexus < w.nexuses
    ensures t.Some? && t.value.EnemyStructure? ==> d.choice == 2 && t.value.index < w.knownEnemyStructures
    ensures t.Some? && t.value.EnemyStartLocation? ==> d.choice == 3
  {
    if d.choice == 1 && w.knownEnemyUnits > 0 then Some(ClosestEnemyUnitTo(d.nexusPick))
    else if d.choice == 2 && w.knownEnemyStructures > 0 then Some(EnemyStructure(d.structurePick))
    else if d.choice == 3 then Some(EnemyStartLocation)
    else None
  }

  /**
   * One call of attack, on the fields it reads and writes and the frame intel
   * stored this tick.
   */
  function AttackStep(s: AttackState, frame: Frame, w: Sighting, d: AttackDraws): (r: (AttackState, Decision))
    requires ValidDraws(w, d)
    // nothing changes without an idle void ray or before the deadline has passed
    ensures |w.idleVoidRays| == 0 || s.iteration <= s.doSomethingAfter ==> r == (s, Skipped)
    ensures r.1.Skipped? <==> |w.idleVoidRays| == 0 || s.iteration <= s.doSomethingAfter
    // past the gate, a call that does not raise is acted on, whatever the choice
    ensures |w.idleVoidRays| > 0 && s.iteration > s.doSomethingAfter && !r.1.Raised? ==> r.1.Decided?
    ensures r.1.Raised? <==> |w.idleVoidRays| > 0 && s.iteration > s.doSomethingAfter
                             && d.choice == 1 && w.knownEnemyUnits > 0 && w.nexuses == 0
    ensures !r.1.Decided? ==> r.0 == s
    ensures r.1.Decided? ==> r.1.choice == d.choice && r.0.iteration == s.iteration
    // every decided call logs exactly one sample, a label of its choice
    ensures r.1.Decided? ==> r.0.trainData == s.trainData + [Sample(OneHot(d.choice), frame)]
    // choice 0: a new deadline strictly after the current tick, no target
    ensures r.1.Decided? && d.choice == 0 ==>
      r.0.doSomethingAfter == s.iteration + d.wait > s.iteration && r.1.target.None?
    ensures r.1.Decided? && d.choice != 0 ==> r.0.doSomethingAfter == s.doSomethingAfter
    // choice 3 always finds a target; 1 and 2 only when enemies are known
    ensures r.1.Decided? ==>
      (r.1.target.Some? <==> d.choice == 3 || (d.choice == 1 && w.knownEnemyUnits > 0)
                             || (d.choice == 2 && w.knownEnemyStructures > 0))
    // and it is the target ResolveTarget picks: choice 3 the enemy start location
    ensures r.1.Decided? ==> r.1.target == ResolveTarget(w, d)
    ensures r.1.Decided? && d.choice == 3 ==> r.1.target == Some(EnemyStartLocation)
    ensures r.0.doSomethingAfter >= s.doSomethingAfter
  {
    if |w.idleVoidRays| == 0 || s.iteration <= s.doSomethingAfter then (s, Skipped)
    else if d.choice == 1 && w.knownEnemyUnits > 0 && w.nexuses == 0 then (s, Raised)
    else
      var deadline := if d.choice == 0 then s.iteration + d.wait else s.doSomethingAfter;
      var log := s.trainData + [Sample(OneHot(d.choice), frame)];
      (s.(doSomethingAfter := deadline, trainData := log), Decided(d.choice, ResolveTarget(w, d)))
  }

  /** The attack command for each idle void ray, in order. */
  function AttackOrders(idle: seq<Tag>, target: Target): (r: seq<AttackOrder>)
    ensures |r| == |idle|
    ensures forall i :: 0 <= i < |r| ==> r[i] == AttackOrder(idle[i], target)
  {
    seq(|idle|, i requires 0 <= i < |idle| => AttackOrder(idle[i], target))
  }

  /** The commands a decision gives: all idle void rays attack its target, if it has one; a skipped call gives none. */
  function OrdersFor(w: Sighting, decision: Decision): (r: seq<AttackOrder>)
    ensures decision.Decided? && decision.target.Some? ==> |r| == |w.idleVoidRays|
    ensures !(decision.Decided? && decision.target.Some?) ==> r == []
    ensures forall i :: 0 <= i < |r| ==> r[i].unit == w.idleVoidRays[i] && r[i].target == decision.target.value
  {
    if decision.Decided? && decision.target.Some? then AttackOrders(w.idleVoidRays, decision.target.value) else []
  }

  predicate AllValid(ticks: seq<Tick>) {
    forall i :: 0 <= i < |ticks| ==> ValidDraws(ticks[i].sighting, ticks[i].draws)
  }

  /** A run of ticks: on_step stores the tick counter, then attack runs. */
  function Run(s: AttackState, ticks: seq<Tick>): (r: (AttackState, seq<Decision>))
    requires AllValid(ticks)
    ensures |r.1| == |ticks|
    decreases |ticks|
  {
    if ticks == [] then (s, [])
    else
      var t := ticks[0];
      var step := AttackStep(s.(iteration := t.iteration), t.frame, t.sighting, t.draws);
      var rest := Run(step.0, ticks[1..]);
      (rest.0, [step.1] + rest.1)
  }

  /** The number of decided calls in a trace. */
  function DecidedCount(ds: seq<Decision>): (n: nat)
    ensures n <= |ds|
  {
    if ds == [] then 0 else (if ds[0].Decided? then 1 else 0) + DecidedCount(ds[1..])
  }

  /**
   * The log only grows: earlier samples are never changed, and it gains
   * exactly one sample per decided call.
   */
  lemma {:induction false} RunExtendsLog(s: AttackState, ticks: seq<Tick>)
    requires AllValid(ticks)
    ensures |Run(s, ticks).0.trainData| == |s.trainData| + DecidedCount(Run(s, ticks).1)
    ensures Run(s, ticks).0.trainData[..|s.trainData|] == s.trainData
    decreases |ticks|
  {
    if ticks != [] {
      var t := ticks[0];
      var step := AttackStep(s.(iteration := t.iteration), t.frame, t.sighting, t.draws);
      assert AllValid(ticks[1..]);
      RunExtendsLog(step.0, ticks[1..]);
      var r := Run(s, ticks);
      assert r.1 == [step.1] + Run(step.0, ticks[1..]).1;
      assert r.1[1..] == Run(step.0, ticks[1..]).1;
      assert step.0.trainData[..|s.trainData|] == s.trainData;
    }
  }

  /** Every sample in the log stays a one-hot label of a choice. */
  lemma {:induction false} RunKeepsLogWellFormed(s: AttackState, ticks: seq<Tick>)
    requires AllValid(ticks) && LogWellFormed(s.trainData)
    ensures LogWellFormed(Run(s, ticks).0.trainData)
    decreases |ticks|
  {
    if ticks != [] {
      var t := ticks[0];
      var step := AttackStep(s.(iteration := t.iteration), t.frame, t.sighting, t.draws);
      if step.1.Decided? {
        ActionOfOneHot(t.draws.choice);
        var log := step.0.trainData;
        assert forall j :: 0 <= j < |s.trainData| ==> log[j] == s.trainData[j];
      }
      assert LogWellFormed(step.0.trainData);
      assert AllValid(ticks[1..]);
      RunKeepsLogWellFormed(step.0, ticks[1..]);
    }
  }

  /** The cooldown deadline never moves back. */
  lemma {:induction false} DeadlineNeverDecreases(s: AttackState, ticks: seq<Tick>)
    requires AllValid(ticks)
    ensures Run(s, ticks).0.doSomethingAfter >= s.doSomethingAfter
    decreases |ticks|
  {
    if ticks != [] {
      var t := ticks[0];
      var step := AttackStep(s.(iteration := t.iteration), t.frame, t.sighting, t.draws);
      assert AllValid(ticks[1..]);
      DeadlineNeverDecreases(step.0, ticks[1..]);
    }
  }

  /**
   * While the tick counter does not pass the deadline, attack does nothing:
   * every call is skipped, the log and the deadline are unchanged.
   */
  lemma {:induction false} CooldownSilences(s: AttackState, ticks: seq<Tick>)
    requires AllValid(ticks)
    requires forall i :: 0 <= i < |ticks| ==> ticks[i].iteration <= s.doSomethingAfter
    ensures Run(s, ticks).0.trainData == s.trainData
    ensures Run(s, ticks).0.doSomethingAfter == s.doSomethingAfter
    ensures forall i :: 0 <= i < |ticks| ==> Run(s, ticks).1[i] == Skipped
    decreases |ticks|
  {
    if ticks != [] {
      var t := ticks[0];
      var s1 := s.(iteration := t.iteration);
      var step := AttackStep(s1, t.frame, t.sighting, t.draws);
      assert step == (s1, Skipped);
      assert AllValid(ticks[1..]);
      CooldownSilences(s1, ticks[1..]);
      var rest := Run(s1, ticks[1..]);
      assert Run(s, ticks).1 == [Skipped] + rest.1;
    }
  }

  /** The sample a tick logs when it is acted on: its choice's label and its frame. */
  function Samples(ticks: seq<Tick>): (r: seq<Sample>)
    requires AllValid(ticks)
    ensures |r| == |ticks|
    ensures forall i :: 0 <= i < |ticks| ==> r[i] == Sample(OneHot(ticks[i].draws.choice), ticks[i].frame)
  {
    seq(|ticks|, i requires 0 <= i < |ticks| && AllValid(ticks) => Sample(OneHot(ticks[i].draws.choice), ticks[i].frame))
  }

  /**
   * A tick attack acts on without drawing a wait, against a fixed deadline:
   * an idle void ray, the counter past the deadline, a choice other than 0,
   * and no IndexError.
   */
  predicate ActsWithoutWaiting(deadline: nat, t: Tick) {
    && |t.sighting.idleVoidRays| > 0 && t.iteration > deadline && t.draws.choice != 0
    && !(t.draws.choice == 1 && t.sighting.knownEnemyUnits > 0 && t.sighting.nexuses == 0)
  }

  /**
   * Every tick that passes the gate and does not raise logs exactly its own
   * sample, in tick order, whether or not its choice found a target; so the
   * log grows by one sample per such tick.
   */
  lemma {:induction false} RunLogsEveryActingTick(s: AttackState, ticks: seq<Tick>)
    requires AllValid(ticks)
    requires forall i :: 0 <= i < |ticks| ==> ActsWithoutWaiting(s.doSomethingAfter, ticks[i])
    ensures Run(s, ticks).0.trainData == s.trainData + Samples(ticks)
    ensures forall i :: 0 <= i < |ticks| ==> Run(s, ticks).1[i].Decided?
    decreases |ticks|
  {
    if ticks != [] {
      var t, rest := ticks[0], ticks[1..];
      var step := ActingStep(s, t);
      assert forall i :: 0 <= i < |rest| ==> rest[i] == ticks[i + 1];
      assert AllValid(rest);
      RunLogsEveryActingTick(step.0, rest);
      var tail := Run(step.0, rest);
      assert Run(s, ticks) == (tail.0, [step.1] + tail.1);
      assert Samples(ticks) == [Sample(OneHot(t.draws.choice), t.frame)] + Samples(rest);
      forall i | 0 <= i < |ticks| ensures Run(s, ticks).1[i].Decided? {
        if i > 0 {
          assert Run(s, ticks).1[i] == tail.1[i - 1];
        }
      }
    }
  }

  /** One tick of such a run: decided, deadline kept, one sample logged. */
  lemma ActingStep(s: AttackState, t: Tick) returns (step: (AttackState, Decision))
    requires ValidDraws(t.sighting, t.draws) && ActsWithoutWaiting(s.doSomethingAfter, t)
    ensures step == AttackStep(s.(iteration := t.iteration), t.frame, t.sighting, t.draws)
    ensures step.1.Decided? && step.0.doSomethingAfter == s.doSomethingAfter
    ensures step.0.trainData == s.trainData + [Sample(OneHot(t.draws.choice), t.frame)]
  {
    step := AttackStep(s.(iteration := t.iteration), t.frame, t.sighting, t.draws);
  }

  /**
   * After choice 0 is drawn with wait w at tick i, the one sample of that
   * call is logged, and then no attack is ordered and nothing is logged on
   * any tick up to i + w.
   */
  lemma BranchZeroWaitsUntilDeadline(s: AttackState, t0: Tick, ticks: seq<Tick>)
    requires ValidDraws(t0.sighting, t0.draws) && AllValid(ticks)
    requires |t0.sighting.idleVoidRays| > 0 && t0.iteration > s.doSomethingAfter && t0.draws.choice == 0
    requires forall i :: 0 <= i < |ticks| ==> ticks[i].iteration <= t0.iteration + t0.draws.wait
    ensures AllValid([t0] + ticks)
    ensures Run(s, [t0] + ticks).0.trainData == s.trainData + [Sample(OneHot(0), t0.frame)]
    ensures Run(s, [t0] + ticks).0.doSomethingAfter == t0.iteration + t0.draws.wait
    ensures forall i :: 1 <= i <= |ticks| ==> Run(s, [t0] + ticks).1[i] == Skipped
  {
    var all := [t0] + ticks;
    assert forall i :: 0 <= i < |all| ==> ValidDraws(all[i].sighting, all[i].draws) by {
      forall i | 0 <= i < |all| ensures ValidDraws(all[i].sighting, all[i].draws) {
        if i > 0 { assert all[i] == ticks[i - 1]; }
      }
    }
    assert all[1..] == ticks;
    var step := AttackStep(s.(iteration := t0.iteration), t0.frame, t0.sighting, t0.draws);
    CooldownSilences(step.0, ticks);
  }
}
