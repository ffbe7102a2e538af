/**
 The wave controller and the world it drives. A world holds the spawner's
 counters, the health of every enemy the spawner registered (in spawn order),
 and the point the controller loop has reached. Timed waits are abstract
 `Elapse` events; a spawn request carries the outcome of each attempt; damage
 arrives from outside as `Damage` events aimed at a registered enemy.
 */
module Waves {
  import EnemyHealth
  import Spawner
  import Labels

  datatype Option<T> = None | Some(value: T)

  /** Where the controller loop is suspended. */
  datatype Phase =
    | Settling       // the initial one-second wait
    | Announcing     // the warning for the next wave is showing; the wave starts when it ends
    | AwaitingClear  // waiting until no registered enemy is alive
    | Intermission   // the delay between waves
    | Complete       // the loop has exited

  datatype World = World(
    cfg: Spawner.Config,
    enemyMaxHealth: real,
    counters: Spawner.Counters,
    enemies: seq<EnemyHealth.Health>,
    phase: Phase)

  datatype Event =
    | Elapse
    | StartWave(outcomes: seq<Spawner.SpawnOutcome>)
    | Damage(target: nat, amount: real)

  /** The number of waves the controller starts: the first is unconditional, the rest stop at `maxWaves`. */
  function Cap(cfg: Spawner.Config): int {
    if cfg.maxWaves < 1 then 1 else cfg.maxWaves
  }

  /** The size of the next wave once `waves` waves have started. */
  function SizeAfter(cfg: Spawner.Config, waves: nat): int
    decreases waves
  {
    if !cfg.hasPrefab || waves == 0 then cfg.enemiesPerWave
    else Spawner.Escalate(SizeAfter(cfg, waves - 1), cfg.multiplier)
  }

  /** The number of registered enemies that are not dead. */
  function CountLive(enemies: seq<EnemyHealth.Health>): (n: nat)
    ensures n <= |enemies|
    decreases |enemies|
  {
    if |enemies| == 0 then 0
    else CountLive(enemies[..|enemies| - 1]) + if enemies[|enemies| - 1].isDead then 0 else 1
  }

  /** The enemies one wave start registers: one fresh enemy per attempt that produced health. */
  function Registrations(cfg: Spawner.Config, maxHealth: real, outcomes: seq<Spawner.SpawnOutcome>): seq<EnemyHealth.Health>
  {
    if cfg.hasPrefab then seq(Spawner.Registered(outcomes), _ => EnemyHealth.Spawned(maxHealth)) else []
  }

  /** The world before the controller has done anything. */
  function Begin(cfg: Spawner.Config, maxHealth: real): World {
    World(cfg, maxHealth, Spawner.Start(cfg), [], Settling)
  }

  /** One event; `None` when the event cannot happen in this world. */
  function Step(w: World, e: Event): Option<World> {
    match e
    case Elapse =>
      (match w.phase
       case Settling => Some(w.(phase := Announcing))
       case AwaitingClear => if w.counters.alive == 0 then Some(w.(phase := Intermission)) else None
       case Intermission => Some(w.(phase := Announcing))
       case _ => None)
    case StartWave(outcomes) =>
      if w.phase != Announcing || (w.cfg.hasPrefab && |outcomes| != Spawner.Attempts(w.counters.waveSize)) then
        None
      else
        var c := Spawner.StartWave(w.counters, w.cfg, outcomes);
        Some(w.(counters := c,
                enemies := w.enemies + Registrations(w.cfg, w.enemyMaxHealth, outcomes),
                phase := if c.currentWave < w.cfg.maxWaves then AwaitingClear else Complete))
    case Damage(i, amount) =>
      if i >= |w.enemies| then
        None
      else
        var hit := EnemyHealth.TakeDamage(w.enemies[i], amount);
        Some(w.(enemies := w.enemies[i := hit.health],
                counters := if hit.deathRaised then Spawner.OnEnemyDeath(w.counters) else w.counters))
  }

  /** A sequence of events, applied in order; `None` if one of them cannot happen. */
  function Run(w: World, events: seq<Event>): Option<World>
    decreases |events|
  {
    if |events| == 0 then Some(w)
    else
      match Run(w, events[..|events| - 1])
      case None => None
      case Some(v) => Step(v, events[|events| - 1])
  }

  /** The number of wave starts among `events`. */
  function Starts(events: seq<Event>): nat
    decreases |events|
  {
    if |events| == 0 then 0
    else Starts(events[..|events| - 1]) + if events[|events| - 1].StartWave? then 1 else 0
  }

  /**
   The controller's invariant: the alive counter is the number of registered
   enemies still alive, the kill counter the number that died, the next wave's
   size the escalation of the configured size once per started wave, the wave
   number agrees with the phase and never passes the cap, and outside combat
   (before the first wave, after a cleared wave) no registered enemy is alive.
   */
  predicate Valid(w: World) {
    && w.counters.alive == CountLive(w.enemies)
    && w.counters.totalKills == |w.enemies| - CountLive(w.enemies)
    && 0 <= w.counters.currentWave <= Cap(w.cfg)
    && w.counters.waveSize == SizeAfter(w.cfg, w.counters.currentWave)
    && (w.phase == Settling ==> w.counters.currentWave == 0)
    && (w.phase == Announcing ==> w.counters.currentWave == 0 || w.counters.currentWave < w.cfg.maxWaves)
    && (w.phase == AwaitingClear || w.phase == Intermission ==> 1 <= w.counters.currentWave < w.cfg.maxWaves)
    && (w.phase == Complete ==> w.counters.currentWave == Cap(w.cfg))
    && (w.phase == Settling || w.phase == Announcing || w.phase == Intermission ==> w.counters.alive == 0)
  }

  lemma {:induction false} CountLiveAppend(a: seq<EnemyHealth.Health>, b: seq<EnemyHealth.Health>)
    ensures CountLive(a + b) == CountLive(a) + CountLive(b)
    decreases |b|
  {
    if |b| > 0 {
      var ab := a + b;
      assert ab[..|ab| - 1] == a + b[..|b| - 1];
      assert ab[|ab| - 1] == b[|b| - 1];
      CountLiveAppend(a, b[..|b| - 1]);
    } else {
      assert a + b == a;
    }
  }

  /** Replacing one enemy changes the live count by the change in that enemy's liveness. */
  lemma {:induction false} CountLiveUpdate(s: seq<EnemyHealth.Health>, i: nat, h: EnemyHealth.Health)
    requires i < |s|
    ensures CountLive(s[i := h]) == CountLive(s) - (if s[i].isDead then 0 else 1) + (if h.isDead then 0 else 1)
    decreases |s|
  {
    var t := s[i := h];
    if i < |s| - 1 {
      assert t[..|t| - 1] == s[..|s| - 1][i := h];
      CountLiveUpdate(s[..|s| - 1], i, h);
    } else {
      assert t[..|t| - 1] == s[..|s| - 1];
    }
  }

  /** No registered enemy is alive exactly when every registered enemy is dead. */
  lemma {:induction false} CountLiveZero(s: seq<EnemyHealth.Health>)
    ensures CountLive(s) == 0 <==> forall i :: 0 <= i < |s| ==> s[i].isDead
    decreases |s|
  {
    if |s| > 0 {
      CountLiveZero(s[..|s| - 1]);
      assert forall i :: 0 <= i < |s| - 1 ==> s[..|s| - 1][i] == s[i];
    }
  }

  /** A batch of fresh enemies is entirely alive. */
  lemma {:induction false} CountLiveFresh(s: seq<EnemyHealth.Health>)
    requires forall i :: 0 <= i < |s| ==> !s[i].isDead
    ensures CountLive(s) == |s|
    decreases |s|
  {
    if |s| > 0 {
      CountLiveFresh(s[..|s| - 1]);
    }
  }

  lemma BeginIsValid(cfg: Spawner.Config, maxHealth: real)
    ensures Valid(Begin(cfg, maxHealth))
    ensures Begin(cfg, maxHealth).counters == Spawner.Counters(0, 0, cfg.enemiesPerWave, 0)
  {
  }

  /**
   Every event keeps the invariant. A wave start happens only in the announcing
   phase, below the cap and when every enemy registered so far is dead, and
   advances the wave number by exactly one; every other event leaves the wave
   number alone; kills never decrease.
   */
  lemma StepKeepsValid(w: World, e: Event)
    requires Valid(w)
    requires Step(w, e).Some?
    ensures Valid(Step(w, e).value)
    ensures e.StartWave? ==> w.phase == Announcing && w.counters.currentWave < Cap(w.cfg)
    ensures e.StartWave? ==> w.counters.alive == 0 && forall i :: 0 <= i < |w.enemies| ==> w.enemies[i].isDead
    ensures Step(w, e).value.counters.currentWave == w.counters.currentWave + if e.StartWave? then 1 else 0
    ensures Step(w, e).value.counters.totalKills >= w.counters.totalKills
    ensures Step(w, e).value.cfg == w.cfg
  {
    var w' := Step(w, e).value;
    match e
    case Elapse =>
    case StartWave(outcomes) =>
      CountLiveZero(w.enemies);
      var batch := Registrations(w.cfg, w.enemyMaxHealth, outcomes);
      CountLiveFresh(batch);
      CountLiveAppend(w.enemies, batch);
      Spawner.RegisteredCountsHealthyEnemies(outcomes);
      assert w'.counters.currentWave - 1 == w.counters.currentWave;
    case Damage(i, amount) =>
      CountLiveZero(w.enemies);
      CountLiveUpdate(w.enemies, i, EnemyHealth.TakeDamage(w.enemies[i], amount).health);
  }

  /**
   Over any run the invariant holds, the wave number grows by the number of wave
   starts, and the kill count never decreases.
   */
  lemma {:induction false} RunKeepsValid(w: World, events: seq<Event>)
    requires Valid(w)
    requires Run(w, events).Some?
    ensures Valid(Run(w, events).value)
    ensures Run(w, events).value.counters.currentWave == w.counters.currentWave + Starts(events)
    ensures Run(w, events).value.counters.totalKills >= w.counters.totalKills
    ensures Run(w, events).value.cfg == w.cfg
    decreases |events|
  {
    if |events| > 0 {
      var init := events[..|events| - 1];
      RunKeepsValid(w, init);
      StepKeepsValid(Run(w, init).value, events[|events| - 1]);
    }
  }

  /**
   From the start of an encounter, the number of waves started is the wave
   number, never more than max(1, maxWaves); the alive count is never negative
   and equals the registered enemies minus the kills; and the loop has exited
   only once exactly max(1, maxWaves) waves have started.
   */
  lemma EncounterBounds(cfg: Spawner.Config, maxHealth: real, events: seq<Event>)
    requires Run(Begin(cfg, maxHealth), events).Some?
    ensures var w := Run(Begin(cfg, maxHealth), events).value;
      && Starts(events) == w.counters.currentWave <= Cap(cfg)
      && 0 <= w.counters.alive == |w.enemies| - w.counters.totalKills
      && (w.phase == Complete ==> Starts(events) == Cap(cfg))
  {
    RunKeepsValid(Begin(cfg, maxHealth), events);
  }

  /** The wait for a cleared wave ends exactly when every registered enemy has died. */
  lemma ClearedIffAllDead(w: World)
    requires Valid(w)
    ensures w.counters.alive >= 0
    ensures w.counters.alive == 0 <==> forall i :: 0 <= i < |w.enemies| ==> w.enemies[i].isDead
    ensures w.phase == AwaitingClear ==> (Step(w, Elapse).Some? <==> forall i :: 0 <= i < |w.enemies| ==> w.enemies[i].isDead)
  {
    CountLiveZero(w.enemies);
  }

  /** Once the loop has exited no event starts a wave, and nothing moves the controller again. */
  lemma CompleteIsFinal(w: World, e: Event)
    requires w.phase == Complete
    requires Step(w, e).Some?
    ensures e.Damage?
    ensures Step(w, e).value.phase == Complete
    ensures Step(w, e).value.counters.currentWave == w.counters.currentWave
  {
  }

  /**
   The wave a warning announces is the wave that then starts: the number shown
   in the warning is the wave number the wave start assigns and shows.
   */
  lemma AnnouncedWaveStarts(w: World, outcomes: seq<Spawner.SpawnOutcome>)
    requires Step(w, StartWave(outcomes)).Some?
    ensures var w' := Step(w, StartWave(outcomes)).value;
      && w'.counters.currentWave == w.counters.currentWave + 1
      && Labels.WarningLabel(w.counters.currentWave + 1) == "\U{A1}" + Labels.WaveLabel(w'.counters.currentWave) + "!"
  {
    Labels.LabelsShowTheirNumber(w.counters.currentWave + 1);
  }

  /** With a multiplier of at least one and a non-negative first size, waves never shrink. */
  lemma {:induction false} SizesNeverShrink(cfg: Spawner.Config, waves: nat)
    requires cfg.enemiesPerWave >= 0
    requires cfg.multiplier.num >= cfg.multiplier.den
    ensures cfg.enemiesPerWave <= SizeAfter(cfg, waves) <= SizeAfter(cfg, waves + 1)
    decreases waves
  {
    if waves > 0 {
      SizesNeverShrink(cfg, waves - 1);
    }
    if cfg.hasPrefab {
      Spawner.EscalateNeverShrinks(SizeAfter(cfg, waves), cfg.multiplier);
    }
  }

  /** Three enemies with the default multiplier of 1.2 make waves of 3, 4 and 5 enemies. */
  lemma DefaultWaveSizes()
    ensures var cfg := Spawner.Config(3, 99, Spawner.Multiplier(6, 5), true);
      SizeAfter(cfg, 0) == 3 && SizeAfter(cfg, 1) == 4 && SizeAfter(cfg, 2) == 5
  {
    Spawner.DefaultEscalationFromThree();
  }

  lemma {:induction false} RunSnoc(w: World, events: seq<Event>, e: Event)
    ensures Run(w, events + [e]) == if Run(w, events).Some? then Step(Run(w, events).value, e) else None
    ensures Starts(events + [e]) == Starts(events) + if e.StartWave? then 1 else 0
  {
    assert (events + [e])[..|events|] == events;
  }

  lemma {:induction false} RunConcat(w: World, a: seq<Event>, b: seq<Event>)
    requires Run(w, a).Some?
    ensures Run(w, a + b) == Run(Run(w, a).value, b)
    ensures Starts(a + b) == Starts(a) + Starts(b)
    decreases |b|
  {
    if |b| == 0 {
      assert a + b == a;
    } else {
      var b' := b[..|b| - 1];
      var e := b[|b| - 1];
      assert a + b == (a + b') + [e];
      assert b == b' + [e];
      RunConcat(w, a, b');
      RunSnoc(w, a + b', e);
      RunSnoc(Run(w, a).value, b', e);
    }
  }

  /** Applies one event that can happen, extending the trace that leads to the world. */
  method Perform(start: World, trace: seq<Event>, w: World, e: Event) returns (trace': seq<Event>, w': World)
    requires Run(start, trace) == Some(w)
    requires Step(w, e).Some?
    ensures Run(start, trace') == Some(w')
    ensures w' == Step(w, e).value
    ensures trace' == trace + [e]
  {
    RunSnoc(start, trace, e);
    trace' := trace + [e];
    w' := Step(w, e).value;
  }

  /**
   A player who finishes every registered enemy: each live enemy takes damage
   equal to its remaining health. Afterwards no registered enemy is alive.
   */
  method KillAll(w: World) returns (events: seq<Event>, w': World)
    requires Valid(w)
    ensures Run(w, events) == Some(w')
    ensures Valid(w')
    ensures Starts(events) == 0
    ensures w'.counters.alive == 0
    ensures w'.phase == w.phase && w'.cfg == w.cfg
    ensures w'.counters.currentWave == w.counters.currentWave
    ensures w'.counters.totalKills == w.counters.totalKills + w.counters.alive
  {
    events := [];
    w' := w;
    var i := 0;
    while i < |w.enemies|
      invariant 0 <= i <= |w.enemies|
      invariant |w'.enemies| == |w.enemies|
      invariant Run(w, events) == Some(w')
      invariant Valid(w')
      invariant Starts(events) == 0
      invariant w'.phase == w.phase && w'.cfg == w.cfg
      invariant w'.counters.currentWave == w.counters.currentWave
      invariant w'.counters.alive + w'.counters.totalKills == w.counters.alive + w.counters.totalKills
      invariant forall j :: 0 <= j < i ==> w'.enemies[j].isDead
    {
      if !w'.enemies[i].isDead {
        var e := Damage(i, w'.enemies[i].current);
        StepKeepsValid(w', e);
        RunSnoc(w, events, e);
        events, w' := Perform(w, events, w', e);
      }
      i := i + 1;
    }
    ClearedIffAllDead(w');
  }

  /** The outcomes of the attempts of the next wave, as an outside source reports them. */
  function WaveOutcomes(w: World, outcomeOf: (int, nat) -> Spawner.SpawnOutcome): (o: seq<Spawner.SpawnOutcome>)
    ensures |o| == Spawner.Attempts(w.counters.waveSize)
  {
    seq(Spawner.Attempts(w.counters.waveSize), i requires 0 <= i => outcomeOf(w.counters.currentWave + 1, i))
  }

  /**
   The controller loop against a player who clears every wave: a settle wait,
   the first wave, then while the wave number is below `maxWaves` a cleared
   wait, the intermission and the next wave. The run it returns is a real run
   of the model, it ends with the loop exited, and it starts exactly
   max(1, maxWaves) waves whatever the spawn attempts produce.
   */
  method PlayEncounter(cfg: Spawner.Config, maxHealth: real, outcomeOf: (int, nat) -> Spawner.SpawnOutcome)
    returns (trace: seq<Event>, w: World)
    ensures Run(Begin(cfg, maxHealth), trace) == Some(w)
    ensures w.phase == Complete
    ensures Starts(trace) == Cap(cfg) == w.counters.currentWave
    ensures Valid(w)
  {
    var start := Begin(cfg, maxHealth);
    BeginIsValid(cfg, maxHealth);
    trace, w := Perform(start, [], start, Elapse);
    StepKeepsValid(start, Elapse);
    var first := StartWave(WaveOutcomes(w, outcomeOf));
    StepKeepsValid(w, first);
    trace, w := Perform(start, trace, w, first);
    RunKeepsValid(start, trace);
    while w.counters.currentWave < cfg.maxWaves
      invariant Run(start, trace) == Some(w)
      invariant Valid(w) && w.cfg == cfg
      invariant Starts(trace) == w.counters.currentWave
      invariant w.phase == if w.counters.currentWave < cfg.maxWaves then AwaitingClear else Complete
      decreases cfg.maxWaves - w.counters.currentWave
    {
      var kills, cleared := KillAll(w);
      RunConcat(start, trace, kills);
      trace, w := trace + kills, cleared;
      StepKeepsValid(w, Elapse);
      trace, w := Perform(start, trace, w, Elapse);
      StepKeepsValid(w, Elapse);
      trace, w := Perform(start, trace, w, Elapse);
      var next := StartWave(WaveOutcomes(w, outcomeOf));
      StepKeepsValid(w, next);
      trace, w := Perform(start, trace, w, next);
      RunKeepsValid(start, trace);
    }
  }
}
