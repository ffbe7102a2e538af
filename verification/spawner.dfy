/**
 The integer bookkeeping of the enemy spawner: the four counters it keeps, the
 wave start (one spawn attempt per enemy of the wave, then escalation of the
 next wave's size) and the death handler it subscribes to each registered enemy.
 */
module Spawner {

  type Positive = n: int | n > 0 witness 1

  /** The wave difficulty multiplier, taken as the exact ratio `num / den`. */
  datatype Multiplier = Multiplier(num: int, den: Positive)

  /** The inspector settings the wave logic reads. */
  datatype Config = Config(
    enemiesPerWave: int,
    maxWaves: int,
    multiplier: Multiplier,
    hasPrefab: bool)

  /** The spawner's counters: wave number, live registered enemies, size of the next wave, kills. */
  datatype Counters = Counters(currentWave: int, alive: int, waveSize: int, totalKills: int)

  /** What one spawn attempt produced. */
  datatype SpawnOutcome = NotCreated | CreatedWithoutHealth | CreatedWithHealth

  /** The counters once the spawner has started up. */
  function Start(cfg: Config): (c: Counters)
    ensures c.currentWave == 0 && c.alive == 0 && c.totalKills == 0
    ensures c.waveSize == cfg.enemiesPerWave
  {
    Counters(0, 0, cfg.enemiesPerWave, 0)
  }

  /** Integer ceiling of `a / b`. */
  function CeilDiv(a: int, b: Positive): (q: int)
    ensures b * (q - 1) < a <= b * q
  {
    var r := a + b - 1;
    var f := r / b;
    assert b * f <= r < b * f + b;
    f
  }

  /** The next wave's size: the current size times the multiplier, rounded up. */
  function Escalate(size: int, m: Multiplier): (next: int)
    ensures m.den * (next - 1) < size * m.num <= m.den * next
  {
    CeilDiv(size * m.num, m.den)
  }

  /** Multiplying by a positive factor preserves order, in both directions. */
  lemma ScaleOrder(d: Positive, x: int, y: int)
    ensures x <= y <==> d * x <= d * y
  {
    assert d * y - d * x == d * (y - x);
  }

  /** The rounded-up product is the least integer not below the exact product. */
  lemma EscalateIsLeastUpperBound(size: int, m: Multiplier, k: int)
    requires size * m.num <= m.den * k
    ensures Escalate(size, m) <= k
  {
    ScaleOrder(m.den, Escalate(size, m) - 1, k);
  }

  /** With a non-negative multiplier a larger wave never escalates to a smaller one. */
  lemma EscalateMonotonic(a: int, b: int, m: Multiplier)
    requires a <= b
    requires m.num >= 0
    ensures Escalate(a, m) <= Escalate(b, m)
  {
    assert b * m.num - a * m.num == (b - a) * m.num;
    EscalateIsLeastUpperBound(a, m, Escalate(b, m));
  }

  /** With a multiplier of at least one a wave never shrinks. */
  lemma EscalateNeverShrinks(size: int, m: Multiplier)
    requires size >= 0
    requires m.num >= m.den
    ensures Escalate(size, m) >= size
  {
    assert size * m.num - size * m.den == size * (m.num - m.den);
    ScaleOrder(m.den, size, Escalate(size, m));
  }

  /** With a multiplier above one a non-empty wave strictly grows. */
  lemma EscalateGrows(size: int, m: Multiplier)
    requires size > 0
    requires m.num > m.den
    ensures Escalate(size, m) > size
  {
    assert size * m.num - size * m.den == size * (m.num - m.den);
    ScaleOrder(m.den, Escalate(size, m), size);
  }

  /** The default escalation of 1.2 grows three enemies to four, then to five. */
  lemma DefaultEscalationFromThree()
    ensures Escalate(3, Multiplier(6, 5)) == 4
    ensures Escalate(Escalate(3, Multiplier(6, 5)), Multiplier(6, 5)) == 5
  {
  }

  /** The number of spawn attempts of a wave of `size` enemies (the loop runs while `i < size`). */
  function Attempts(size: int): nat {
    if size > 0 then size else 0
  }

  /** The number of attempts that produced an enemy with health, counted from the last attempt back. */
  function Registered(outcomes: seq<SpawnOutcome>): nat
    decreases |outcomes|
  {
    if |outcomes| == 0 then 0
    else Registered(outcomes[..|outcomes| - 1]) + if outcomes[|outcomes| - 1] == CreatedWithHealth then 1 else 0
  }

  /**
   Registered counts exactly the attempts that produced an enemy with health: it
   is that outcome's multiplicity, so it lies between zero and the number of
   attempts, with the upper bound reached exactly when every attempt succeeded.
   */
  lemma {:induction false} RegisteredCountsHealthyEnemies(outcomes: seq<SpawnOutcome>)
    ensures Registered(outcomes) == multiset(outcomes)[CreatedWithHealth]
    ensures Registered(outcomes) <= |outcomes|
    ensures Registered(outcomes) == |outcomes| <==> forall i :: 0 <= i < |outcomes| ==> outcomes[i] == CreatedWithHealth
    decreases |outcomes|
  {
    if |outcomes| > 0 {
      var init := outcomes[..|outcomes| - 1];
      var last := outcomes[|outcomes| - 1];
      assert outcomes == init + [last];
      RegisteredCountsHealthyEnemies(init);
      assert multiset(outcomes) == multiset(init) + multiset{last};
      if Registered(outcomes) == |outcomes| {
        forall i | 0 <= i < |outcomes|
          ensures outcomes[i] == CreatedWithHealth
        {
          if i < |init| {
            assert outcomes[i] == init[i];
          }
        }
      }
      if forall i :: 0 <= i < |outcomes| ==> outcomes[i] == CreatedWithHealth {
        assert forall i :: 0 <= i < |init| ==> init[i] == outcomes[i];
      }
    }
  }

  /**
   The spawn loop: for every attempt, an enemy that was created is counted as
   alive, and counted off again when it turns out to have no health component.
   */
  method SpawnBurst(alive: int, outcomes: seq<SpawnOutcome>) returns (alive': int)
    ensures alive' == alive + Registered(outcomes)
    ensures alive <= alive' <= alive + |outcomes|
  {
    alive' := alive;
    var i := 0;
    while i < |outcomes|
      invariant 0 <= i <= |outcomes|
      invariant alive' == alive + Registered(outcomes[..i])
    {
      assert outcomes[..i + 1][..i] == outcomes[..i];
      var outcome := outcomes[i];
      if outcome != NotCreated {
        alive' := alive' + 1;
        if outcome == CreatedWithoutHealth {
          alive' := alive' - 1;
        }
      }
      i := i + 1;
    }
    assert outcomes[..i] == outcomes;
    RegisteredCountsHealthyEnemies(outcomes);
  }

  /**
   One wave start. The wave number always advances, even without a prefab;
   without a prefab nothing is spawned and the next wave keeps its size.
   Otherwise `outcomes` holds one outcome per attempt, every enemy with health
   becomes alive, and the next wave's size is escalated.
   */
  function StartWave(c: Counters, cfg: Config, outcomes: seq<SpawnOutcome>): (r: Counters)
    requires cfg.hasPrefab ==> |outcomes| == Attempts(c.waveSize)
    ensures r.currentWave == c.currentWave + 1
    ensures r.totalKills == c.totalKills
    ensures !cfg.hasPrefab ==> r.alive == c.alive && r.waveSize == c.waveSize
    ensures cfg.hasPrefab ==> r.alive == c.alive + multiset(outcomes)[CreatedWithHealth]
    ensures cfg.hasPrefab ==> c.alive <= r.alive <= c.alive + Attempts(c.waveSize)
    ensures cfg.hasPrefab ==> c.waveSize * cfg.multiplier.num <= cfg.multiplier.den * r.waveSize
    ensures cfg.hasPrefab ==> cfg.multiplier.den * (r.waveSize - 1) < c.waveSize * cfg.multiplier.num
  {
    var numbered := c.(currentWave := c.currentWave + 1);
    if !cfg.hasPrefab then
      numbered
    else
      RegisteredCountsHealthyEnemies(outcomes);
      numbered.(alive := c.alive + Registered(outcomes),
                waveSize := Escalate(c.waveSize, cfg.multiplier))
  }

  /** The death handler: one enemy fewer alive and one kill more, so alive plus kills is conserved. */
  function OnEnemyDeath(c: Counters): (r: Counters)
    ensures r.alive + r.totalKills == c.alive + c.totalKills
    ensures r.totalKills == c.totalKills + 1
    ensures r.currentWave == c.currentWave && r.waveSize == c.waveSize
  {
    c.(alive := c.alive - 1, totalKills := c.totalKills + 1)
  }
}
