/**
 * The difficulty controller: a tick counter that, every 6000 ticks, makes
 * newly spawned aliens faster and shortens the spawn period down to a floor.
 */
module Pacing {

  const EscalationPeriod: nat := 6000
  const SpeedIncrement: real := 0.2
  const IntervalDecrement: int := 20
  /** The shortest spawn period, in milliseconds. */
  const MinInterval: int := 800

  /** The difficulty state of a game: difficultyTimer, alienSpeed, spawnInterval. */
  datatype Difficulty = Difficulty(timer: nat, alienSpeed: real, spawnInterval: int)

  /** The fresh game's difficulty. */
  const Initial: Difficulty := Difficulty(0, 1.0, 2000)

  /** The spawn period after an escalation: 20 ms shorter, but never below the floor. */
  function NextInterval(interval: int): (r: int)
    ensures r >= MinInterval
    ensures interval >= MinInterval ==> r <= interval
    ensures interval - IntervalDecrement >= MinInterval ==> r == interval - IntervalDecrement
    ensures interval - IntervalDecrement < MinInterval ==> r == MinInterval
  {
    if MinInterval < interval - IntervalDecrement then interval - IntervalDecrement else MinInterval
  }

  /** The tick counter reached a multiple of the escalation period. */
  predicate Escalates(timer: nat)
  {
    timer % EscalationPeriod == 0
  }

  /** One active tick of the difficulty controller. */
  function NextDifficulty(d: Difficulty): (r: Difficulty)
    ensures r.timer == d.timer + 1
    ensures Escalates(r.timer) ==> r.alienSpeed == d.alienSpeed + SpeedIncrement && r.spawnInterval == NextInterval(d.spawnInterval)
    ensures !Escalates(r.timer) ==> r.alienSpeed == d.alienSpeed && r.spawnInterval == d.spawnInterval
    ensures d.spawnInterval >= MinInterval ==> MinInterval <= r.spawnInterval <= d.spawnInterval
  {
    var t := d.timer + 1;
    if Escalates(t) then Difficulty(t, d.alienSpeed + SpeedIncrement, NextInterval(d.spawnInterval))
    else Difficulty(t, d.alienSpeed, d.spawnInterval)
  }

  /** The difficulty after n active ticks. */
  function Advance(d: Difficulty, n: nat): Difficulty
  {
    if n == 0 then d else NextDifficulty(Advance(d, n - 1))
  }

  /** The number of escalations that happen while the counter goes from t to t + n. */
  function Escalations(t: nat, n: nat): nat
  {
    (t + n) / EscalationPeriod - t / EscalationPeriod
  }

  lemma EscalationsStep(t: nat, n: nat)
    ensures Escalations(t, n + 1) == Escalations(t, n) + (if Escalates(t + n + 1) then 1 else 0)
  {
  }

  /**
   * Closed form of n ticks from any state whose period is at or above the
   * floor: every escalation adds 0.2 to the speed and takes 20 off the period,
   * which then stops at 800.
   */
  lemma {:induction false} AdvanceClosedForm(d: Difficulty, n: nat)
    requires d.spawnInterval >= MinInterval
    ensures var k := Escalations(d.timer, n);
      Advance(d, n) == Difficulty(d.timer + n, d.alienSpeed + SpeedIncrement * k as real,
                                  if d.spawnInterval - IntervalDecrement * k < MinInterval then MinInterval
                                  else d.spawnInterval - IntervalDecrement * k)
  {
    if n > 0 {
      AdvanceClosedForm(d, n - 1);
      EscalationsStep(d.timer, n - 1);
    }
  }

  /** However long a game lasts, speed never drops and the period stays within [800, start]. */
  lemma {:induction false} AdvanceMonotone(d: Difficulty, n: nat)
    requires d.spawnInterval >= MinInterval
    ensures Advance(d, n).alienSpeed >= d.alienSpeed
    ensures MinInterval <= Advance(d, n).spawnInterval <= d.spawnInterval
  {
    if n > 0 {
      AdvanceMonotone(d, n - 1);
    }
  }

  /** From a fresh game nothing changes during the first 5999 ticks but the timer. */
  lemma QuietStart(n: nat)
    requires n < EscalationPeriod
    ensures Advance(Initial, n) == Difficulty(n, 1.0, 2000)
  {
    AdvanceClosedForm(Initial, n);
    assert Escalations(0, n) == 0;
  }

  /** The first escalation of a fresh game comes at tick 6000: speed 1 to 1.2, period 2000 to 1980. */
  lemma FirstEscalation()
    ensures Advance(Initial, EscalationPeriod) == Difficulty(6000, 1.2, 1980)
  {
    AdvanceClosedForm(Initial, EscalationPeriod);
    assert Escalations(0, EscalationPeriod) == 1;
  }
}
