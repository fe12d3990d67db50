/**
 * `Player`: a name, a goal counter and a salary. Scoring increments the
 * counter in place with Java `int` arithmetic; the getters only read.
 */
module ClassesObjects {
  import opened JavaInt
  import opened Wrappers

  /** `goals++` on a Java `int`: one more, except that the largest value wraps to the smallest. */
  function Scored(goals: int32): (r: int32)
    ensures goals as int < MaxInt ==> r as int == goals as int + 1
    ensures goals as int == MaxInt ==> r as int == MinInt
  {
    Wrap(goals as int + 1)
  }

  /** The goal count after `k` scoring calls starting from `goals`. */
  function ScoredTimes(goals: int32, k: nat): int32
  {
    if k == 0 then goals else Scored(ScoredTimes(goals, k - 1))
  }

  /** A fresh named player that scores `k` times, for any `k` an `int` can count, has `k` goals. */
  lemma {:induction false} GoalsCountScores(k: nat)
    requires k <= MaxInt
    ensures ScoredTimes(0, k) as int == k
  {
    if k > 0 {
      GoalsCountScores(k - 1);
    }
  }

  class Player {
    /** `None` stands for the Java `null` the no-argument constructor leaves. */
    var name: Option<string>
    var goals: int32
    var salary: int32

    /** `Player()`: every field keeps its Java default. */
    constructor Unnamed()
      ensures name == None && goals == 0 && salary == 0
    {
      name := None;
      goals := 0;
      salary := 0;
    }

    /** `Player(name)`: a new player has no goals and a salary of 100. */
    constructor (name: string)
      ensures this.name == Some(name) && goals == 0 && salary == 100
    {
      this.name := Some(name);
      goals := 0;
      salary := 100;
    }

    /** Adds one goal; name and salary are untouched. */
    method PublicScoreGoalMethod()
      modifies this
      ensures goals == Scored(old(goals))
      ensures name == old(name) && salary == old(salary)
    {
      goals := Wrap(goals as int + 1);
    }

    method GetSalary() returns (s: int32)
      ensures s == salary
    {
      s := salary;
    }

    method GetName() returns (n: Option<string>)
      ensures n == name
    {
      n := name;
    }

    method GetGoals() returns (g: int32)
      ensures g == goals
    {
      g := goals;
    }
  }

  /**
   * A new player named `name` that calls `publicScoreGoalMethod` `k` times
   * reports `k` goals, for any `k` an `int` can count; name and salary are
   * those the constructor set.
   */
  method ScoreFreshPlayer(name: string, k: nat) returns (goals: int32, finalName: Option<string>, salary: int32)
    requires k <= MaxInt
    ensures goals as int == k
    ensures finalName == Some(name) && salary == 100
  {
    var player := new Player(name);
    var i := 0;
    while i < k
      invariant 0 <= i <= k
      invariant player.goals == ScoredTimes(0, i)
      invariant player.name == Some(name) && player.salary == 100
    {
      player.PublicScoreGoalMethod();
      i := i + 1;
    }
    GoalsCountScores(k);
    goals := player.GetGoals();
    finalName := player.GetName();
    salary := player.GetSalary();
  }

  /** Lampard before and after his first goal: the name is kept and the count goes from 0 to 1. */
  method LampardScenario() returns (name: Option<string>, goals: int32, newGoals: int32)
    ensures name == Some("Lampard") && goals == 0 && newGoals == 1
  {
    var newPlayer := new Player("Lampard");
    name := newPlayer.GetName();
    goals := newPlayer.GetGoals();
    newPlayer.PublicScoreGoalMethod();
    newGoals := newPlayer.GetGoals();
  }
}
