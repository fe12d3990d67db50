/**
 * `Plant`: an organism whose liveness is its flowering flag, whose age is
 * always 0, and whose species and age setters deliberately do nothing. No
 * method here has a `modifies` clause, so after construction neither field
 * ever changes.
 */
module ObjectOrientatedProgramming {
  import opened JavaInt
  import OOPDesignGoals

  class Plant {
    var species: string
    var isFlowering: bool

    /** Stores both arguments as given. */
    constructor (species: string, isFlowering: bool)
      ensures this.species == species && this.isFlowering == isFlowering
    {
      this.species := species;
      this.isFlowering := isFlowering;
    }

    /** Overrides the organism default: a plant is alive exactly while it flowers. */
    method IsAlive() returns (alive: bool)
      ensures alive == isFlowering
    {
      alive := isFlowering;
    }

    method GetSpecies() returns (s: string)
      ensures s == species
    {
      s := species;
    }

    /** Ignores its argument: the species stays what the constructor stored. */
    method SetSpecies(species: string)
      ensures unchanged(this)
    {
    }

    /** Plants have no age. */
    method GetAge() returns (a: int32)
      ensures a == 0
    {
      a := 0;
    }

    /** Ignores its argument for every value, valid or not. */
    method SetAge(age: int32)
      ensures unchanged(this)
    {
    }
  }

  /**
   * An illustrative flowering rose: after both setters are called it still reports
   * its original species, age 0 and alive; a rose that is not flowering is
   * not alive, unlike the organism default.
   */
  method RoseScenario() returns (species: string, age: int32, alive: bool, wiltedAlive: bool)
    ensures species == "Rose" && age == 0 && alive
    ensures wiltedAlive != OOPDesignGoals.DefaultIsAlive()
  {
    var rose := new Plant("Rose", true);
    rose.SetSpecies("Tulip");
    rose.SetAge(3);
    species := rose.GetSpecies();
    age := rose.GetAge();
    alive := rose.IsAlive();
    var wilted := new Plant("Rose", false);
    wiltedAlive := wilted.IsAlive();
  }
}
