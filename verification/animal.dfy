/**
 * The organism model's animal side: the `Organism` capability's default
 * liveness and the `Animal` base class, whose private `species` and `age`
 * are reached only through getters and setters, the age setter ignoring
 * negative values.
 */
module OOPDesignGoals {
  import opened JavaInt
  import Decimal
  import opened Wrappers

  /** `Organism.isAlive()`'s default: an organism that does not override it is alive. */
  function DefaultIsAlive(): (alive: bool)
    ensures alive
  {
    true
  }

  /** `Animal`: the state every animal carries, and the behaviour subclasses inherit. */
  class Animal {
    var species: string
    var age: int32

    /** Stores both arguments as given; the age is not validated here. */
    constructor (species: string, age: int32)
      ensures this.species == species && this.age == age
    {
      this.species := species;
      this.age := age;
    }

    /** Animals keep the interface's default liveness. */
    method IsAlive() returns (alive: bool)
      ensures alive && alive == DefaultIsAlive()
    {
      alive := DefaultIsAlive();
    }

    method GetSpecies() returns (s: string)
      ensures s == species
    {
      s := species;
    }

    /** Replaces the species; the age is untouched. */
    method SetSpecies(species: string)
      modifies this
      ensures this.species == species && age == old(age)
    {
      this.species := species;
    }

    method GetAge() returns (a: int32)
      ensures a == age
    {
      a := age;
    }

    /**
     * Applies a non-negative age and silently keeps the current one for a
     * negative argument; the species is untouched. A non-negative age stays
     * non-negative.
     */
    method SetAge(age: int32)
      modifies this
      ensures age >= 0 ==> this.age == age
      ensures age < 0 ==> this.age == old(this.age)
      ensures species == old(species)
      ensures old(this.age) >= 0 ==> this.age >= 0
    {
      if age >= 0 {
        this.age := age;
      }
    }

    /**
     * `"Species: " + species + ", Age: " + age`: the fixed text around the
     * species, followed by Java's decimal text of the age, which reads back
     * as the age.
     */
    function ToString(): (s: string)
      reads this
      ensures s == "Species: " + species + ", Age: " + Decimal.IntToDecimal(age as int)
      ensures var head := "Species: " + species + ", Age: ";
        |head| <= |s| && s[..|head|] == head && Decimal.ParseDecimal(s[|head|..]) == Some(age as int)
    {
      var head := "Species: " + species + ", Age: ";
      var text := head + Decimal.IntToDecimal(age as int);
      Decimal.IntToDecimalRoundTrip(age as int);
      assert text[|head|..] == Decimal.IntToDecimal(age as int);
      text
    }
  }

  /**
   * An illustrative Greyhound aged 4: a negative age is ignored, a renaming
   * and a valid age are applied.
   */
  method GreyhoundScenario() returns (species: string, ageAfterNegative: int32, ageAfterValid: int32)
    ensures species == "Whippet"
    ensures ageAfterNegative == 4
    ensures ageAfterValid == 5
  {
    var dog := new Animal("Greyhound", 4);
    dog.SetAge(-1);
    ageAfterNegative := dog.GetAge();
    dog.SetSpecies("Whippet");
    dog.SetAge(5);
    ageAfterValid := dog.GetAge();
    species := dog.GetSpecies();
  }

  /** The constructor does not check the age, so an animal can start with a negative one. */
  method NegativeAgeAtConstruction() returns (age: int32)
    ensures age < 0
  {
    var animal := new Animal("Greyhound", -3);
    age := animal.GetAge();
  }
}
