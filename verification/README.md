# java-fundamentals: a Dafny model of its stateful and stream-based core

This project models the parts of the `java-fundamentals` teaching repository whose behaviour can be stated outright.

- **`Streams`** — the collection queries. Each stream pipeline over the class's immutable lists becomes a Dafny function over an arbitrary sequence:
  - a case-sensitive prefix filter on names;
  - a strict greater-than filter on integers;
  - three element-wise maps: upper-casing, name length and salary projection;
  - a stable ascending sort of employees by salary;
  - a `groupingBy` into three salary brackets.

  Each zero-argument query of the class is then proved equal to its concrete answer on the class's fixed lists.
- **`Animal`** (module `OOPDesignGoals`) — a class with in-place fields `species` and `age`. It has a guarded `setAge` that ignores negative values, and a `toString` that renders the age as Java's canonical decimal text, which reads back as the age. The default liveness inherited from the `Organism` interface is modelled here too.
- **`Plant`** (module `ObjectOrientatedProgramming`) — a class that:
  - reports its flowering flag as liveness;
  - always reports age 0;
  - has two setters that change nothing.
- **`Player`** (module `ClassesObjects`) — a class with two constructors and a goal counter. Scoring increments the counter with Java `int` arithmetic.
- **`Quadrilateral`** (module `InterfaceAbstract`) — a height and a length. Its area is their product in Java `int` arithmetic. `Rectangle`'s constructor, which only forwards its two arguments, is the named constructor `Quadrilateral.Rectangle`.

Helper modules:
- `Wrappers` holds `Option`.
- `JavaInt` holds the 32-bit `int32` type and `Wrap`, which is two's-complement wrap-around.
- `Decimal` holds decimal rendering of integers and a parser that is its partner.
- `StreamOps` holds generic `Filter` and `Map`, which play the role of `Stream.filter` and `Stream.map`.

Java `int` fields are `int32`. The arithmetic on them is done on unbounded integers and then wrapped explicitly. An employee's salary is an unbounded `int`, since the `Employee` class is not part of this model.

## Model

| member | source | states |
|---|---|---|
| StreamOps.Filter | src/main/java/org/example/GenericsStreamsLambda/Streams.java:22-24 | `Stream.filter` never yields more elements than it is given |
| StreamOps.FilterMembers | src/main/java/org/example/GenericsStreamsLambda/Streams.java:22-24 | an element is in the filtered stream iff it is in the input and satisfies the predicate |
| StreamOps.FilterPicksInOrder | src/main/java/org/example/GenericsStreamsLambda/Streams.java:29-33 | the filtered stream is the input's elements at the kept positions, in increasing position order; a position is kept iff its element satisfies the predicate |
| StreamOps.FilterIdempotent | src/main/java/org/example/GenericsStreamsLambda/Streams.java:22-24 | filtering a filtered stream again with the same predicate changes nothing |
| StreamOps.FilterAppend | src/main/java/org/example/GenericsStreamsLambda/Streams.java:29-33 | filtering a concatenation is the concatenation of the filtered parts, so relative order is kept |
| StreamOps.FilterSnoc | src/main/java/org/example/GenericsStreamsLambda/Streams.java:29-33 | appending one element to the input appends it to the output exactly when it passes |
| StreamOps.FilterNoneKept | src/main/java/org/example/GenericsStreamsLambda/Streams.java:29-33 | when no element passes, the result is empty |
| StreamOps.FilterAllKept | src/main/java/org/example/GenericsStreamsLambda/Streams.java:29-33 | when every element passes, the result is the input itself |
| StreamOps.Map | src/main/java/org/example/GenericsStreamsLambda/Streams.java:38-40 | `Stream.map` keeps the length, and element i of the result is the function applied to input element i |
| Streams.NamesStartingWith | src/main/java/org/example/GenericsStreamsLambda/Streams.java:21-27 | a name is in the result iff it is in the input and starts with the prefix (case-sensitive) |
| Streams.NumbersGreaterThan | src/main/java/org/example/GenericsStreamsLambda/Streams.java:29-35 | a number is in the result iff it is in the input and is strictly greater than the threshold, so the threshold itself is excluded |
| Streams.NamesStartingWithInOrder | src/main/java/org/example/GenericsStreamsLambda/Streams.java:21-27 | the prefix filter's result is the input read at strictly increasing positions, exactly those whose name starts with the prefix, so input order and duplicates are kept |
| Streams.NumbersGreaterThanInOrder | src/main/java/org/example/GenericsStreamsLambda/Streams.java:29-35 | the threshold filter's result is the input read at strictly increasing positions, exactly those whose number exceeds the threshold, so input order and duplicates are kept |
| Streams.UpperChar | src/main/java/org/example/GenericsStreamsLambda/Streams.java:39 | the result is never a lower-case ASCII letter; a lower-case letter maps to its capital and every other character is unchanged |
| Streams.ToUpperCase | src/main/java/org/example/GenericsStreamsLambda/Streams.java:39 | same length as the text, each character upper-cased in place |
| Streams.Uppercased | src/main/java/org/example/GenericsStreamsLambda/Streams.java:37-43 | same length as the names; element i is name i upper-cased |
| Streams.UppercasedIdempotent | src/main/java/org/example/GenericsStreamsLambda/Streams.java:37-43 | upper-casing already upper-cased names changes nothing |
| Streams.NameLengths | src/main/java/org/example/GenericsStreamsLambda/Streams.java:45-51 | same length as the names; element i is the length of name i |
| Streams.Salaries | src/main/java/org/example/GenericsStreamsLambda/Streams.java:53-59 | same length as the employees; element i is employee i's salary |
| Streams.InsertBySalary | src/main/java/org/example/GenericsStreamsLambda/Streams.java:63 | inserting an employee yields the old elements plus that employee, as a multiset |
| Streams.InsertKeepsSorted | src/main/java/org/example/GenericsStreamsLambda/Streams.java:63 | inserting into a salary-sorted sequence keeps it sorted |
| Streams.InsertKeepsTies | src/main/java/org/example/GenericsStreamsLambda/Streams.java:63 | the inserted employee lands after every employee already present with its salary |
| Streams.InsertPastLast | src/main/java/org/example/GenericsStreamsLambda/Streams.java:63 | moving the inserted employee in front of a higher-paid last element keeps the order of every salary's employees |
| Streams.WithSalaryLast | src/main/java/org/example/GenericsStreamsLambda/Streams.java:63 | the employees with a given salary are those of the prefix, then the last element if it has that salary |
| Streams.SortBySalary | src/main/java/org/example/GenericsStreamsLambda/Streams.java:61-67 | the result is non-decreasing in salary, a permutation of the input, and stable: for every salary its employees appear in input order |
| Streams.LastIsHighestPaid | src/main/java/org/example/GenericsStreamsLambda/Streams.java:63 | in a salary-sorted sequence no element earns more than the last |
| Streams.SortedTiesDetermine | src/main/java/org/example/GenericsStreamsLambda/Streams.java:63 | two salary-sorted sequences with the same employees in the same order under every salary are equal |
| Streams.SortBySalaryUnique | src/main/java/org/example/GenericsStreamsLambda/Streams.java:61-67 | any sorted rearrangement that keeps the order within each salary is exactly the sort's result |
| Streams.SortBySalaryIdempotent | src/main/java/org/example/GenericsStreamsLambda/Streams.java:61-67 | sorting already sorted input returns it unchanged, and sorting twice equals sorting once |
| Streams.SortBySalaryKeepsTieOrder | src/main/java/org/example/GenericsStreamsLambda/Streams.java:63 | [A 90000, B 90000, C 50000] sorts to [C, A, B]: the tied pair keeps its input order |
| Streams.SortTiedPair | src/main/java/org/example/GenericsStreamsLambda/Streams.java:63 | two employees with the same salary stay in input order |
| Streams.InsertBelowTiedPair | src/main/java/org/example/GenericsStreamsLambda/Streams.java:63 | a lower salary is placed in front of a tied pair without reordering it |
| Streams.SalaryBracket | src/main/java/org/example/GenericsStreamsLambda/Streams.java:71-75 | "Below 60,000" iff salary < 60000, "60,000 - 100,000" iff 60000 <= salary <= 100000, "Above 100,000" iff salary > 100000 |
| Streams.GroupBySalary | src/main/java/org/example/GenericsStreamsLambda/Streams.java:70-75 | `groupingBy` over the brackets: every key is one of the three labels and no key maps to an empty list; with `GroupBySalaryBuckets`, the list under each bracket is exactly that bracket's employees in input order |
| Streams.GroupBySalaryBuckets | src/main/java/org/example/GenericsStreamsLambda/Streams.java:69-77 | a bracket is a key iff some employee falls in it; its list is the employees of that bracket in input order |
| Streams.GroupBySalaryPartitions | src/main/java/org/example/GenericsStreamsLambda/Streams.java:69-77 | the keys are among the three labels; every employee is in its own bracket's list, and an employee listed under a key belongs to that bracket |
| Streams.GroupBySalarySizes | src/main/java/org/example/GenericsStreamsLambda/Streams.java:69-77 | the three lists together hold exactly as many employees as the input |
| Streams.GroupBySalarySnoc | src/main/java/org/example/GenericsStreamsLambda/Streams.java:70-75 | one more employee is appended to its bracket's list, and the list is created on first use |
| Streams.NamesStartingWithAOnFixedData | src/main/java/org/example/GenericsStreamsLambda/Streams.java:9 | on the class's names, the "A" filter gives [Alice, Adam] |
| Streams.GetNamesStartingWithA | src/main/java/org/example/GenericsStreamsLambda/Streams.java:21-27 | getNamesStartingWithA returns [Alice, Adam] |
| Streams.NumbersGreaterThan50OnFixedData | src/main/java/org/example/GenericsStreamsLambda/Streams.java:11 | on the class's numbers, the "> 50" filter gives [68, 72, 89, 91] |
| Streams.GetNumbersGreaterThan50 | src/main/java/org/example/GenericsStreamsLambda/Streams.java:29-35 | getNumbersGreaterThan50 returns [68, 72, 89, 91] |
| Streams.UppercasedOnFixedData | src/main/java/org/example/GenericsStreamsLambda/Streams.java:9 | the class's names upper-case to ALICE, BOB, CHARLIE, DAVID, EVE, FRANK, ADAM |
| Streams.UppercaseNames | src/main/java/org/example/GenericsStreamsLambda/Streams.java:37-43 | uppercaseNames returns the upper-cased fixed names |
| Streams.GetLengthOfNames | src/main/java/org/example/GenericsStreamsLambda/Streams.java:45-51 | getLengthOfNames returns [5, 3, 7, 5, 3, 5, 4] |
| Streams.GetEmployeeSalary | src/main/java/org/example/GenericsStreamsLambda/Streams.java:53-59 | getEmployeeSalary returns [50000, 60000, 75000, 90000, 120000] |
| Streams.SortBySalaryOnFixedData | src/main/java/org/example/GenericsStreamsLambda/Streams.java:13-19 | the class's employees are already in salary order, so sorting returns them unchanged |
| Streams.SortEmployeeBySalary | src/main/java/org/example/GenericsStreamsLambda/Streams.java:61-67 | sortEmployeeBySalary returns John, Jane, Jake, Emily, Mike |
| Streams.GroupBySalaryOnFixedPrefix | src/main/java/org/example/GenericsStreamsLambda/Streams.java:13-16 | grouping John, Jane and Jake gives [John] below 60,000 and [Jane, Jake] in the middle bracket |
| Streams.GroupBySalaryOnFixedData | src/main/java/org/example/GenericsStreamsLambda/Streams.java:13-19 | grouping the class's employees gives all three keys: [John], [Jane, Jake, Emily], [Mike] |
| Streams.GroupEmployeeBySalary | src/main/java/org/example/GenericsStreamsLambda/Streams.java:69-77 | groupEmployeeBySalary returns the three-key map above |
| Decimal.NatToDecimal | src/main/java/org/example/ObjectOrientatedProgramming/OOPDesignGoals/Animal.java:60 | a natural renders as a non-empty digit string with no leading zero; it starts with '0' iff the number is 0 |
| Decimal.IntToDecimal | src/main/java/org/example/ObjectOrientatedProgramming/OOPDesignGoals/Animal.java:60 | the text of `+ age`: non-empty, starting with '-' iff the number is negative, followed by digits with no leading zero; with `IntToDecimalRoundTrip` and `IntToDecimalInjective` it reads back as the number and distinct numbers give distinct texts |
| Decimal.NatToDecimalValue | src/main/java/org/example/ObjectOrientatedProgramming/OOPDesignGoals/Animal.java:60 | the digits of a rendered natural read back as that natural |
| Decimal.IntToDecimalRoundTrip | src/main/java/org/example/ObjectOrientatedProgramming/OOPDesignGoals/Animal.java:60 | parsing the decimal text of any integer, sign included, gives the integer back |
| Decimal.IntToDecimalInjective | src/main/java/org/example/ObjectOrientatedProgramming/OOPDesignGoals/Animal.java:60 | distinct integers render as distinct texts |
| OOPDesignGoals.DefaultIsAlive | src/main/java/org/example/ObjectOrientatedProgramming/OOPDesignGoals/Organism.java:15-17 | the default liveness is true: an organism that does not override isAlive is alive |
| OOPDesignGoals.Animal.constructor | src/main/java/org/example/ObjectOrientatedProgramming/OOPDesignGoals/Animal.java:12-15 | species and age are stored exactly as given, with no check on the age |
| OOPDesignGoals.Animal.IsAlive | src/main/java/org/example/ObjectOrientatedProgramming/OOPDesignGoals/Organism.java:15-17 | an animal is alive, keeping the interface's default liveness |
| OOPDesignGoals.Animal.GetSpecies | src/main/java/org/example/ObjectOrientatedProgramming/OOPDesignGoals/Animal.java:29-31 | returns the current species and changes nothing |
| OOPDesignGoals.Animal.SetSpecies | src/main/java/org/example/ObjectOrientatedProgramming/OOPDesignGoals/Animal.java:34-36 | the species becomes the argument and the age is unchanged |
| OOPDesignGoals.Animal.GetAge | src/main/java/org/example/ObjectOrientatedProgramming/OOPDesignGoals/Animal.java:39-41 | returns the current age and changes nothing |
| OOPDesignGoals.Animal.SetAge | src/main/java/org/example/ObjectOrientatedProgramming/OOPDesignGoals/Animal.java:44-50 | a non-negative argument becomes the age; a negative one leaves the age unchanged; the species never changes; a non-negative age stays non-negative |
| OOPDesignGoals.Animal.ToString | src/main/java/org/example/ObjectOrientatedProgramming/OOPDesignGoals/Animal.java:59-61 | the text is "Species: " + species + ", Age: " followed by Java's canonical decimal text of the age (a '-' exactly when negative, no leading zero), and that age text parses back as the age |
| OOPDesignGoals.GreyhoundScenario | src/main/java/org/example/ObjectOrientatedProgramming/OOPDesignGoals/Animal.java:34-50 | a Greyhound aged 4 keeps age 4 after setAge(-1), then has age 5 and species Whippet after the two setters |
| OOPDesignGoals.NegativeAgeAtConstruction | src/main/java/org/example/ObjectOrientatedProgramming/OOPDesignGoals/Animal.java:12-15 | an animal built with a negative age reports a negative age |
| ObjectOrientatedProgramming.Plant.constructor | src/main/java/org/example/ObjectOrientatedProgramming/Plant.java:10-13 | species and flowering flag are stored exactly as given |
| ObjectOrientatedProgramming.Plant.IsAlive | src/main/java/org/example/ObjectOrientatedProgramming/Plant.java:27-30 | liveness is the flowering flag |
| ObjectOrientatedProgramming.Plant.GetSpecies | src/main/java/org/example/ObjectOrientatedProgramming/Plant.java:32-35 | returns the species given at construction |
| ObjectOrientatedProgramming.Plant.SetSpecies | src/main/java/org/example/ObjectOrientatedProgramming/Plant.java:37-40 | changes no field for any argument |
| ObjectOrientatedProgramming.Plant.GetAge | src/main/java/org/example/ObjectOrientatedProgramming/Plant.java:42-45 | always 0 |
| ObjectOrientatedProgramming.Plant.SetAge | src/main/java/org/example/ObjectOrientatedProgramming/Plant.java:47-50 | changes no field for any argument |
| ObjectOrientatedProgramming.RoseScenario | src/main/java/org/example/ObjectOrientatedProgramming/Plant.java:27-50 | a flowering Rose still reports Rose, age 0 and alive after both setters; a rose that is not flowering is not alive, unlike the interface default |
| ClassesObjects.Scored | src/main/java/org/example/ObjectOrientatedProgramming/ClassesObjects/Player.java:27 | `goals++` adds one below the largest int, and wraps the largest int to the smallest |
| ClassesObjects.GoalsCountScores | src/main/java/org/example/ObjectOrientatedProgramming/ClassesObjects/Player.java:26-28 | a counter starting at 0 that is incremented k times reads k, for every k up to the largest int |
| ClassesObjects.ScoreFreshPlayer | src/main/java/org/example/ObjectOrientatedProgramming/ClassesObjects/Player.java:14-28 | a new named player that scores k times, for any k up to the largest int, reports k goals and keeps its name and salary of 100 |
| ClassesObjects.Player.Unnamed | src/main/java/org/example/ObjectOrientatedProgramming/ClassesObjects/Player.java:12 | `Player()` leaves the name unset and goals and salary at 0 |
| ClassesObjects.Player.constructor | src/main/java/org/example/ObjectOrientatedProgramming/ClassesObjects/Player.java:14-19 | `Player(name)` stores the name, 0 goals and a salary of 100 |
| ClassesObjects.Player.PublicScoreGoalMethod | src/main/java/org/example/ObjectOrientatedProgramming/ClassesObjects/Player.java:26-28 | goals becomes its 32-bit increment; name and salary are unchanged |
| ClassesObjects.Player.GetSalary | src/main/java/org/example/ObjectOrientatedProgramming/ClassesObjects/Player.java:31-33 | returns the salary and changes nothing |
| ClassesObjects.Player.GetName | src/main/java/org/example/ObjectOrientatedProgramming/ClassesObjects/Player.java:36-38 | returns the name and changes nothing |
| ClassesObjects.Player.GetGoals | src/main/java/org/example/ObjectOrientatedProgramming/ClassesObjects/Player.java:41-43 | returns the goal count and changes nothing |
| ClassesObjects.LampardScenario | src/main/java/org/example/ObjectOrientatedProgramming/OOP.java:13-17 | a new player "Lampard" keeps its name and has 0 goals, then 1 after scoring |
| InterfaceAbstract.Quadrilateral.constructor | src/main/java/org/example/ObjectOrientatedProgramming/InterfaceAbstract/Quadrilateral.java:7-10 | height and length are stored exactly as given |
| InterfaceAbstract.Quadrilateral.Rectangle | src/main/java/org/example/ObjectOrientatedProgramming/InterfaceAbstract/Rectangle.java:5-7 | `Rectangle(h, l)` forwards both values unchanged |
| InterfaceAbstract.Quadrilateral.CalculateArea | src/main/java/org/example/ObjectOrientatedProgramming/InterfaceAbstract/Quadrilateral.java:12-14 | the exact product when it fits in an int; otherwise the int congruent to the product modulo 2^32; no field changes |
| InterfaceAbstract.RectangleScenario | src/main/java/org/example/ObjectOrientatedProgramming/OOP.java:30-32 | a 2 by 3 rectangle has area 6 |
| JavaInt.Wrap | src/main/java/org/example/ObjectOrientatedProgramming/InterfaceAbstract/Quadrilateral.java:13 | the result is an int congruent to the argument modulo 2^32, and equal to it when it is in range |
| JavaInt.WrapUnique | src/main/java/org/example/ObjectOrientatedProgramming/InterfaceAbstract/Quadrilateral.java:13 | exactly one int is congruent to a given integer modulo 2^32, so the wrapped result is determined |

## Left out

- Console output is I/O only and is not modelled. This covers `respire`, `makeSound`, `move`, `grow`, `draw`, `shout` and the program entry point. So the "Age cannot be negative." message of `setAge` is not modelled either; only its effect on the state is.
- The `Canidae`/`Dog` overrides of `respire` and `move` differ only in printed text. `Canidae.java` and `Dog.java` are not part of this model, beyond the Greyhound of the zoo, which appears as a plain `Animal`.
- `Zoo.java`, `POJO.java`, `Exceptions.java` and `Main.java` are not part of this model. They are printing drivers, plain getters and setters over a `double`, and exception demonstrations.
- Inheritance:
  - `Animal` is abstract in the source, but here it is a concrete class, since Dafny classes cannot extend classes.
  - `Rectangle` is the named constructor `Quadrilateral.Rectangle`, for the same reason.
  - `Organism.isAlive`'s default is the function `OOPDesignGoals.DefaultIsAlive`. `Animal.IsAlive` returns it; `Plant.IsAlive` overrides it with the flowering flag, and `RoseScenario` shows that the two differ.
- Streams.ToUpperCase: upper-cases ASCII letters only. Java's `toUpperCase` is locale- and Unicode-dependent (`ß` becomes `SS`, which also changes the length).
- Streams.NameLengths: counts characters. Java's `length` counts UTF-16 code units, and the two differ outside the basic plane.
- Streams.SortBySalary: a stable insertion sort. It is not Java's merge-based sort, but `SortBySalaryUnique` shows that every sort with the same promised properties returns the same list.
- Streams.GroupBySalary: a `map` without key order. The key iteration order of the `HashMap` that `groupingBy` returns is unspecified.
- Streams.Employee: the `Employee` class is not part of this model. It is a datatype with a name and an unbounded integer salary.
- Repeating a query gives equal results. This holds because every query is a function of the immutable lists, so there is no separate lemma for it.
- OOPDesignGoals.Animal.SetAge: the invariant "age is never negative" holds only from a non-negative start. The constructor stores a negative age as given, and `NegativeAgeAtConstruction` exhibits this.
- `Player.name` may be Java `null` after `Player()`. It is an `Option`, with `None` standing for `null`.
- Null strings passed in are not modelled. Java accepts `null` as the species in `new Animal(null, n)`, `setSpecies(null)` and `new Plant(null, b)`, and as the name in `new Player(null)`; `toString` then renders "Species: null, Age: n". Here those fields are plain strings, and `Player(name)` always yields `Some(name)`.
- `getSalary` is private in the source. Here it is an ordinary method, since access control is not modelled.
