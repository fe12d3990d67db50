/**
 * The collection queries of the Streams class: each is a stream pipeline
 * over an immutable list, modelled as a function over an arbitrary sequence
 * with the prefix or threshold as a parameter, plus the class's own
 * zero-argument queries over its fixed lists.
 */
module Streams {
  import opened StreamOps

  /** An employee record (`getName`, `getSalary`). */
  datatype Employee = Employee(name: string, salary: int)

  /* ---------------- the class's fixed lists ---------------- */

  const Names: seq<string> := ["Alice", "Bob", "Charlie", "David", "Eve", "Frank", "Adam"]

  const Numbers: seq<int> := [10, 25, 33, 47, 50, 68, 72, 89, 91]

  const Employees: seq<Employee> := [
    Employee("John", 50000),
    Employee("Jane", 60000),
    Employee("Jake", 75000),
    Employee("Emily", 90000),
    Employee("Mike", 120000)
  ]

  /* ---------------- filters ---------------- */

  /** Case-sensitive `String.startsWith(prefix)`. */
  function StartsWith(prefix: string): string -> bool
  {
    (name: string) => prefix <= name
  }

  /** `number > threshold`. */
  function GreaterThan(threshold: int): int -> bool
  {
    (n: int) => n > threshold
  }

  /** The names that start with `prefix`, in input order. */
  function NamesStartingWith(names: seq<string>, prefix: string): (r: seq<string>)
    ensures forall name :: name in r <==> name in names && prefix <= name
  {
    FilterMembers(names, StartsWith(prefix));
    Filter(names, StartsWith(prefix))
  }

  /** The numbers strictly greater than `threshold`, in input order. */
  function NumbersGreaterThan(numbers: seq<int>, threshold: int): (r: seq<int>)
    ensures forall n :: n in r <==> n in numbers && n > threshold
  {
    FilterMembers(numbers, GreaterThan(threshold));
    Filter(numbers, GreaterThan(threshold))
  }

  /** The prefix filter keeps the passing names at their input positions, in input order, duplicates included. */
  lemma NamesStartingWithInOrder(names: seq<string>, prefix: string)
    ensures PicksInOrder(names, NamesStartingWith(names, prefix), KeptPositions(names, StartsWith(prefix)))
    ensures forall i :: 0 <= i < |names| ==> (i in KeptPositions(names, StartsWith(prefix)) <==> prefix <= names[i])
  {
    FilterPicksInOrder(names, StartsWith(prefix));
  }

  /** The threshold filter keeps the passing numbers at their input positions, in input order, duplicates included. */
  lemma NumbersGreaterThanInOrder(numbers: seq<int>, threshold: int)
    ensures PicksInOrder(numbers, NumbersGreaterThan(numbers, threshold), KeptPositions(numbers, GreaterThan(threshold)))
    ensures forall i :: 0 <= i < |numbers| ==> (i in KeptPositions(numbers, GreaterThan(threshold)) <==> numbers[i] > threshold)
  {
    FilterPicksInOrder(numbers, GreaterThan(threshold));
  }

  /* ---------------- element-wise maps ---------------- */

  predicate IsLower(c: char) { 'a' <= c <= 'z' }

  /** Upper-casing of one character, restricted to the ASCII letters. */
  function UpperChar(c: char): (u: char)
    ensures !IsLower(u)
    ensures u == c || (IsLower(c) && u as int == c as int - 32)
  {
    if IsLower(c) then (c as int - 32) as char else c
  }

  /** `String.toUpperCase` on ASCII text: same length, each character upper-cased. */
  function ToUpperCase(s: string): (r: string)
    ensures |r| == |s|
    ensures forall i :: 0 <= i < |s| ==> r[i] == UpperChar(s[i])
  {
    Map(s, UpperChar)
  }

  /** Every name upper-cased, position by position. */
  function Uppercased(names: seq<string>): (r: seq<string>)
    ensures |r| == |names|
    ensures forall i :: 0 <= i < |names| ==> r[i] == ToUpperCase(names[i])
  {
    Map(names, ToUpperCase)
  }

  /** The length of every name, position by position. */
  function NameLengths(names: seq<string>): (r: seq<int>)
    ensures |r| == |names|
    ensures forall i :: 0 <= i < |names| ==> r[i] == |names[i]|
  {
    Map(names, (name: string) => |name|)
  }

  /** The salary of every employee, position by position. */
  function Salaries(employees: seq<Employee>): (r: seq<int>)
    ensures |r| == |employees|
    ensures forall i :: 0 <= i < |employees| ==> r[i] == employees[i].salary
  {
    Map(employees, (e: Employee) => e.salary)
  }

  /** Upper-casing text that is already upper-cased changes nothing. */
  lemma UppercasedIdempotent(names: seq<string>)
    ensures Uppercased(Uppercased(names)) == Uppercased(names)
  {
    var once := Uppercased(names);
    forall i | 0 <= i < |names|
      ensures ToUpperCase(once[i]) == once[i]
    {
      var s := once[i];
      assert forall j :: 0 <= j < |s| ==> UpperChar(s[j]) == s[j];
    }
  }

  /* ---------------- stable sort by salary ---------------- */

  predicate SortedBySalary(s: seq<Employee>)
  {
    forall i, j :: 0 <= i < j < |s| ==> s[i].salary <= s[j].salary
  }

  function PaidExactly(salary: int): Employee -> bool
  {
    (e: Employee) => e.salary == salary
  }

  /** The employees of `s` paid exactly `salary`, in their order in `s`. */
  function WithSalary(s: seq<Employee>, salary: int): seq<Employee>
  {
    Filter(s, PaidExactly(salary))
  }

  /** Places `e` after every element of `t`, from the end, whose salary is at most e's. */
  function InsertBySalary(t: seq<Employee>, e: Employee): (r: seq<Employee>)
    ensures multiset(r) == multiset(t) + multiset{e}
  {
    if t == [] || t[|t| - 1].salary <= e.salary then t + [e]
    else
      var front, last := t[..|t| - 1], t[|t| - 1];
      assert t == front + [last];
      InsertBySalary(front, e) + [last]
  }

  /** Inserting into a sequence sorted by salary keeps it sorted. */
  lemma {:induction false} InsertKeepsSorted(t: seq<Employee>, e: Employee)
    requires SortedBySalary(t)
    ensures SortedBySalary(InsertBySalary(t, e))
  {
    if t != [] && t[|t| - 1].salary > e.salary {
      var front, last := t[..|t| - 1], t[|t| - 1];
      InsertKeepsSorted(front, e);
      var inserted := InsertBySalary(front, e);
      forall i | 0 <= i < |inserted|
        ensures inserted[i].salary <= last.salary
      {
        assert inserted[i] in multiset(inserted);
        assert inserted[i] in multiset(front) || inserted[i] == e;
        if inserted[i] != e {
          var j :| 0 <= j < |front| && front[j] == inserted[i];
          assert t[j] == front[j];
        }
      }
    }
  }

  /** Unfolds WithSalary at the last element. */
  lemma WithSalaryLast(s: seq<Employee>, salary: int)
    requires s != []
    ensures WithSalary(s, salary)
         == WithSalary(s[..|s| - 1], salary) + if s[|s| - 1].salary == salary then [s[|s| - 1]] else []
  {
  }

  /** Inserting `e` puts it after every employee of `t` with the same salary. */
  lemma {:induction false} InsertKeepsTies(t: seq<Employee>, e: Employee, salary: int)
    ensures WithSalary(InsertBySalary(t, e), salary)
         == WithSalary(t, salary) + if e.salary == salary then [e] else []
  {
    if t == [] || t[|t| - 1].salary <= e.salary {
      assert InsertBySalary(t, e) == t + [e];
      WithSalaryLast(t + [e], salary);
      assert (t + [e])[..|t|] == t;
    } else {
      var front, last := t[..|t| - 1], t[|t| - 1];
      var inserted := InsertBySalary(front, e);
      assert InsertBySalary(t, e) == inserted + [last];
      InsertKeepsTies(front, e, salary);
      InsertPastLast(front, last, inserted, e, salary);
    }
  }

  /** The inductive step of InsertKeepsTies, where `e` moves past `last`. */
  lemma InsertPastLast(front: seq<Employee>, last: Employee, inserted: seq<Employee>, e: Employee, salary: int)
    requires last.salary > e.salary
    requires WithSalary(inserted, salary)
          == WithSalary(front, salary) + if e.salary == salary then [e] else []
    ensures WithSalary(inserted + [last], salary)
         == WithSalary(front + [last], salary) + if e.salary == salary then [e] else []
  {
    WithSalaryLast(inserted + [last], salary);
    assert (inserted + [last])[..|inserted|] == inserted;
    WithSalaryLast(front + [last], salary);
    assert (front + [last])[..|front|] == front;
  }

  /**
   * `sorted(Comparator.comparing(Employee::getSalary))`: a permutation of the
   * input, non-decreasing in salary, and stable, i.e. the employees sharing a
   * salary appear in their input order.
   */
  function SortBySalary(employees: seq<Employee>): (r: seq<Employee>)
    ensures SortedBySalary(r)
    ensures multiset(r) == multiset(employees)
    ensures forall salary :: WithSalary(r, salary) == WithSalary(employees, salary)
  {
    if employees == [] then []
    else
      var front, last := employees[..|employees| - 1], employees[|employees| - 1];
      assert employees == front + [last];
      var sorted := SortBySalary(front);
      InsertKeepsSorted(sorted, last);
      var r := InsertBySalary(sorted, last);
      assert forall salary :: WithSalary(r, salary) == WithSalary(employees, salary) by {
        forall salary
          ensures WithSalary(r, salary) == WithSalary(employees, salary)
        {
          InsertKeepsTies(sorted, last, salary);
        }
      }
      r
  }

  /** In a sequence sorted by salary, the last element has the largest salary. */
  lemma LastIsHighestPaid(s: seq<Employee>, x: Employee)
    requires SortedBySalary(s) && x in s
    ensures x.salary <= s[|s| - 1].salary
  {
    var i :| 0 <= i < |s| && s[i] == x;
  }

  /**
   * Sortedness and stability pin the result down: two sequences sorted by
   * salary that agree on the order of each salary's employees are equal.
   */
  lemma {:induction false} SortedTiesDetermine(a: seq<Employee>, b: seq<Employee>)
    requires SortedBySalary(a) && SortedBySalary(b)
    requires forall salary :: WithSalary(a, salary) == WithSalary(b, salary)
    ensures a == b
    decreases |a| + |b|
  {
    if a == [] && b == [] {
    } else if a == [] {
      var y := b[|b| - 1];
      WithSalaryLast(b, y.salary);
      assert false;
    } else if b == [] {
      var x := a[|a| - 1];
      WithSalaryLast(a, x.salary);
      assert false;
    } else {
      var a', x := a[..|a| - 1], a[|a| - 1];
      var b', y := b[..|b| - 1], b[|b| - 1];
      var m := x.salary;
      WithSalaryLast(a, m);
      assert x in WithSalary(b, m);
      FilterMembers(b, PaidExactly(m));
      LastIsHighestPaid(b, x);
      WithSalaryLast(b, y.salary);
      assert y in WithSalary(a, y.salary);
      FilterMembers(a, PaidExactly(y.salary));
      LastIsHighestPaid(a, y);
      assert y.salary == m;
      var am, bm := WithSalary(a', m), WithSalary(b', m);
      assert am + [x] == bm + [y];
      assert am == (am + [x])[..|am|];
      assert bm == (bm + [y])[..|bm|];
      assert am == bm;
      forall salary
        ensures WithSalary(a', salary) == WithSalary(b', salary)
      {
        if salary != m {
          WithSalaryLast(a, salary);
          WithSalaryLast(b, salary);
          assert WithSalary(a, salary) == WithSalary(a', salary) + [] == WithSalary(a', salary);
          assert WithSalary(b, salary) == WithSalary(b', salary) + [] == WithSalary(b', salary);
        }
      }
      SortedTiesDetermine(a', b');
    }
  }

  /** Any sorted, stable rearrangement of the input is the one SortBySalary returns. */
  lemma SortBySalaryUnique(employees: seq<Employee>, r: seq<Employee>)
    requires SortedBySalary(r)
    requires forall salary :: WithSalary(r, salary) == WithSalary(employees, salary)
    ensures r == SortBySalary(employees)
  {
    SortedTiesDetermine(r, SortBySalary(employees));
  }

  /** Sorting input that is already sorted by salary returns it unchanged; so sorting twice is sorting once. */
  lemma SortBySalaryIdempotent(employees: seq<Employee>)
    ensures SortedBySalary(employees) ==> SortBySalary(employees) == employees
    ensures SortBySalary(SortBySalary(employees)) == SortBySalary(employees)
  {
    if SortedBySalary(employees) {
      SortBySalaryUnique(employees, employees);
    }
    var once := SortBySalary(employees);
    SortBySalaryUnique(once, once);
  }

  /* ---------------- group by salary bracket ---------------- */

  const BelowLabel: string := "Below 60,000"
  const MiddleLabel: string := "60,000 - 100,000"
  const AboveLabel: string := "Above 100,000"

  /** The bracket an employee's salary falls in; the three brackets cover every salary once. */
  function SalaryBracket(salary: int): (bracket: string)
    ensures bracket == BelowLabel <==> salary < 60000
    ensures bracket == MiddleLabel <==> 60000 <= salary <= 100000
    ensures bracket == AboveLabel <==> salary > 100000
  {
    if salary < 60000 then BelowLabel
    else if salary <= 100000 then MiddleLabel
    else AboveLabel
  }

  function FallsIn(bracket: string): Employee -> bool
  {
    (e: Employee) => SalaryBracket(e.salary) == bracket
  }

  /** The employees of `s` whose salary falls in bracket `bracket`, in their order in `s`. */
  function InBracket(s: seq<Employee>, bracket: string): seq<Employee>
  {
    Filter(s, FallsIn(bracket))
  }

  /** The list under `bracket`, or the empty list when the key is absent. */
  function Bucket(groups: map<string, seq<Employee>>, bracket: string): seq<Employee>
  {
    if bracket in groups then groups[bracket] else []
  }

  /**
   * `Collectors.groupingBy(bracket)`: each employee, in encounter order, is
   * appended to the list under its bracket, the list being created on first
   * use.
   */
  function GroupBySalary(employees: seq<Employee>): (groups: map<string, seq<Employee>>)
    ensures groups.Keys <= {BelowLabel, MiddleLabel, AboveLabel}
    ensures forall bracket :: bracket in groups ==> groups[bracket] != []
  {
    if employees == [] then map[]
    else
      var groups := GroupBySalary(employees[..|employees| - 1]);
      var e := employees[|employees| - 1];
      var bracket := SalaryBracket(e.salary);
      groups[bracket := Bucket(groups, bracket) + [e]]
  }

  /**
   * A key is present exactly when its bracket holds some employee, and its
   * list is that bracket's employees in input order.
   */
  lemma {:induction false} GroupBySalaryBuckets(employees: seq<Employee>)
    ensures forall bracket :: bracket in GroupBySalary(employees) <==> InBracket(employees, bracket) != []
    ensures forall bracket :: Bucket(GroupBySalary(employees), bracket) == InBracket(employees, bracket)
  {
    if employees != [] {
      var front, e := employees[..|employees| - 1], employees[|employees| - 1];
      GroupBySalaryBuckets(front);
      forall bracket
        ensures InBracket(employees, bracket)
             == InBracket(front, bracket) + if SalaryBracket(e.salary) == bracket then [e] else []
      {
      }
    }
  }

  /** Every employee lands in the bucket of its own bracket and in no other; the keys are among the three labels. */
  lemma GroupBySalaryPartitions(employees: seq<Employee>)
    ensures GroupBySalary(employees).Keys <= {BelowLabel, MiddleLabel, AboveLabel}
    ensures forall e :: e in employees ==> e in Bucket(GroupBySalary(employees), SalaryBracket(e.salary))
    ensures forall e, bracket :: bracket in GroupBySalary(employees) && e in GroupBySalary(employees)[bracket]
              ==> bracket == SalaryBracket(e.salary)
  {
    var groups := GroupBySalary(employees);
    GroupBySalaryBuckets(employees);
    forall bracket | bracket in groups
      ensures bracket in {BelowLabel, MiddleLabel, AboveLabel}
    {
      var e := InBracket(employees, bracket)[0];
      FilterMembers(employees, FallsIn(bracket));
      assert e in InBracket(employees, bracket);
    }
    forall e | e in employees
      ensures e in Bucket(groups, SalaryBracket(e.salary))
    {
      FilterMembers(employees, FallsIn(SalaryBracket(e.salary)));
    }
    forall e: Employee, bracket | bracket in groups && e in groups[bracket]
      ensures bracket == SalaryBracket(e.salary)
    {
      FilterMembers(employees, FallsIn(bracket));
      assert groups[bracket] == Bucket(groups, bracket);
    }
  }

  /** The three buckets together hold exactly as many employees as the input. */
  lemma {:induction false} GroupBySalarySizes(employees: seq<Employee>)
    ensures var groups := GroupBySalary(employees);
      |Bucket(groups, BelowLabel)| + |Bucket(groups, MiddleLabel)| + |Bucket(groups, AboveLabel)| == |employees|
  {
    if employees != [] {
      GroupBySalarySizes(employees[..|employees| - 1]);
    }
  }

  /* ---------------- the class's own queries over its fixed lists ---------------- */

  lemma NamesStartingWithAOnFixedData()
    ensures NamesStartingWith(Names, "A") == ["Alice", "Adam"]
  {
    var n0, n1, n2, n3, n4, n5, n6 := "Alice", "Bob", "Charlie", "David", "Eve", "Frank", "Adam";
    var p := StartsWith("A");
    assert p(n0) && p(n6);
    assert !p(n1) by { assert n1[0] != 'A'; }
    assert !p(n2) by { assert n2[0] != 'A'; }
    assert !p(n3) by { assert n3[0] != 'A'; }
    assert !p(n4) by { assert n4[0] != 'A'; }
    assert !p(n5) by { assert n5[0] != 'A'; }
    FilterSnoc([], n0, p);
    assert Filter([n0], p) == [n0];
    FilterSnoc([n0], n1, p);
    assert [n0] + [n1] == [n0, n1];
    assert Filter([n0, n1], p) == [n0];
    FilterSnoc([n0, n1], n2, p);
    assert [n0, n1] + [n2] == [n0, n1, n2];
    assert Filter([n0, n1, n2], p) == [n0];
    FilterSnoc([n0, n1, n2], n3, p);
    assert [n0, n1, n2] + [n3] == [n0, n1, n2, n3];
    assert Filter([n0, n1, n2, n3], p) == [n0];
    FilterSnoc([n0, n1, n2, n3], n4, p);
    assert [n0, n1, n2, n3] + [n4] == [n0, n1, n2, n3, n4];
    assert Filter([n0, n1, n2, n3, n4], p) == [n0];
    FilterSnoc([n0, n1, n2, n3, n4], n5, p);
    assert [n0, n1, n2, n3, n4] + [n5] == [n0, n1, n2, n3, n4, n5];
    assert Filter([n0, n1, n2, n3, n4, n5], p) == [n0];
    FilterSnoc([n0, n1, n2, n3, n4, n5], n6, p);
    assert [n0, n1, n2, n3, n4, n5] + [n6] == Names;
    assert Filter(Names, p) == [n0, n6];
  }

  /** getNamesStartingWithA */
  function GetNamesStartingWithA(): (r: seq<string>)
    ensures r == ["Alice", "Adam"]
  {
    NamesStartingWithAOnFixedData();
    NamesStartingWith(Names, "A")
  }

  lemma NumbersGreaterThan50OnFixedData()
    ensures NumbersGreaterThan(Numbers, 50) == [68, 72, 89, 91]
  {
    var p := GreaterThan(50);
    var low, high := [10, 25, 33, 47, 50], [68, 72, 89, 91];
    assert Filter(low, p) == [] by {
      FilterNoneKept(low, p);
    }
    assert Filter(high, p) == high by {
      FilterAllKept(high, p);
    }
    assert Filter(Numbers, p) == Filter(low, p) + Filter(high, p) by {
      assert Numbers == low + high;
      FilterAppend(low, high, p);
    }
    assert [] + high == high;
  }

  /** getNumbersGreaterThan50: 50 itself is left out. */
  function GetNumbersGreaterThan50(): (r: seq<int>)
    ensures r == [68, 72, 89, 91]
  {
    NumbersGreaterThan50OnFixedData();
    NumbersGreaterThan(Numbers, 50)
  }

  lemma UppercasedOnFixedData()
    ensures Uppercased(Names) == ["ALICE", "BOB", "CHARLIE", "DAVID", "EVE", "FRANK", "ADAM"]
  {
    assert ToUpperCase("Alice") == "ALICE";
    assert ToUpperCase("Bob") == "BOB";
    assert ToUpperCase("Charlie") == "CHARLIE";
    assert ToUpperCase("David") == "DAVID";
    assert ToUpperCase("Eve") == "EVE";
    assert ToUpperCase("Frank") == "FRANK";
    assert ToUpperCase("Adam") == "ADAM";
  }

  /** uppercaseNames */
  function UppercaseNames(): (r: seq<string>)
    ensures r == ["ALICE", "BOB", "CHARLIE", "DAVID", "EVE", "FRANK", "ADAM"]
  {
    UppercasedOnFixedData();
    Uppercased(Names)
  }

  /** getLengthOfNames */
  function GetLengthOfNames(): (r: seq<int>)
    ensures r == [5, 3, 7, 5, 3, 5, 4]
  {
    NameLengths(Names)
  }

  /** getEmployeeSalary */
  function GetEmployeeSalary(): (r: seq<int>)
    ensures r == [50000, 60000, 75000, 90000, 120000]
  {
    Salaries(Employees)
  }

  lemma SortBySalaryOnFixedData()
    ensures SortBySalary(Employees) == Employees
  {
    assert SortedBySalary(Employees);
    SortBySalaryIdempotent(Employees);
  }

  /** sortEmployeeBySalary: the fixed list is already in salary order. */
  function SortEmployeeBySalary(): (r: seq<Employee>)
    ensures r == Employees
  {
    SortBySalaryOnFixedData();
    SortBySalary(Employees)
  }

  /** GroupBySalary consumes its input from the front, one employee at a time. */
  lemma GroupBySalarySnoc(employees: seq<Employee>, e: Employee)
    ensures var groups := GroupBySalary(employees);
      GroupBySalary(employees + [e])
        == groups[SalaryBracket(e.salary) := Bucket(groups, SalaryBracket(e.salary)) + [e]]
  {
    assert (employees + [e])[..|employees|] == employees;
  }

  lemma GroupBySalaryOnFixedPrefix()
    ensures GroupBySalary([Employee("John", 50000), Employee("Jane", 60000), Employee("Jake", 75000)])
         == map[BelowLabel := [Employee("John", 50000)],
                MiddleLabel := [Employee("Jane", 60000), Employee("Jake", 75000)]]
  {
    var john, jane, jake := Employee("John", 50000), Employee("Jane", 60000), Employee("Jake", 75000);
    var g1 := map[BelowLabel := [john]];
    var g2 := map[BelowLabel := [john], MiddleLabel := [jane]];
    var g3 := map[BelowLabel := [john], MiddleLabel := [jane, jake]];
    assert GroupBySalary([john]) == g1 by {
      assert [] + [john] == [john];
      GroupBySalarySnoc([], john);
    }
    assert GroupBySalary([john, jane]) == g2 by {
      assert [john] + [jane] == [john, jane];
      assert Bucket(g1, MiddleLabel) + [jane] == [jane];
      GroupBySalarySnoc([john], jane);
    }
    assert GroupBySalary([john, jane, jake]) == g3 by {
      assert [john, jane] + [jake] == [john, jane, jake];
      assert Bucket(g2, MiddleLabel) + [jake] == [jane, jake];
      assert g2[MiddleLabel := [jane, jake]] == g3;
      GroupBySalarySnoc([john, jane], jake);
    }
  }

  lemma GroupBySalaryOnFixedData()
    ensures GroupBySalary(Employees) == map[
      BelowLabel := [Employee("John", 50000)],
      MiddleLabel := [Employee("Jane", 60000), Employee("Jake", 75000), Employee("Emily", 90000)],
      AboveLabel := [Employee("Mike", 120000)]]
  {
    var john, jane, jake := Employee("John", 50000), Employee("Jane", 60000), Employee("Jake", 75000);
    var emily, mike := Employee("Emily", 90000), Employee("Mike", 120000);
    var g3 := map[BelowLabel := [john], MiddleLabel := [jane, jake]];
    var g4 := map[BelowLabel := [john], MiddleLabel := [jane, jake, emily]];
    var g5 := map[BelowLabel := [john], MiddleLabel := [jane, jake, emily], AboveLabel := [mike]];
    GroupBySalaryOnFixedPrefix();
    assert GroupBySalary([john, jane, jake, emily]) == g4 by {
      assert [john, jane, jake] + [emily] == [john, jane, jake, emily];
      assert Bucket(g3, MiddleLabel) + [emily] == [jane, jake, emily];
      assert g3[MiddleLabel := [jane, jake, emily]] == g4;
      GroupBySalarySnoc([john, jane, jake], emily);
    }
    assert GroupBySalary(Employees) == g5 by {
      assert [john, jane, jake, emily] + [mike] == Employees;
      assert Bucket(g4, AboveLabel) + [mike] == [mike];
      GroupBySalarySnoc([john, jane, jake, emily], mike);
    }
  }

  /** groupEmployeeBySalary: all three brackets are occupied. */
  function GroupEmployeeBySalary(): (r: map<string, seq<Employee>>)
    ensures r == map[
      BelowLabel := [Employee("John", 50000)],
      MiddleLabel := [Employee("Jane", 60000), Employee("Jake", 75000), Employee("Emily", 90000)],
      AboveLabel := [Employee("Mike", 120000)]]
  {
    GroupBySalaryOnFixedData();
    GroupBySalary(Employees)
  }

  /** Sorting the two tied employees leaves them in input order. */
  lemma SortTiedPair()
    ensures SortBySalary([Employee("A", 90000), Employee("B", 90000)])
         == [Employee("A", 90000), Employee("B", 90000)]
  {
    var a, b := Employee("A", 90000), Employee("B", 90000);
    assert SortBySalary([a]) == [a] by {
      assert [a][..0] == [];
    }
    assert [a, b][..1] == [a];
    assert InsertBySalary([a], b) == [a] + [b];
  }

  /** The lower salary is inserted in front of both tied employees. */
  lemma InsertBelowTiedPair()
    ensures InsertBySalary([Employee("A", 90000), Employee("B", 90000)], Employee("C", 50000))
         == [Employee("C", 50000), Employee("A", 90000), Employee("B", 90000)]
  {
    var a, b, c := Employee("A", 90000), Employee("B", 90000), Employee("C", 50000);
    assert InsertBySalary([], c) == [c];
    assert [a][..0] == [];
    assert InsertBySalary([a], c) == [c] + [a];
    assert [a, b][..1] == [a];
    assert InsertBySalary([a, b], c) == [c, a] + [b];
  }

  /** Ties keep their order: two employees on 90,000 stay in input order behind the lower salary. */
  lemma SortBySalaryKeepsTieOrder()
    ensures SortBySalary([Employee("A", 90000), Employee("B", 90000), Employee("C", 50000)])
         == [Employee("C", 50000), Employee("A", 90000), Employee("B", 90000)]
  {
    var a, b, c := Employee("A", 90000), Employee("B", 90000), Employee("C", 50000);
    SortTiedPair();
    InsertBelowTiedPair();
    assert [a, b, c][..2] == [a, b];
  }
}
