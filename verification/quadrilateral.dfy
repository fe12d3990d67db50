/**
 * `Quadrilateral` and its `Rectangle` subclass: a height and a length, and
 * an area computed as their product in Java `int` arithmetic.
 */
module InterfaceAbstract {
  import opened JavaInt

  class Quadrilateral {
    var height: int32
    var length: int32

    /** `Quadrilateral(height, length)`: stores both as given. */
    constructor (height: int32, length: int32)
      ensures this.height == height && this.length == length
    {
      this.height := height;
      this.length := length;
    }

    /** `Rectangle(height, length)`: forwards both, unchanged, to the Quadrilateral constructor. */
    constructor Rectangle(height: int32, length: int32)
      ensures this.height == height && this.length == length
    {
      this.height := height;
      this.length := length;
    }

    /**
     * `height * length` as Java computes it: the exact product when it fits
     * in an `int`, and otherwise the one `int` that agrees with it modulo 2^32.
     */
    method CalculateArea() returns (area: int32)
      ensures InRange(height as int * length as int) ==> area as int == height as int * length as int
      ensures (area as int - height as int * length as int) % TwoTo32 == 0
    {
      area := Wrap(height as int * length as int);
    }
  }

  /** A 2 by 3 rectangle has area 6. */
  method RectangleScenario() returns (area: int32)
    ensures area == 6
  {
    var rectangle := new Quadrilateral.Rectangle(2, 3);
    area := rectangle.CalculateArea();
  }
}
