/** The triangle classifier: given three side lengths, either reject them with
    `TriangleError` or name the kind of triangle they form. It is a pure
    function; Ruby's exception is modelled as the error half of a result. */
module TriangleProject {
  import opened Sorting

  /** The three classification tags, Ruby's symbols `:equilateral`,
      `:isosceles` and `:scalene`. */
  datatype Kind = Equilateral | Isosceles | Scalene

  /** The single error kind raised for every invalid input. */
  datatype TriangleError = TriangleError

  datatype Result = Ok(kind: Kind) | Err(error: TriangleError)

  /** Classifies the triangle with sides `a`, `b`, `c`: non-positive sides are
      rejected first, then sides whose two smaller lengths do not sum to more
      than the largest, and only then are the sides compared with each other. */
  function Triangle(a: int, b: int, c: int): Result {
    if a <= 0 || b <= 0 || c <= 0 then
      Err(TriangleError)
    else
      var sides := SortThree(a, b, c);
      if sides[0] + sides[1] <= sides[2] then
        Err(TriangleError)
      else if a == b && a == c then
        Ok(Equilateral)
      else if a == b || a == c || b == c then
        Ok(Isosceles)
      else
        Ok(Scalene)
  }

  // Reference definitions, stated without sorting and without the order of
  // the source's tests.

  predicate PositiveSides(a: int, b: int, c: int) {
    a > 0 && b > 0 && c > 0
  }

  /** Each side is strictly shorter than the other two together. */
  predicate StrictTriangleInequality(a: int, b: int, c: int) {
    a + b > c && a + c > b && b + c > a
  }

  predicate ValidTriangle(a: int, b: int, c: int) {
    PositiveSides(a, b, c) && StrictTriangleInequality(a, b, c)
  }

  predicate AllEqual(a: int, b: int, c: int) {
    a == b && b == c
  }

  /** Some pair of sides is equal and the third side differs from it. */
  predicate ExactlyTwoEqual(a: int, b: int, c: int) {
    (a == b && c != a) || (a == c && b != a) || (b == c && a != b)
  }

  predicate NoneEqual(a: int, b: int, c: int) {
    a != b && a != c && b != c
  }

  /** A zero or negative side is rejected, whatever the other two sides are. */
  lemma NonPositiveSideRejected(a: int, b: int, c: int)
    requires a <= 0 || b <= 0 || c <= 0
    ensures Triangle(a, b, c) == Err(TriangleError)
  {
  }

  /** Positive sides whose two smaller lengths sum to at most the largest are
      rejected; equality, a flat triangle, is rejected too. */
  lemma DegenerateRejected(a: int, b: int, c: int, s0: int, s1: int, s2: int)
    requires PositiveSides(a, b, c)
    requires s0 <= s1 <= s2 && multiset{s0, s1, s2} == multiset{a, b, c}
    requires s0 + s1 <= s2
    ensures Triangle(a, b, c) == Err(TriangleError)
  {
    SortThreeUnique(a, b, c, s0, s1, s2);
  }

  /** The check on the sorted sides is exactly the triangle inequality on all
      three pairs, so the input is accepted if and only if it is valid. */
  lemma AcceptedIffValid(a: int, b: int, c: int)
    ensures Triangle(a, b, c).Ok? <==> ValidTriangle(a, b, c)
  {
    SortThreeByRank(a, b, c);
  }

  /** A valid triangle is equilateral exactly when all sides are equal. */
  lemma EquilateralIff(a: int, b: int, c: int)
    requires ValidTriangle(a, b, c)
    ensures Triangle(a, b, c) == Ok(Equilateral) <==> AllEqual(a, b, c)
  {
    AcceptedIffValid(a, b, c);
  }

  /** A valid triangle is isosceles exactly when two of its sides, in any
      pairing, are equal and the third is not. */
  lemma IsoscelesIff(a: int, b: int, c: int)
    requires ValidTriangle(a, b, c)
    ensures Triangle(a, b, c) == Ok(Isosceles) <==> ExactlyTwoEqual(a, b, c)
  {
    AcceptedIffValid(a, b, c);
  }

  /** A valid triangle is scalene exactly when no two sides are equal. */
  lemma ScaleneIff(a: int, b: int, c: int)
    requires ValidTriangle(a, b, c)
    ensures Triangle(a, b, c) == Ok(Scalene) <==> NoneEqual(a, b, c)
  {
    AcceptedIffValid(a, b, c);
  }

  /** Validation comes before classification: invalid sides get the error and
      never a tag, and every triple of sides matches exactly one of the three
      side patterns, so a valid triangle gets exactly one tag. */
  lemma ErrorOrOneTag(a: int, b: int, c: int)
    ensures Triangle(a, b, c) == Err(TriangleError) <==> !ValidTriangle(a, b, c)
    ensures (if AllEqual(a, b, c) then 1 else 0)
      + (if ExactlyTwoEqual(a, b, c) then 1 else 0)
      + (if NoneEqual(a, b, c) then 1 else 0) == 1
  {
    AcceptedIffValid(a, b, c);
  }

  /** The result, error or tag, does not depend on the order of the sides. */
  lemma OrderIndependent(a: int, b: int, c: int)
    ensures Triangle(a, b, c) == Triangle(a, c, b)
    ensures Triangle(a, b, c) == Triangle(b, a, c)
    ensures Triangle(a, b, c) == Triangle(b, c, a)
    ensures Triangle(a, b, c) == Triangle(c, a, b)
    ensures Triangle(a, b, c) == Triangle(c, b, a)
  {
    SortThreeOrderIndependent(a, b, c);
  }

  /** Sample inputs and their results. */
  lemma Examples()
    ensures Triangle(2, 2, 2) == Ok(Equilateral)
    ensures Triangle(10, 10, 10) == Ok(Equilateral)
    ensures Triangle(2, 2, 3) == Ok(Isosceles)
    ensures Triangle(3, 2, 2) == Ok(Isosceles)
    ensures Triangle(2, 3, 2) == Ok(Isosceles)
    ensures Triangle(2, 3, 4) == Ok(Scalene)
    ensures Triangle(10, 11, 12) == Ok(Scalene)
    ensures Triangle(0, 2, 2) == Err(TriangleError)
    ensures Triangle(3, 4, -5) == Err(TriangleError)
    ensures Triangle(1, 1, 3) == Err(TriangleError)
    ensures Triangle(2, 4, 2) == Err(TriangleError)
    ensures Triangle(1, 1, 2) == Err(TriangleError)
  {
    AcceptedIffValid(2, 2, 2);
    AcceptedIffValid(10, 10, 10);
    AcceptedIffValid(2, 2, 3);
    AcceptedIffValid(3, 2, 2);
    AcceptedIffValid(2, 3, 2);
    AcceptedIffValid(2, 3, 4);
    AcceptedIffValid(10, 11, 12);
    AcceptedIffValid(1, 1, 3);
    AcceptedIffValid(2, 4, 2);
    AcceptedIffValid(1, 1, 2);
  }
}
