# Triangle classifier

This project models the triangle exercise of the Ruby koans. `triangle(a, b, c)`
takes three side lengths. It raises `TriangleError` when a side is zero or
negative. It also raises it when the two shorter sides, after an ascending sort,
do not sum to strictly more than the longest, so a flat triangle such as
`(1, 1, 2)` is rejected. Otherwise it returns `:equilateral`, `:isosceles` or
`:scalene`, tested in that order.

The model is pure, like the source. There are two modules:

- `Sorting` (`sorting.dfy`): `SortThree`, the ascending sort of the array
  `[a, b, c]`. It comes with proofs that it permutes its input and that an
  ascending permutation is unique.
- `TriangleProject` (`triangle.dfy`): the classifier `Triangle`, its result
  type (`Ok(Kind)` or `Err(TriangleError)`) and the lemmas about it. The lemmas
  compare `Triangle` with reference predicates that use neither sorting nor
  the source's order of tests: `ValidTriangle`, `AllEqual`,
  `ExactlyTwoEqual` and `NoneEqual`.

Sides are unbounded `int`s, which matches Ruby's unbounded integers. The
exception becomes the `Err` half of a result.

## Model

| member | source | states |
|---|---|---|
| `Sorting.SortThree` | triangle.rb:28 | the sorted sides have length three and are in ascending order |
| `Sorting.SortThreePermutes` | triangle.rb:28 | the sorted sides are a rearrangement of the multiset `{a, b, c}` |
| `Sorting.SortedUnique` | triangle.rb:28 | two ascending sequences with the same multiset of elements are equal |
| `Sorting.SortThreeUnique` | triangle.rb:28 | any ascending rearrangement `x <= y <= z` of the sides equals the sorted sides |
| `Sorting.SortThreeByRank` | triangle.rb:28 | the sorted sides are the smallest side, the middle one and the largest, in that order |
| `Sorting.SortThreeOrderIndependent` | triangle.rb:28 | the sorted sides are the same for all six orderings of `a`, `b`, `c` |
| `TriangleProject.NonPositiveSideRejected` | triangle.rb:24-26 | a side `<= 0` gives `TriangleError`, whatever the other two sides are |
| `TriangleProject.DegenerateRejected` | triangle.rb:28-32 | for positive sides whose ascending arrangement `s0 <= s1 <= s2` has `s0 + s1 <= s2`, the result is `TriangleError`; the flat case `s0 + s1 == s2` is rejected too |
| `TriangleProject.AcceptedIffValid` | triangle.rb:24-32 | the input gets a tag if and only if all sides are positive and each side is strictly shorter than the other two together |
| `TriangleProject.EquilateralIff` | triangle.rb:34-35 | a valid triangle is `Equilateral` if and only if all three sides are equal |
| `TriangleProject.IsoscelesIff` | triangle.rb:36-37 | a valid triangle is `Isosceles` if and only if exactly two sides are equal, under any pairing |
| `TriangleProject.ScaleneIff` | triangle.rb:38-39 | a valid triangle is `Scalene` if and only if no two sides are equal |
| `TriangleProject.ErrorOrOneTag` | triangle.rb:24-41 | the result is `TriangleError` exactly for invalid sides, and every triple of sides matches exactly one of the three side patterns, so a valid input gets exactly one tag |
| `TriangleProject.OrderIndependent` | triangle.rb:24-40 | the result, error or tag, is the same for all six orderings of the sides |
| `TriangleProject.Examples` | triangle.rb:16-41 | sample results: `(2,2,2)` equilateral, `(2,2,3)`, `(3,2,2)` and `(2,3,2)` isosceles, `(2,3,4)` scalene, `(0,2,2)`, `(3,4,-5)`, `(1,1,3)`, `(2,4,2)` and `(1,1,2)` rejected |

## Left out

- Non-integer sides: Ruby also accepts floats and other comparable values. The model is on `int` only, because floating-point rounding is not modelled.
- Arguments that are not numbers: in Ruby, `a <= 0` raises `NoMethodError` or `ArgumentError` for these. That is interpreter behaviour, not logic of the exercise.
- `TriangleError < StandardError`: the model has one error variant and no class hierarchy.
- Ruby's general `Array#sort`: only its use on the three-element array `[a, b, c]` is modelled, by `SortThree`.
- Idempotence of repeated calls: a Dafny function is deterministic by construction, so there is nothing to state.
- The other lesson files: they demonstrate the Ruby interpreter's own semantics and contain no logic of the repository's own.
