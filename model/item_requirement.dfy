/**
 * `ItemRequirement`: one group of a transport's item requirements: the item ids that satisfy it, the
 * staves and offhands that may stand in for it, and the quantity. The arrays are Java `int[]`
 * references that may be `null` (the fairy-ring staff requirement has a `null` item array).
 */
module ItemRequirements {
  import opened Wrappers
  import opened JavaStrings
  import opened JavaInts

  /** A Java `int[]` reference: `null` or the array's elements. */
  datatype IntArray = NullArray | Arr(elems: seq<Int32>)

  function Length(a: IntArray): nat {
    if a.NullArray? then 0 else |a.elems|
  }

  /** `Arrays.equals(a, b)`: both `null`, or the same length and equal elements. */
  predicate ArraysEquals(a: IntArray, b: IntArray) {
    match (a, b)
    case (NullArray, NullArray) => true
    case (Arr(x), Arr(y)) => |x| == |y| && forall i :: 0 <= i < |x| ==> x[i] == y[i]
    case _ => false
  }

  /** `Arrays.hashCode(a)` over the elements `xs`: `31 * h + x` from `h = 1`, in int arithmetic. */
  function ElementsHash(xs: seq<Int32>): (h: int)
    ensures IsInt32(h)
  {
    if xs == [] then 1 else Wrap32(31 * ElementsHash(xs[..|xs| - 1]) + xs[|xs| - 1])
  }

  /** `Arrays.hashCode(a)`: 0 for `null`. */
  function ArraysHash(a: IntArray): (h: int)
    ensures IsInt32(h)
  {
    if a.NullArray? then 0 else ElementsHash(a.elems)
  }

  /** `Arrays.equals` is equality of the modelled references' contents. */
  lemma ArraysEqualsIsEquality(a: IntArray, b: IntArray)
    ensures ArraysEquals(a, b) <==> a == b
  {
    if a.Arr? && b.Arr? && ArraysEquals(a, b) {
      assert a.elems == b.elems;
    }
  }

  datatype ItemRequirement = ItemRequirement(itemIds: IntArray, staffIds: IntArray, offhandIds: IntArray, quantity: Int32)

  /** `ItemRequirement.of(itemId, quantity)`: one item id and no substitutes. */
  function Of(itemId: Int32, quantity: Int32): (r: ItemRequirement)
    ensures r.itemIds == Arr([itemId]) && r.staffIds == Arr([]) && r.offhandIds == Arr([])
    ensures r.quantity == quantity
  {
    ItemRequirement(Arr([itemId]), Arr([]), Arr([]), quantity)
  }

  /** `ItemRequirement.of(itemIds, staffIds, offhandIds, quantity)`: the same as the constructor. */
  function OfArrays(itemIds: IntArray, staffIds: IntArray, offhandIds: IntArray, quantity: Int32): (r: ItemRequirement)
    ensures r == ItemRequirement(itemIds, staffIds, offhandIds, quantity)
  {
    ItemRequirement(itemIds, staffIds, offhandIds, quantity)
  }

  /** `equals(o)` for `o` an `ItemRequirement` or `null`. */
  predicate Equals(a: ItemRequirement, o: Option<ItemRequirement>) {
    match o
    case None => false
    case Some(b) =>
      a.quantity == b.quantity && ArraysEquals(a.itemIds, b.itemIds)
      && ArraysEquals(a.staffIds, b.staffIds) && ArraysEquals(a.offhandIds, b.offhandIds)
  }

  /** `hashCode()`: the three array hashes and the quantity combined with the factor 31. */
  function HashCode(a: ItemRequirement): (h: int)
    ensures IsInt32(h)
  {
    var h1 := ArraysHash(a.itemIds);
    var h2 := Wrap32(31 * h1 + ArraysHash(a.staffIds));
    var h3 := Wrap32(31 * h2 + ArraysHash(a.offhandIds));
    Wrap32(31 * h3 + a.quantity)
  }

  /** `equals` holds exactly for equal quantities and element-wise equal arrays, and is reflexive. */
  lemma EqualsIsValueEquality(a: ItemRequirement, b: ItemRequirement)
    ensures Equals(a, Some(b)) <==> a == b
    ensures !Equals(a, None)
  {
    ArraysEqualsIsEquality(a.itemIds, b.itemIds);
    ArraysEqualsIsEquality(a.staffIds, b.staffIds);
    ArraysEqualsIsEquality(a.offhandIds, b.offhandIds);
  }

  /** Equal requirements have equal hash codes. */
  lemma HashConsistentWithEquals(a: ItemRequirement, b: ItemRequirement)
    requires Equals(a, Some(b))
    ensures HashCode(a) == HashCode(b)
  {
    EqualsIsValueEquality(a, b);
  }

  /** `Of(id, q)` is the array factory applied to one-element and empty arrays. */
  lemma OfIsOfArrays(itemId: Int32, quantity: Int32)
    ensures Of(itemId, quantity) == OfArrays(Arr([itemId]), Arr([]), Arr([]), quantity)
    ensures HashCode(Of(itemId, quantity)) == Wrap32(31 * Wrap32(31 * Wrap32(31 * Wrap32(31 + itemId) + 1) + 1) + quantity)
  {
    assert ElementsHash([itemId]) == Wrap32(31 * 1 + itemId);
  }
}
