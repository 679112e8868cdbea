/**
 * `TransportItems`: all item requirement groups of a transport, every one of which must be met.
 * The list it holds is an unmodifiable copy, which a value-typed sequence models directly.
 */
module TransportItemsModel {
  import opened Wrappers
  import opened JavaStrings
  import opened ItemRequirements

  datatype TransportItems = TransportItems(requirements: seq<ItemRequirement>)

  /** `new TransportItems(list)`: the requirements in list order; later changes to the list do not show through. */
  function OfList(requirements: seq<ItemRequirement>): (t: TransportItems)
    ensures t.requirements == requirements
  {
    TransportItems(requirements)
  }

  /** `size()`. */
  function Size(t: TransportItems): nat {
    |t.requirements|
  }

  /** Row `i` of the legacy arrays: a missing `staves` or `offhands` row stands for an empty array. */
  function Row(rows: Option<seq<IntArray>>, i: nat): IntArray {
    if rows.Some? && i < |rows.value| then rows.value[i] else Arr([])
  }

  /** The requirements the legacy constructor builds: one per row of `items`. */
  function FromArraysSpec(items: seq<IntArray>, staves: Option<seq<IntArray>>, offhands: Option<seq<IntArray>>, quantities: seq<Int32>): TransportItems
    requires |quantities| >= |items|
  {
    TransportItems(seq(|items|, i requires 0 <= i < |items| =>
      ItemRequirement(items[i], Row(staves, i), Row(offhands, i), quantities[i])))
  }

  /**
   * The legacy constructor `TransportItems(items, staves, offhands, quantities)`. `staves` and
   * `offhands` may be `null` (`None`) or shorter than `items`; `quantities` must cover every row, as
   * the source indexes it without a check.
   */
  method FromArrays(items: seq<IntArray>, staves: Option<seq<IntArray>>, offhands: Option<seq<IntArray>>, quantities: seq<Int32>)
    returns (t: TransportItems)
    requires |quantities| >= |items|
    ensures t == FromArraysSpec(items, staves, offhands, quantities)
  {
    var reqs: seq<ItemRequirement> := [];
    var i := 0;
    while i < |items|
      invariant 0 <= i <= |items|
      invariant |reqs| == i
      invariant forall j :: 0 <= j < i ==> reqs[j] == ItemRequirement(items[j], Row(staves, j), Row(offhands, j), quantities[j])
    {
      var staff := if staves.Some? && i < |staves.value| then staves.value[i] else Arr([]);
      var offhand := if offhands.Some? && i < |offhands.value| then offhands.value[i] else Arr([]);
      reqs := reqs + [ItemRequirement(items[i], staff, offhand, quantities[i])];
      i := i + 1;
    }
    t := TransportItems(reqs);
  }

  /** What the legacy getters `getItems()`, `getStaves()`, `getOffhands()`, `getQuantities()` return. */
  function ItemsColumn(t: TransportItems): seq<IntArray> {
    seq(|t.requirements|, i requires 0 <= i < |t.requirements| => t.requirements[i].itemIds)
  }

  function StavesColumn(t: TransportItems): seq<IntArray> {
    seq(|t.requirements|, i requires 0 <= i < |t.requirements| => t.requirements[i].staffIds)
  }

  function OffhandsColumn(t: TransportItems): seq<IntArray> {
    seq(|t.requirements|, i requires 0 <= i < |t.requirements| => t.requirements[i].offhandIds)
  }

  function QuantitiesColumn(t: TransportItems): seq<Int32> {
    seq(|t.requirements|, i requires 0 <= i < |t.requirements| => t.requirements[i].quantity)
  }

  /** `getItems()`: entry `i` is requirement `i`'s item array. */
  method GetItems(t: TransportItems) returns (items: seq<IntArray>)
    ensures items == ItemsColumn(t)
  {
    items := [];
    var i := 0;
    while i < |t.requirements|
      invariant 0 <= i <= |t.requirements| && items == ItemsColumn(t)[..i]
    {
      items := items + [t.requirements[i].itemIds];
      i := i + 1;
    }
  }

  /** `getStaves()`. */
  method GetStaves(t: TransportItems) returns (staves: seq<IntArray>)
    ensures staves == StavesColumn(t)
  {
    staves := [];
    var i := 0;
    while i < |t.requirements|
      invariant 0 <= i <= |t.requirements| && staves == StavesColumn(t)[..i]
    {
      staves := staves + [t.requirements[i].staffIds];
      i := i + 1;
    }
  }

  /** `getOffhands()`. */
  method GetOffhands(t: TransportItems) returns (offhands: seq<IntArray>)
    ensures offhands == OffhandsColumn(t)
  {
    offhands := [];
    var i := 0;
    while i < |t.requirements|
      invariant 0 <= i <= |t.requirements| && offhands == OffhandsColumn(t)[..i]
    {
      offhands := offhands + [t.requirements[i].offhandIds];
      i := i + 1;
    }
  }

  /** `getQuantities()`. */
  method GetQuantities(t: TransportItems) returns (quantities: seq<Int32>)
    ensures quantities == QuantitiesColumn(t)
  {
    quantities := [];
    var i := 0;
    while i < |t.requirements|
      invariant 0 <= i <= |t.requirements| && quantities == QuantitiesColumn(t)[..i]
    {
      quantities := quantities + [t.requirements[i].quantity];
      i := i + 1;
    }
  }

  /**
   * Round trip: the legacy getters give back the arrays the legacy constructor was built from (the
   * quantities it used, and empty arrays for missing staff and offhand rows), each `size()` long.
   */
  lemma LegacyColumnsRoundTrip(items: seq<IntArray>, staves: Option<seq<IntArray>>, offhands: Option<seq<IntArray>>, quantities: seq<Int32>)
    requires |quantities| >= |items|
    ensures var t := FromArraysSpec(items, staves, offhands, quantities);
      && Size(t) == |items|
      && ItemsColumn(t) == items
      && QuantitiesColumn(t) == quantities[..|items|]
      && |StavesColumn(t)| == |items| && (forall i :: 0 <= i < |items| ==> StavesColumn(t)[i] == Row(staves, i))
      && |OffhandsColumn(t)| == |items| && (forall i :: 0 <= i < |items| ==> OffhandsColumn(t)[i] == Row(offhands, i))
  {
  }

  /** The legacy columns rebuild the requirements they were read from. */
  lemma ColumnsRebuild(t: TransportItems)
    ensures FromArraysSpec(ItemsColumn(t), Some(StavesColumn(t)), Some(OffhandsColumn(t)), QuantitiesColumn(t)) == t
  {
    var r := FromArraysSpec(ItemsColumn(t), Some(StavesColumn(t)), Some(OffhandsColumn(t)), QuantitiesColumn(t));
    assert r.requirements == t.requirements;
  }

  /** `merge(first, second)`, with `None` for `null`. */
  function Merge(first: Option<TransportItems>, second: Option<TransportItems>): (m: Option<TransportItems>)
    ensures first.None? ==> m == second
    ensures first.Some? && second.None? ==> m == first
    ensures first.Some? && second.Some? ==> m == Some(TransportItems(first.value.requirements + second.value.requirements))
  {
    if first.None? then second
    else if second.None? then first
    else Some(OfList(first.value.requirements + second.value.requirements))
  }

  /** Merging is associative and `null` is its identity on both sides. */
  lemma MergeIsMonoid(a: Option<TransportItems>, b: Option<TransportItems>, c: Option<TransportItems>)
    ensures Merge(Merge(a, b), c) == Merge(a, Merge(b, c))
    ensures Merge(None, a) == a && Merge(a, None) == a
  {
    if a.Some? && b.Some? && c.Some? {
      assert (a.value.requirements + b.value.requirements) + c.value.requirements
          == a.value.requirements + (b.value.requirements + c.value.requirements);
    }
  }

  /** `equals(o)` for a non-null `TransportItems` `o`: the same length and pairwise-equal requirements. */
  predicate Equals(a: TransportItems, b: TransportItems) {
    |a.requirements| == |b.requirements|
    && forall i :: 0 <= i < |a.requirements| ==> ItemRequirements.Equals(a.requirements[i], Some(b.requirements[i]))
  }

  /** The argument of `equals(Object)`: `null`, a `TransportItems`, or an object of some other class. */
  datatype Candidate = NullObject | SomeItems(items: TransportItems) | OtherClass

  /**
   * `equals(o)` as written: it casts `o` without a check, so `null` throws a NullPointerException at
   * the size comparison and another class a ClassCastException at the cast. For a `TransportItems`
   * it compares the sizes first, then the requirements pair by pair, stopping at the first pair
   * that differs, and answers whether the two hold the same requirements in the same order.
   */
  method EqualsTo(a: TransportItems, o: Candidate) returns (result: Result<bool>)
    ensures result.Err? <==> !o.SomeItems?
    ensures result.Ok? ==> (result.value <==> a == o.items)
  {
    if o.NullObject? {
      return Err("NullPointerException");
    } else if o.OtherClass? {
      return Err("ClassCastException");
    }
    var b := o.items;
    EqualsIsValueEquality(a, b);
    if |a.requirements| != |b.requirements| {
      return Ok(false);
    }
    var i := 0;
    while i < |a.requirements|
      invariant 0 <= i <= |a.requirements|
      invariant forall j :: 0 <= j < i ==> ItemRequirements.Equals(a.requirements[j], Some(b.requirements[j]))
    {
      if !ItemRequirements.Equals(a.requirements[i], Some(b.requirements[i])) {
        return Ok(false);
      }
      i := i + 1;
    }
    return Ok(true);
  }

  /**
   * `equals(o)` as the `Object.equals` contract asks: `false` for `null` and for another class,
   * the pairwise comparison otherwise.
   */
  predicate EqualsObject(a: TransportItems, o: Candidate) {
    o.SomeItems? && Equals(a, o.items)
  }

  /**
   * The corrected `equals` keeps the `Object.equals` contract: it is `false` for `null`, reflexive,
   * symmetric, and agrees with value equality.
   */
  lemma EqualsObjectContract(a: TransportItems, b: TransportItems)
    ensures !EqualsObject(a, NullObject) && !EqualsObject(a, OtherClass)
    ensures EqualsObject(a, SomeItems(a))
    ensures EqualsObject(a, SomeItems(b)) <==> EqualsObject(b, SomeItems(a))
    ensures EqualsObject(a, SomeItems(b)) <==> a == b
  {
    EqualsIsValueEquality(a, a);
    EqualsIsValueEquality(a, b);
    EqualsIsValueEquality(b, a);
  }

  /** `equals` is value equality. */
  lemma EqualsIsValueEquality(a: TransportItems, b: TransportItems)
    ensures Equals(a, b) <==> a == b
  {
    if Equals(a, b) {
      forall i | 0 <= i < |a.requirements|
        ensures a.requirements[i] == b.requirements[i]
      {
        ItemRequirements.EqualsIsValueEquality(a.requirements[i], b.requirements[i]);
      }
      assert a.requirements == b.requirements;
    } else if a == b {
      forall i | 0 <= i < |a.requirements|
        ensures ItemRequirements.Equals(a.requirements[i], Some(b.requirements[i]))
      {
        ItemRequirements.EqualsIsValueEquality(a.requirements[i], b.requirements[i]);
      }
    }
  }
}
