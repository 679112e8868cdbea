/**
 * `ItemRequirementParser`: a cell such as `AIR_RUNE=3&LAW_RUNE=1|LAW_TABLET=1` becomes the item
 * requirements of a transport: '&' separates groups that are all needed, '|' separates the
 * alternatives of a group. Names are looked up in `ItemVariations` (not part of this model; the
 * `lookup` parameter supplies it), and a name it does not know is read as a raw item id.
 */
module ItemRequirementParsing {
  import opened Wrappers
  import opened JavaStrings
  import opened ItemRequirements
  import opened TransportItemsModel

  /** What `ItemVariations.fromName(name)` and its `staves`/`offhands` give for a known name. */
  datatype Variation = Variation(ids: seq<Int32>, staves: seq<Int32>, offhands: seq<Int32>)

  /** The lists `parseRequirement` accumulates, already concatenated, and its running maximum quantity. */
  datatype Group = Group(ids: seq<Int32>, staves: seq<Int32>, offhands: seq<Int32>, quantity: Int32)

  /** The state before the first alternative: no ids and `maxQuantity = -1`. */
  const EmptyGroup := Group([], [], [], -1)

  function Max(a: Int32, b: Int32): Int32 { if a >= b then a else b }

  /** Appending one group's lists to another's, keeping the larger quantity. */
  function Combine(a: Group, b: Group): Group {
    Group(a.ids + b.ids, a.staves + b.staves, a.offhands + b.offhands, Max(a.quantity, b.quantity))
  }

  /** The normalisation of `parse`: spaces removed, "&&" and "||" collapsed, upper case. */
  function Normalize(value: string): string {
    ToUpperAscii(Replace(Replace(Replace(value, " ", ""), "&&", "&"), "||", "|"))
  }

  /** One alternative `NAME=QTY`; `None` where the source throws NumberFormatException. */
  function ReadAlternative(lookup: string -> Option<Variation>, orPart: string): (g: Option<Group>)
    ensures g.Some? ==> |Split(orPart, "=")| == 2 && ParseInt(Split(orPart, "=")[1]) == Some(g.value.quantity as int)
    ensures g.Some? && lookup(Split(orPart, "=")[0]).None? ==>
      ParseInt(Split(orPart, "=")[0]).Some? && g.value.ids == [ParseInt(Split(orPart, "=")[0]).value]
      && g.value.staves == [] && g.value.offhands == []
  {
    var itemAndQuantity := Split(orPart, "=");
    if |itemAndQuantity| != 2 then None
    else
      match ParseInt(itemAndQuantity[1])
      case None => None
      case Some(quantity) =>
        match lookup(itemAndQuantity[0])
        case Some(v) => Some(Group(v.ids, v.staves, v.offhands, quantity))
        case None =>
          match ParseInt(itemAndQuantity[0])
          case None => None
          case Some(id) => Some(Group([id], [], [], quantity))
  }

  /** The alternatives of a group in order; `None` if any of them is malformed. */
  function ReadAlternatives(lookup: string -> Option<Variation>, orParts: seq<string>): (g: Option<Group>)
    ensures g.Some? ==> g.value.quantity >= -1
  {
    if orParts == [] then Some(EmptyGroup)
    else
      match (ReadAlternative(lookup, orParts[0]), ReadAlternatives(lookup, orParts[1..]))
      case (Some(a), Some(rest)) => Some(Combine(a, rest))
      case _ => None
  }

  function ToRequirement(g: Group): ItemRequirement {
    ItemRequirement(Arr(g.ids), Arr(g.staves), Arr(g.offhands), g.quantity)
  }

  /** `parseRequirement(part)`. */
  function ReadRequirement(lookup: string -> Option<Variation>, part: string): Option<ItemRequirement>
  {
    match ReadAlternatives(lookup, Split(part, "|"))
    case None => None
    case Some(g) => Some(ToRequirement(g))
  }

  /** The '&' parts in order; `None` if any of them is malformed. */
  function ReadRequirements(lookup: string -> Option<Variation>, andParts: seq<string>): (r: Option<seq<ItemRequirement>>)
    ensures r.Some? ==> |r.value| == |andParts|
  {
    if andParts == [] then Some([])
    else
      match (ReadRequirement(lookup, andParts[0]), ReadRequirements(lookup, andParts[1..]))
      case (Some(req), Some(rest)) => Some([req] + rest)
      case _ => None
  }

  /** `parse(value)`, with `None` for `null` both in the argument and in the result. */
  function ParseSpec(lookup: string -> Option<Variation>, value: Option<string>): (r: Option<TransportItems>)
    ensures value.None? || value == Some("") ==> r.None?
  {
    if value.None? || value.value == "" then None
    else
      match ReadRequirements(lookup, Split(Normalize(value.value), "&"))
      case None => None
      case Some(reqs) => if reqs == [] then None else Some(TransportItems(reqs))
  }

  /** `parseRequirement`: the loop over the alternatives, accumulating ids and the maximum quantity. */
  method ParseRequirement(lookup: string -> Option<Variation>, part: string) returns (r: Option<ItemRequirement>)
    ensures r == ReadRequirement(lookup, part)
  {
    var orParts := Split(part, "|");
    var acc := EmptyGroup;
    var i := 0;
    AlternativesStart(lookup, orParts);
    while i < |orParts|
      invariant 0 <= i <= |orParts|
      invariant acc.quantity >= -1
      invariant ReadAlternatives(lookup, orParts) == CombineAfter(acc, ReadAlternatives(lookup, orParts[i..]))
    {
      var alternative := ReadAlternative(lookup, orParts[i]);
      AlternativesStep(lookup, orParts, i, acc);
      if alternative.None? {
        return None;
      }
      acc := Combine(acc, alternative.value);
      i := i + 1;
    }
    assert Combine(acc, EmptyGroup) == acc;
    return Some(ToRequirement(acc));
  }

  /** Before the loop of `parseRequirement`, nothing is accumulated and every alternative lies ahead. */
  lemma AlternativesStart(lookup: string -> Option<Variation>, orParts: seq<string>)
    ensures ReadAlternatives(lookup, orParts) == CombineAfter(EmptyGroup, ReadAlternatives(lookup, orParts[0..]))
  {
    assert orParts[0..] == orParts;
    CombineEmptyLeft(ReadAlternatives(lookup, orParts));
  }

  /**
   * One alternative more: a malformed one spoils the whole group, and a well-formed one moves from
   * the alternatives ahead into the accumulated group.
   */
  lemma AlternativesStep(lookup: string -> Option<Variation>, orParts: seq<string>, i: nat, acc: Group)
    requires i < |orParts|
    ensures ReadAlternative(lookup, orParts[i]).None? ==> CombineAfter(acc, ReadAlternatives(lookup, orParts[i..])).None?
    ensures ReadAlternative(lookup, orParts[i]).Some? ==>
      CombineAfter(acc, ReadAlternatives(lookup, orParts[i..])) ==
        CombineAfter(Combine(acc, ReadAlternative(lookup, orParts[i]).value), ReadAlternatives(lookup, orParts[i + 1..]))
  {
    assert orParts[i..][1..] == orParts[i + 1..];
    var a := ReadAlternative(lookup, orParts[i]);
    if a.Some? {
      CombineAssociative(acc, a.value, ReadAlternatives(lookup, orParts[i + 1..]));
    }
  }

  /** `parse`: one requirement per '&' part; a malformed part makes the whole result `null`. */
  method Parse(lookup: string -> Option<Variation>, value: Option<string>) returns (r: Option<TransportItems>)
    ensures r == ParseSpec(lookup, value)
  {
    if value.None? || value.value == "" {
      return None;
    }
    var andParts := Split(Normalize(value.value), "&");
    var requirements: seq<ItemRequirement> := [];
    var i := 0;
    assert andParts[0..] == andParts;
    var all := ReadRequirements(lookup, andParts);
    if all.Some? {
      assert [] + all.value == all.value;
    }
    while i < |andParts|
      invariant 0 <= i <= |andParts|
      invariant ReadRequirements(lookup, andParts) == PrependAll(requirements, ReadRequirements(lookup, andParts[i..]))
    {
      assert andParts[i..][1..] == andParts[i + 1..];
      var requirement := ParseRequirement(lookup, andParts[i]);
      if requirement.None? {
        return None;
      }
      assert requirements + [requirement.value] + [] == requirements + [requirement.value];
      PrependAssociative(requirements, requirement.value, ReadRequirements(lookup, andParts[i + 1..]));
      requirements := requirements + [requirement.value];
      i := i + 1;
    }
    assert andParts[i..] == [] && requirements + [] == requirements;
    return if requirements == [] then None else Some(TransportItems(requirements));
  }

  function CombineAfter(acc: Group, rest: Option<Group>): Option<Group> {
    if rest.None? then None else Some(Combine(acc, rest.value))
  }

  function PrependAll(done: seq<ItemRequirement>, rest: Option<seq<ItemRequirement>>): Option<seq<ItemRequirement>> {
    if rest.None? then None else Some(done + rest.value)
  }

  lemma CombineEmptyLeft(g: Option<Group>)
    requires g.Some? ==> g.value.quantity >= -1
    ensures CombineAfter(EmptyGroup, g) == g
  {
    if g.Some? {
      assert [] + g.value.ids == g.value.ids;
      assert [] + g.value.staves == g.value.staves;
      assert [] + g.value.offhands == g.value.offhands;
    }
  }

  lemma CombineAssociative(acc: Group, a: Group, rest: Option<Group>)
    ensures CombineAfter(acc, if rest.None? then None else Some(Combine(a, rest.value))) == CombineAfter(Combine(acc, a), rest)
  {
    if rest.Some? {
      var r := rest.value;
      assert (acc.ids + a.ids) + r.ids == acc.ids + (a.ids + r.ids);
      assert (acc.staves + a.staves) + r.staves == acc.staves + (a.staves + r.staves);
      assert (acc.offhands + a.offhands) + r.offhands == acc.offhands + (a.offhands + r.offhands);
    }
  }

  lemma PrependAssociative(done: seq<ItemRequirement>, req: ItemRequirement, rest: Option<seq<ItemRequirement>>)
    ensures PrependAll(done, if rest.None? then None else Some([req] + rest.value)) == PrependAll(done + [req], rest)
  {
    if rest.Some? {
      assert done + ([req] + rest.value) == (done + [req]) + rest.value;
    }
  }

  // ---------------------------------------------------------------------------------------
  // Properties
  // ---------------------------------------------------------------------------------------

  /**
   * Each '&' part of the normalised cell gives exactly one requirement, in order; a successful parse
   * is never empty.
   */
  lemma {:induction false} EachAndPartOneRequirement(lookup: string -> Option<Variation>, value: string)
    requires ParseSpec(lookup, Some(value)).Some?
    ensures var t := ParseSpec(lookup, Some(value)).value;
      var andParts := Split(Normalize(value), "&");
      && |t.requirements| == |andParts| >= 1
      && forall i :: 0 <= i < |andParts| ==> ReadRequirement(lookup, andParts[i]) == Some(t.requirements[i])
  {
    var andParts := Split(Normalize(value), "&");
    RequirementsInOrder(lookup, andParts);
  }

  lemma {:induction false} RequirementsInOrder(lookup: string -> Option<Variation>, andParts: seq<string>)
    ensures var r := ReadRequirements(lookup, andParts);
      r.Some? ==> forall i :: 0 <= i < |andParts| ==> ReadRequirement(lookup, andParts[i]) == Some(r.value[i])
    ensures ReadRequirements(lookup, andParts).None? <==> exists i :: 0 <= i < |andParts| && ReadRequirement(lookup, andParts[i]).None?
    decreases |andParts|
  {
    if andParts != [] {
      RequirementsInOrder(lookup, andParts[1..]);
      var r := ReadRequirements(lookup, andParts);
      if r.Some? {
        forall i | 0 <= i < |andParts|
          ensures ReadRequirement(lookup, andParts[i]) == Some(r.value[i])
        {
          if i > 0 {
            assert andParts[i] == andParts[1..][i - 1];
          }
        }
      }
      if ReadRequirements(lookup, andParts[1..]).None? {
        var i :| 0 <= i < |andParts[1..]| && ReadRequirement(lookup, andParts[1..][i]).None?;
        assert ReadRequirement(lookup, andParts[i + 1]).None?;
      }
      if ReadRequirements(lookup, andParts).None? && ReadRequirement(lookup, andParts[0]).Some? {
        assert ReadRequirements(lookup, andParts[1..]).None?;
      }
      if exists i :: 0 <= i < |andParts| && ReadRequirement(lookup, andParts[i]).None? {
        var i :| 0 <= i < |andParts| && ReadRequirement(lookup, andParts[i]).None?;
        if i > 0 {
          assert andParts[1..][i - 1] == andParts[i];
        }
      }
    }
  }

  /**
   * A group's quantity is the largest of its alternatives' quantities, or -1 when that is larger
   * (an empty group, or only quantities below -1); its ids are the alternatives' ids in order.
   */
  lemma {:induction false} GroupQuantityIsMax(lookup: string -> Option<Variation>, orParts: seq<string>)
    requires ReadAlternatives(lookup, orParts).Some?
    ensures var g := ReadAlternatives(lookup, orParts).value;
      && (forall i :: 0 <= i < |orParts| ==>
            ReadAlternative(lookup, orParts[i]).Some? && g.quantity >= ReadAlternative(lookup, orParts[i]).value.quantity)
      && g.quantity >= -1
      && (g.quantity == -1 || exists i :: 0 <= i < |orParts| && g.quantity == ReadAlternative(lookup, orParts[i]).value.quantity)
    decreases |orParts|
  {
    if orParts != [] {
      GroupQuantityIsMax(lookup, orParts[1..]);
      var g := ReadAlternatives(lookup, orParts).value;
      forall i | 0 <= i < |orParts|
        ensures ReadAlternative(lookup, orParts[i]).Some? && g.quantity >= ReadAlternative(lookup, orParts[i]).value.quantity
      {
        if i > 0 {
          assert orParts[i] == orParts[1..][i - 1];
        }
      }
      var rest := ReadAlternatives(lookup, orParts[1..]).value;
      if g.quantity != -1 && g.quantity != ReadAlternative(lookup, orParts[0]).value.quantity {
        assert g.quantity == rest.quantity;
        var i :| 0 <= i < |orParts[1..]| && rest.quantity == ReadAlternative(lookup, orParts[1..][i]).value.quantity;
        assert orParts[1..][i] == orParts[i + 1];
      }
    }
  }

  /** A name the lookup does not know is read as a raw item id with no staff or offhand substitutes. */
  lemma UnknownNameIsRawId(lookup: string -> Option<Variation>, id: Int32, quantity: Int32)
    requires lookup(IntToString(id)).None?
    ensures ReadAlternative(lookup, IntToString(id) + "=" + IntToString(quantity)) == Some(Group([id], [], [], quantity))
  {
    var a, b := IntToString(id), IntToString(quantity);
    IntToStringNumeral(id);
    IntToStringNumeral(quantity);
    NumeralAvoids(a, '=');
    NumeralAvoids(b, '=');
    SplitTwo(a, "=", b);
    ParseIntToString(id);
    ParseIntToString(quantity);
  }

  /** A lone "|" splits into no alternatives: the group has no ids and quantity -1. */
  lemma LoneBarIsEmptyGroup(lookup: string -> Option<Variation>)
    ensures ReadRequirement(lookup, "|") == Some(ItemRequirement(Arr([]), Arr([]), Arr([]), -1))
  {
    assert SplitAll("|", "|") == ["", ""];
    assert Split("|", "|") == [];
  }

  /** A cell that is only '&' separators splits into no parts at all, and so parses to `null`. */
  lemma LoneAmpersandIsNull(lookup: string -> Option<Variation>)
    ensures ParseSpec(lookup, Some("&")) == None
  {
    assert Replace("&", " ", "") == "&";
    assert Replace("&", "&&", "&") == "&";
    assert Replace("&", "||", "|") == "&";
    assert ToUpperAscii("&") == "&";
    assert SplitAll("&", "&") == ["", ""];
    assert Split("&", "&") == [];
  }

  /** The text `id=quantity` of a requirement for one raw item id. */
  function FormatAlternative(id: Int32, quantity: Int32): string {
    IntToString(id) + "=" + IntToString(quantity)
  }

  function FormatAll(pairs: seq<(Int32, Int32)>): (texts: seq<string>)
    ensures |texts| == |pairs|
  {
    seq(|pairs|, i requires 0 <= i < |pairs| => FormatAlternative(pairs[i].0, pairs[i].1))
  }

  function RawRequirements(pairs: seq<(Int32, Int32)>): seq<ItemRequirement> {
    seq(|pairs|, i requires 0 <= i < |pairs| => Of(pairs[i].0, pairs[i].1))
  }

  /** The characters a formatted alternative is made of. */
  predicate FormatChar(c: char) { IsDigit(c) || c == '-' || c == '=' }

  lemma FormatAlternativeChars(id: Int32, quantity: Int32)
    ensures var t := FormatAlternative(id, quantity);
      t != "" && forall k :: 0 <= k < |t| ==> FormatChar(t[k])
  {
    IntToStringNumeral(id);
    IntToStringNumeral(quantity);
    var a, b := IntToString(id), IntToString(quantity);
    var t := a + "=" + b;
    forall k | 0 <= k < |t|
      ensures FormatChar(t[k])
    {
      if k < |a| {
        assert t[k] == a[k];
      } else if k > |a| {
        assert t[k] == b[k - |a| - 1];
      }
    }
  }

  /** A formatted alternative for a name the lookup does not know reads back as `ItemRequirement.of(id, quantity)`. */
  lemma ReadFormattedRequirement(lookup: string -> Option<Variation>, id: Int32, quantity: Int32)
    requires lookup(IntToString(id)).None? && quantity >= -1
    ensures ReadRequirement(lookup, FormatAlternative(id, quantity)) == Some(Of(id, quantity))
  {
    var t := FormatAlternative(id, quantity);
    FormatAlternativeChars(id, quantity);
    SplitAllNoMatch(t, "|");
    assert Split(t, "|") == [t];
    UnknownNameIsRawId(lookup, id, quantity);
    assert [t][1..] == [];
    var g := Combine(Group([id], [], [], quantity), EmptyGroup);
    assert ReadAlternatives(lookup, [t]) == Some(g);
    assert g == Group([id], [], [], quantity);
    assert ToRequirement(g) == Of(id, quantity);
  }

  lemma {:induction false} ReadFormattedRequirements(lookup: string -> Option<Variation>, pairs: seq<(Int32, Int32)>)
    requires forall i :: 0 <= i < |pairs| ==> lookup(IntToString(pairs[i].0)).None? && pairs[i].1 >= -1
    ensures ReadRequirements(lookup, FormatAll(pairs)) == Some(RawRequirements(pairs))
    decreases |pairs|
  {
    if pairs != [] {
      var rest := pairs[1..];
      assert forall i :: 0 <= i < |rest| ==> rest[i] == pairs[i + 1];
      ReadFormattedRequirements(lookup, rest);
      ReadFormattedRequirement(lookup, pairs[0].0, pairs[0].1);
      FormatAllCons(pairs);
      ReadRequirementsCons(lookup, FormatAll(pairs));
    } else {
      assert FormatAll(pairs) == [] && RawRequirements(pairs) == [];
    }
  }

  /** The first pair gives the first text and the first requirement; the rest give the rest. */
  lemma FormatAllCons(pairs: seq<(Int32, Int32)>)
    requires |pairs| >= 1
    ensures FormatAll(pairs)[0] == FormatAlternative(pairs[0].0, pairs[0].1)
    ensures FormatAll(pairs)[1..] == FormatAll(pairs[1..])
    ensures RawRequirements(pairs) == [Of(pairs[0].0, pairs[0].1)] + RawRequirements(pairs[1..])
  {
    var texts, rest := FormatAll(pairs), FormatAll(pairs[1..]);
    forall i | 0 <= i < |rest|
      ensures texts[1..][i] == rest[i]
    {
      assert pairs[1..][i] == pairs[i + 1];
    }
    var reqs, restReqs := RawRequirements(pairs), RawRequirements(pairs[1..]);
    forall i | 0 <= i < |reqs|
      ensures reqs[i] == ([Of(pairs[0].0, pairs[0].1)] + restReqs)[i]
    {
      if i > 0 {
        assert pairs[1..][i - 1] == pairs[i];
      }
    }
  }

  lemma ReadRequirementsCons(lookup: string -> Option<Variation>, texts: seq<string>)
    requires |texts| >= 1
    ensures ReadRequirements(lookup, texts)
      == if ReadRequirement(lookup, texts[0]).Some? && ReadRequirements(lookup, texts[1..]).Some?
         then Some([ReadRequirement(lookup, texts[0]).value] + ReadRequirements(lookup, texts[1..]).value)
         else None
  {
  }

  /**
   * Round trip: a cell `id=quantity&id=quantity...` of raw item ids the lookup does not know, with
   * quantities of at least -1, parses to one single-item requirement per entry, in order.
   */
  lemma ParseFormatted(lookup: string -> Option<Variation>, pairs: seq<(Int32, Int32)>)
    requires |pairs| >= 1
    requires forall i :: 0 <= i < |pairs| ==> lookup(IntToString(pairs[i].0)).None? && pairs[i].1 >= -1
    ensures ParseSpec(lookup, Some(Join(FormatAll(pairs), "&"))) == Some(TransportItems(RawRequirements(pairs)))
  {
    NormalizeFormatted(pairs);
    ReadFormattedRequirements(lookup, pairs);
  }

  /** A formatted cell is already normalised, and splits on '&' back into its entries. */
  lemma NormalizeFormatted(pairs: seq<(Int32, Int32)>)
    requires |pairs| >= 1
    ensures Normalize(Join(FormatAll(pairs), "&")) == Join(FormatAll(pairs), "&")
    ensures Split(Join(FormatAll(pairs), "&"), "&") == FormatAll(pairs)
  {
    var texts := FormatAll(pairs);
    var cell := Join(texts, "&");
    forall i | 0 <= i < |texts|
      ensures texts[i] != "" && forall k :: 0 <= k < |texts[i]| ==> FormatChar(texts[i][k])
    {
      FormatAlternativeChars(pairs[i].0, pairs[i].1);
    }
    var cellChar := c => FormatChar(c) || c == '&';
    JoinChars(texts, "&", cellChar);
    assert Avoids(cell, ' ') && Avoids(cell, '|');
    ReplaceAvoided(cell, " ", "");
    ReplaceDoubledInJoin(texts, '&', "&");
    ReplaceAvoided(cell, "||", "|");
    assert ToUpperAscii(cell) == cell;
    SplitOfJoin(texts, "&");
  }

}
