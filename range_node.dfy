/**
 * RangeNode: the tree node that shows one range of object ids (from..to)
 * of an app and, below it, one child per object type with the ids of that
 * type consumed inside the range.
 */
module RangeNode {
  import opened Wrappers
  import opened Text

  /** An ALRange; the NinjaALRange variant also carries a description (None for a plain ALRange). */
  datatype ALRange = ALRange(from: nat, to: nat, description: Option<string>)

  /** The consumed ids of one app, per object type, as the consumption cache holds them. */
  type ConsumptionData = map<string, seq<int>>

  /** A child node: an object type, its consumed ids inside the range, and the range's size. */
  datatype ObjectTypeConsumptionNode = ObjectTypeConsumptionNode(objectType: string, ids: seq<int>, size: int)

  datatype CollapsibleState = CollapsibleNone | Collapsed | Expanded

  datatype DecorationSeverity = Inactive

  datatype Decoration = Decoration(badge: string, severity: DecorationSeverity, tooltip: string)

  /** The part of a tree item this node completes. */
  datatype TreeItem = TreeItem(labelText: string, description: Option<string>)

  /** The decoration a range without consumption carries. */
  const NoConsumptionDecoration := Decoration("-", Inactive, "No consumption has been recorded")

  // ---------------------------------------------------------------------
  // Label, tooltip, URI part and size
  // ---------------------------------------------------------------------

  function Label(r: ALRange): string {
    NatToString(r.from) + ".." + NatToString(r.to)
  }

  function Tooltip(r: ALRange): string {
    "From " + NatToString(r.from) + " to " + NatToString(r.to)
  }

  function UriPathPart(r: ALRange): string {
    NatToString(r.from) + "-" + NatToString(r.to)
  }

  /** The number of ids from `from` to `to`, both included. */
  function Size(r: ALRange): int {
    r.to - r.from + 1
  }

  /** Reads "<digits><sep><digits>" back into its two numbers. */
  function ParseBounds(s: string, sep: string): Option<(nat, nat)> {
    var a := DigitPrefix(s);
    var rest := s[|a|..];
    if a != [] && sep <= rest && |rest| > |sep| && AllDigits(rest[|sep|..]) then
      Some((ParseNat(a), ParseNat(rest[|sep|..])))
    else
      None
  }

  /** Two numbers joined by a separator that starts with a non-digit can be read back. */
  lemma ParseBoundsOfJoin(a: nat, b: nat, sep: string)
    requires sep != [] && !IsDigit(sep[0])
    ensures ParseBounds(NatToString(a) + sep + NatToString(b), sep) == Some((a, b))
  {
    var x, y := NatToString(a), NatToString(b);
    var s := x + sep + y;
    assert s == x + (sep + y);
    DigitPrefixOf(x, sep + y);
    var rest := s[|DigitPrefix(s)|..];
    assert rest == sep + y;
    assert rest[|sep|..] == y;
    assert sep <= rest && |rest| > |sep|;
    ParseNatToString(a);
    ParseNatToString(b);
  }

  /** The label "{from}..{to}" names the range: both bounds can be read back from it. */
  lemma LabelNamesRange(r: ALRange)
    ensures ParseBounds(Label(r), "..") == Some((r.from, r.to))
  {
    ParseBoundsOfJoin(r.from, r.to, "..");
  }

  /** The tooltip is "From " followed by the bounds joined by " to ". */
  lemma TooltipNamesRange(r: ALRange)
    ensures Tooltip(r)[..5] == "From "
    ensures ParseBounds(Tooltip(r)[5..], " to ") == Some((r.from, r.to))
  {
    assert Tooltip(r)[5..] == NatToString(r.from) + " to " + NatToString(r.to);
    ParseBoundsOfJoin(r.from, r.to, " to ");
  }

  /** The URI part "{from}-{to}" names the range. */
  lemma UriPathPartNamesRange(r: ALRange)
    ensures ParseBounds(UriPathPart(r), "-") == Some((r.from, r.to))
  {
    ParseBoundsOfJoin(r.from, r.to, "-");
  }

  /** The ids of a range, from and to included. */
  function RangeIds(from: int, to: int): (s: set<int>)
    ensures forall x :: x in s <==> from <= x <= to
    decreases if to < from then 0 else to - from + 1
  {
    if to < from then {} else RangeIds(from, to - 1) + {to}
  }

  lemma {:induction false} RangeIdsCount(from: int, to: int)
    ensures |RangeIds(from, to)| == (if from <= to then to - from + 1 else 0)
    decreases if to < from then 0 else to - from + 1
  {
    if from <= to {
      RangeIdsCount(from, to - 1);
      assert to !in RangeIds(from, to - 1);
    }
  }

  /** A positive size is the number of ids the range holds. */
  lemma SizeCountsIds(r: ALRange)
    ensures |RangeIds(r.from, r.to)| == (if Size(r) > 0 then Size(r) else 0)
  {
    RangeIdsCount(r.from, r.to);
  }

  // ---------------------------------------------------------------------
  // The ids of a type inside the range
  // ---------------------------------------------------------------------

  /** `ids.filter(id => id >= from && id <= to)`. */
  function IdsInRange(ids: seq<int>, from: int, to: int): (r: seq<int>)
    ensures forall x :: x in r <==> x in ids && from <= x <= to
    ensures |r| <= |ids|
    decreases |ids|
  {
    if ids == [] then []
    else
      var x := ids[|ids| - 1];
      IdsInRange(ids[..|ids| - 1], from, to) + if from <= x <= to then [x] else []
  }

  /** The filter keeps order: filtering a concatenation concatenates the filtered parts. */
  lemma {:induction false} IdsInRangeAppend(a: seq<int>, b: seq<int>, from: int, to: int)
    ensures IdsInRange(a + b, from, to) == IdsInRange(a, from, to) + IdsInRange(b, from, to)
    decreases |b|
  {
    if b == [] {
      assert a + b == a;
    } else {
      var n := |b| - 1;
      assert (a + b)[..|a + b| - 1] == a + b[..n];
      IdsInRangeAppend(a, b[..n], from, to);
    }
  }

  /** Every id inside the range is kept as many times as it occurs; every other one is dropped. */
  lemma {:induction false} IdsInRangeCounts(ids: seq<int>, from: int, to: int, x: int)
    ensures multiset(IdsInRange(ids, from, to))[x] == if from <= x <= to then multiset(ids)[x] else 0
    decreases |ids|
  {
    if ids != [] {
      var n := |ids| - 1;
      IdsInRangeCounts(ids[..n], from, to, x);
      assert ids == ids[..n] + [ids[n]];
    }
  }

  predicate Distinct(s: seq<int>) {
    forall i, j :: 0 <= i < j < |s| ==> s[i] != s[j]
  }

  lemma {:induction false} DistinctCardinality(s: seq<int>)
    requires Distinct(s)
    ensures |set x | x in s| == |s|
    decreases |s|
  {
    if s != [] {
      var n := |s| - 1;
      DistinctCardinality(s[..n]);
      assert (set x | x in s) == (set x | x in s[..n]) + {s[n]};
      assert s[n] !in s[..n];
    }
  }

  lemma {:induction false} IdsInRangeDistinct(ids: seq<int>, from: int, to: int)
    requires Distinct(ids)
    ensures Distinct(IdsInRange(ids, from, to))
    decreases |ids|
  {
    if ids != [] {
      var n := |ids| - 1;
      var pre := ids[..n];
      assert Distinct(pre);
      IdsInRangeDistinct(pre, from, to);
      assert ids[n] !in pre;
      assert ids[n] !in IdsInRange(pre, from, to);
    }
  }

  /** Distinct consumed ids never outnumber the size of the range they are counted against. */
  lemma DistinctIdsFitSize(ids: seq<int>, r: ALRange)
    requires Distinct(ids)
    ensures |IdsInRange(ids, r.from, r.to)| <= (if Size(r) > 0 then Size(r) else 0)
  {
    var kept := IdsInRange(ids, r.from, r.to);
    IdsInRangeDistinct(ids, r.from, r.to);
    DistinctCardinality(kept);
    var inRange := RangeIds(r.from, r.to);
    var keptSet := set x | x in kept;
    assert keptSet <= inRange;
    assert inRange == keptSet + (inRange - keptSet);
    assert |inRange| == |keptSet| + |inRange - keptSet|;
    SizeCountsIds(r);
  }

  // ---------------------------------------------------------------------
  // The children
  // ---------------------------------------------------------------------

  /** The consumed ids of `objectType`; missing reads as none. */
  function ConsumedIds(consumption: ConsumptionData, objectType: string): seq<int> {
    if objectType in consumption then consumption[objectType] else []
  }

  /** Reference definition of the children: one per object type, in enumeration order, for each type with ids in the range. */
  function ChildrenFor(objectTypes: seq<string>, consumption: ConsumptionData, range: ALRange): seq<ObjectTypeConsumptionNode>
    decreases |objectTypes|
  {
    if objectTypes == [] then []
    else
      var t := objectTypes[|objectTypes| - 1];
      var ids := IdsInRange(ConsumedIds(consumption, t), range.from, range.to);
      ChildrenFor(objectTypes[..|objectTypes| - 1], consumption, range)
        + if ids == [] then [] else [ObjectTypeConsumptionNode(t, ids, Size(range))]
  }

  /**
   * Each child is for an enumerated type, carries exactly that type's
   * consumed ids inside the range (never none) and the range's size.
   */
  lemma {:induction false} ChildrenCarryTheirIds(objectTypes: seq<string>, consumption: ConsumptionData, range: ALRange)
    ensures forall c :: c in ChildrenFor(objectTypes, consumption, range) ==>
      && c.objectType in objectTypes
      && c.ids == IdsInRange(ConsumedIds(consumption, c.objectType), range.from, range.to)
      && c.ids != []
      && c.size == Size(range)
    decreases |objectTypes|
  {
    if objectTypes != [] {
      ChildrenCarryTheirIds(objectTypes[..|objectTypes| - 1], consumption, range);
    }
  }

  /**
   * An enumerated type has a child exactly when some of its consumed ids lie
   * in the range; a type with missing or empty consumption has none.
   */
  lemma {:induction false} ChildForEveryTypeWithIds(objectTypes: seq<string>, consumption: ConsumptionData, range: ALRange, t: string)
    requires t in objectTypes
    ensures (exists c :: c in ChildrenFor(objectTypes, consumption, range) && c.objectType == t)
        <==> IdsInRange(ConsumedIds(consumption, t), range.from, range.to) != []
    decreases |objectTypes|
  {
    var n := |objectTypes| - 1;
    var ids := IdsInRange(ConsumedIds(consumption, t), range.from, range.to);
    var node := ObjectTypeConsumptionNode(t, ids, Size(range));
    ChildrenCarryTheirIds(objectTypes, consumption, range);
    if t in objectTypes[..n] {
      ChildForEveryTypeWithIds(objectTypes[..n], consumption, range, t);
      if ids != [] {
        var c :| c in ChildrenFor(objectTypes[..n], consumption, range) && c.objectType == t;
        assert c in ChildrenFor(objectTypes, consumption, range);
      }
    } else {
      assert objectTypes[n] == t;
      ChildrenCarryTheirIds(objectTypes[..n], consumption, range);
      if ids != [] {
        assert node in ChildrenFor(objectTypes, consumption, range);
      }
    }
  }

  /** The types of `cs` appear in `objectTypes`, an earlier child's type strictly earlier. */
  predicate InEnumerationOrder(objectTypes: seq<string>, cs: seq<ObjectTypeConsumptionNode>) {
    forall i, j :: 0 <= i < j < |cs| ==>
      exists p, q :: 0 <= p < q < |objectTypes| && objectTypes[p] == cs[i].objectType && objectTypes[q] == cs[j].objectType
  }

  /** Children follow the enumeration order: an earlier child's type comes strictly earlier in it. */
  lemma {:induction false} ChildrenInEnumerationOrder(objectTypes: seq<string>, consumption: ConsumptionData, range: ALRange)
    ensures InEnumerationOrder(objectTypes, ChildrenFor(objectTypes, consumption, range))
    decreases |objectTypes|
  {
    if objectTypes != [] {
      var n := |objectTypes| - 1;
      var init := objectTypes[..n];
      var prefix := ChildrenFor(init, consumption, range);
      var cs := ChildrenFor(objectTypes, consumption, range);
      ChildrenInEnumerationOrder(init, consumption, range);
      ChildrenCarryTheirIds(init, consumption, range);
      forall i, j | 0 <= i < j < |cs|
        ensures exists p, q :: 0 <= p < q < |objectTypes| && objectTypes[p] == cs[i].objectType && objectTypes[q] == cs[j].objectType
      {
        if j < |prefix| {
          assert cs[i] == prefix[i] && cs[j] == prefix[j];
          assert InEnumerationOrder(init, prefix);
          var p, q :| 0 <= p < q < |init| && init[p] == prefix[i].objectType && init[q] == prefix[j].objectType;
          assert objectTypes[p] == init[p] && objectTypes[q] == init[q];
        } else {
          assert prefix[i] in prefix;
          var p :| 0 <= p < |init| && init[p] == prefix[i].objectType;
          assert objectTypes[p] == init[p];
          assert cs[j].objectType == objectTypes[n];
        }
      }
    }
  }

  /** With an enumeration of distinct values, no type has two children. */
  lemma AtMostOneChildPerType(objectTypes: seq<string>, consumption: ConsumptionData, range: ALRange)
    requires forall p, q :: 0 <= p < q < |objectTypes| ==> objectTypes[p] != objectTypes[q]
    ensures var cs := ChildrenFor(objectTypes, consumption, range);
      forall i, j :: 0 <= i < j < |cs| ==> cs[i].objectType != cs[j].objectType
  {
    ChildrenInEnumerationOrder(objectTypes, consumption, range);
    var cs := ChildrenFor(objectTypes, consumption, range);
    assert InEnumerationOrder(objectTypes, cs);
    forall i, j | 0 <= i < j < |cs| ensures cs[i].objectType != cs[j].objectType {
      var ci, cj := cs[i], cs[j];
      var p, q :| 0 <= p < q < |objectTypes| && objectTypes[p] == cs[i].objectType && objectTypes[q] == cs[j].objectType;
    }
  }

  /** Without cached consumption (treated as the empty map) a range has no children. */
  lemma {:induction false} NoCachedConsumptionNoChildren(objectTypes: seq<string>, range: ALRange)
    ensures ChildrenFor(objectTypes, Option<ConsumptionData>.None.GetOr(map[]), range) == []
    decreases |objectTypes|
  {
    if objectTypes != [] {
      NoCachedConsumptionNoChildren(objectTypes[..|objectTypes| - 1], range);
    }
  }

  // ---------------------------------------------------------------------
  // Completing the tree item
  // ---------------------------------------------------------------------

  /** The range has a description that is a non-empty string. */
  predicate HasDescription(r: ALRange) {
    r.description.Some? && r.description.value != ""
  }

  const NoConsumptionNote: string := " (no consumption)"

  /**
   * completeTreeItem after the base class has filled `item`: the
   * description and/or the label take the range's description as the two
   * flags say; a range without consumption then gets " (no consumption)"
   * appended to its description, trimmed.
   */
  function CompleteItem(r: ALRange, inDescription: bool, inLabel: bool, noConsumption: bool, item: TreeItem): TreeItem {
    var described :=
      if HasDescription(r) then
        item.(description := if inDescription then r.description else item.description,
              labelText := if inLabel then item.labelText + " (" + r.description.value + ")" else item.labelText)
      else item;
    if noConsumption then
      described.(description := Some(Trim(described.description.GetOr("") + NoConsumptionNote)))
    else described
  }

  /** The label gains " (description)" exactly when asked to and the range has a description; consumption does not matter. */
  lemma CompletedLabel(r: ALRange, inDescription: bool, inLabel: bool, noConsumption: bool, item: TreeItem)
    ensures CompleteItem(r, inDescription, inLabel, noConsumption, item).labelText
         == if HasDescription(r) && inLabel then item.labelText + " (" + r.description.value + ")" else item.labelText
  {
  }

  lemma TrimStartOfNote()
    ensures TrimStart(NoConsumptionNote) == "(no consumption)"
  {
    var t := "(no consumption)";
    assert NoConsumptionNote == [' '] + t;
    assert !IsWhitespace(t[0]);
    assert TrimStart(t) == t;
    assert NoConsumptionNote[1..] == t;
  }

  /** Trimming "<before> (no consumption)": the leading whitespace of `before` goes, and all of it when it is blank. */
  lemma TrimNoConsumptionNote(before: string)
    ensures Trim(before + NoConsumptionNote)
         == if TrimStart(before) == "" then "(no consumption)" else TrimStart(before) + NoConsumptionNote
  {
    var s := before + NoConsumptionNote;
    assert s[|s| - 1] == NoConsumptionNote[|NoConsumptionNote| - 1] == ')';
    TrimEndingInText(s);
    TrimStartAppend(before, NoConsumptionNote);
    TrimStartOfNote();
  }

  /**
   * Without consumption the description ends in "(no consumption)": it is
   * "(no consumption)" alone when the earlier description is blank, and
   * otherwise that description without its leading whitespace followed by
   * " (no consumption)".
   */
  lemma NoConsumptionDescription(r: ALRange, inDescription: bool, inLabel: bool, item: TreeItem)
    ensures var before := if HasDescription(r) && inDescription then r.description.value else item.description.GetOr("");
      CompleteItem(r, inDescription, inLabel, true, item).description
        == Some(if TrimStart(before) == "" then "(no consumption)" else TrimStart(before) + NoConsumptionNote)
  {
    var before := if HasDescription(r) && inDescription then r.description.value else item.description.GetOr("");
    assert CompleteItem(r, inDescription, inLabel, true, item).description == Some(Trim(before + NoConsumptionNote));
    TrimNoConsumptionNote(before);
  }

  /** With consumption, the description is the range's when that flag is set, and is otherwise left as the base class set it. */
  lemma ConsumedDescription(r: ALRange, inDescription: bool, inLabel: bool, item: TreeItem)
    ensures CompleteItem(r, inDescription, inLabel, false, item).description
         == if HasDescription(r) && inDescription then r.description else item.description
  {
  }

  // ---------------------------------------------------------------------
  // The node
  // ---------------------------------------------------------------------

  class RangeNode {
    const range: ALRange
    const labelText: string
    const tooltip: string
    const uriPathPart: string
    const consumption: ConsumptionData
    const includeLogicalNameInDescription: bool
    const includeLogicalNameInLabel: bool
    var childNodes: seq<ObjectTypeConsumptionNode>
    var noConsumption: bool
    var collapsibleState: CollapsibleState
    var decoration: Option<Decoration>

    /**
     * Takes the label, tooltip and URI part from the range and the app's
     * consumption from the cache (`cached`, the empty map when missing), and
     * computes the children over the object types in enumeration order.
     */
    constructor (range: ALRange, cached: Option<ConsumptionData>, objectTypes: seq<string>,
                 includeLogicalNameInDescription: bool, includeLogicalNameInLabel: bool)
      ensures this.range == range && labelText == Label(range) && tooltip == Tooltip(range) && uriPathPart == UriPathPart(range)
      ensures consumption == cached.GetOr(map[])
      ensures this.includeLogicalNameInDescription == includeLogicalNameInDescription
      ensures this.includeLogicalNameInLabel == includeLogicalNameInLabel
      ensures childNodes == ChildrenFor(objectTypes, consumption, range)
      ensures noConsumption <==> childNodes == []
      ensures collapsibleState == if childNodes == [] then CollapsibleNone else Expanded
      ensures decoration == if childNodes == [] then Some(NoConsumptionDecoration) else None
    {
      this.range := range;
      labelText := Label(range);
      tooltip := Tooltip(range);
      uriPathPart := UriPathPart(range);
      consumption := cached.GetOr(map[]);
      this.includeLogicalNameInDescription := includeLogicalNameInDescription;
      this.includeLogicalNameInLabel := includeLogicalNameInLabel;
      noConsumption := false;
      collapsibleState := Expanded;
      decoration := None;
      childNodes := [];
      new;
      childNodes := CalculateChildren(objectTypes);
    }

    /**
     * For each object type in order, keep its consumed ids inside the range
     * and push a child when any remain; with no child at all, mark the node
     * as without consumption, not collapsible, and decorated with "-".
     */
    method CalculateChildren(objectTypes: seq<string>) returns (children: seq<ObjectTypeConsumptionNode>)
      modifies this`noConsumption, this`collapsibleState, this`decoration
      ensures children == ChildrenFor(objectTypes, consumption, range)
      ensures noConsumption == (children == [] || old(noConsumption))
      ensures collapsibleState == if children == [] then CollapsibleNone else old(collapsibleState)
      ensures decoration == if children == [] then Some(NoConsumptionDecoration) else None
    {
      children := [];
      var k := 0;
      while k < |objectTypes|
        invariant 0 <= k <= |objectTypes|
        invariant children == ChildrenFor(objectTypes[..k], consumption, range)
      {
        var objectType := objectTypes[k];
        assert objectTypes[..k + 1][..k] == objectTypes[..k];
        if objectType !in consumption || |consumption[objectType]| == 0 {
          k := k + 1;
          continue;
        }
        var ids := IdsInRange(consumption[objectType], range.from, range.to);
        if |ids| == 0 {
          k := k + 1;
          continue;
        }
        children := children + [ObjectTypeConsumptionNode(objectType, ids, Size(range))];
        k := k + 1;
      }
      assert objectTypes[..k] == objectTypes;
      if |children| == 0 {
        noConsumption := true;
        collapsibleState := CollapsibleNone;
        decoration := Some(NoConsumptionDecoration);
      } else {
        decoration := None;
      }
    }

    /** completeTreeItem for this node: CompleteItem with the node's range, flags and consumption state. */
    function CompleteTreeItem(item: TreeItem): TreeItem
      reads this
    {
      CompleteItem(range, includeLogicalNameInDescription, includeLogicalNameInLabel, noConsumption, item)
    }
  }
}
