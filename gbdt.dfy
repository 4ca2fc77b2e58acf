/** The GBDT model: loading a PMML MiningModel (field dictionary, model attributes, the
    regression segment that holds the trees, one decision tree per segment, the leaf
    encoding across the ensemble) and the three scorers predict, predictLeaf and
    gbdtEncoding. */
module Gbdt {
  import opened Common
  import opened Pmml
  import opened DecisionTrees

  datatype FieldType = FieldType(optype: string, dataType: string)

  /** One ensemble member: its tree and, once leafEncoding has run, its leaf codes. */
  datatype GBDTTree = GBDTTree(tree: Tree, leafEncodingMap: Option<map<int, int>>)

  datatype ModelNames = ModelNames(modelName: string, algorithmName: string, functionName: string)

  // ---------------------------------------------------------------------------------
  // Field dictionary

  predicate HasFieldAttributes(f: Element) {
    "optype" in f.attributes && "dataType" in f.attributes && "name" in f.attributes
  }

  function FieldName(f: Element): string
    requires HasFieldAttributes(f)
  {
    f.attributes["name"]
  }

  function FieldTypeOf(f: Element): FieldType
    requires HasFieldAttributes(f)
  {
    FieldType(f.attributes["optype"], f.attributes["dataType"])
  }

  /** The dictionary parseFieldType fills from `fields`, one put per field in order. */
  function FieldDict(fields: seq<Element>): (r: Result<map<string, FieldType>>)
    ensures r.Failure? ==> r.error == NullPointer
    decreases |fields|
  {
    if |fields| == 0 then Success(map[])
    else
      var last := fields[|fields| - 1];
      match FieldDict(fields[..|fields| - 1])
      case Failure(err) => Failure(err)
      case Success(m) =>
        if !HasFieldAttributes(last) then Failure(NullPointer)
        else Success(m[FieldName(last) := FieldTypeOf(last)])
  }

  /** The dictionary exists exactly when every field has its three attributes. */
  lemma {:induction false} FieldDictSucceeds(fields: seq<Element>)
    ensures FieldDict(fields).Success? <==> forall i :: 0 <= i < |fields| ==> HasFieldAttributes(fields[i])
    decreases |fields|
  {
    if |fields| > 0 {
      var prefix := fields[..|fields| - 1];
      assert forall i :: 0 <= i < |prefix| ==> prefix[i] == fields[i];
      FieldDictSucceeds(prefix);
    }
  }

  /** Its keys are exactly the field names. */
  lemma {:induction false} FieldDictKeys(fields: seq<Element>)
    requires FieldDict(fields).Success?
    ensures forall i :: 0 <= i < |fields| ==> HasFieldAttributes(fields[i]) && FieldName(fields[i]) in FieldDict(fields).value
    ensures forall k :: k in FieldDict(fields).value ==>
      exists i :: 0 <= i < |fields| && HasFieldAttributes(fields[i]) && FieldName(fields[i]) == k
    decreases |fields|
  {
    FieldDictSucceeds(fields);
    if |fields| > 0 {
      var prefix := fields[..|fields| - 1];
      assert forall i :: 0 <= i < |prefix| ==> prefix[i] == fields[i];
      FieldDictKeys(prefix);
    }
  }

  /** A name maps to the type of the last field carrying it. */
  lemma {:induction false} FieldDictLastWins(fields: seq<Element>, i: nat)
    requires FieldDict(fields).Success? && i < |fields| && HasFieldAttributes(fields[i])
    requires forall j :: i < j < |fields| ==> HasFieldAttributes(fields[j]) && FieldName(fields[j]) != FieldName(fields[i])
    ensures FieldName(fields[i]) in FieldDict(fields).value
    ensures FieldDict(fields).value[FieldName(fields[i])] == FieldTypeOf(fields[i])
    decreases |fields|
  {
    FieldDictKeys(fields);
    if i < |fields| - 1 {
      var prefix := fields[..|fields| - 1];
      assert forall j :: 0 <= j < |prefix| ==> prefix[j] == fields[j];
      FieldDictLastWins(prefix, i);
    }
  }

  /** parseFieldType: every DataField of the dictionary becomes an entry keyed by its
      name; a field lacking one of its three attributes is a null dereference. */
  method ParseFieldType(dict: Element) returns (r: Result<map<string, FieldType>>)
    ensures r == FieldDict(ChildrenNamed(dict, "DataField"))
  {
    var dataFields := ChildrenNamed(dict, "DataField");
    var result: map<string, FieldType> := map[];
    for i := 0 to |dataFields|
      invariant FieldDict(dataFields[..i]) == Success(result)
    {
      assert dataFields[..i + 1][..i] == dataFields[..i];
      var element := dataFields[i];
      var optype := Attr(element, "optype");
      var dataType := Attr(element, "dataType");
      var name := Attr(element, "name");
      if optype.None? || dataType.None? || name.None? {
        FieldDictPrefixFails(dataFields, i + 1);
        return Failure(NullPointer);
      }
      result := result[name.value := FieldType(optype.value, dataType.value)];
    }
    assert dataFields[..|dataFields|] == dataFields;
    return Success(result);
  }

  /** A prefix that fails makes the whole dictionary fail. */
  lemma {:induction false} FieldDictPrefixFails(fields: seq<Element>, n: nat)
    requires n <= |fields| && FieldDict(fields[..n]).Failure?
    ensures FieldDict(fields).Failure?
    decreases |fields| - n
  {
    if n < |fields| {
      assert fields[..n + 1][..n] == fields[..n];
      FieldDictPrefixFails(fields, n + 1);
    } else {
      assert fields[..n] == fields;
    }
  }

  /** parseAttributes: the model's name, algorithm and function, exactly as written. */
  function ParseAttributes(rootModel: Element): (r: Result<ModelNames>)
    ensures r.Success? <==> "modelName" in rootModel.attributes && "algorithmName" in rootModel.attributes
                            && "functionName" in rootModel.attributes
    ensures r.Failure? ==> r.error == NullPointer
    ensures r.Success? ==> Attr(rootModel, "modelName") == Some(r.value.modelName)
                           && Attr(rootModel, "algorithmName") == Some(r.value.algorithmName)
                           && Attr(rootModel, "functionName") == Some(r.value.functionName)
  {
    match (Attr(rootModel, "modelName"), Attr(rootModel, "algorithmName"), Attr(rootModel, "functionName"))
    case (Some(m), Some(a), Some(f)) => Success(ModelNames(m, a, f))
    case _ => Failure(NullPointer)
  }

  // ---------------------------------------------------------------------------------
  // Finding the tree segments

  /** A top-level Segment holding a MiningModel without a functionName attribute. */
  predicate LacksFunctionName(s: Element) {
    FirstChild(s, "MiningModel").Some? && Attr(FirstChild(s, "MiningModel").value, "functionName").None?
  }

  /** A top-level Segment whose nested MiningModel is a regression. */
  predicate IsRegressionSegment(s: Element) {
    FirstChild(s, "MiningModel").Some? && Attr(FirstChild(s, "MiningModel").value, "functionName") == Some("regression")
  }

  /** The position of the last regression segment. */
  function LastRegression(segments: seq<Element>): (r: Option<nat>)
    ensures r.Some? ==> r.value < |segments| && IsRegressionSegment(segments[r.value])
    decreases |segments|
  {
    if |segments| == 0 then None
    else if IsRegressionSegment(segments[|segments| - 1]) then Some(|segments| - 1)
    else LastRegression(segments[..|segments| - 1])
  }

  /** LastRegression finds a regression segment with none after it, or reports that
      there is none. */
  lemma {:induction false} LastRegressionIsLast(segments: seq<Element>)
    ensures LastRegression(segments).Some? ==>
      forall j :: LastRegression(segments).value < j < |segments| ==> !IsRegressionSegment(segments[j])
    ensures LastRegression(segments).None? ==> forall j :: 0 <= j < |segments| ==> !IsRegressionSegment(segments[j])
    decreases |segments|
  {
    if |segments| > 0 && !IsRegressionSegment(segments[|segments| - 1]) {
      var prefix := segments[..|segments| - 1];
      assert forall j :: 0 <= j < |prefix| ==> prefix[j] == segments[j];
      LastRegressionIsLast(prefix);
    }
  }

  /** The Segmentation nested in a segment's MiningModel, if any. */
  function InnerSegmentation(s: Element): Option<Element>
    requires FirstChild(s, "MiningModel").Some?
  {
    FirstChild(FirstChild(s, "MiningModel").value, "Segmentation")
  }

  /** The state of findTreeElement's scan after `segments`: the Segmentation remembered
      from the latest regression segment (None before the first, or when that segment has
      none), or the null dereference of a MiningModel without a functionName. */
  function Scan(segments: seq<Element>): (r: Result<Option<Element>>)
    ensures r.Failure? ==> r.error == NullPointer
    decreases |segments|
  {
    if |segments| == 0 then Success(None)
    else
      match Scan(segments[..|segments| - 1])
      case Failure(err) => Failure(err)
      case Success(treeSegment) => ScanSegment(treeSegment, segments[|segments| - 1])
  }

  /** One turn of the scan: a segment without a MiningModel is passed over, a regression
      one replaces the remembered Segmentation. */
  function ScanSegment(treeSegment: Option<Element>, segment: Element): (r: Result<Option<Element>>)
    ensures r.Failure? ==> r.error == NullPointer
  {
    match FirstChild(segment, "MiningModel")
    case None => Success(treeSegment)
    case Some(miningModel) =>
      match Attr(miningModel, "functionName")
      case None => Failure(NullPointer)
      case Some(functionName) =>
        if functionName == "regression" then Success(FirstChild(miningModel, "Segmentation"))
        else Success(treeSegment)
  }

  /** The tree Segments findTreeElement returns. */
  function TreeSegments(segmentation: Element): (r: Result<seq<Element>>)
    ensures r.Failure? ==> r.error == NullPointer
  {
    match Scan(ChildrenNamed(segmentation, "Segment"))
    case Failure(err) => Failure(err)
    case Success(None) => Failure(NullPointer)
    case Success(Some(inner)) => Success(ChildrenNamed(inner, "Segment"))
  }

  /** The scan fails exactly when some MiningModel lacks a functionName; otherwise it
      holds the Segmentation of the LAST regression segment. */
  lemma {:induction false} ScanMeaning(segments: seq<Element>)
    ensures Scan(segments).Failure? <==> exists i :: 0 <= i < |segments| && LacksFunctionName(segments[i])
    ensures Scan(segments).Success? ==>
      Scan(segments).value == match LastRegression(segments)
                              case None => None
                              case Some(j) => InnerSegmentation(segments[j])
    decreases |segments|
  {
    if |segments| > 0 {
      var n := |segments| - 1;
      var prefix := segments[..n];
      var last := segments[n];
      ScanMeaning(prefix);
      ScanStepFails(prefix, last);
      ScanStepValue(prefix, last);
      assert segments == prefix + [last];
    }
  }

  /** The Segmentation of the last regression segment, if any. */
  function Remembered(segments: seq<Element>): Option<Element> {
    match LastRegression(segments)
    case None => None
    case Some(j) => InnerSegmentation(segments[j])
  }

  /** One more segment extends the failure fact of ScanMeaning from `prefix`. */
  lemma ScanStepFails(prefix: seq<Element>, last: Element)
    requires Scan(prefix).Failure? <==> exists i :: 0 <= i < |prefix| && LacksFunctionName(prefix[i])
    ensures var segments := prefix + [last];
      Scan(segments).Failure? <==> exists i :: 0 <= i < |segments| && LacksFunctionName(segments[i])
  {
    var segments := prefix + [last];
    assert segments[..|prefix|] == prefix;
    assert segments[|prefix|] == last;
    if Scan(prefix).Success? {
      ScanSegmentCases(Scan(prefix).value, last);
    }
    if exists i :: 0 <= i < |segments| && LacksFunctionName(segments[i]) {
      var i :| 0 <= i < |segments| && LacksFunctionName(segments[i]);
      if i < |prefix| {
        assert segments[i] == prefix[i];
      }
    }
    if exists i :: 0 <= i < |prefix| && LacksFunctionName(prefix[i]) {
      var i :| 0 <= i < |prefix| && LacksFunctionName(prefix[i]);
      assert segments[i] == prefix[i];
    }
  }

  /** One more segment extends the value fact of ScanMeaning from `prefix`. */
  lemma ScanStepValue(prefix: seq<Element>, last: Element)
    requires Scan(prefix).Success? ==> Scan(prefix).value == Remembered(prefix)
    ensures var segments := prefix + [last];
      Scan(segments).Success? ==> Scan(segments).value == Remembered(segments)
  {
    var segments := prefix + [last];
    assert segments[..|prefix|] == prefix;
    assert segments[|prefix|] == last;
    if Scan(segments).Success? {
      ScanSegmentCases(Scan(prefix).value, last);
      if !IsRegressionSegment(last) {
        assert LastRegression(segments) == LastRegression(prefix);
        if LastRegression(prefix).Some? {
          assert segments[LastRegression(prefix).value] == prefix[LastRegression(prefix).value];
        }
      }
    }
  }

  /** One turn of the scan fails exactly on a MiningModel without a functionName, and
      otherwise moves to a regression segment's Segmentation. */
  lemma ScanSegmentCases(treeSegment: Option<Element>, segment: Element)
    ensures ScanSegment(treeSegment, segment).Failure? <==> LacksFunctionName(segment)
    ensures ScanSegment(treeSegment, segment).Success? ==>
              ScanSegment(treeSegment, segment).value ==
                if IsRegressionSegment(segment) then InnerSegmentation(segment) else treeSegment
  {
  }

  /** The trees are the Segments of the Segmentation inside the LAST top-level Segment
      whose MiningModel has functionName "regression"; they are found exactly when no
      MiningModel lacks a functionName, some segment is a regression, and the last one
      has a Segmentation. */
  lemma TreeSegmentsMeaning(segmentation: Element)
    ensures var segments := ChildrenNamed(segmentation, "Segment");
      TreeSegments(segmentation).Success? <==>
        (forall i :: 0 <= i < |segments| ==> !LacksFunctionName(segments[i])) &&
        LastRegression(segments).Some? &&
        InnerSegmentation(segments[LastRegression(segments).value]).Some?
    ensures var segments := ChildrenNamed(segmentation, "Segment");
      TreeSegments(segmentation).Success? ==>
        TreeSegments(segmentation).value == ChildrenNamed(InnerSegmentation(segments[LastRegression(segments).value]).value, "Segment")
  {
    ScanMeaning(ChildrenNamed(segmentation, "Segment"));
  }

  /** A scan that fails on a prefix fails on the whole. */
  lemma {:induction false} ScanPrefixFails(segments: seq<Element>, n: nat)
    requires n <= |segments| && Scan(segments[..n]).Failure?
    ensures Scan(segments).Failure?
    decreases |segments| - n
  {
    if n < |segments| {
      assert segments[..n + 1][..n] == segments[..n];
      ScanPrefixFails(segments, n + 1);
    } else {
      assert segments[..n] == segments;
    }
  }

  /** findTreeElement: scans the top-level Segments, remembering the Segmentation of the
      last regression one. */
  method FindTreeElement(segmentation: Element) returns (r: Result<seq<Element>>)
    ensures r == TreeSegments(segmentation)
  {
    var elements := ChildrenNamed(segmentation, "Segment");
    var treeSegment: Option<Element> := None;
    for i := 0 to |elements|
      invariant Scan(elements[..i]) == Success(treeSegment)
    {
      assert elements[..i + 1][..i] == elements[..i];
      assert Scan(elements[..i + 1]) == ScanSegment(treeSegment, elements[i]);
      var miningModel := FirstChild(elements[i], "MiningModel");
      if miningModel.Some? {
        var functionName := Attr(miningModel.value, "functionName");
        if functionName.None? {
          ScanPrefixFails(elements, i + 1);
          return Failure(NullPointer);
        }
        if functionName.value == "regression" {
          treeSegment := FirstChild(miningModel.value, "Segmentation");
        }
      }
    }
    assert elements[..|elements|] == elements;
    if treeSegment.None? {
      return Failure(NullPointer);
    }
    return Success(ChildrenNamed(treeSegment.value, "Segment"));
  }

  // ---------------------------------------------------------------------------------
  // Building the ensemble

  /** One tree segment: its TreeModel's root Node, built and then given its thresholds. */
  function BuildSegmentTree(segment: Element, parse: NumberParser): Result<Tree> {
    match FirstChild(segment, "TreeModel")
    case None => Failure(NullPointer)
    case Some(treeModel) =>
      match FirstChild(treeModel, "Node")
      case None => Failure(NullPointer)
      case Some(rootNode) =>
        match BuildNode(rootNode, parse)
        case Failure(err) => Failure(err)
        case Success(t) => SplitThreshold(t, parse)
  }

  /** The trees of all segments in order; the first segment that fails fails them all. */
  function BuildAll(segments: seq<Element>, parse: NumberParser): Result<seq<Tree>> {
    MapResult(segments, s => BuildSegmentTree(s, parse))
  }

  /** The ensemble builds exactly when every segment builds, and then holds one tree per
      segment, tree i built from segment i. */
  lemma BuildAllMeaning(segments: seq<Element>, parse: NumberParser)
    ensures BuildAll(segments, parse).Success? <==>
      forall i :: 0 <= i < |segments| ==> BuildSegmentTree(segments[i], parse).Success?
    ensures BuildAll(segments, parse).Success? ==> |BuildAll(segments, parse).value| == |segments|
    ensures BuildAll(segments, parse).Success? ==> forall i :: 0 <= i < |segments| ==>
      BuildAll(segments, parse).value[i] == BuildSegmentTree(segments[i], parse).value
  {
    var f := s => BuildSegmentTree(s, parse);
    MapResultSucceeds(segments, f);
    if BuildAll(segments, parse).Success? {
      MapResultValues(segments, f);
    }
  }

  function Unencoded(trees: seq<Tree>): (r: seq<GBDTTree>)
    ensures |r| == |trees| && forall i :: 0 <= i < |trees| ==> r[i] == GBDTTree(trees[i], None)
  {
    seq(|trees|, i requires 0 <= i < |trees| => GBDTTree(trees[i], None))
  }

  // ---------------------------------------------------------------------------------
  lemma UnencodedSnoc(before: seq<GBDTTree>, trees: seq<Tree>, t: Tree)
    ensures before + Unencoded(trees + [t]) == (before + Unencoded(trees)) + [GBDTTree(t, None)]
  {
    assert Unencoded(trees + [t])[..|trees|] == Unencoded(trees);
    assert Unencoded(trees + [t]) == Unencoded(trees) + [GBDTTree(t, None)];
  }

  /** buildGBDTTree's loop after `i` segments: `built` holds their trees, and the whole
      ensemble is those trees followed by the ones still to build. */
  ghost predicate BuiltUpTo(segments: seq<Element>, parse: NumberParser, i: nat, built: seq<Tree>) {
    i <= |segments| &&
    BuildAll(segments, parse) == match BuildAll(segments[i..], parse)
                                 case Failure(e) => Failure(e)
                                 case Success(ts) => Success(built + ts)
  }

  lemma BuiltStart(segments: seq<Element>, parse: NumberParser)
    ensures BuiltUpTo(segments, parse, 0, [])
  {
    assert segments[0..] == segments;
    assert forall ts: seq<Tree> :: [] + ts == ts;
  }

  lemma BuiltStep(segments: seq<Element>, parse: NumberParser, i: nat, built: seq<Tree>, t: Tree)
    requires i < |segments| && BuiltUpTo(segments, parse, i, built)
    requires BuildSegmentTree(segments[i], parse) == Success(t)
    ensures BuiltUpTo(segments, parse, i + 1, built + [t])
  {
    assert segments[i..][0] == segments[i] && segments[i..][1..] == segments[i + 1..];
    assert forall ts: seq<Tree> :: built + ([t] + ts) == (built + [t]) + ts;
  }

  lemma BuiltFails(segments: seq<Element>, parse: NumberParser, i: nat, built: seq<Tree>)
    requires i < |segments| && BuiltUpTo(segments, parse, i, built)
    requires BuildSegmentTree(segments[i], parse).Failure?
    ensures BuildAll(segments, parse) == Failure(BuildSegmentTree(segments[i], parse).error)
  {
    assert segments[i..][0] == segments[i];
  }

  lemma BuiltEnd(segments: seq<Element>, parse: NumberParser, built: seq<Tree>)
    requires BuiltUpTo(segments, parse, |segments|, built)
    ensures BuildAll(segments, parse) == Success(built)
  {
    assert segments[|segments|..] == [];
    assert built + [] == built;
  }

  // Leaf encoding

  predicate Distinct(s: seq<int>) {
    forall i, j :: 0 <= i < j < |s| ==> s[i] != s[j]
  }

  /** The map leafEncoding fills for one tree: the i-th leaf id is put with code base + i. */
  function EncodeTree(order: seq<int>, base: int): (m: map<int, int>)
    decreases |order|
  {
    if |order| == 0 then map[]
    else EncodeTree(order[..|order| - 1], base)[order[|order| - 1] := base + |order| - 1]
  }

  /** Every leaf id has a code, and only leaf ids do; the codes lie in
      base .. base + |order| - 1, and a code is the position of (the last occurrence of)
      its leaf id, so two ids never share a code. */
  lemma {:induction false} EncodeTreeMeaning(order: seq<int>, base: int)
    ensures forall id :: id in EncodeTree(order, base) <==> id in order
    ensures forall id :: id in EncodeTree(order, base) ==>
      base <= EncodeTree(order, base)[id] < base + |order| && order[EncodeTree(order, base)[id] - base] == id
    decreases |order|
  {
    if |order| > 0 {
      var n := |order| - 1;
      var prefix, last := order[..n], order[n];
      EncodeTreeMeaning(prefix, base);
      var m, mp := EncodeTree(order, base), EncodeTree(prefix, base);
      assert m == mp[last := base + n];
      forall id
        ensures id in m <==> id in order
      {
        if id in order && id != last {
          var k :| 0 <= k < |order| && order[k] == id;
          assert prefix[k] == id;
        }
      }
      forall id | id in m
        ensures base <= m[id] < base + |order| && order[m[id] - base] == id
      {
        if id != last {
          assert prefix[mp[id] - base] == id;
        }
      }
    }
  }

  /** With distinct leaf ids, the i-th leaf of the enumeration has code base + i. */
  lemma {:induction false} EncodeTreePositions(order: seq<int>, base: int)
    requires Distinct(order)
    ensures forall i :: 0 <= i < |order| ==> order[i] in EncodeTree(order, base) && EncodeTree(order, base)[order[i]] == base + i
    decreases |order|
  {
    if |order| > 0 {
      var prefix := order[..|order| - 1];
      EncodeTreePositions(prefix, base);
      EncodeTreeMeaning(prefix, base);
      forall i | 0 <= i < |order|
        ensures EncodeTree(order, base)[order[i]] == base + i
      {
        if i < |order| - 1 {
          assert prefix[i] == order[i];
        }
      }
    }
  }

  /** leafEncoding's inner loop: puts each leaf id with the next value of the counter. */
  method EncodeLeaves(order: seq<int>, base: int) returns (m: map<int, int>, next: int)
    ensures m == EncodeTree(order, base) && next == base + |order|
  {
    m, next := map[], base;
    for k := 0 to |order|
      invariant next == base + k
      invariant m == EncodeTree(order[..k], base)
    {
      assert order[..k + 1][..k] == order[..k];
      m := m[order[k] := next];
      next := next + 1;
    }
    assert order[..|order|] == order;
  }

  /** The first code of tree j: the number of leaves of the trees before it. */
  function Offset(orders: seq<seq<int>>, j: nat): (r: nat)
    requires j <= |orders|
  {
    if j == 0 then 0 else Offset(orders, j - 1) + |orders[j - 1]|
  }

  /** Tree j's codes, as leafEncoding assigns them with one running counter. */
  function TreeCodes(orders: seq<seq<int>>, j: nat): map<int, int>
    requires j < |orders|
  {
    EncodeTree(orders[j], Offset(orders, j))
  }

  lemma {:induction false} OffsetMonotone(orders: seq<seq<int>>, i: nat, j: nat)
    requires i <= j <= |orders|
    ensures Offset(orders, i) <= Offset(orders, j)
    decreases j - i
  {
    if i < j {
      OffsetMonotone(orders, i, j - 1);
    }
  }

  /** Appending a tree leaves the offsets of the trees before it unchanged. */
  lemma {:induction false} OffsetAppendAt(orders: seq<seq<int>>, order: seq<int>, j: nat)
    requires j <= |orders|
    ensures Offset(orders + [order], j) == Offset(orders, j)
  {
    if j > 0 {
      OffsetAppendAt(orders, order, j - 1);
      assert (orders + [order])[j - 1] == orders[j - 1];
    }
  }

  /** Some tree gives code c to one of its leaves. */
  ghost predicate Covered(orders: seq<seq<int>>, c: int) {
    exists j, id :: 0 <= j < |orders| && id in TreeCodes(orders, j) && TreeCodes(orders, j)[id] == c
  }

  /** leafEncoding across the ensemble: tree j's codes fill the block of consecutive
      codes right after tree j-1's, and all of them lie below the total leaf count. */
  lemma EncodingBlocks(orders: seq<seq<int>>)
    ensures forall j, id :: 0 <= j < |orders| && id in TreeCodes(orders, j) ==>
      Offset(orders, j) <= TreeCodes(orders, j)[id] < Offset(orders, j) + |orders[j]| <= Offset(orders, |orders|)
  {
    forall j, id | 0 <= j < |orders| && id in TreeCodes(orders, j)
      ensures Offset(orders, j) <= TreeCodes(orders, j)[id] < Offset(orders, j) + |orders[j]| <= Offset(orders, |orders|)
    {
      OffsetMonotone(orders, j + 1, |orders|);
      EncodeTreeMeaning(orders[j], Offset(orders, j));
    }
  }

  /** No two (tree, leaf id) pairs share a code. */
  lemma EncodingInjective(orders: seq<seq<int>>)
    ensures forall j1, j2, a, b ::
      (0 <= j1 < |orders| && 0 <= j2 < |orders| && a in TreeCodes(orders, j1) && b in TreeCodes(orders, j2) &&
       TreeCodes(orders, j1)[a] == TreeCodes(orders, j2)[b]) ==> j1 == j2 && a == b
  {
    forall j1, j2, a, b |
      0 <= j1 < |orders| && 0 <= j2 < |orders| && a in TreeCodes(orders, j1) && b in TreeCodes(orders, j2) &&
      TreeCodes(orders, j1)[a] == TreeCodes(orders, j2)[b]
      ensures j1 == j2 && a == b
    {
      EncodeTreeMeaning(orders[j1], Offset(orders, j1));
      EncodeTreeMeaning(orders[j2], Offset(orders, j2));
      if j1 < j2 {
        OffsetMonotone(orders, j1 + 1, j2);
      } else if j2 < j1 {
        OffsetMonotone(orders, j2 + 1, j1);
      }
    }
  }

  /** When each tree's leaf ids are distinct, every code 0 .. totalLeaves - 1 is used, so
      the codes number the leaves of the whole ensemble one to one. */
  lemma EncodingSurjective(orders: seq<seq<int>>)
    requires forall j :: 0 <= j < |orders| ==> Distinct(orders[j])
    ensures forall c :: 0 <= c < Offset(orders, |orders|) ==> Covered(orders, c)
  {
    forall c | 0 <= c < Offset(orders, |orders|)
      ensures Covered(orders, c)
    {
      var j := BlockOf(orders, c);
      EncodeTreePositions(orders[j], Offset(orders, j));
      var id := orders[j][c - Offset(orders, j)];
      assert id in TreeCodes(orders, j) && TreeCodes(orders, j)[id] == c;
    }
  }

  /** The tree whose block holds code c. */
  lemma BlockOf(orders: seq<seq<int>>, c: nat) returns (j: nat)
    requires c < Offset(orders, |orders|)
    ensures j < |orders| && Offset(orders, j) <= c < Offset(orders, j) + |orders[j]|
  {
    j := 0;
    while Offset(orders, j + 1) <= c
      invariant j < |orders| && Offset(orders, j) <= c
      decreases |orders| - j
    {
      j := j + 1;
    }
  }

  ghost predicate AllOrdered(trees: seq<GBDTTree>) {
    forall j :: 0 <= j < |trees| ==> LeafOrder(trees[j].tree).Success?
  }

  ghost function Orders(trees: seq<GBDTTree>): (r: seq<seq<int>>)
    requires AllOrdered(trees)
    ensures |r| == |trees|
  {
    seq(|trees|, j requires 0 <= j < |trees| => LeafOrder(trees[j].tree).value)
  }

  // ---------------------------------------------------------------------------------
  // Scoring specifications

  /** The sum of the trees' leaf values; the first tree (in ensemble order) whose walk
      fails makes the sum fail. */
  function EnsembleScore(trees: seq<GBDTTree>, data: Features): (r: Result<real>)
    decreases |trees|
  {
    if |trees| == 0 then Success(0.0)
    else
      match TreeScore(trees[0].tree, data)
      case Failure(err) => Failure(err)
      case Success(v) =>
        match EnsembleScore(trees[1..], data)
        case Failure(err) => Failure(err)
        case Success(s) => Success(v + s)
  }

  /** The score exists exactly when every tree's walk ends at a leaf with a value. */
  lemma {:induction false} EnsembleScoreMeaning(trees: seq<GBDTTree>, data: Features)
    ensures EnsembleScore(trees, data).Success? <==> forall i :: 0 <= i < |trees| ==> TreeScore(trees[i].tree, data).Success?
    decreases |trees|
  {
    if |trees| > 0 {
      EnsembleScoreMeaning(trees[1..], data);
      assert forall i :: 1 <= i < |trees| ==> trees[1..][i - 1] == trees[i];
    }
  }

  /** predictLeaf(data): the leaf id reached in each tree. */
  function LeafIds(trees: seq<GBDTTree>, data: Features): (r: Result<seq<int>>)
    decreases |trees|
  {
    if |trees| == 0 then Success([])
    else
      match LeafId(trees[0].tree, data)
      case Failure(err) => Failure(err)
      case Success(id) =>
        match LeafIds(trees[1..], data)
        case Failure(err) => Failure(err)
        case Success(ids) => Success([id] + ids)
  }

  /** The ids exist exactly when every walk succeeds; entry i is tree i's leaf. */
  lemma {:induction false} LeafIdsMeaning(trees: seq<GBDTTree>, data: Features)
    ensures LeafIds(trees, data).Success? <==> forall i :: 0 <= i < |trees| ==> LeafId(trees[i].tree, data).Success?
    ensures LeafIds(trees, data).Success? ==> |LeafIds(trees, data).value| == |trees|
    ensures LeafIds(trees, data).Success? ==> forall i :: 0 <= i < |trees| ==>
      LeafIds(trees, data).value[i] == LeafId(trees[i].tree, data).value
    decreases |trees|
  {
    if |trees| > 0 {
      LeafIdsMeaning(trees[1..], data);
      assert forall i :: 1 <= i < |trees| ==> trees[1..][i - 1] == trees[i];
    }
  }

  /** The code of the leaf reached in one tree: a missing map or a leaf id without a code
      is a null dereference. */
  function LeafCode(t: GBDTTree, data: Features): Result<int> {
    match LeafId(t.tree, data)
    case Failure(err) => Failure(err)
    case Success(id) =>
      if t.leafEncodingMap.None? || id !in t.leafEncodingMap.value then Failure(NullPointer)
      else Success(t.leafEncodingMap.value[id])
  }

  /** gbdtEncoding(data): each tree's code for the leaf reached in it. */
  function LeafCodes(trees: seq<GBDTTree>, data: Features): (r: Result<seq<int>>)
    decreases |trees|
  {
    if |trees| == 0 then Success([])
    else
      match LeafCode(trees[0], data)
      case Failure(err) => Failure(err)
      case Success(c) =>
        match LeafCodes(trees[1..], data)
        case Failure(err) => Failure(err)
        case Success(codes) => Success([c] + codes)
  }

  /** The codes exist exactly when every tree reaches a leaf that has a code; entry i is
      then tree i's code for entry i of predictLeaf's ids. */
  lemma {:induction false} LeafCodesMeaning(trees: seq<GBDTTree>, data: Features)
    ensures LeafCodes(trees, data).Success? <==> forall i :: 0 <= i < |trees| ==> LeafCode(trees[i], data).Success?
    ensures LeafCodes(trees, data).Success? ==>
      LeafIds(trees, data).Success? && |LeafIds(trees, data).value| == |LeafCodes(trees, data).value| == |trees| &&
      forall i :: 0 <= i < |trees| ==>
        trees[i].leafEncodingMap.Some? && LeafIds(trees, data).value[i] in trees[i].leafEncodingMap.value &&
        LeafCodes(trees, data).value[i] == trees[i].leafEncodingMap.value[LeafIds(trees, data).value[i]]
    decreases |trees|
  {
    LeafIdsMeaning(trees, data);
    if |trees| > 0 {
      LeafCodesMeaning(trees[1..], data);
      assert forall i :: 1 <= i < |trees| ==> trees[1..][i - 1] == trees[i];
    }
  }

  /** Two ensembles hold the same trees, whatever their leaf codes. */
  ghost predicate SameTrees(a: seq<GBDTTree>, b: seq<GBDTTree>) {
    |a| == |b| && forall j :: 0 <= j < |a| ==> a[j].tree == b[j].tree
  }

  /** The first |orders| trees have the leaf orders `orders`. */
  ghost predicate OrderedUpTo(trees: seq<GBDTTree>, orders: seq<seq<int>>) {
    |orders| <= |trees| && forall j :: 0 <= j < |orders| ==> LeafOrder(trees[j].tree) == Success(orders[j])
  }

  /** The first |orders| trees carry the codes of a running counter over `orders`. */
  ghost predicate CodedUpTo(trees: seq<GBDTTree>, orders: seq<seq<int>>) {
    |orders| <= |trees| && forall j :: 0 <= j < |orders| ==> trees[j].leafEncodingMap == Some(TreeCodes(orders, j))
  }

  lemma OrderedStep(trees: seq<GBDTTree>, orders: seq<seq<int>>, order: seq<int>, codes: map<int, int>)
    requires OrderedUpTo(trees, orders) && |orders| < |trees|
    requires LeafOrder(trees[|orders|].tree) == Success(order)
    ensures OrderedUpTo(trees[|orders| := trees[|orders|].(leafEncodingMap := Some(codes))], orders + [order])
  {
  }

  lemma CodedStep(trees: seq<GBDTTree>, orders: seq<seq<int>>, order: seq<int>, codes: map<int, int>)
    requires CodedUpTo(trees, orders) && |orders| < |trees|
    requires codes == EncodeTree(order, Offset(orders, |orders|))
    ensures CodedUpTo(trees[|orders| := trees[|orders|].(leafEncodingMap := Some(codes))], orders + [order])
    ensures Offset(orders + [order], |orders| + 1) == Offset(orders, |orders|) + |order|
  {
    var trees' := trees[|orders| := trees[|orders|].(leafEncodingMap := Some(codes))];
    var orders' := orders + [order];
    OffsetAppendAt(orders, order, |orders|);
    forall j | 0 <= j < |orders'|
      ensures trees'[j].leafEncodingMap == Some(TreeCodes(orders', j))
    {
      if j < |orders| {
        OffsetAppendAt(orders, order, j);
        assert orders'[j] == orders[j];
        assert trees'[j] == trees[j];
      }
    }
  }

  lemma EncodedAll(trees: seq<GBDTTree>, orders: seq<seq<int>>)
    requires OrderedUpTo(trees, orders) && CodedUpTo(trees, orders) && |orders| == |trees|
    ensures AllOrdered(trees) && Orders(trees) == orders
    ensures forall j :: 0 <= j < |trees| ==> trees[j].leafEncodingMap == Some(TreeCodes(Orders(trees), j))
  {
    assert AllOrdered(trees);
    assert Orders(trees) == orders;
  }

  // ---------------------------------------------------------------------------------
  // The model object

  class GBDTModel {
    var modelName: string
    var algorithmName: string
    var functionName: string
    var treeInfo: seq<GBDTTree>
    var fieldDict: map<string, FieldType>
    var treeCount: int

    /** After loading, treeCount counts the trees in treeInfo. */
    ghost predicate Valid()
      reads this
    {
      treeCount == |treeInfo|
    }

    /** Every tree carries the codes leafEncoding gave it. */
    ghost predicate Encoded()
      reads this
    {
      AllOrdered(treeInfo) &&
      forall j :: 0 <= j < |treeInfo| ==> treeInfo[j].leafEncodingMap == Some(TreeCodes(Orders(treeInfo), j))
    }

    constructor ()
      ensures treeInfo == [] && treeCount == 0 && fieldDict == map[]
    {
      modelName, algorithmName, functionName := "", "", "";
      treeInfo := [];
      fieldDict := map[];
      treeCount := 0;
    }

    /** buildGBDTTree: builds one tree per segment, appends it to treeInfo and counts it. */
    method BuildGBDTTree(treeElements: seq<Element>, parse: NumberParser) returns (err: Option<Exception>)
      modifies this
      ensures err.None? <==> BuildAll(treeElements, parse).Success?
      ensures err.Some? ==> BuildAll(treeElements, parse) == Failure(err.value) && treeCount == old(treeCount)
      ensures err.None? ==> treeInfo == old(treeInfo) + Unencoded(BuildAll(treeElements, parse).value)
                            && treeCount == |treeElements|
      ensures modelName == old(modelName) && algorithmName == old(algorithmName)
              && functionName == old(functionName) && fieldDict == old(fieldDict)
    {
      var count := 0;
      ghost var built: seq<Tree> := [];
      ghost var before := treeInfo;
      BuiltStart(treeElements, parse);
      for i := 0 to |treeElements|
        invariant count == i == |built|
        invariant BuiltUpTo(treeElements, parse, i, built)
        invariant treeInfo == before + Unencoded(built)
        invariant treeCount == old(treeCount) && modelName == old(modelName) && algorithmName == old(algorithmName)
        invariant functionName == old(functionName) && fieldDict == old(fieldDict)
      {
        var treeModel := FirstChild(treeElements[i], "TreeModel");
        if treeModel.None? {
          BuiltFails(treeElements, parse, i, built);
          return Some(NullPointer);
        }
        var rootNode := FirstChild(treeModel.value, "Node");
        if rootNode.None? {
          BuiltFails(treeElements, parse, i, built);
          return Some(NullPointer);
        }
        var decisionTree := RecursiveBuildTree(rootNode.value, parse);
        if decisionTree.Failure? {
          BuiltFails(treeElements, parse, i, built);
          return Some(decisionTree.error);
        }
        var split := SplitThreshold(decisionTree.value, parse);
        if split.Failure? {
          BuiltFails(treeElements, parse, i, built);
          return Some(split.error);
        }
        BuiltStep(treeElements, parse, i, built, split.value);
        UnencodedSnoc(before, built, split.value);
        treeInfo := treeInfo + [GBDTTree(split.value, None)];
        built := built + [split.value];
        count := count + 1;
      }
      BuiltEnd(treeElements, parse, built);
      treeCount := count;
      return None;
    }

    /** leafEncoding: enumerates each tree's leaves and gives them consecutive codes from
        one counter that runs on across the trees in ensemble order. */
    method LeafEncoding() returns (err: Option<Exception>)
      modifies this
      ensures err.None? <==> AllOrdered(old(treeInfo))
      ensures SameTrees(treeInfo, old(treeInfo))
      ensures err.None? ==> Encoded()
      ensures treeCount == old(treeCount) && modelName == old(modelName) && algorithmName == old(algorithmName)
              && functionName == old(functionName) && fieldDict == old(fieldDict)
    {
      var coding := 0;
      ghost var orders: seq<seq<int>> := [];
      for i := 0 to |treeInfo|
        invariant SameTrees(treeInfo, old(treeInfo))
        invariant |orders| == i && coding == Offset(orders, i)
        invariant OrderedUpTo(treeInfo, orders) && CodedUpTo(treeInfo, orders)
        invariant treeCount == old(treeCount) && modelName == old(modelName) && algorithmName == old(algorithmName)
        invariant functionName == old(functionName) && fieldDict == old(fieldDict)
      {
        var order := LeafOrder(treeInfo[i].tree);
        if order.Failure? {
          return Some(order.error);
        }
        var leafEncodingMap;
        leafEncodingMap, coding := EncodeLeaves(order.value, coding);
        OrderedStep(treeInfo, orders, order.value, leafEncodingMap);
        CodedStep(treeInfo, orders, order.value, leafEncodingMap);
        orders := orders + [order.value];
        treeInfo := treeInfo[i := treeInfo[i].(leafEncodingMap := Some(leafEncodingMap))];
      }
      EncodedAll(treeInfo, orders);
      return None;
    }

    /** predict: the logistic function of the summed leaf values. */
    method Predict(data: Features) returns (r: Result<Probability>)
      ensures r == match EnsembleScore(treeInfo, data)
                   case Failure(err) => Failure(err)
                   case Success(s) => Success(Sigmoid(s))
    {
      var score := 0.0;
      for i := 0 to |treeInfo|
        invariant EnsembleScore(treeInfo, data) == match EnsembleScore(treeInfo[i..], data)
                                                   case Failure(e) => Failure(e)
                                                   case Success(s) => Success(score + s)
      {
        assert treeInfo[i..][1..] == treeInfo[i + 1..];
        var v := PredictTree(treeInfo[i].tree, data);
        if v.Failure? {
          return Failure(v.error);
        }
        score := score + v.value;
      }
      return Success(Sigmoid(score));
    }

    /** predictLeaf(data): an array of treeCount entries, entry i the leaf id reached in tree i. */
    method PredictLeaf(data: Features) returns (r: Result<seq<int>>)
      requires Valid()
      ensures r == LeafIds(treeInfo, data)
      ensures r.Success? ==> |r.value| == treeCount
    {
      var result := new int[treeCount];
      assert treeInfo[0..] == treeInfo;
      assert forall ids: seq<int> :: result[..0] + ids == ids;
      for i := 0 to |treeInfo|
        invariant LeafIds(treeInfo, data) == match LeafIds(treeInfo[i..], data)
                                             case Failure(e) => Failure(e)
                                             case Success(ids) => Success(result[..i] + ids)
      {
        assert treeInfo[i..][0] == treeInfo[i] && treeInfo[i..][1..] == treeInfo[i + 1..];
        var id := DecisionTrees.PredictLeaf(treeInfo[i].tree, data);
        if id.Failure? {
          return Failure(id.error);
        }
        ghost var done := result[..i];
        result[i] := id.value;
        assert result[..i + 1] == done + [id.value];
        assert forall ids: seq<int> :: done + ([id.value] + ids) == result[..i + 1] + ids;
      }
      assert treeInfo[|treeInfo|..] == [];
      assert result[..] == result[..|treeInfo|] + [];
      return Success(result[..]);
    }

    /** gbdtEncoding(data): an array of treeCount entries, entry i the code tree i's leaf
        encoding gives the leaf predictLeaf reaches in tree i. */
    method GbdtEncoding(data: Features) returns (r: Result<seq<int>>)
      requires Valid()
      ensures r == LeafCodes(treeInfo, data)
      ensures r.Success? ==> |r.value| == treeCount
    {
      var result := new int[treeCount];
      assert treeInfo[0..] == treeInfo;
      assert forall codes: seq<int> :: result[..0] + codes == codes;
      for i := 0 to |treeInfo|
        invariant LeafCodes(treeInfo, data) == match LeafCodes(treeInfo[i..], data)
                                               case Failure(e) => Failure(e)
                                               case Success(codes) => Success(result[..i] + codes)
      {
        assert treeInfo[i..][0] == treeInfo[i] && treeInfo[i..][1..] == treeInfo[i + 1..];
        var nodeId := DecisionTrees.PredictLeaf(treeInfo[i].tree, data);
        if nodeId.Failure? {
          return Failure(nodeId.error);
        }
        var codes := treeInfo[i].leafEncodingMap;
        if codes.None? || nodeId.value !in codes.value {
          return Failure(NullPointer);
        }
        ghost var done := result[..i];
        result[i] := codes.value[nodeId.value];
        assert result[..i + 1] == done + [codes.value[nodeId.value]];
        assert forall rest: seq<int> :: done + ([codes.value[nodeId.value]] + rest) == result[..i + 1] + rest;
      }
      assert treeInfo[|treeInfo|..] == [];
      assert result[..] == result[..|treeInfo|] + [];
      return Success(result[..]);
    }
  }

  // ---------------------------------------------------------------------------------
  // Loading

  datatype Loaded = Loaded(fieldDict: map<string, FieldType>, names: ModelNames, trees: seq<Tree>)

  /** What create reads from a document, in the order it reads it. */
  ghost function Load(document: Element, parse: NumberParser): Result<Loaded> {
    match FirstChild(document, "DataDictionary")
    case None => Failure(NullPointer)
    case Some(dict) =>
      match FieldDict(ChildrenNamed(dict, "DataField"))
      case Failure(err) => Failure(err)
      case Success(fieldDict) =>
        match FirstChild(document, "MiningModel")
        case None => Failure(NullPointer)
        case Some(miningModel) =>
          match ParseAttributes(miningModel)
          case Failure(err) => Failure(err)
          case Success(names) =>
            match FirstChild(miningModel, "Segmentation")
            case None => Failure(NullPointer)
            case Some(segmentation) =>
              match TreeSegments(segmentation)
              case Failure(err) => Failure(err)
              case Success(segments) =>
                match BuildAll(segments, parse)
                case Failure(err) => Failure(err)
                case Success(trees) => Success(Loaded(fieldDict, names, trees))
  }

  /** create: field dictionary, model attributes, tree segments, trees, leaf encoding. The
      model comes back exactly when every step succeeds and every tree has a leaf order;
      it then holds what was read, one tree per segment, each with its leaf codes. */
  method Create(document: Element, parse: NumberParser) returns (r: Result<GBDTModel>)
    ensures r.Success? <==> Load(document, parse).Success? && AllOrdered(Unencoded(Load(document, parse).value.trees))
    ensures Load(document, parse).Failure? ==> r == Failure(Load(document, parse).error)
    ensures r.Success? ==> fresh(r.value) && r.value.Valid() && r.value.Encoded()
    ensures r.Success? ==>
      var loaded := Load(document, parse).value;
      && r.value.fieldDict == loaded.fieldDict
      && ModelNames(r.value.modelName, r.value.algorithmName, r.value.functionName) == loaded.names
      && |r.value.treeInfo| == |loaded.trees|
      && forall j :: 0 <= j < |loaded.trees| ==> r.value.treeInfo[j].tree == loaded.trees[j]
  {
    var root := document;
    var dict := FirstChild(root, "DataDictionary");
    if dict.None? {
      return Failure(NullPointer);
    }
    var gbdtModel := new GBDTModel();
    var fieldDict := ParseFieldType(dict.value);
    if fieldDict.Failure? {
      return Failure(fieldDict.error);
    }
    gbdtModel.fieldDict := fieldDict.value;
    var miningModel := FirstChild(root, "MiningModel");
    if miningModel.None? {
      return Failure(NullPointer);
    }
    var names := ParseAttributes(miningModel.value);
    if names.Failure? {
      return Failure(names.error);
    }
    gbdtModel.modelName := names.value.modelName;
    gbdtModel.algorithmName := names.value.algorithmName;
    gbdtModel.functionName := names.value.functionName;
    var segmentation := FirstChild(miningModel.value, "Segmentation");
    if segmentation.None? {
      return Failure(NullPointer);
    }
    var treeElements := FindTreeElement(segmentation.value);
    if treeElements.Failure? {
      return Failure(treeElements.error);
    }
    var err := gbdtModel.BuildGBDTTree(treeElements.value, parse);
    if err.Some? {
      return Failure(err.value);
    }
    BuildAllMeaning(treeElements.value, parse);
    assert gbdtModel.treeInfo == Unencoded(Load(document, parse).value.trees);
    err := gbdtModel.LeafEncoding();
    if err.Some? {
      return Failure(err.value);
    }
    return Success(gbdtModel);
  }
}
