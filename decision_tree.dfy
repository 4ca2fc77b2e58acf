/** The GBDT decision tree: its node record, the builder that reads it from PMML `Node`
    elements, the second pass that parses thresholds, the routing step at one node, the
    walk from the root to a leaf, and the left-to-right leaf enumeration. */
module DecisionTrees {
  import opened Common
  import opened JavaStrings
  import opened Pmml

  /** One tree node, field for field as the source's DecisionTree record; None stands for
      a field that was left null. The children are owned by their parent, so the tree is
      a value. `thresholdSet` keeps the parsed thresholds in the order they are written. */
  datatype Tree = Tree(
    nodeId: int,
    featureName: Option<string>,
    left: Option<Tree>,
    right: Option<Tree>,
    decisionType: Option<string>,
    threshold: Option<string>,
    thresholdSet: Option<seq<real>>,
    leafValue: Option<real>,
    isLeaf: bool,
    defaultLeft: Option<bool>)

  /** A freshly allocated node: only its id is set. */
  function NewNode(id: int): Tree {
    Tree(id, None, None, None, None, None, None, None, false, None)
  }

  /** The three attributes of a child Node's SimplePredicate. */
  datatype SplitPredicate = SplitPredicate(field: string, value: string, operator: string)

  function ReadPredicate(child: Element): (r: Result<SplitPredicate>)
    ensures r.Success? <==>
      FirstChild(child, "SimplePredicate").Some? &&
      var p := FirstChild(child, "SimplePredicate").value;
      "field" in p.attributes && "value" in p.attributes && "operator" in p.attributes
  {
    match FirstChild(child, "SimplePredicate")
    case None => Failure(NullPointer)
    case Some(p) =>
      match (Attr(p, "field"), Attr(p, "value"), Attr(p, "operator"))
      case (Some(f), Some(v), Some(o)) => Success(SplitPredicate(f, v, o))
      case _ => Failure(NullPointer)
  }

  /** The node before its children are read: a leaf with its parsed score when the
      element has a `score` attribute, an inner node otherwise. */
  function LeafPart(e: Element, id: int, parse: NumberParser): (r: Result<Tree>)
    ensures r.Success? ==> r.value.nodeId == id && r.value.left.None? && r.value.right.None?
    ensures r.Success? ==> (r.value.isLeaf <==> "score" in e.attributes)
    ensures r.Success? && "score" in e.attributes ==> r.value.leafValue == parse(e.attributes["score"])
    ensures r.Success? <==> "score" !in e.attributes || parse(e.attributes["score"]).Some?
    ensures r.Failure? ==> r.error == NumberFormat
  {
    match Attr(e, "score")
    case None => Success(NewNode(id))
    case Some(text) =>
      match parse(text)
      case None => Failure(NumberFormat)
      case Some(v) => Success(NewNode(id).(leafValue := Some(v), isLeaf := true))
  }

  /** recursiveBuildTree, as a function: the specification of RecursiveBuildTree. */
  function BuildNode(e: Element, parse: NumberParser): Result<Tree>
    decreases e, 1, 0
  {
    match Attr(e, "id")
    case None => Failure(NullPointer)
    case Some(idText) =>
      match ParseInt(idText)
      case None => Failure(NumberFormat)
      case Some(id) =>
        match LeafPart(e, id, parse)
        case Failure(err) => Failure(err)
        case Success(node) => AttachChildren(node, ChildrenNamed(e, "Node"), e, parse)
  }

  /** The loop over the child Nodes of `parent`: every child sets the split field and the
      threshold text; a `lessOrEqual` child becomes the left subtree and a `greaterThan`
      child the right one, and BOTH set the decision type to "<=" (so a greaterThan split
      is labelled like a lessOrEqual one); a child with any other operator is not attached. */
  function AttachChildren(node: Tree, kids: seq<Element>, ghost parent: Element, parse: NumberParser): Result<Tree>
    requires forall c :: c in kids ==> c in parent.children
    decreases parent, 0, |kids|
  {
    if |kids| == 0 then Success(node)
    else
      var child := kids[0];
      assert child in parent.children;
      match ReadPredicate(child)
      case Failure(err) => Failure(err)
      case Success(p) =>
        var n := node.(featureName := Some(p.field), threshold := Some(p.value));
        if p.operator == "lessOrEqual" then
          match BuildNode(child, parse)
          case Failure(err) => Failure(err)
          case Success(sub) => AttachChildren(n.(decisionType := Some("<="), left := Some(sub)), kids[1..], parent, parse)
        else if p.operator == "greaterThan" then
          match BuildNode(child, parse)
          case Failure(err) => Failure(err)
          case Success(sub) => AttachChildren(n.(decisionType := Some("<="), right := Some(sub)), kids[1..], parent, parse)
        else
          AttachChildren(n, kids[1..], parent, parse)
  }

  /** recursiveBuildTree: allocates the node, sets its id and leaf value, then sets the
      split fields and children from each child Node in document order. */
  method RecursiveBuildTree(e: Element, parse: NumberParser) returns (r: Result<Tree>)
    ensures r == BuildNode(e, parse)
    decreases e
  {
    var idText := Attr(e, "id");
    if idText.None? {
      return Failure(NullPointer);
    }
    var id := ParseInt(idText.value);
    if id.None? {
      return Failure(NumberFormat);
    }
    var node := NewNode(id.value);
    var score := Attr(e, "score");
    if score.Some? {
      var v := parse(score.value);
      if v.None? {
        return Failure(NumberFormat);
      }
      node := node.(leafValue := Some(v.value), isLeaf := true);
    }
    var childNodes := ChildrenNamed(e, "Node");
    ghost var start := node;
    assert BuildNode(e, parse) == AttachChildren(start, childNodes, e, parse);
    for i := 0 to |childNodes|
      invariant AttachChildren(node, childNodes[i..], e, parse) == AttachChildren(start, childNodes, e, parse)
    {
      var childNode := childNodes[i];
      assert childNodes[i..][0] == childNode && childNodes[i..][1..] == childNodes[i + 1..];
      var p := ReadPredicate(childNode);
      if p.Failure? {
        return Failure(p.error);
      }
      node := node.(featureName := Some(p.value.field));
      node := node.(threshold := Some(p.value.value));
      var decisionType := p.value.operator;
      if decisionType == "lessOrEqual" {
        node := node.(decisionType := Some("<="));
        var sub := RecursiveBuildTree(childNode, parse);
        if sub.Failure? {
          return Failure(sub.error);
        }
        node := node.(left := Some(sub.value));
      } else if decisionType == "greaterThan" {
        node := node.(decisionType := Some("<="));  // the source writes "<=" here as well
        var sub := RecursiveBuildTree(childNode, parse);
        if sub.Failure? {
          return Failure(sub.error);
        }
        node := node.(right := Some(sub.value));
      }
    }
    return Success(node);
  }

  /** The tree with every parsed threshold set dropped: what splitThrehold leaves alone. */
  function WithoutThresholds(t: Tree): Tree
    decreases t
  {
    t.(thresholdSet := None,
       left := if t.left.Some? then Some(WithoutThresholds(t.left.value)) else None,
       right := if t.right.Some? then Some(WithoutThresholds(t.right.value)) else None)
  }

  function SomeTree(r: Result<Tree>): Result<Option<Tree>> {
    match r
    case Failure(err) => Failure(err)
    case Success(t) => Success(Some(t))
  }

  /** The nodes splitThrehold visits are the root and, below a node with threshold text,
      its children: every visited node with threshold text has "||"-pieces that all parse. */
  ghost predicate ThresholdsParse(t: Tree, parse: NumberParser)
    decreases t
  {
    t.threshold.None? || t.threshold == Some([]) ||
    (ParseAll(Split(t.threshold.value, "||"), parse).Some? &&
     (t.left.Some? ==> ThresholdsParse(t.left.value, parse)) &&
     (t.right.Some? ==> ThresholdsParse(t.right.value, parse)))
  }

  /** `r` is `t` after the pass: every visited node with threshold text holds the parse of
      its pieces as its threshold set; a node with null or empty text keeps its whole
      subtree as it was; nothing else changes. */
  ghost predicate ThresholdsParsed(r: Tree, t: Tree, parse: NumberParser)
    decreases t
  {
    if t.threshold.None? || t.threshold == Some([]) then r == t
    else
      && r.thresholdSet == ParseAll(Split(t.threshold.value, "||"), parse)
      && r.(thresholdSet := t.thresholdSet, left := t.left, right := t.right) == t
      && (r.left.Some? <==> t.left.Some?) && (r.right.Some? <==> t.right.Some?)
      && (t.left.Some? ==> ThresholdsParsed(r.left.value, t.left.value, parse))
      && (t.right.Some? ==> ThresholdsParsed(r.right.value, t.right.value, parse))
  }

  /** splitThrehold: parses the node's threshold text, split on the literal "||", into
      its threshold values, then does the same for the children. A node whose threshold
      is null or empty stops the pass there: its children are not visited. */
  function SplitThreshold(t: Tree, parse: NumberParser): (r: Result<Tree>)
    ensures r.Success? <==> ThresholdsParse(t, parse)
    ensures r.Failure? ==> r.error == NumberFormat
    ensures r.Success? ==> ThresholdsParsed(r.value, t, parse)
    ensures r.Success? ==> WithoutThresholds(r.value) == WithoutThresholds(t)
    ensures t.threshold.None? || t.threshold == Some([]) ==> r == Success(t)
    ensures r.Success? && t.threshold.Some? && t.threshold != Some([]) ==>
      r.value.thresholdSet == ParseAll(Split(t.threshold.value, "||"), parse)
    decreases t
  {
    if t.threshold.None? || t.threshold.value == [] then Success(t)
    else
      match ParseAll(Split(t.threshold.value, "||"), parse)
      case None => Failure(NumberFormat)
      case Some(values) =>
        var l := if t.left.Some? then SomeTree(SplitThreshold(t.left.value, parse)) else Success(None);
        var r := if t.right.Some? then SomeTree(SplitThreshold(t.right.value, parse)) else Success(None);
        if l.Failure? then Failure(l.error)
        else if r.Failure? then Failure(r.error)
        else Success(t.(thresholdSet := Some(values), left := l.value, right := r.value))
  }

  /** A feature vector: a present key maps to its value, or to None when the value is NaN. */
  type Features = map<string, Option<real>>

  /** The value the node reads: `getOrDefault(featureName, 0.0)`, so an absent feature
      reads as 0.0 and is not treated as missing. None is NaN. */
  function FeatureValue(t: Tree, data: Features): Option<real> {
    if t.featureName.Some? && t.featureName.value in data then data[t.featureName.value] else Some(0.0)
  }

  /** decison: one routing step. Missing (NaN) values follow `defaultLeft` (an unset one
      is a null Boolean); otherwise a "<=" node goes left iff the value is at most its
      threshold, a "==" node goes left iff the value is one of its thresholds, and any
      other node goes right. The result is the chosen child, which may be null. */
  function Decide(t: Tree, data: Features): (r: Result<Option<Tree>>)
    ensures r.Success? ==> r.value == t.left || r.value == t.right
    ensures FeatureValue(t, data).None? ==>
      r == (if t.defaultLeft.None? then Failure(NullPointer)
            else Success(if t.defaultLeft.value then t.left else t.right))
    ensures FeatureValue(t, data).Some? && t.decisionType == Some("<=") && t.thresholdSet.Some? && |t.thresholdSet.value| > 0 ==>
      r == Success(if FeatureValue(t, data).value <= t.thresholdSet.value[0] then t.left else t.right)
    ensures FeatureValue(t, data).Some? && t.decisionType == Some("==") && t.thresholdSet.Some? ==>
      r == Success(if FeatureValue(t, data).value in t.thresholdSet.value then t.left else t.right)
    ensures FeatureValue(t, data).Some? && t.decisionType.Some? && t.decisionType.value !in {"<=", "=="} ==>
      r == Success(t.right)
  {
    var x := FeatureValue(t, data);
    if x.None? then
      if t.defaultLeft.None? then Failure(NullPointer)
      else if t.defaultLeft.value then Success(t.left) else Success(t.right)
    else if t.decisionType.None? then Failure(NullPointer)
    else if t.decisionType.value == "<=" then
      if t.thresholdSet.None? then Failure(NullPointer)
      else if |t.thresholdSet.value| == 0 then Failure(NoSuchElement)
      else if x.value <= t.thresholdSet.value[0] then Success(t.left)
      else Success(t.right)
    else if t.decisionType.value == "==" then
      if t.thresholdSet.None? then Failure(NullPointer)
      else if x.value in t.thresholdSet.value then Success(t.left)
      else Success(t.right)
    else Success(t.right)
  }

  /** After the pass, a "<=" node whose threshold text was parsed routes a present value
      by the first "||"-piece of that text. */
  lemma SplitRoutesByFirstPiece(t: Tree, parse: NumberParser, data: Features)
    requires SplitThreshold(t, parse).Success? && t.decisionType == Some("<=")
    requires t.threshold.Some? && t.threshold != Some([]) && |Split(t.threshold.value, "||")| > 0
    requires FeatureValue(t, data).Some?
    ensures parse(Split(t.threshold.value, "||")[0]).Some?
    ensures var r := SplitThreshold(t, parse).value;
      Decide(r, data) ==
        Success(if FeatureValue(t, data).value <= parse(Split(t.threshold.value, "||")[0]).value
                then r.left else r.right)
  {
  }

  /** `n` is a proper descendant of `t`. */
  ghost predicate Below(n: Tree, t: Tree)
    decreases t
  {
    (t.left.Some? && (n == t.left.value || Below(n, t.left.value))) ||
    (t.right.Some? && (n == t.right.value || Below(n, t.right.value)))
  }

  /** The loop of predictTree and predictLeaf: route from `t`, and stop at the first node
      reached whose left child is null. The node the walk starts from is routed before any
      node is checked, and stepping to a null child dereferences null. */
  function Walk(t: Tree, data: Features): (r: Result<Tree>)
    ensures r.Success? ==> r.value.left.None? && Below(r.value, t)
    decreases t
  {
    match Decide(t, data)
    case Failure(err) => Failure(err)
    case Success(next) =>
      if next.None? then Failure(NullPointer)
      else if next.value.left.None? then Success(next.value)
      else Walk(next.value, data)
  }

  /** predictTree's result: the leaf value of the node the walk stops at. */
  function TreeScore(t: Tree, data: Features): Result<real> {
    match Walk(t, data)
    case Failure(err) => Failure(err)
    case Success(leaf) => if leaf.leafValue.None? then Failure(NullPointer) else Success(leaf.leafValue.value)
  }

  /** predictLeaf's result: the id of the node the walk stops at. */
  function LeafId(t: Tree, data: Features): Result<int> {
    match Walk(t, data)
    case Failure(err) => Failure(err)
    case Success(leaf) => Success(leaf.nodeId)
  }

  /** predictTree(data, tree). */
  method PredictTree(t: Tree, data: Features) returns (r: Result<real>)
    ensures r == TreeScore(t, data)
  {
    var tree := t;
    var preds := 0.0;
    while true
      invariant Walk(tree, data) == Walk(t, data)
      decreases tree
    {
      var next := Decide(tree, data);
      if next.Failure? {
        return Failure(next.error);
      }
      if next.value.None? {
        return Failure(NullPointer);
      }
      tree := next.value.value;
      if tree.left.None? {
        if tree.leafValue.None? {
          return Failure(NullPointer);
        }
        preds := preds + tree.leafValue.value;
        return Success(preds);
      }
    }
  }

  /** predictLeaf(data, tree). */
  method PredictLeaf(t: Tree, data: Features) returns (r: Result<int>)
    ensures r == LeafId(t, data)
  {
    var tree := t;
    while true
      invariant Walk(tree, data) == Walk(t, data)
      decreases tree
    {
      var next := Decide(tree, data);
      if next.Failure? {
        return Failure(next.error);
      }
      if next.value.None? {
        return Failure(NullPointer);
      }
      tree := next.value.value;
      if tree.left.None? {
        return Success(tree.nodeId);
      }
    }
  }

  /** Every node leafOrder reaches as a non-leaf has both children. */
  ghost predicate Complete(t: Tree)
    decreases t
  {
    t.isLeaf || (t.left.Some? && t.right.Some? && Complete(t.left.value) && Complete(t.right.value))
  }

  /** The number of leaves of a complete tree, counted independently of their order. */
  ghost function LeafCount(t: Tree): nat
    requires Complete(t)
    decreases t
  {
    if t.isLeaf then 1 else LeafCount(t.left.value) + LeafCount(t.right.value)
  }

  /** `n` is one of the leaves leafOrder reports for `t`. */
  ghost predicate IsLeafOf(n: Tree, t: Tree)
    decreases t
  {
    if t.isLeaf then n == t
    else (t.left.Some? && IsLeafOf(n, t.left.value)) || (t.right.Some? && IsLeafOf(n, t.right.value))
  }

  /** leafOrder: the ids of the leaves, left to right, depth first; a non-leaf node
      without a child is a null dereference. */
  function LeafOrder(t: Tree): (r: Result<seq<int>>)
    ensures r.Failure? ==> r.error == NullPointer
    decreases t
  {
    if !t.isLeaf then
      if t.left.None? then Failure(NullPointer)
      else match LeafOrder(t.left.value)
        case Failure(err) => Failure(err)
        case Success(l) =>
          if t.right.None? then Failure(NullPointer)
          else match LeafOrder(t.right.value)
            case Failure(err) => Failure(err)
            case Success(r) => Success(l + r)
    else Success([t.nodeId])
  }

  /** leafOrder succeeds exactly on complete trees; it then lists one id per leaf, and
      its ids are exactly the ids of the leaves. */
  lemma {:induction false} LeafOrderMeaning(t: Tree)
    ensures LeafOrder(t).Success? <==> Complete(t)
    ensures LeafOrder(t).Success? ==> |LeafOrder(t).value| == LeafCount(t)
    ensures LeafOrder(t).Success? ==> forall n :: IsLeafOf(n, t) ==> n.nodeId in LeafOrder(t).value
    ensures LeafOrder(t).Success? ==> forall id :: id in LeafOrder(t).value ==> exists n :: IsLeafOf(n, t) && n.nodeId == id
    decreases t
  {
    if t.isLeaf {
      assert IsLeafOf(t, t);
    } else {
      if t.left.Some? {
        LeafOrderMeaning(t.left.value);
      }
      if t.right.Some? {
        LeafOrderMeaning(t.right.value);
      }
    }
  }

  // ---------------------------------------------------------------------------------
  // What the builder produces

  ghost function OperatorOf(c: Element): Option<string> {
    match ReadPredicate(c)
    case Success(p) => Some(p.operator)
    case Failure(_) => None
  }

  /** The position of the last child Node whose predicate operator is `op`. */
  ghost function LastWith(kids: seq<Element>, op: string): (r: Option<nat>)
    ensures r.Some? ==> r.value < |kids| && OperatorOf(kids[r.value]) == Some(op)
    ensures r.Some? ==> forall j :: r.value < j < |kids| ==> OperatorOf(kids[j]) != Some(op)
    ensures r.None? ==> forall j :: 0 <= j < |kids| ==> OperatorOf(kids[j]) != Some(op)
  {
    if |kids| == 0 then None
    else match LastWith(kids[1..], op)
      case Some(j) => Some(j + 1)
      case None => if OperatorOf(kids[0]) == Some(op) then Some(0) else None
  }

  /** No node of the tree is an equality split. */
  ghost predicate NoEqualitySplit(t: Tree)
    decreases t
  {
    t.decisionType != Some("==") &&
    (t.left.Some? ==> NoEqualitySplit(t.left.value)) &&
    (t.right.Some? ==> NoEqualitySplit(t.right.value))
  }

  /** The subtree a child Node position stands for, when that child builds. */
  ghost predicate ChildIs(sub: Option<Tree>, kids: seq<Element>, at: Option<nat>, otherwise: Option<Tree>, parse: NumberParser) {
    match at
    case None => sub == otherwise
    case Some(i) => i < |kids| && BuildNode(kids[i], parse).Success? && sub == Some(BuildNode(kids[i], parse).value)
  }

  /** One step of the child loop, when it succeeds: the node after the first child. */
  function AfterFirst(node: Tree, kids: seq<Element>, parse: NumberParser): Tree
    requires |kids| > 0 && ReadPredicate(kids[0]).Success?
    requires OperatorOf(kids[0]) in {Some("lessOrEqual"), Some("greaterThan")} ==> BuildNode(kids[0], parse).Success?
  {
    var p := ReadPredicate(kids[0]).value;
    var n := node.(featureName := Some(p.field), threshold := Some(p.value));
    if p.operator == "lessOrEqual" then n.(decisionType := Some("<="), left := Some(BuildNode(kids[0], parse).value))
    else if p.operator == "greaterThan" then n.(decisionType := Some("<="), right := Some(BuildNode(kids[0], parse).value))
    else n
  }

  lemma AttachStep(node: Tree, kids: seq<Element>, parent: Element, parse: NumberParser)
    requires forall c :: c in kids ==> c in parent.children
    requires |kids| > 0 && AttachChildren(node, kids, parent, parse).Success?
    ensures ReadPredicate(kids[0]).Success?
    ensures OperatorOf(kids[0]) in {Some("lessOrEqual"), Some("greaterThan")} ==> BuildNode(kids[0], parse).Success?
    ensures forall c :: c in kids[1..] ==> c in parent.children
    ensures AttachChildren(node, kids, parent, parse) == AttachChildren(AfterFirst(node, kids, parse), kids[1..], parent, parse)
  {
  }

  /** A child Node the loop gets past: it has a predicate, and when it is attached as a
      subtree, that subtree builds. */
  ghost predicate ChildBuilds(c: Element, parse: NumberParser) {
    ReadPredicate(c).Success? &&
    (OperatorOf(c) in {Some("lessOrEqual"), Some("greaterThan")} ==> BuildNode(c, parse).Success?)
  }

  /** The child loop runs to its end exactly when every child Node gets past it. */
  lemma {:induction false} AttachSucceeds(node: Tree, kids: seq<Element>, parent: Element, parse: NumberParser)
    requires forall c :: c in kids ==> c in parent.children
    ensures AttachChildren(node, kids, parent, parse).Success? <==>
      forall i :: 0 <= i < |kids| ==> ChildBuilds(kids[i], parse)
    decreases |kids|
  {
    if |kids| > 0 && ChildBuilds(kids[0], parse) {
      var next := AfterFirst(node, kids, parse);
      assert AttachChildren(node, kids, parent, parse) == AttachChildren(next, kids[1..], parent, parse);
      AttachSucceeds(next, kids[1..], parent, parse);
      assert forall i :: 1 <= i < |kids| ==> kids[i] == kids[1..][i - 1];
    }
  }

  /** recursiveBuildTree returns a node exactly when the `id` attribute is there and is an
      integer, the `score` (if any) parses, and every child Node gets past the loop. A
      missing id is a NullPointerException; a malformed id or score a NumberFormatException. */
  lemma BuildNodeSucceeds(e: Element, parse: NumberParser)
    ensures BuildNode(e, parse).Success? <==>
      && "id" in e.attributes && ParseInt(e.attributes["id"]).Some?
      && ("score" in e.attributes ==> parse(e.attributes["score"]).Some?)
      && forall i :: 0 <= i < |ChildrenNamed(e, "Node")| ==> ChildBuilds(ChildrenNamed(e, "Node")[i], parse)
    ensures "id" !in e.attributes ==> BuildNode(e, parse) == Failure(NullPointer)
    ensures "id" in e.attributes && ParseInt(e.attributes["id"]).None? ==> BuildNode(e, parse) == Failure(NumberFormat)
    ensures "id" in e.attributes && ParseInt(e.attributes["id"]).Some? &&
            "score" in e.attributes && parse(e.attributes["score"]).None? ==>
              BuildNode(e, parse) == Failure(NumberFormat)
  {
    if "id" in e.attributes && ParseInt(e.attributes["id"]).Some? {
      var id := ParseInt(e.attributes["id"]).value;
      if LeafPart(e, id, parse).Success? {
        AttachSucceeds(LeafPart(e, id, parse).value, ChildrenNamed(e, "Node"), e, parse);
      }
    }
  }

  /** The child loop keeps the id, the leaf fields and `defaultLeft`, and leaves the split
      field and threshold text of the last child Node. */
  lemma {:induction false} AttachKeeps(node: Tree, kids: seq<Element>, parent: Element, parse: NumberParser)
    requires forall c :: c in kids ==> c in parent.children
    requires AttachChildren(node, kids, parent, parse).Success?
    ensures forall c :: c in kids ==> ReadPredicate(c).Success?
    ensures var r := AttachChildren(node, kids, parent, parse).value;
      && r.nodeId == node.nodeId && r.isLeaf == node.isLeaf && r.leafValue == node.leafValue
      && r.defaultLeft == node.defaultLeft && r.thresholdSet == node.thresholdSet
      && (|kids| == 0 ==> r == node)
      && (|kids| > 0 ==> r.featureName == Some(ReadPredicate(kids[|kids| - 1]).value.field)
                         && r.threshold == Some(ReadPredicate(kids[|kids| - 1]).value.value))
    decreases |kids|
  {
    if |kids| > 0 {
      AttachStep(node, kids, parent, parse);
      var tail := kids[1..];
      AttachKeeps(AfterFirst(node, kids, parse), tail, parent, parse);
      if |tail| > 0 {
        assert tail[|tail| - 1] == kids[|kids| - 1];
      }
    }
  }

  /** The child loop's children and decision type come from the last `lessOrEqual` and
      the last `greaterThan` child Node. */
  lemma AttachLinks(node: Tree, kids: seq<Element>, parent: Element, parse: NumberParser)
    requires forall c :: c in kids ==> c in parent.children
    requires AttachChildren(node, kids, parent, parse).Success?
    ensures var r := AttachChildren(node, kids, parent, parse).value;
      && ChildIs(r.left, kids, LastWith(kids, "lessOrEqual"), node.left, parse)
      && ChildIs(r.right, kids, LastWith(kids, "greaterThan"), node.right, parse)
      && r.decisionType == (if LastWith(kids, "lessOrEqual").Some? || LastWith(kids, "greaterThan").Some?
                            then Some("<=") else node.decisionType)
  {
    AttachLeft(node, kids, parent, parse);
    AttachRight(node, kids, parent, parse);
    AttachDecisionType(node, kids, parent, parse);
  }

  lemma {:induction false} AttachLeft(node: Tree, kids: seq<Element>, parent: Element, parse: NumberParser)
    requires forall c :: c in kids ==> c in parent.children
    requires AttachChildren(node, kids, parent, parse).Success?
    ensures ChildIs(AttachChildren(node, kids, parent, parse).value.left, kids, LastWith(kids, "lessOrEqual"), node.left, parse)
    decreases |kids|
  {
    if |kids| > 0 {
      AttachStep(node, kids, parent, parse);
      var tail := kids[1..];
      AttachLeft(AfterFirst(node, kids, parse), tail, parent, parse);
      if LastWith(tail, "lessOrEqual").Some? {
        assert tail[LastWith(tail, "lessOrEqual").value] == kids[LastWith(tail, "lessOrEqual").value + 1];
      }
    }
  }

  lemma {:induction false} AttachRight(node: Tree, kids: seq<Element>, parent: Element, parse: NumberParser)
    requires forall c :: c in kids ==> c in parent.children
    requires AttachChildren(node, kids, parent, parse).Success?
    ensures ChildIs(AttachChildren(node, kids, parent, parse).value.right, kids, LastWith(kids, "greaterThan"), node.right, parse)
    decreases |kids|
  {
    if |kids| > 0 {
      AttachStep(node, kids, parent, parse);
      var tail := kids[1..];
      AttachRight(AfterFirst(node, kids, parse), tail, parent, parse);
      if LastWith(tail, "greaterThan").Some? {
        assert tail[LastWith(tail, "greaterThan").value] == kids[LastWith(tail, "greaterThan").value + 1];
      }
    }
  }

  lemma {:induction false} AttachDecisionType(node: Tree, kids: seq<Element>, parent: Element, parse: NumberParser)
    requires forall c :: c in kids ==> c in parent.children
    requires AttachChildren(node, kids, parent, parse).Success?
    ensures AttachChildren(node, kids, parent, parse).value.decisionType ==
      (if LastWith(kids, "lessOrEqual").Some? || LastWith(kids, "greaterThan").Some? then Some("<=") else node.decisionType)
    decreases |kids|
  {
    if |kids| > 0 {
      AttachStep(node, kids, parent, parse);
      AttachDecisionType(AfterFirst(node, kids, parse), kids[1..], parent, parse);
    }
  }

  lemma {:induction false} AttachNoEquality(node: Tree, kids: seq<Element>, parent: Element, parse: NumberParser)
    requires forall c :: c in kids ==> c in parent.children
    requires AttachChildren(node, kids, parent, parse).Success?
    requires NoEqualitySplit(node)
    ensures NoEqualitySplit(AttachChildren(node, kids, parent, parse).value)
    decreases parent, 0, |kids|
  {
    if |kids| > 0 {
      AttachStep(node, kids, parent, parse);
      assert kids[0] in parent.children;
      if OperatorOf(kids[0]) in {Some("lessOrEqual"), Some("greaterThan")} {
        BuildNoEquality(kids[0], parse);
      }
      AttachNoEquality(AfterFirst(node, kids, parse), kids[1..], parent, parse);
    }
  }

  lemma {:induction false} BuildNoEquality(e: Element, parse: NumberParser)
    requires BuildNode(e, parse).Success?
    ensures NoEqualitySplit(BuildNode(e, parse).value)
    decreases e, 1, 0
  {
    var id := ParseInt(e.attributes["id"]).value;
    AttachNoEquality(LeafPart(e, id, parse).value, ChildrenNamed(e, "Node"), e, parse);
  }

  /** recursiveBuildTree: a node with a `score` attribute is a leaf carrying the parsed
      score; the left child is built from the last `lessOrEqual` child Node and the right
      child from the last `greaterThan` one; the decision type is "<=" as soon as either
      exists (never "=="); children with any other operator are dropped; the split field
      and threshold text come from the last child Node; `defaultLeft` is never set. */
  lemma BuildNodeFacts(e: Element, parse: NumberParser)
    requires BuildNode(e, parse).Success?
    ensures var r := BuildNode(e, parse).value;
      var kids := ChildrenNamed(e, "Node");
      && "id" in e.attributes && r.nodeId == ParseInt(e.attributes["id"]).value
      && (r.isLeaf <==> "score" in e.attributes)
      && ("score" in e.attributes ==> r.leafValue == parse(e.attributes["score"]))
      && ChildIs(r.left, kids, LastWith(kids, "lessOrEqual"), None, parse)
      && ChildIs(r.right, kids, LastWith(kids, "greaterThan"), None, parse)
      && r.decisionType == (if LastWith(kids, "lessOrEqual").Some? || LastWith(kids, "greaterThan").Some?
                            then Some("<=") else None)
      && (|kids| == 0 ==> r.featureName.None? && r.threshold.None?)
      && (|kids| > 0 ==> ReadPredicate(kids[|kids| - 1]).Success?
                         && r.featureName == Some(ReadPredicate(kids[|kids| - 1]).value.field)
                         && r.threshold == Some(ReadPredicate(kids[|kids| - 1]).value.value))
      && r.defaultLeft.None? && r.thresholdSet.None?
      && NoEqualitySplit(r)
  {
    var id := ParseInt(e.attributes["id"]).value;
    var node := LeafPart(e, id, parse).value;
    AttachKeeps(node, ChildrenNamed(e, "Node"), e, parse);
    AttachLinks(node, ChildrenNamed(e, "Node"), e, parse);
    BuildNoEquality(e, parse);
  }

  // ---------------------------------------------------------------------------------
  // Where the walk ends

  /** A tree whose walks are defined: leaves have a value and no children, inner nodes
      have both children, a decision type and at least one threshold. */
  ghost predicate WellFormed(t: Tree)
    decreases t
  {
    if t.isLeaf then t.left.None? && t.right.None? && t.leafValue.Some?
    else
      && t.left.Some? && t.right.Some? && t.decisionType.Some?
      && t.thresholdSet.Some? && |t.thresholdSet.value| > 0
      && WellFormed(t.left.value) && WellFormed(t.right.value)
  }

  /** Every inner node that reads a NaN value has its `defaultLeft` set. */
  ghost predicate Routable(t: Tree, data: Features)
    decreases t
  {
    t.isLeaf ||
    ((FeatureValue(t, data).Some? || t.defaultLeft.Some?) &&
     (t.left.Some? ==> Routable(t.left.value, data)) &&
     (t.right.Some? ==> Routable(t.right.value, data)))
  }

  lemma {:induction false} WellFormedIsComplete(t: Tree)
    requires WellFormed(t)
    ensures Complete(t)
    decreases t
  {
    if !t.isLeaf {
      WellFormedIsComplete(t.left.value);
      WellFormedIsComplete(t.right.value);
    }
  }

  /** On a well-formed tree with an inner root, the walk stops at a leaf that leafOrder
      enumerates, and predictTree finds a leaf value there: so the leaf id predictLeaf
      returns always has a code in the tree's leaf encoding. */
  lemma {:induction false} WalkEndsAtEnumeratedLeaf(t: Tree, data: Features)
    requires WellFormed(t) && !t.isLeaf && Routable(t, data)
    ensures Walk(t, data).Success? && Walk(t, data).value.isLeaf && Walk(t, data).value.leafValue.Some?
    ensures IsLeafOf(Walk(t, data).value, t)
    ensures LeafOrder(t).Success? && Walk(t, data).value.nodeId in LeafOrder(t).value
    ensures TreeScore(t, data) == Success(Walk(t, data).value.leafValue.value)
    decreases t
  {
    WellFormedIsComplete(t);
    LeafOrderMeaning(t);
    var next := Decide(t, data);
    assert next.Success? && next.value.Some?;
    var c := next.value.value;
    if c.left.None? {
      assert c.isLeaf;
      assert IsLeafOf(c, c);
      assert IsLeafOf(c, t);
    } else {
      WalkEndsAtEnumeratedLeaf(c, data);
      LeafOfTransitive(Walk(c, data).value, c, t);
    }
  }

  lemma {:induction false} LeafOfTransitive(n: Tree, c: Tree, t: Tree)
    requires !t.isLeaf && (t.left == Some(c) || t.right == Some(c)) && IsLeafOf(n, c)
    ensures IsLeafOf(n, t)
  {
  }

  /** A tree that is a single leaf (a Node with a score and no child Nodes) cannot be
      scored: the walk routes at the root before testing for a leaf, and the root has no
      decision type. */
  lemma SingleLeafTreeThrows(e: Element, parse: NumberParser, data: Features)
    requires BuildNode(e, parse).Success? && ChildrenNamed(e, "Node") == []
    ensures SplitThreshold(BuildNode(e, parse).value, parse) == BuildNode(e, parse)
    ensures Walk(BuildNode(e, parse).value, data) == Failure(NullPointer)
  {
    BuildNodeFacts(e, parse);
  }

  /** A NaN value is routed by `defaultLeft` alone: no decision type or threshold matters. */
  lemma MissingIgnoresThresholds(t: Tree, data: Features, decisionType: Option<string>, thresholds: Option<seq<real>>)
    requires FeatureValue(t, data).None?
    ensures Decide(t, data) == Decide(t.(decisionType := decisionType, thresholdSet := thresholds), data)
  {
  }

  /** An absent feature is routed exactly as a present 0.0, never as a missing value. */
  lemma AbsentReadsAsZero(t: Tree, data: Features)
    requires t.featureName.Some? && t.featureName.value !in data
    ensures Decide(t, data) == Decide(t, data[t.featureName.value := Some(0.0)])
  {
  }
}
