/** The logistic-regression scorer of logisticRegressionPmml.java. A PMML document gives
    the number of fields, the model's names, and a RegressionTable for target category
    "1" with an intercept and one NumericPredictor per field; a feature vector x is
    scored as sigmoid(Σ_i c_i x_i + intercept). */
module Lr {
  import opened Common
  import opened JavaStrings
  import opened Pmml
  import opened Sums

  /** The RegressionModel attributes parseAttributes copies. */
  datatype Names = Names(modelName: string, algorithmName: string, functionName: string,
                         normalizationMethod: string)

  /** A loaded model. It is never changed after create returns. */
  datatype LRModel = LRModel(names: Names, numberOfFields: int, targetCategory: string,
                             intercept: real, coefficients: seq<real>)

  /** A Java int expression's value: x reduced into the 32-bit range. */
  function Int32(x: int): (r: int)
    ensures INT_MIN <= r <= INT_MAX
    ensures INT_MIN <= x <= INT_MAX ==> r == x
  {
    (x - INT_MIN) % 0x1_0000_0000 + INT_MIN
  }

  /** parseAttributes: the four attributes of the RegressionModel, exactly as written;
      a missing one is dereferenced as null. */
  function ParseAttributes(rootModel: Element): (r: Result<Names>)
    ensures r.Success? <==> "modelName" in rootModel.attributes && "algorithmName" in rootModel.attributes
                            && "functionName" in rootModel.attributes
                            && "normalizationMethod" in rootModel.attributes
    ensures r.Failure? ==> r.error == NullPointer
    ensures r.Success? ==> Attr(rootModel, "modelName") == Some(r.value.modelName)
                           && Attr(rootModel, "algorithmName") == Some(r.value.algorithmName)
                           && Attr(rootModel, "functionName") == Some(r.value.functionName)
                           && Attr(rootModel, "normalizationMethod") == Some(r.value.normalizationMethod)
  {
    match (Attr(rootModel, "modelName"), Attr(rootModel, "algorithmName"),
           Attr(rootModel, "functionName"), Attr(rootModel, "normalizationMethod"))
    case (Some(m), Some(a), Some(f), Some(n)) => Success(Names(m, a, f, n))
    case _ => Failure(NullPointer)
  }

  // Finding the regression table

  /** A RegressionTable for target category "1" (attributeValue answers null for a
      missing attribute, which is not "1"). */
  predicate IsTarget(table: Element) {
    Attr(table, "targetCategory") == Some("1")
  }

  /** The first table for target category "1", or None. */
  function FirstTarget(tables: seq<Element>): Option<Element>
    decreases |tables|
  {
    if |tables| == 0 then None
    else if IsTarget(tables[0]) then Some(tables[0])
    else FirstTarget(tables[1..])
  }

  /** FirstTarget finds a target table exactly when there is one, and then the first. */
  lemma {:induction false} FirstTargetIsFirst(tables: seq<Element>)
    ensures FirstTarget(tables).None? <==> forall i :: 0 <= i < |tables| ==> !IsTarget(tables[i])
    ensures FirstTarget(tables).Some? ==>
              exists i :: 0 <= i < |tables| && tables[i] == FirstTarget(tables).value && IsTarget(tables[i]) &&
                          forall j :: 0 <= j < i ==> !IsTarget(tables[j])
    decreases |tables|
  {
    if |tables| > 0 && !IsTarget(tables[0]) {
      var rest := tables[1..];
      FirstTargetIsFirst(rest);
      assert forall i :: 1 <= i < |tables| ==> tables[i] == rest[i - 1];
      if FirstTarget(rest).Some? {
        var i :| 0 <= i < |rest| && rest[i] == FirstTarget(rest).value && IsTarget(rest[i]) &&
                 forall j :: 0 <= j < i ==> !IsTarget(rest[j]);
        assert tables[i + 1] == rest[i];
        assert forall j :: 0 <= j < i + 1 ==> !IsTarget(tables[j]) by {
          forall j | 0 <= j < i + 1
            ensures !IsTarget(tables[j])
          {
            if j > 0 {
              assert tables[j] == rest[j - 1];
            }
          }
        }
      }
    } else if |tables| > 0 {
      assert tables[0] == FirstTarget(tables).value;
    }
  }

  /** findModelElement: the first RegressionTable child with targetCategory "1", or
      null. */
  method FindModelElement(segmentation: Element) returns (r: Option<Element>)
    ensures r == FirstTarget(ChildrenNamed(segmentation, "RegressionTable"))
  {
    var elements := ChildrenNamed(segmentation, "RegressionTable");
    var i := 0;
    while i < |elements|
      invariant 0 <= i <= |elements|
      invariant FirstTarget(elements) == FirstTarget(elements[i..])
    {
      if IsTarget(elements[i]) {
        return Some(elements[i]);
      }
      assert elements[i..][1..] == elements[i + 1..];
      i := i + 1;
    }
    return None;
  }

  // Filling the coefficients

  /** The `coefficient` attribute of a NumericPredictor, through Double.valueOf (which
      throws NullPointerException for a missing attribute). */
  function PredictorCoefficient(p: Element, parse: NumberParser): Result<real> {
    match Attr(p, "coefficient")
    case None => Failure(NullPointer)
    case Some(text) =>
      match parse(text)
      case None => Failure(NumberFormat)
      case Some(c) => Success(c)
  }

  /** The `name` attribute of a NumericPredictor, through Integer.valueOf (which throws
      NumberFormatException for a missing attribute as for a malformed one). */
  function PredictorIndex(p: Element): Result<int> {
    match Attr(p, "name")
    case None => Failure(NumberFormat)
    case Some(text) =>
      match ParseInt(text)
      case None => Failure(NumberFormat)
      case Some(index) => Success(index)
  }

  /** One turn of the predictor loop: the coefficient is read, then the index, then the
      array store is bounds-checked. */
  function Store(c: seq<real>, p: Element, parse: NumberParser): (r: Result<seq<real>>)
    ensures r.Success? ==> |r.value| == |c|
  {
    match PredictorCoefficient(p, parse)
    case Failure(e) => Failure(e)
    case Success(coef) =>
      match PredictorIndex(p)
      case Failure(e) => Failure(e)
      case Success(index) =>
        if 0 <= index < |c| then Success(c[index := coef]) else Failure(IndexOutOfBounds)
  }

  /** The predictor loop over `predictors`, in document order, from the array `c`; the
      first exception ends it. */
  function Fill(c: seq<real>, predictors: seq<Element>, parse: NumberParser): (r: Result<seq<real>>)
    ensures r.Success? ==> |r.value| == |c|
    decreases |predictors|
  {
    if |predictors| == 0 then Success(c)
    else match Fill(c, predictors[..|predictors| - 1], parse)
      case Failure(e) => Failure(e)
      case Success(d) => Store(d, predictors[|predictors| - 1], parse)
  }

  /** A predictor create accepts for an array of `n` slots: its coefficient is a number
      and its name the index of a slot. */
  predicate WellFormed(p: Element, n: int, parse: NumberParser) {
    PredictorCoefficient(p, parse).Success? && PredictorIndex(p).Success? &&
    0 <= PredictorIndex(p).value < n
  }

  /** The loop runs to its end exactly when every predictor is well formed. */
  lemma {:induction false} FillSucceeds(c: seq<real>, predictors: seq<Element>, parse: NumberParser)
    ensures Fill(c, predictors, parse).Success? <==>
              forall i :: 0 <= i < |predictors| ==> WellFormed(predictors[i], |c|, parse)
    decreases |predictors|
  {
    if |predictors| > 0 {
      var front := predictors[..|predictors| - 1];
      FillSucceeds(c, front, parse);
      assert forall i :: 0 <= i < |front| ==> front[i] == predictors[i];
    }
  }

  /** Once a prefix of the predictors fails, the whole loop fails the same way. */
  lemma {:induction false} FillPrefixFails(c: seq<real>, predictors: seq<Element>, m: nat, parse: NumberParser)
    requires m <= |predictors| && Fill(c, predictors[..m], parse).Failure?
    ensures Fill(c, predictors, parse) == Fill(c, predictors[..m], parse)
    decreases |predictors|
  {
    if m < |predictors| {
      var n := |predictors|;
      assert predictors[..n - 1][..m] == predictors[..m];
      FillPrefixFails(c, predictors[..n - 1], m, parse);
    } else {
      assert predictors[..m] == predictors;
    }
  }

  /** A slot no predictor names keeps its value. */
  lemma {:induction false} FillUnnamed(c: seq<real>, predictors: seq<Element>, parse: NumberParser, j: int)
    requires Fill(c, predictors, parse).Success? && 0 <= j < |c|
    requires forall i :: 0 <= i < |predictors| ==> PredictorIndex(predictors[i]) != Success(j)
    ensures Fill(c, predictors, parse).value[j] == c[j]
    decreases |predictors|
  {
    if |predictors| > 0 {
      var front := predictors[..|predictors| - 1];
      assert forall i :: 0 <= i < |front| ==> front[i] == predictors[i];
      FillUnnamed(c, front, parse, j);
    }
  }

  /** When well-formed predictors name distinct slots, the loop runs to its end and each
      slot named holds its own predictor's coefficient. */
  lemma {:induction false} FillByName(c: seq<real>, predictors: seq<Element>, parse: NumberParser)
    requires forall i :: 0 <= i < |predictors| ==> WellFormed(predictors[i], |c|, parse)
    requires forall i, j :: 0 <= i < j < |predictors| ==> PredictorIndex(predictors[i]) != PredictorIndex(predictors[j])
    ensures Fill(c, predictors, parse).Success?
    ensures forall i :: 0 <= i < |predictors| ==>
              WellFormed(predictors[i], |c|, parse) &&
              Fill(c, predictors, parse).value[PredictorIndex(predictors[i]).value] ==
              PredictorCoefficient(predictors[i], parse).value
    decreases |predictors|
  {
    FillSucceeds(c, predictors, parse);
    if |predictors| > 0 {
      var n := |predictors|;
      var front := predictors[..n - 1];
      assert forall i :: 0 <= i < |front| ==> front[i] == predictors[i];
      FillByName(c, front, parse);
      var last := predictors[n - 1];
      assert Fill(c, predictors, parse).value ==
             Fill(c, front, parse).value[PredictorIndex(last).value := PredictorCoefficient(last, parse).value];
    }
  }

  // Loading

  /** The DataDictionary's numberOfFields less one, computed as a Java int. */
  function FieldCount(document: Element): Result<int> {
    match FirstChild(document, "DataDictionary")
    case None => Failure(NullPointer)
    case Some(dict) =>
      match Attr(dict, "numberOfFields")
      case None => Failure(NullPointer)
      case Some(text) =>
        match ParseInt(text)
        case None => Failure(NumberFormat)
        case Some(fields) => Success(Int32(fields - 1))
  }

  /** What create reads from the RegressionModel: its names, then the target table and
      that table's intercept. */
  datatype Regression = Regression(names: Names, table: Element, intercept: real)

  function ReadRegression(document: Element, parse: NumberParser): Result<Regression> {
    match FirstChild(document, "RegressionModel")
    case None => Failure(NullPointer)
    case Some(regressionModel) =>
      match ParseAttributes(regressionModel)
      case Failure(e) => Failure(e)
      case Success(names) =>
        match FirstTarget(ChildrenNamed(regressionModel, "RegressionTable"))
        case None => Failure(NullPointer)
        case Some(table) =>
          match Attr(table, "intercept")
          case None => Failure(NullPointer)
          case Some(text) =>
            match parse(text)
            case None => Failure(NumberFormat)
            case Some(intercept) => Success(Regression(names, table, intercept))
  }

  /** The NumericPredictor children of the target table. */
  function Predictors(reg: Regression): seq<Element> {
    ChildrenNamed(reg.table, "NumericPredictor")
  }

  /** The second half of create: null when the predictor count differs from the field
      count, otherwise a model whose coefficient array is filled from zeros. */
  function Assemble(numberOfFields: int, reg: Regression, parse: NumberParser): Created<LRModel> {
    var predictors := Predictors(reg);
    if numberOfFields != |predictors| then Null
    else match Fill(Zeros(|predictors|), predictors, parse)
      case Failure(e) => Threw(e)
      case Success(c) => Built(LRModel(reg.names, numberOfFields, "1", reg.intercept, c))
  }

  /** create, in its order: the field count, the RegressionModel, then the predictors. */
  function Load(document: Element, parse: NumberParser): Created<LRModel> {
    match FieldCount(document)
    case Failure(e) => Threw(e)
    case Success(numberOfFields) =>
      match ReadRegression(document, parse)
      case Failure(e) => Threw(e)
      case Success(reg) => Assemble(numberOfFields, reg, parse)
  }

  /** parseAttributes, findModelElement and the intercept, as create does them. */
  method FindRegression(document: Element, parse: NumberParser) returns (r: Result<Regression>)
    ensures r == ReadRegression(document, parse)
  {
    var regressionModel := FirstChild(document, "RegressionModel");
    if regressionModel.None? {
      return Failure(NullPointer);
    }
    var names := ParseAttributes(regressionModel.value);
    if names.Failure? {
      return Failure(names.error);
    }
    var modelElement := FindModelElement(regressionModel.value);
    if modelElement.None? {
      return Failure(NullPointer);
    }
    var text := Attr(modelElement.value, "intercept");
    if text.None? {
      return Failure(NullPointer);
    }
    var intercept := parse(text.value);
    if intercept.None? {
      return Failure(NumberFormat);
    }
    return Success(Regression(names.value, modelElement.value, intercept.value));
  }

  /** The predictor loop of create, on a fresh zero array of n slots. */
  method FillCoefficients(n: nat, predictors: seq<Element>, parse: NumberParser) returns (r: Result<seq<real>>)
    ensures r == Fill(Zeros(n), predictors, parse)
  {
    var coefficients := new real[n](_ => 0.0);
    assert coefficients[..] == Zeros(n);
    var i := 0;
    while i < |predictors|
      invariant 0 <= i <= |predictors|
      invariant Fill(Zeros(n), predictors[..i], parse) == Success(coefficients[..])
    {
      assert predictors[..i + 1][..i] == predictors[..i];
      var coef := PredictorCoefficient(predictors[i], parse);
      if coef.Failure? {
        FillPrefixFails(Zeros(n), predictors, i + 1, parse);
        return Failure(coef.error);
      }
      var index := PredictorIndex(predictors[i]);
      if index.Failure? {
        FillPrefixFails(Zeros(n), predictors, i + 1, parse);
        return Failure(index.error);
      }
      if !(0 <= index.value < coefficients.Length) {
        FillPrefixFails(Zeros(n), predictors, i + 1, parse);
        return Failure(IndexOutOfBounds);
      }
      coefficients[index.value] := coef.value;
      i := i + 1;
    }
    assert predictors[..|predictors|] == predictors;
    return Success(coefficients[..]);
  }

  /** create: the document's numberOfFields less one, the model's attributes, the
      target table's intercept and one coefficient per field, each stored at the slot
      its predictor names; null when the counts differ. */
  method Create(document: Element, parse: NumberParser) returns (r: Created<LRModel>)
    ensures r == Load(document, parse)
  {
    var count := FieldCount(document);
    if count.Failure? {
      return Threw(count.error);
    }
    var numberOfFields := count.value;
    var reg := FindRegression(document, parse);
    if reg.Failure? {
      return Threw(reg.error);
    }
    var predictors := ChildrenNamed(reg.value.table, "NumericPredictor");
    if numberOfFields != |predictors| {
      return Null;
    }
    var coefficients := FillCoefficients(|predictors|, predictors, parse);
    match coefficients
    case Failure(e) =>
      return Threw(e);
    case Success(c) =>
      return Built(LRModel(reg.value.names, numberOfFields, "1", reg.value.intercept, c));
  }

  // What a loaded model holds

  /** The field count is the document's numberOfFields less one, except that
      Integer.MIN_VALUE - 1 wraps round to Integer.MAX_VALUE. */
  lemma FieldCountValue(document: Element)
    requires FieldCount(document).Success?
    ensures FirstChild(document, "DataDictionary").Some?
    ensures "numberOfFields" in FirstChild(document, "DataDictionary").value.attributes
    ensures var fields := ParseInt(FirstChild(document, "DataDictionary").value.attributes["numberOfFields"]);
            && fields.Some?
            && FieldCount(document).value == if fields.value == INT_MIN then INT_MAX else fields.value - 1
  {
  }

  /** The table create reads is the first RegressionTable for target category "1", the
      names are the RegressionModel's attributes as written, and the intercept is the
      table's. */
  lemma RegressionSources(document: Element, parse: NumberParser)
    requires ReadRegression(document, parse).Success?
    ensures FirstChild(document, "RegressionModel").Some?
    ensures var rm := FirstChild(document, "RegressionModel").value;
            var reg := ReadRegression(document, parse).value;
            && Some(reg.table) == FirstTarget(ChildrenNamed(rm, "RegressionTable"))
            && IsTarget(reg.table)
            && ParseAttributes(rm) == Success(reg.names)
            && "intercept" in reg.table.attributes
            && parse(reg.table.attributes["intercept"]) == Some(reg.intercept)
  {
    var rm := FirstChild(document, "RegressionModel").value;
    FirstTargetIsFirst(ChildrenNamed(rm, "RegressionTable"));
  }

  /** create answers null exactly when the predictor count differs from the field
      count. */
  lemma AssembleNull(numberOfFields: int, reg: Regression, parse: NumberParser)
    ensures Assemble(numberOfFields, reg, parse).Null? <==> numberOfFields != |Predictors(reg)|
  {
  }

  /** create builds a model exactly when the counts agree and every predictor is well
      formed; the model has target category "1", the names and intercept read, and one
      coefficient per field. */
  lemma AssembleBuilt(numberOfFields: int, reg: Regression, parse: NumberParser)
    ensures Assemble(numberOfFields, reg, parse).Built? <==>
              numberOfFields == |Predictors(reg)| &&
              forall i :: 0 <= i < |Predictors(reg)| ==> WellFormed(Predictors(reg)[i], numberOfFields, parse)
    ensures Assemble(numberOfFields, reg, parse).Built? ==>
              var m := Assemble(numberOfFields, reg, parse).model;
              && m.targetCategory == "1" && m.names == reg.names && m.intercept == reg.intercept
              && m.numberOfFields == numberOfFields && |m.coefficients| == numberOfFields
  {
    FillSucceeds(Zeros(|Predictors(reg)|), Predictors(reg), parse);
  }

  /** When the predictors' names are distinct, every slot holds the coefficient of the
      predictor that names it. */
  lemma AssembleByName(numberOfFields: int, reg: Regression, parse: NumberParser)
    requires Assemble(numberOfFields, reg, parse).Built?
    requires forall i, j :: 0 <= i < j < |Predictors(reg)| ==>
               PredictorIndex(Predictors(reg)[i]) != PredictorIndex(Predictors(reg)[j])
    ensures forall i :: 0 <= i < |Predictors(reg)| ==>
              WellFormed(Predictors(reg)[i], numberOfFields, parse) &&
              Assemble(numberOfFields, reg, parse).model.coefficients[PredictorIndex(Predictors(reg)[i]).value] ==
              PredictorCoefficient(Predictors(reg)[i], parse).value
  {
    var ps := Predictors(reg);
    FillSucceeds(Zeros(|ps|), ps, parse);
    FillByName(Zeros(|ps|), ps, parse);
  }

  /** A slot no predictor names stays 0. */
  lemma AssembleUnnamed(numberOfFields: int, reg: Regression, parse: NumberParser, j: int)
    requires Assemble(numberOfFields, reg, parse).Built? && 0 <= j < numberOfFields
    requires forall i :: 0 <= i < |Predictors(reg)| ==> PredictorIndex(Predictors(reg)[i]) != Success(j)
    ensures Assemble(numberOfFields, reg, parse).model.coefficients[j] == 0.0
  {
    FillUnnamed(Zeros(|Predictors(reg)|), Predictors(reg), parse, j);
  }

  // Scoring

  /** predict: the logistic function of the coefficients' dot product with the data plus
      the intercept; ArrayRealVector refuses vectors of different dimension. */
  function Predict(model: LRModel, data: seq<real>): (r: Result<Probability>)
    ensures r.Failure? <==> |data| != |model.coefficients|
    ensures r.Failure? ==> r.error == DimensionMismatch
  {
    if |data| != |model.coefficients| then Failure(DimensionMismatch)
    else Success(Sigmoid(Dot(model.coefficients, data) + model.intercept))
  }

  /** The input that is zero in every slot scores sigmoid(intercept). */
  lemma PredictZero(model: LRModel, data: seq<real>)
    requires |data| == |model.coefficients| && forall i :: 0 <= i < |data| ==> data[i] == 0.0
    ensures Predict(model, data) == Success(Sigmoid(model.intercept))
  {
    SumZero(|data|, Products(model.coefficients, data));
  }

  /** The input x_j = t, zero elsewhere, scores sigmoid(c_j · t + intercept): each
      coefficient is the weight of its own field. */
  lemma PredictOneField(model: LRModel, data: seq<real>, j: nat)
    requires |data| == |model.coefficients| && j < |data|
    requires forall i :: 0 <= i < |data| && i != j ==> data[i] == 0.0
    ensures Predict(model, data) == Success(Sigmoid(model.coefficients[j] * data[j] + model.intercept))
  {
    var g := Products(model.coefficients, data);
    forall i: nat | i < |data| && i != j
      ensures g(i) == 0.0
    {
      assert At(data, i) == 0.0;
    }
    SumOneTerm(|data|, g, j);
    assert g(j) == model.coefficients[j] * data[j];
    assert Dot(model.coefficients, data) == Sum(|data|, g);
  }

}
