/** The factorisation-machine scorer of FMModel.java. A model is read from text lines of
    the form `key:value`, one field or coefficient per line, and a feature vector x is
    scored as sigmoid(bias + Σ_i x_i w_i + Σ_{i<j} x_i x_j ⟨v_i, v_j⟩). */
module Fm {
  import opened Common
  import opened JavaStrings
  import opened Sums
  import opened FmMath

  // The model's fields as a value

  /** The fields of a model: the number of features, the embedding width k (0 until the
      first embedding line), the bias, one coefficient per feature, the embedding table
      (None, a null array, until the first embedding line allocates it) and the dt text
      (None while null). */
  datatype FMState = FMState(featureSize: nat, k: nat, bias: real, coefficients: seq<real>,
                             embeddings: Option<seq<seq<real>>>, dt: Option<string>)

  /** What every model satisfies: one coefficient per feature and, once the table exists,
      one embedding row per feature, each k wide; there is no table while k is 0. */
  ghost predicate Consistent(s: FMState) {
    |s.coefficients| == s.featureSize &&
    (s.embeddings.None? ==> s.k == 0) &&
    (s.embeddings.Some? ==> |s.embeddings.value| == s.featureSize && RowsOfWidth(s.embeddings.value, s.k))
  }

  /** Every row is `width` wide. */
  ghost predicate RowsOfWidth(rows: seq<seq<real>>, width: nat) {
    forall i :: 0 <= i < |rows| ==> |rows[i]| == width
  }

  /** A table of `rows` rows of `width` zeros, as `new double[rows][width]` allocates it. */
  function ZeroTable(rows: nat, width: nat): (r: seq<seq<real>>)
    ensures |r| == rows && forall i :: 0 <= i < rows ==> r[i] == Zeros(width)
  {
    seq(rows, _ => Zeros(width))
  }

  /** The model `new FMModel(featureSize)` creates. */
  function Initial(featureSize: nat): (s: FMState)
    ensures Consistent(s)
  {
    FMState(featureSize, 0, 0.0, Zeros(featureSize), None, None)
  }

  // Reading one line

  /** What parseRow returns (0 for a line it used, -1 for an empty line, -2 for a key it
      does not know, or the exception it raised) and the model afterwards. */
  datatype Parsed = Parsed(status: Result<int>, state: FMState)

  /** What parseRow reads off a line before it touches the model: which kind of line it
      is and the texts it will use. A missing second column is None; the feature index
      of an `i_`/`v_` key is already parsed, or holds the exception parsing raised. */
  datatype Line =
    | Blank                                                     // the empty string
    | NoKey                                                     // no column at all
    | Dt(text: Option<string>)                                  // `dt:<text>`, trimmed
    | Bias(text: Option<string>)                                // `bias:<number>`, trimmed
    | Coefficient(index: Result<int>, text: Option<string>)     // `i_<index>:<number>`
    | Embedding(index: Result<int>, texts: Option<seq<string>>) // `v_<index>:<n1> <n2> …`
    | Unknown                                                   // any other key

  /** The `:`-separated columns of a trimmed line. */
  function Columns(line: string): seq<string> {
    Split(Trim(line), ":")
  }

  /** The feature index after the `_` of an `i_`/`v_` key. */
  function KeyIndex(key: string): Result<int> {
    var parts := Split(key, "_");
    if |parts| < 2 then Failure(IndexOutOfBounds)
    else match ParseInt(Trim(parts[1]))
      case None => Failure(NumberFormat)
      case Some(index) => Success(index)
  }

  /** The second column, if there is one. */
  function Second(cols: seq<string>): Option<string> {
    if |cols| >= 2 then Some(cols[1]) else None
  }

  /** The key tests of parseRow, in its order. */
  function Classify(line: string): Line {
    if |line| == 0 then Blank
    else
      var cols := Columns(line);
      if |cols| == 0 then NoKey
      else if cols[0] == "dt" then Dt(if |cols| >= 2 then Some(Trim(cols[1])) else None)
      else if cols[0] == "bias" then Bias(if |cols| >= 2 then Some(Trim(cols[1])) else None)
      else if StartsWith(cols[0], "i_") then Coefficient(KeyIndex(cols[0]), Second(cols))
      else if StartsWith(cols[0], "v_") then
        Embedding(KeyIndex(cols[0]), if |cols| >= 2 then Some(Split(Trim(cols[1]), " ")) else None)
      else Unknown
  }

  /** parseRow on the model `s`. */
  function ParseLine(s: FMState, line: string, parse: NumberParser): Parsed {
    Apply(s, Classify(line), parse)
  }

  /** What a line of each kind does to the model. A line that raises may already have
      changed it: the first embedding line fixes k and allocates the table before
      anything else about it is checked. */
  function Apply(s: FMState, l: Line, parse: NumberParser): Parsed {
    match l
    case Blank => Parsed(Success(-1), s)
    case NoKey => Parsed(Failure(IndexOutOfBounds), s)
    case Dt(text) =>
      if text.None? then Parsed(Failure(IndexOutOfBounds), s)
      else Parsed(Success(0), s.(dt := text))
    case Bias(text) =>
      if text.None? then Parsed(Failure(IndexOutOfBounds), s)
      else (match parse(text.value)
        case None => Parsed(Failure(NumberFormat), s)
        case Some(b) => Parsed(Success(0), s.(bias := b)))
    case Coefficient(index, text) => SetCoefficient(s, index, text, parse)
    case Embedding(index, texts) => SetEmbedding(s, index, texts, parse)
    case Unknown => Parsed(Success(-2), s)
  }

  /** An `i_` line: the index is checked against the feature count, then the value is
      parsed (untrimmed), and only then is the array store bounds-checked. */
  function SetCoefficient(s: FMState, index: Result<int>, text: Option<string>, parse: NumberParser): Parsed {
    match index
    case Failure(e) => Parsed(Failure(e), s)
    case Success(n) =>
      if n >= s.featureSize then Parsed(Failure(InputMismatch), s)
      else if text.None? then Parsed(Failure(IndexOutOfBounds), s)
      else match parse(text.value)
        case None => Parsed(Failure(NumberFormat), s)
        case Some(c) =>
          if !(0 <= n < |s.coefficients|) then Parsed(Failure(IndexOutOfBounds), s)
          else Parsed(Success(0), s.(coefficients := s.coefficients[n := c]))
  }

  /** A `v_` line: the index, the second column and the feature-size check come first; the
      texts are then stored in the table that `Allocate` provides. */
  function SetEmbedding(s: FMState, index: Result<int>, texts: Option<seq<string>>, parse: NumberParser): Parsed {
    match index
    case Failure(e) => Parsed(Failure(e), s)
    case Success(n) =>
      if texts.None? then Parsed(Failure(IndexOutOfBounds), s)
      else if n >= s.featureSize then Parsed(Failure(InputMismatch), s)
      else StoreEmbedding(Allocate(s, |texts.value|), n, texts.value, parse)
  }

  /** While k is 0, an embedding line of `width` values sets k to `width` and allocates a
      zero table; that stays even when a later check of the same line fails. */
  function Allocate(s: FMState, width: nat): FMState {
    if s.k == 0 then s.(k := width, embeddings := Some(ZeroTable(s.featureSize, width))) else s
  }

  /** checkEmbeddingSize, then every text parsed, then the row stored (the store checks
      for a null table, then the bounds). */
  function StoreEmbedding(t: FMState, n: int, texts: seq<string>, parse: NumberParser): Parsed {
    if |texts| != t.k then Parsed(Failure(InputMismatch), t)
    else match ParseAll(texts, parse)
      case None => Parsed(Failure(NumberFormat), t)
      case Some(emb) =>
        if t.embeddings.None? then Parsed(Failure(NullPointer), t)
        else if !(0 <= n < |t.embeddings.value|) then Parsed(Failure(IndexOutOfBounds), t)
        else Parsed(Success(0), t.(embeddings := Some(t.embeddings.value[n := emb])))
  }

  /** The model after reading `lines` in order: a line that raises is reported and
      skipped, and reading goes on with the next one. */
  function LoadLines(s: FMState, lines: seq<string>, parse: NumberParser): FMState
    decreases |lines|
  {
    if |lines| == 0 then s
    else ParseLine(LoadLines(s, lines[..|lines| - 1], parse), lines[|lines| - 1], parse).state
  }

  // Which line is which

  /** The four recognised keys exclude each other. */
  lemma KeyKinds(key: string)
    ensures StartsWith(key, "i_") ==> key != "dt" && key != "bias" && !StartsWith(key, "v_")
    ensures StartsWith(key, "v_") ==> key != "dt" && key != "bias"
  {
    if StartsWith(key, "i_") || StartsWith(key, "v_") {
      assert key[1] == '_';
      assert "dt"[1] == 't' && "bias"[1] == 'i';
    }
    if StartsWith(key, "i_") {
      assert key[0] == 'i';
    }
  }

  /** The kind of a line is decided by its first column alone: `i_` and `v_` keys by
      their prefix, whose index is the number after the `_`. */
  lemma ClassifyKeys(line: string)
    requires |line| > 0 && |Columns(line)| > 0
    ensures StartsWith(Columns(line)[0], "i_") ==>
              Classify(line) == Coefficient(KeyIndex(Columns(line)[0]), Second(Columns(line)))
    ensures StartsWith(Columns(line)[0], "v_") ==>
              Classify(line).Embedding? && Classify(line).index == KeyIndex(Columns(line)[0]) &&
              (Classify(line).texts.Some? <==> |Columns(line)| >= 2)
    ensures Classify(line).Dt? <==> Columns(line)[0] == "dt"
    ensures Classify(line).Bias? <==> Columns(line)[0] == "bias"
  {
    KeyKinds(Columns(line)[0]);
  }

  /** A key no branch of parseRow recognises. */
  predicate Unrecognised(line: string) {
    var cols := Columns(line);
    |cols| > 0 && cols[0] != "dt" && cols[0] != "bias" &&
    !StartsWith(cols[0], "i_") && !StartsWith(cols[0], "v_")
  }

  /** An empty line answers -1 and an unknown key -2, and only those; neither changes the
      model. */
  lemma IgnoredLines(s: FMState, line: string, parse: NumberParser)
    ensures ParseLine(s, line, parse).status == Success(-1) <==> |line| == 0
    ensures ParseLine(s, line, parse).status == Success(-2) <==> |line| > 0 && Unrecognised(line)
    ensures ParseLine(s, line, parse).status in {Success(-1), Success(-2)} ==> ParseLine(s, line, parse).state == s
  {
    ClassifyIgnored(line);
    ApplyStatus(s, Classify(line), parse);
  }

  /** Only the empty line is Blank, and only an unrecognised key is Unknown. */
  lemma ClassifyIgnored(line: string)
    ensures Classify(line).Blank? <==> |line| == 0
    ensures Classify(line).Unknown? <==> |line| > 0 && Unrecognised(line)
  {
    if |line| > 0 {
      var cols := Columns(line);
      if |cols| > 0 && cols[0] != "dt" && cols[0] != "bias" {
        assert Classify(line).Unknown? <==> !StartsWith(cols[0], "i_") && !StartsWith(cols[0], "v_");
      }
    }
  }

  /** Only an empty line answers -1 and only an unknown key -2. */
  lemma ApplyStatus(s: FMState, l: Line, parse: NumberParser)
    ensures Apply(s, l, parse).status == Success(-1) <==> l.Blank?
    ensures Apply(s, l, parse).status == Success(-2) <==> l.Unknown?
    ensures l.Blank? || l.Unknown? ==> Apply(s, l, parse).state == s
  {
  }

  // What each kind of line does

  /** Every line keeps the model consistent and the feature count unchanged. */
  lemma ApplyConsistent(s: FMState, l: Line, parse: NumberParser)
    requires Consistent(s)
    ensures Consistent(Apply(s, l, parse).state)
    ensures Apply(s, l, parse).state.featureSize == s.featureSize
  {
    if l.Embedding? && l.index.Success? && l.texts.Some? && l.index.value < s.featureSize {
      var t := Allocate(s, |l.texts.value|);
      assert Consistent(t);
      var p := StoreEmbedding(t, l.index.value, l.texts.value, parse);
      if p.status.Success? {
        assert |ParseAll(l.texts.value, parse).value| == t.k;
      }
    }
  }

  /** Reading any lines into a consistent model leaves it consistent, with the same
      feature count. */
  lemma {:induction false} LoadLinesConsistent(s: FMState, lines: seq<string>, parse: NumberParser)
    requires Consistent(s)
    ensures Consistent(LoadLines(s, lines, parse))
    ensures LoadLines(s, lines, parse).featureSize == s.featureSize
    decreases |lines|
  {
    if |lines| > 0 {
      var front := lines[..|lines| - 1];
      LoadLinesConsistent(s, front, parse);
      ApplyConsistent(LoadLines(s, front, parse), Classify(lines[|lines| - 1]), parse);
    }
  }

  /** A `dt` line changes nothing but dt, and sets it to the trimmed second column. */
  lemma DtLine(s: FMState, text: Option<string>, parse: NumberParser)
    ensures Apply(s, Dt(text), parse).state.(dt := s.dt) == s
    ensures Apply(s, Dt(text), parse).status.Success? <==> text.Some?
    ensures text.Some? ==> Apply(s, Dt(text), parse).state.dt == text
  {
  }

  /** A `bias` line changes nothing but the bias, and succeeds exactly when its text is a
      number, which becomes the bias. */
  lemma BiasLine(s: FMState, text: Option<string>, parse: NumberParser)
    ensures Apply(s, Bias(text), parse).state.(bias := s.bias) == s
    ensures Apply(s, Bias(text), parse).status.Success? <==> text.Some? && parse(text.value).Some?
    ensures Apply(s, Bias(text), parse).status.Success? ==>
              Apply(s, Bias(text), parse).state.bias == parse(text.value).value
  {
  }

  /** An `i_n` line changes at most coefficient n: it succeeds exactly when n is a
      feature index and the value parses, and then coefficient n is that value. */
  lemma CoefficientLine(s: FMState, n: int, text: Option<string>, parse: NumberParser)
    requires Consistent(s)
    ensures Apply(s, Coefficient(Success(n), text), parse).state.(coefficients := s.coefficients) == s
    ensures forall j :: 0 <= j < s.featureSize && j != n ==>
              Apply(s, Coefficient(Success(n), text), parse).state.coefficients[j] == s.coefficients[j]
    ensures Apply(s, Coefficient(Success(n), text), parse).status.Success? <==>
              0 <= n < s.featureSize && text.Some? && parse(text.value).Some?
    ensures Apply(s, Coefficient(Success(n), text), parse).status.Success? ==>
              Apply(s, Coefficient(Success(n), text), parse).state.coefficients[n] == parse(text.value).value
  {
  }

  /** An accepted `v_n` line had n within the feature count and values that all parse,
      as many as k, which it sets if it was 0; it replaces row n with those values and
      changes no other row and no other field. */
  lemma EmbeddingLine(s: FMState, n: int, texts: Option<seq<string>>, parse: NumberParser)
    requires Consistent(s) && Apply(s, Embedding(Success(n), texts), parse).status.Success?
    ensures 0 <= n < s.featureSize && texts.Some? && ParseAll(texts.value, parse).Some?
    ensures Apply(s, Embedding(Success(n), texts), parse).state.(embeddings := s.embeddings, k := s.k) == s
    ensures Apply(s, Embedding(Success(n), texts), parse).state.k == if s.k == 0 then |texts.value| else s.k
    ensures Apply(s, Embedding(Success(n), texts), parse).state.embeddings ==
              Some((if s.k == 0 then ZeroTable(s.featureSize, |texts.value|) else s.embeddings.value)
                     [n := ParseAll(texts.value, parse).value])
  {
  }

  /** A feature index the model has no slot for is refused by checkFeautreSize, before
      the model is touched (for an embedding line, once its second column exists). */
  lemma IndexBeyondFeatureSize(s: FMState, l: Line, parse: NumberParser)
    requires l.Coefficient? || (l.Embedding? && l.texts.Some?)
    requires l.index.Success? && l.index.value >= s.featureSize
    ensures Apply(s, l, parse) == Parsed(Failure(InputMismatch), s)
  {
  }

  /** Once k is set no line changes it. */
  lemma WidthFixed(s: FMState, l: Line, parse: NumberParser)
    requires s.k != 0
    ensures Apply(s, l, parse).state.k == s.k
  {
  }

  /** Once k is set, no sequence of lines changes it. */
  lemma {:induction false} LoadKeepsWidth(s: FMState, lines: seq<string>, parse: NumberParser)
    requires s.k != 0
    ensures LoadLines(s, lines, parse).k == s.k
    decreases |lines|
  {
    if |lines| > 0 {
      var front := lines[..|lines| - 1];
      LoadKeepsWidth(s, front, parse);
      WidthFixed(LoadLines(s, front, parse), Classify(lines[|lines| - 1]), parse);
    }
  }

  /** The first embedding line that reaches the width check sets k to its own width and
      allocates a zero table, whether or not the rest of the line is accepted; only its
      own row can differ from zero afterwards. */
  lemma FirstEmbeddingLine(s: FMState, n: int, texts: seq<string>, parse: NumberParser)
    requires s.k == 0 && n < s.featureSize
    ensures Apply(s, Embedding(Success(n), Some(texts)), parse).state.k == |texts|
    ensures Apply(s, Embedding(Success(n), Some(texts)), parse).state.embeddings.Some?
    ensures forall j :: 0 <= j < s.featureSize && j != n ==>
              Apply(s, Embedding(Success(n), Some(texts)), parse).state.embeddings.value[j] == Zeros(|texts|)
  {
  }

  /** checkEmbeddingSize: once k is set, an embedding line of another width is refused
      and the model is left as it was. */
  lemma WidthMismatch(s: FMState, n: int, texts: seq<string>, parse: NumberParser)
    requires s.k != 0 && n < s.featureSize && |texts| != s.k
    ensures Apply(s, Embedding(Success(n), Some(texts)), parse) == Parsed(Failure(InputMismatch), s)
  {
  }

  /** A line that raises leaves every field as it was, except that it may be the first
      embedding line, which keeps the k and the zero table it allocated. */
  lemma FailedLine(s: FMState, l: Line, parse: NumberParser)
    requires Apply(s, l, parse).status.Failure?
    ensures Apply(s, l, parse).state.(k := s.k, embeddings := s.embeddings) == s
    ensures Apply(s, l, parse).state.embeddings != s.embeddings ==>
              s.k == 0 &&
              Apply(s, l, parse).state.embeddings == Some(ZeroTable(s.featureSize, Apply(s, l, parse).state.k))
  {
  }

  // Scoring

  /** The coefficients and embedding rows of the features a prediction names, in order. */
  datatype Gathered = Gathered(coefficients: seq<real>, rows: seq<seq<real>>)

  /** One step of the gathering loop: the coefficient lookup is bounds-checked first, then
      the embedding table is dereferenced. */
  function GatherOne(s: FMState, g: Gathered, key: int): (r: Result<Gathered>)
    ensures r.Success? ==>
              |r.value.coefficients| == |g.coefficients| + 1 && |r.value.rows| == |g.rows| + 1
  {
    if !(0 <= key < |s.coefficients|) then Failure(IndexOutOfBounds)
    else if s.embeddings.None? then Failure(NullPointer)
    else if !(0 <= key < |s.embeddings.value|) then Failure(IndexOutOfBounds)
    else Success(Gathered(g.coefficients + [s.coefficients[key]], g.rows + [s.embeddings.value[key]]))
  }

  /** The gathering loop of both predict methods over the features `index`; the first
      feature that fails ends it. */
  function Gather(s: FMState, index: seq<int>): (r: Result<Gathered>)
    ensures r.Success? ==> |r.value.coefficients| == |index| && |r.value.rows| == |index|
    decreases |index|
  {
    if |index| == 0 then Success(Gathered([], []))
    else match Gather(s, index[..|index| - 1])
      case Failure(e) => Failure(e)
      case Success(g) => GatherOne(s, g, index[|index| - 1])
  }

  /** A feature the model can look up: it has a coefficient and an embedding row. */
  predicate Known(s: FMState, key: int) {
    0 <= key < |s.coefficients| && s.embeddings.Some? && key < |s.embeddings.value|
  }

  /** The coefficients of the listed features, looked up directly. */
  function CoefficientsOf(s: FMState, index: seq<int>): (r: seq<real>)
    requires forall i :: 0 <= i < |index| ==> Known(s, index[i])
    ensures |r| == |index|
  {
    seq(|index|, i requires 0 <= i < |index| && Known(s, index[i]) => s.coefficients[index[i]])
  }

  /** The embedding rows of the listed features, looked up directly. */
  function RowsOf(s: FMState, index: seq<int>): (r: seq<seq<real>>)
    requires forall i :: 0 <= i < |index| ==> Known(s, index[i])
    ensures |r| == |index|
  {
    seq(|index|, i requires 0 <= i < |index| && Known(s, index[i]) => s.embeddings.value[index[i]])
  }

  /** Gathering succeeds exactly when every feature is known, and then collects feature
      i's coefficient and embedding row at position i. */
  lemma {:induction false} GatherMeaning(s: FMState, index: seq<int>)
    ensures Gather(s, index).Success? <==> forall i :: 0 <= i < |index| ==> Known(s, index[i])
    ensures Gather(s, index).Success? ==>
              Gather(s, index).value == Gathered(CoefficientsOf(s, index), RowsOf(s, index))
    decreases |index|
  {
    if |index| > 0 {
      var n := |index|;
      var front := index[..n - 1];
      GatherMeaning(s, front);
      assert forall i :: 0 <= i < n - 1 ==> front[i] == index[i];
      if Gather(s, index).Success? {
        assert CoefficientsOf(s, index) == CoefficientsOf(s, front) + [s.coefficients[index[n - 1]]];
        assert RowsOf(s, index) == RowsOf(s, front) + [s.embeddings.value[index[n - 1]]];
      }
    }
  }

  /** Once a prefix of the features fails, gathering all of them fails the same way. */
  lemma {:induction false} GatherPrefixFails(s: FMState, index: seq<int>, m: nat)
    requires m <= |index| && Gather(s, index[..m]).Failure?
    ensures Gather(s, index) == Gather(s, index[..m])
    decreases |index|
  {
    if m < |index| {
      var n := |index|;
      assert index[..n - 1][..m] == index[..m];
      GatherPrefixFails(s, index[..n - 1], m);
    } else {
      assert index[..m] == index;
    }
  }

  /** Gathering only ever fails on an index out of range or a missing table. */
  lemma {:induction false} GatherErrors(s: FMState, index: seq<int>)
    ensures Gather(s, index).Failure? ==>
              Gather(s, index).error == IndexOutOfBounds || Gather(s, index).error == NullPointer
    decreases |index|
  {
    if |index| > 0 {
      GatherErrors(s, index[..|index| - 1]);
    }
  }

  /** The logit of the gathered features: Array2DRowRealMatrix refuses a table without
      rows or columns, otherwise it is bias + first order + second order. */
  function ScoreOf(s: FMState, values: seq<real>, g: Gathered): Result<real>
    requires |values| == |g.coefficients| == |g.rows|
  {
    if |g.rows| == 0 || |g.rows[0]| == 0 then Failure(NoData)
    else Success(s.bias + Dot(values, g.coefficients) + SecondOrder(values, g.rows, s.k))
  }

  /** The logit predict computes for the features `index` with values `values`. */
  function Score(s: FMState, index: seq<int>, values: seq<real>): Result<real>
    requires |index| == |values|
  {
    match Gather(s, index)
    case Failure(e) => Failure(e)
    case Success(g) => ScoreOf(s, values, g)
  }

  /** The probability predict returns for a logit. */
  function Logistic(z: Result<real>): Result<Probability> {
    match z
    case Failure(e) => Failure(e)
    case Success(x) => Success(Sigmoid(x))
  }

  /** A prediction succeeds exactly when it names at least one feature, the model has
      embeddings of nonzero width, and every named feature is known to the model. */
  lemma ScoreSucceeds(s: FMState, index: seq<int>, values: seq<real>)
    requires Consistent(s) && |index| == |values|
    ensures Score(s, index, values).Success? <==>
              |index| > 0 && s.k > 0 && forall key :: key in index ==> Known(s, key)
  {
    GatherMeaning(s, index);
    assert (forall key :: key in index ==> Known(s, key)) <==>
           (forall i :: 0 <= i < |index| ==> Known(s, index[i]));
  }

  /** Otherwise the failure is the first one the loops meet: an unknown feature is out of
      range or finds no table, and an empty prediction has no rows. */
  lemma ScoreErrors(s: FMState, index: seq<int>, values: seq<real>)
    requires |index| == |values| && Score(s, index, values).Failure?
    ensures Score(s, index, values).error in {IndexOutOfBounds, NullPointer, NoData}
    ensures |index| == 0 ==> Score(s, index, values).error == NoData
  {
    GatherErrors(s, index);
  }

  /** A successful score is the factorisation-machine formula: the bias, plus each
      feature's value times its coefficient, plus for every pair of features i < j their
      values times the inner product of their embedding rows. */
  lemma ScoreIsFactorisationMachine(s: FMState, index: seq<int>, values: seq<real>)
    requires |index| == |values| && Score(s, index, values).Success?
    ensures forall i :: 0 <= i < |index| ==> Known(s, index[i])
    ensures Score(s, index, values).value ==
              s.bias + Dot(values, CoefficientsOf(s, index)) + Pairwise(values, RowsOf(s, index), s.k)
  {
    GatherMeaning(s, index);
    SecondOrderIsPairwise(values, RowsOf(s, index), s.k);
  }

  // Scoring a map: the features are its keys, visited in the map's iteration order

  /** `keys` lists the keys of `data`, each once, in some order. */
  ghost predicate Enumerates(keys: seq<int>, data: map<int, real>) {
    Distinct(keys) &&
    (forall i :: 0 <= i < |keys| ==> keys[i] in data) &&
    (forall key :: key in data ==> key in keys)
  }

  /** The value of each listed key. */
  function Values(data: map<int, real>, keys: seq<int>): (r: seq<real>)
    requires forall i :: 0 <= i < |keys| ==> keys[i] in data
    ensures |r| == |keys| && forall i :: 0 <= i < |keys| ==> r[i] == data[keys[i]]
  {
    seq(|keys|, i requires 0 <= i < |keys| => data[keys[i]])
  }

  function DataAt(data: map<int, real>, key: int): real {
    if key in data then data[key] else 0.0
  }

  function CoefficientAt(s: FMState, key: int): real {
    if 0 <= key < |s.coefficients| then s.coefficients[key] else 0.0
  }

  function EmbeddingAt(s: FMState, key: int, f: nat): real {
    if s.embeddings.Some? && 0 <= key < |s.embeddings.value| then At(s.embeddings.value[key], f) else 0.0
  }

  /** key ↦ x_key · w_key. */
  function FirstOrderTerms(s: FMState, data: map<int, real>): int -> real {
    (key: int) => DataAt(data, key) * CoefficientAt(s, key)
  }

  /** key ↦ x_key · v_key,f. */
  function WeightedTerms(s: FMState, data: map<int, real>, f: nat): int -> real {
    (key: int) => DataAt(data, key) * EmbeddingAt(s, key, f)
  }

  /** key ↦ x_key² · v_key,f². */
  function SquaredTerms(s: FMState, data: map<int, real>, f: nat): int -> real {
    (key: int) => DataAt(data, key) * DataAt(data, key) * EmbeddingAt(s, key, f) * EmbeddingAt(s, key, f)
  }

  /** f ↦ the factor term of f, summed over `keys`. */
  function KeyFactorTerms(s: FMState, data: map<int, real>, keys: seq<int>): nat -> real {
    (f: nat) => SumOver(keys, WeightedTerms(s, data, f)) * SumOver(keys, WeightedTerms(s, data, f))
                - SumOver(keys, SquaredTerms(s, data, f))
  }

  /** Every key has a value and is known to the model. */
  ghost predicate Scorable(s: FMState, data: map<int, real>, keys: seq<int>) {
    forall i :: 0 <= i < |keys| ==> keys[i] in data && Known(s, keys[i])
  }

  /** The first order of a map, as a sum over its keys. */
  lemma FirstOrderOverKeys(s: FMState, data: map<int, real>, keys: seq<int>)
    requires Scorable(s, data, keys)
    ensures Dot(Values(data, keys), CoefficientsOf(s, keys)) == SumOver(keys, FirstOrderTerms(s, data))
  {
    var x, c := Values(data, keys), CoefficientsOf(s, keys);
    forall i: nat | i < |keys|
      ensures Products(x, c)(i) == FirstOrderTerms(s, data)(keys[i])
    {
    }
    SumAsSumOver(|keys|, Products(x, c), keys, FirstOrderTerms(s, data));
  }

  /** Σ_i x_i v_if of a map, as a sum over its keys. */
  lemma DotOverKeys(s: FMState, data: map<int, real>, keys: seq<int>, f: nat)
    requires Scorable(s, data, keys)
    ensures Dot(Values(data, keys), ColumnOf(RowsOf(s, keys), f)) == SumOver(keys, WeightedTerms(s, data, f))
  {
    var x, c := Values(data, keys), ColumnOf(RowsOf(s, keys), f);
    forall i: nat | i < |keys|
      ensures Products(x, c)(i) == WeightedTerms(s, data, f)(keys[i])
    {
      assert c[i] == EmbeddingAt(s, keys[i], f);
    }
    SumAsSumOver(|keys|, Products(x, c), keys, WeightedTerms(s, data, f));
  }

  /** Σ_i x_i² v_if² of a map, as a sum over its keys. */
  lemma SquareSumOverKeys(s: FMState, data: map<int, real>, keys: seq<int>, f: nat)
    requires Scorable(s, data, keys)
    ensures SquareSum(Values(data, keys), ColumnOf(RowsOf(s, keys), f)) == SumOver(keys, SquaredTerms(s, data, f))
  {
    var x, c := Values(data, keys), ColumnOf(RowsOf(s, keys), f);
    forall i: nat | i < |keys|
      ensures SquareTerms(x, c)(i) == SquaredTerms(s, data, f)(keys[i])
    {
      assert c[i] == EmbeddingAt(s, keys[i], f);
    }
    SumAsSumOver(|keys|, SquareTerms(x, c), keys, SquaredTerms(s, data, f));
  }

  /** One factor term of a map, as sums over its keys. */
  lemma FactorTermOverKeys(s: FMState, data: map<int, real>, keys: seq<int>, f: nat)
    requires Scorable(s, data, keys)
    ensures FactorTerm(Values(data, keys), RowsOf(s, keys), f) == KeyFactorTerms(s, data, keys)(f)
  {
    DotOverKeys(s, data, keys, f);
    SquareSumOverKeys(s, data, keys, f);
  }

  /** The score of a map, written as sums over its keys. */
  lemma ScoreOverKeys(s: FMState, data: map<int, real>, keys: seq<int>)
    requires Enumerates(keys, data) && Score(s, keys, Values(data, keys)).Success?
    ensures Score(s, keys, Values(data, keys)).value ==
              s.bias + SumOver(keys, FirstOrderTerms(s, data)) + 0.5 * Sum(s.k, KeyFactorTerms(s, data, keys))
  {
    var x := Values(data, keys);
    GatherMeaning(s, keys);
    var rows := RowsOf(s, keys);
    FirstOrderOverKeys(s, data, keys);
    forall f: nat | f < s.k
      ensures FactorTerms(x, rows)(f) == KeyFactorTerms(s, data, keys)(f)
    {
      FactorTermOverKeys(s, data, keys, f);
    }
    SumExt(s.k, FactorTerms(x, rows), KeyFactorTerms(s, data, keys));
  }

  /** Two enumerations of the same map list the same keys, as many times each. */
  lemma SameKeys(data: map<int, real>, keys1: seq<int>, keys2: seq<int>)
    requires Enumerates(keys1, data) && Enumerates(keys2, data)
    ensures multiset(keys1) == multiset(keys2) && |keys1| == |keys2|
    ensures forall key :: key in keys1 <==> key in keys2
  {
    forall key
      ensures key in keys1 <==> key in keys2
    {
      if key in keys1 {
        var i :| 0 <= i < |keys1| && keys1[i] == key;
      }
      if key in keys2 {
        var i :| 0 <= i < |keys2| && keys2[i] == key;
      }
    }
    SameMembers(keys1, keys2);
    assert |keys1| == |multiset(keys1)| == |multiset(keys2)| == |keys2|;
  }

  /** The factor terms of a map do not depend on the order of its keys. */
  lemma FactorTermsPermuted(s: FMState, data: map<int, real>, keys1: seq<int>, keys2: seq<int>)
    requires multiset(keys1) == multiset(keys2)
    ensures Sum(s.k, KeyFactorTerms(s, data, keys1)) == Sum(s.k, KeyFactorTerms(s, data, keys2))
  {
    forall f: nat | f < s.k
      ensures KeyFactorTerms(s, data, keys1)(f) == KeyFactorTerms(s, data, keys2)(f)
    {
      SumOverPermutation(keys1, keys2, WeightedTerms(s, data, f));
      SumOverPermutation(keys1, keys2, SquaredTerms(s, data, f));
    }
    SumExt(s.k, KeyFactorTerms(s, data, keys1), KeyFactorTerms(s, data, keys2));
  }

  /** predict(Map) does not depend on the order the map hands out its keys: any two
      orders give the same outcome. */
  lemma ScoreOrderIndependent(s: FMState, data: map<int, real>, keys1: seq<int>, keys2: seq<int>)
    requires Consistent(s) && Enumerates(keys1, data) && Enumerates(keys2, data)
    ensures Score(s, keys1, Values(data, keys1)).Success? <==> Score(s, keys2, Values(data, keys2)).Success?
    ensures Score(s, keys1, Values(data, keys1)).Success? ==>
              Score(s, keys1, Values(data, keys1)).value == Score(s, keys2, Values(data, keys2)).value
  {
    SameKeys(data, keys1, keys2);
    ScoreSucceeds(s, keys1, Values(data, keys1));
    ScoreSucceeds(s, keys2, Values(data, keys2));
    if Score(s, keys1, Values(data, keys1)).Success? {
      ScoreOverKeys(s, data, keys1);
      ScoreOverKeys(s, data, keys2);
      SumOverPermutation(keys1, keys2, FirstOrderTerms(s, data));
      FactorTermsPermuted(s, data, keys1, keys2);
    }
  }

  /** Gathered rows of a consistent model are k wide. */
  lemma GatheredRowsWidth(s: FMState, index: seq<int>)
    requires Consistent(s) && Gather(s, index).Success?
    ensures RowsOfWidth(Gather(s, index).value.rows, s.k)
  {
    GatherMeaning(s, index);
  }

  // The model object

  /** The embedding loop of parseRow: every text of a `v_` line parsed into a fresh
      array, stopping at the first one Double.valueOf refuses. */
  method ParseValues(texts: seq<string>, parse: NumberParser) returns (r: Option<seq<real>>)
    ensures r == ParseAll(texts, parse)
  {
    var emb := new real[|texts|];
    var i := 0;
    while i < |texts|
      invariant 0 <= i <= |texts|
      invariant forall j :: 0 <= j < i ==> parse(texts[j]).Some? && emb[j] == parse(texts[j]).value
    {
      var v := parse(texts[i]);
      if v.None? {
        return None;
      }
      emb[i] := v.value;
      i := i + 1;
    }
    assert emb[..] == ParseAll(texts, parse).value;
    return Some(emb[..]);
  }

  /** An FMModel object. Rows of the embedding table are values: a row is only ever
      replaced whole, never written entry by entry. */
  class FMModel {
    var featureSize: nat
    var k: nat
    var bias: real
    var coefficients: array<real>
    var embeddings: array?<seq<real>>
    var dt: Option<string>

    /** One coefficient per feature; no table while k is 0; once there is one, a row per
        feature, each k wide. */
    ghost predicate Valid()
      reads this, embeddings
    {
      coefficients.Length == featureSize &&
      (embeddings == null ==> k == 0) &&
      (embeddings != null ==>
         embeddings.Length == featureSize && forall i :: 0 <= i < embeddings.Length ==> |embeddings[i]| == k)
    }

    /** The fields as a value. */
    ghost function State(): (s: FMState)
      reads this, coefficients, embeddings
      requires Valid()
      ensures Consistent(s)
    {
      FMState(featureSize, k, bias, coefficients[..],
              if embeddings == null then None else Some(embeddings[..]), dt)
    }

    /** `new FMModel(featureSize)`: k 0, bias 0, zero coefficients, no table, no dt. */
    constructor (featureSize: nat)
      ensures Valid() && State() == Initial(featureSize)
      ensures fresh(coefficients) && embeddings == null
    {
      this.featureSize := featureSize;
      k := 0;
      bias := 0.0;
      coefficients := new real[featureSize](_ => 0.0);
      embeddings := null;
      dt := None;
      new;
      assert coefficients[..] == Zeros(featureSize);
    }

    /** parseRow: reads one line into the model and answers 0, -1 or -2, or the
        exception it raised. */
    method ParseRow(line: string, parse: NumberParser) returns (status: Result<int>)
      requires Valid()
      modifies this, coefficients, embeddings
      ensures Valid() && Parsed(status, State()) == ParseLine(old(State()), line, parse)
      ensures coefficients == old(coefficients)
      ensures embeddings != old(embeddings) ==> fresh(embeddings)
    {
      status := ApplyLine(Classify(line), parse);
    }

    /** What parseRow does with a line of each kind. */
    method ApplyLine(l: Line, parse: NumberParser) returns (status: Result<int>)
      requires Valid()
      modifies this, coefficients, embeddings
      ensures Valid() && Parsed(status, State()) == Apply(old(State()), l, parse)
      ensures coefficients == old(coefficients)
      ensures embeddings != old(embeddings) ==> fresh(embeddings)
    {
      match l
      case Blank =>
        status := Success(-1);
      case NoKey =>
        status := Failure(IndexOutOfBounds);
      case Dt(text) =>
        if text.None? {
          status := Failure(IndexOutOfBounds);
        } else {
          dt := text;
          status := Success(0);
        }
      case Bias(text) =>
        if text.None? {
          status := Failure(IndexOutOfBounds);
        } else {
          var b := parse(text.value);
          if b.None? {
            status := Failure(NumberFormat);
          } else {
            bias := b.value;
            status := Success(0);
          }
        }
      case Coefficient(index, text) =>
        status := ReadCoefficient(index, text, parse);
      case Embedding(index, texts) =>
        status := ReadEmbedding(index, texts, parse);
      case Unknown =>
        status := Success(-2);
    }

    /** The `i_` branch of parseRow. */
    method ReadCoefficient(index: Result<int>, text: Option<string>, parse: NumberParser)
      returns (status: Result<int>)
      requires Valid()
      modifies coefficients
      ensures Valid() && Parsed(status, State()) == SetCoefficient(old(State()), index, text, parse)
    {
      match index
      case Failure(e) =>
        status := Failure(e);
      case Success(n) =>
        if n >= featureSize {
          status := Failure(InputMismatch);  // checkFeautreSize
        } else if text.None? {
          status := Failure(IndexOutOfBounds);
        } else {
          var c := parse(text.value);
          if c.None? {
            status := Failure(NumberFormat);
          } else if !(0 <= n < coefficients.Length) {
            status := Failure(IndexOutOfBounds);
          } else {
            coefficients[n] := c.value;
            status := Success(0);
          }
        }
    }

    /** The `v_` branch of parseRow. */
    method ReadEmbedding(index: Result<int>, texts: Option<seq<string>>, parse: NumberParser)
      returns (status: Result<int>)
      requires Valid()
      modifies this, embeddings
      ensures Valid() && Parsed(status, State()) == SetEmbedding(old(State()), index, texts, parse)
      ensures coefficients == old(coefficients)
      ensures embeddings != old(embeddings) ==> fresh(embeddings)
    {
      match index
      case Failure(e) =>
        status := Failure(e);
      case Success(n) =>
        if texts.None? {
          status := Failure(IndexOutOfBounds);
        } else if n >= featureSize {
          status := Failure(InputMismatch);  // checkFeautreSize
        } else {
          var embs := texts.value;
          ghost var widened := Allocate(State(), |embs|);
          if k == 0 {
            k := |embs|;
            embeddings := new seq<real>[featureSize](_ => Zeros(|embs|));
            assert embeddings[..] == ZeroTable(featureSize, |embs|);
          }
          assert State() == widened;
          if |embs| != k {
            status := Failure(InputMismatch);  // checkEmbeddingSize
          } else {
            var emb := ParseValues(embs, parse);
            if emb.None? {
              status := Failure(NumberFormat);
            } else if embeddings == null {
              status := Failure(NullPointer);
            } else if !(0 <= n < embeddings.Length) {
              status := Failure(IndexOutOfBounds);
            } else {
              embeddings[n] := emb.value;
              status := Success(0);
            }
          }
        }
    }

    /** The loop of createByList and create: every line in order, a line that raises
        skipped. */
    method ParseRows(lines: seq<string>, parse: NumberParser)
      requires Valid()
      modifies this, coefficients, embeddings
      ensures Valid() && State() == LoadLines(old(State()), lines, parse)
      ensures coefficients == old(coefficients)
      ensures embeddings != old(embeddings) ==> fresh(embeddings)
    {
      var i := 0;
      while i < |lines|
        invariant 0 <= i <= |lines|
        invariant Valid() && State() == LoadLines(old(State()), lines[..i], parse)
        invariant coefficients == old(coefficients)
        invariant embeddings != old(embeddings) ==> fresh(embeddings)
      {
        var _ := ParseRow(lines[i], parse);
        assert lines[..i + 1][..i] == lines[..i];
        i := i + 1;
      }
      assert lines[..|lines|] == lines;
    }

    /** The gathering loop of both predict methods: the coefficient and the embedding
        row of every listed feature, into fresh arrays. */
    method Collect(index: seq<int>) returns (r: Result<Gathered>)
      requires Valid()
      ensures r == Gather(State(), index)
    {
      ghost var s := State();
      var coefs := new real[|index|];
      var width := k;
      var rows := new seq<real>[|index|](_ => Zeros(width));
      var i := 0;
      while i < |index|
        invariant 0 <= i <= |index|
        invariant Gather(s, index[..i]) == Success(Gathered(coefs[..i], rows[..i]))
        invariant Valid() && State() == s
      {
        assert index[..i + 1][..i] == index[..i];
        var key := index[i];
        if !(0 <= key < coefficients.Length) {
          GatherPrefixFails(s, index, i + 1);
          return Failure(IndexOutOfBounds);
        }
        coefs[i] := coefficients[key];
        if embeddings == null {
          GatherPrefixFails(s, index, i + 1);
          return Failure(NullPointer);
        }
        rows[i] := embeddings[key];  // in range: the table has a row per feature
        assert coefs[..i + 1] == coefs[..i] + [coefficients[key]];
        assert rows[..i + 1] == rows[..i] + [embeddings[key]];
        i := i + 1;
      }
      assert index[..|index|] == index;
      assert coefs[..] == coefs[..|index|] && rows[..] == rows[..|index|];
      return Success(Gathered(coefs[..], rows[..]));
    }

    /** calcSecondOrder: for each of the k factors, the square of Σ_i x_i v_if less
        Σ_i x_i² v_if², all halved. Array2DRowRealMatrix refuses a table without rows or
        columns. */
    method CalcSecondOrder(x: seq<real>, rows: seq<seq<real>>) returns (r: Result<real>)
      requires |x| == |rows| && RowsOfWidth(rows, k)
      ensures |rows| == 0 || k == 0 ==> r == Failure(NoData)
      ensures |rows| > 0 && k > 0 ==> r == Success(SecondOrder(x, rows, k))
    {
      if |rows| == 0 || |rows[0]| == 0 {
        return Failure(NoData);
      }
      var secondOrder := 0.0;
      var f := 0;
      while f < k
        invariant 0 <= f <= k
        invariant secondOrder == Sum(f, FactorTerms(x, rows))
      {
        var vif := ColumnOf(rows, f);
        var dot := Dot(x, vif);
        var sumSquare := dot * dot;
        var squareSum := 0.0;
        var i := 0;
        while i < |x|
          invariant 0 <= i <= |x|
          invariant squareSum == Sum(i, SquareTerms(x, vif))
        {
          squareSum := squareSum + x[i] * x[i] * vif[i] * vif[i];
          i := i + 1;
        }
        secondOrder := secondOrder + (sumSquare - squareSum);
        f := f + 1;
      }
      return Success(0.5 * secondOrder);
    }

    /** The last line of both predict methods: the logistic function of bias + first
        order + second order of the gathered features. */
    method ScoreGathered(x: seq<real>, g: Gathered) returns (r: Result<Probability>)
      requires Valid() && |x| == |g.coefficients| == |g.rows| && RowsOfWidth(g.rows, k)
      ensures r == Logistic(ScoreOf(State(), x, g))
    {
      var firstOrder := Dot(x, g.coefficients);  // calcFirstOrder
      var secondOrder := CalcSecondOrder(x, g.rows);
      match secondOrder
      case Failure(e) =>
        return Failure(e);
      case Success(second) =>
        return Success(Sigmoid(bias + firstOrder + second));
    }

    /** predict(int[], double[]): refused when the two arrays differ in length. */
    method PredictIndexed(featIndex: seq<int>, featValue: seq<real>) returns (r: Result<Probability>)
      requires Valid()
      ensures |featIndex| != |featValue| ==> r == Failure(InputLengthMismatch)
      ensures |featIndex| == |featValue| ==> r == Logistic(Score(State(), featIndex, featValue))
    {
      if |featIndex| != |featValue| {
        return Failure(InputLengthMismatch);
      }
      var g := Collect(featIndex);
      match g
      case Failure(e) =>
        return Failure(e);
      case Success(gathered) =>
        GatheredRowsWidth(State(), featIndex);
        r := ScoreGathered(featValue, gathered);
    }

    /** predict(Map): the features are the map's keys, visited in the order `keys`
        lists them (the map's iteration order), each with its value. */
    method PredictMap(data: map<int, real>, keys: seq<int>) returns (r: Result<Probability>)
      requires Valid() && Enumerates(keys, data)
      ensures r == Logistic(Score(State(), keys, Values(data, keys)))
    {
      var g := Collect(keys);
      var featValue := Values(data, keys);
      match g
      case Failure(e) =>
        return Failure(e);
      case Success(gathered) =>
        GatheredRowsWidth(State(), keys);
        r := ScoreGathered(featValue, gathered);
    }
  }

  /** createByList: null for an empty list or one without more lines than features;
      otherwise a new model with every line read, or NegativeArraySizeException for a
      negative feature count. */
  method CreateByList(rows: seq<string>, featureSize: int, parse: NumberParser) returns (r: Created<FMModel>)
    ensures r.Null? <==> |rows| == 0 || |rows| <= featureSize
    ensures r.Threw? <==> |rows| > 0 && featureSize < 0
    ensures r.Threw? ==> r.error == NegativeArraySize
    ensures r.Built? ==>
              fresh(r.model) && r.model.Valid() && r.model.State() == LoadLines(Initial(featureSize), rows, parse)
  {
    if |rows| == 0 || |rows| <= featureSize {
      return Null;
    }
    if featureSize < 0 {
      return Threw(NegativeArraySize);
    }
    var model := new FMModel(featureSize);
    model.ParseRows(rows, parse);
    return Built(model);
  }

  /** createByText: a new model with every line of the text read, or
      NegativeArraySizeException for a negative feature count. */
  method CreateByText(lines: seq<string>, featureSize: int, parse: NumberParser) returns (r: Created<FMModel>)
    ensures r.Threw? <==> featureSize < 0
    ensures r.Threw? ==> r.error == NegativeArraySize
    ensures !r.Threw? ==> r.Built? && fresh(r.model)
    ensures r.Built? ==> r.model.Valid() && r.model.State() == LoadLines(Initial(featureSize), lines, parse)
  {
    if featureSize < 0 {
      return Threw(NegativeArraySize);
    }
    var model := new FMModel(featureSize);
    model.ParseRows(lines, parse);
    return Built(model);
  }
}
