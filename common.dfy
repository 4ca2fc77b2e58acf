/** Types shared by the three model loaders: optional values, results carrying the
    kind of Java exception the source would raise, the outcome of a factory that may
    also return null, and the symbolic logistic output. */
module Common {

  datatype Option<+T> = None | Some(value: T)

  /** The kinds of exception the loaders and scorers can raise. */
  datatype Exception =
    | NullPointer          // a missing element, attribute or field was dereferenced
    | NumberFormat         // Integer.valueOf / Double.valueOf refused its text
    | IndexOutOfBounds     // an array index outside the array
    | NoSuchElement        // an iterator over an empty set was asked for its first value
    | InputMismatch        // the FM loader's feature-size or embedding-size guard
    | NegativeArraySize    // an array allocated with a negative length
    | DimensionMismatch    // two vectors of different length in a dot product
    | InputLengthMismatch  // FM predict: index and value arrays of different length
    | NoData               // a matrix built from no rows or no columns

  datatype Result<+T> = Success(value: T) | Failure(error: Exception)

  /** What a factory method hands back: a model, null, or a thrown exception. */
  datatype Created<+T> = Null | Built(model: T) | Threw(error: Exception)

  /** The value 1 / (1 + exp(-logit)), kept symbolic: every scorer ends by applying the
      logistic function to one real number, and only that number is reasoned about. */
  datatype Probability = Sigmoid(logit: real)

  /** A partial text-to-number conversion, standing for Double.valueOf. */
  type NumberParser = string -> Option<real>

  /** Parses every text in order with `parse`; None as soon as one of them is refused
      (the first NumberFormatException ends the loop that calls Double.valueOf). */
  function ParseAll(texts: seq<string>, parse: NumberParser): (r: Option<seq<real>>)
    ensures r.Some? <==> forall i :: 0 <= i < |texts| ==> parse(texts[i]).Some?
    ensures r.Some? ==> |r.value| == |texts|
    ensures r.Some? ==> forall i :: 0 <= i < |texts| ==> r.value[i] == parse(texts[i]).value
  {
    if |texts| == 0 then Some([])
    else match (parse(texts[0]), ParseAll(texts[1..], parse))
      case (Some(x), Some(rest)) => Some([x] + rest)
      case _ => None
  }

  /** Applies `f` to every element in order; the first failure is the result (the loops
      that build one object per element stop at the first exception). */
  function MapResult<A, B>(xs: seq<A>, f: A -> Result<B>): Result<seq<B>>
    decreases |xs|
  {
    if |xs| == 0 then Success([])
    else
      match f(xs[0])
      case Failure(err) => Failure(err)
      case Success(y) =>
        match MapResult(xs[1..], f)
        case Failure(err) => Failure(err)
        case Success(ys) => Success([y] + ys)
  }

  /** The mapping succeeds exactly when `f` succeeds on every element. */
  lemma {:induction false} MapResultSucceeds<A, B>(xs: seq<A>, f: A -> Result<B>)
    ensures MapResult(xs, f).Success? <==> forall i :: 0 <= i < |xs| ==> f(xs[i]).Success?
    decreases |xs|
  {
    if |xs| > 0 {
      MapResultSucceeds(xs[1..], f);
      assert forall i :: 1 <= i < |xs| ==> xs[1..][i - 1] == xs[i];
    }
  }

  /** When every element maps, the result holds one value per element, in order. */
  lemma {:induction false} MapResultValues<A, B>(xs: seq<A>, f: A -> Result<B>)
    requires forall i :: 0 <= i < |xs| ==> f(xs[i]).Success?
    ensures MapResult(xs, f).Success? && |MapResult(xs, f).value| == |xs|
    ensures forall i :: 0 <= i < |xs| ==> MapResult(xs, f).value[i] == f(xs[i]).value
    decreases |xs|
  {
    if |xs| > 0 {
      var rest := xs[1..];
      assert forall i :: 0 <= i < |rest| ==> rest[i] == xs[i + 1];
      MapResultValues(rest, f);
      var ys := MapResult(rest, f).value;
      var all := MapResult(xs, f).value;
      assert all == [f(xs[0]).value] + ys;
      forall i | 1 <= i < |xs|
        ensures all[i] == f(xs[i]).value
      {
        assert all[i] == ys[i - 1];
        assert rest[i - 1] == xs[i];
      }
    }
  }

  /** `new double[n]`: n zeros. */
  function Zeros(n: nat): (r: seq<real>)
    ensures |r| == n && forall i :: 0 <= i < n ==> r[i] == 0.0
  {
    seq(n, _ => 0.0)
  }

  const INT_MIN: int := -0x8000_0000
  const INT_MAX: int := 0x7fff_ffff
}
