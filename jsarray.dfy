/**
 * The number arithmetic behind `Array.prototype.slice` when its bounds come from
 * command-line text: `Number(text)`, the truncation `slice` applies to it
 * (ToIntegerOrInfinity), and the clamping of a relative index.
 */
module JsArray {
  import opened Text

  /** An integer or one of the two infinities: what ToIntegerOrInfinity returns. */
  datatype ExtInt = Fin(n: int) | PosInf | NegInf

  /** The result of `Number(text)`: NaN, or a number whose integer part (truncated toward zero) is kept. */
  datatype JsNumber = NaN | Numeric(whole: ExtInt)

  function Negate(x: ExtInt): ExtInt
  {
    match x
    case Fin(n) => Fin(-n)
    case PosInf => NegInf
    case NegInf => PosInf
  }

  /** Digits with at most one `.` and at least one digit: `12`, `12.`, `12.5`, `.5`. */
  predicate IsUnsignedDecimal(u: string)
  {
    var parts := Split(u, '.');
    (|parts| == 1 && |parts[0]| > 0 && AllDigits(parts[0]))
    || (|parts| == 2 && AllDigits(parts[0]) && AllDigits(parts[1]) && |parts[0]| + |parts[1]| > 0)
  }

  /** The unsigned part of a numeric text, after an optional leading `+` or `-`. */
  function Unsigned(t: string): string
  {
    if |t| > 0 && (t[0] == '-' || t[0] == '+') then t[1..] else t
  }

  /**
   * `Number(s)` for decimal text: white space around it is ignored, white space
   * alone is 0, an optional sign, then `Infinity` or decimal digits with an optional
   * fraction. Any other text is NaN.
   */
  function NumberOf(s: string): (r: JsNumber)
    ensures Trim(s) == [] ==> r == Numeric(Fin(0))
    ensures r.NaN? <==> Trim(s) != [] && Unsigned(Trim(s)) != "Infinity" && !IsUnsignedDecimal(Unsigned(Trim(s)))
    ensures Trim(s) != [] && Unsigned(Trim(s)) != "Infinity" && IsUnsignedDecimal(Unsigned(Trim(s))) ==>
      var m: int := DecimalValue(Split(Unsigned(Trim(s)), '.')[0]);
      r == Numeric(Fin(if Trim(s)[0] == '-' then -m else m))
    ensures Trim(s) != [] && Unsigned(Trim(s)) == "Infinity" ==>
      r == Numeric(if Trim(s)[0] == '-' then NegInf else PosInf)
  {
    var t := Trim(s);
    if t == [] then Numeric(Fin(0))
    else
      var neg := t[0] == '-';
      var u := Unsigned(t);
      if u == "Infinity" then Numeric(if neg then NegInf else PosInf)
      else if IsUnsignedDecimal(u) then
        var m: int := DecimalValue(Split(u, '.')[0]);
        Numeric(Fin(if neg then -m else m))
      else NaN
  }

  /** ToIntegerOrInfinity: NaN counts as 0. */
  function ToIntegerOrInfinity(x: JsNumber): ExtInt
  {
    match x
    case NaN => Fin(0)
    case Numeric(w) => w
  }

  /** A relative index as `slice` resolves it against a length: negative counts from the end; clamped to `0..len`. */
  function RelativeIndex(k: ExtInt, len: nat): (i: nat)
    ensures i <= len
    ensures k.Fin? && 0 <= k.n <= len ==> i == k.n
    ensures k.Fin? && -(len as int) <= k.n < 0 ==> i == len + k.n
  {
    match k
    case PosInf => len
    case NegInf => 0
    case Fin(n) =>
      if n < 0 then (if len + n < 0 then 0 else len + n)
      else if n > len then len else n
  }

  /** `a.slice(start)`: a suffix of `a`. */
  function SliceFrom<T>(a: seq<T>, start: ExtInt): (r: seq<T>)
    ensures |r| <= |a| && r == a[|a| - |r|..]
  {
    a[RelativeIndex(start, |a|)..]
  }

  /** `a.slice(0, end)`: a prefix of `a`. */
  function SliceTo<T>(a: seq<T>, end: ExtInt): (r: seq<T>)
    ensures |r| <= |a| && r == a[..|r|]
  {
    a[..RelativeIndex(end, |a|)]
  }

  function Min(x: nat, y: nat): nat { if x <= y then x else y }

  /** `a.slice(-n)` for a positive `n` keeps the last `n` items (all of them when `a` is shorter). */
  lemma {:induction false} LastN<T>(a: seq<T>, n: int)
    requires n >= 1
    ensures SliceFrom(a, Negate(Fin(n))) == a[|a| - Min(n, |a|)..]
  {
  }

  /** `a.slice(-0)` is `a.slice(0)`: the whole array. */
  lemma {:induction false} SliceFromZero<T>(a: seq<T>)
    ensures SliceFrom(a, Negate(Fin(0))) == a
  {
    assert RelativeIndex(Fin(0), |a|) == 0;
    assert a[0..] == a;
  }

  /** A word is not a number: `Number('abc')` is NaN. */
  lemma {:induction false} NumberOfWord(s: string)
    requires s == "abc"
    ensures NumberOf(s) == NaN
  {
    assert !IsJsSpace(s[0]) && !IsJsSpace(s[|s| - 1]);
    assert LeadingSpace(s) == 0;
    assert s[0..] == s;
    assert TrailingSpace(s) == 0;
    assert s[..|s|] == s;
    assert Trim(s) == s && Unsigned(s) == s;
    assert '.' !in s;
    SplitAfterPiece(s, [], '.');
    assert s + [] == s;
    assert Split(s, '.') == [s];
    assert !AllDigits(s) by {
      assert !IsDigit(s[0]);
    }
  }

  /** A plain run of digits reads as its decimal value: `Number('7') == 7`. */
  lemma {:induction false} NumberOfDigits(s: string)
    requires |s| > 0 && AllDigits(s)
    ensures NumberOf(s) == Numeric(Fin(DecimalValue(s)))
  {
    assert !IsJsSpace(s[0]) && !IsJsSpace(s[|s| - 1]);
    assert LeadingSpace(s) == 0;
    assert s[0..] == s;
    assert TrailingSpace(s) == 0;
    assert s[..|s|] == s;
    assert Trim(s) == s;
    assert Unsigned(s) == s;
    assert '.' !in s;
    SplitAfterPiece(s, [], '.');
    assert s + [] == s;
    assert Split(s, '.') == [s];
  }
}
