/**
 * Loosely typed data as the vision service hands it back: parsed JSON whose
 * fields may be missing or of any type. The consumers coerce field by field
 * with Python's truthiness, `int()`, `float()`, `.strip()` and iteration;
 * those coercions, and the exceptions they raise, are modelled here.
 */
module Values {

  import opened Wrappers
  import opened Strings

  datatype Value =
    | Null
    | Bool(b: bool)
    | Int(i: int)
    | Num(r: real)
    | Str(s: string)
    | List(items: seq<Value>)
    | Dict(entries: Fields)

  /** A JSON object with its keys in insertion order (keys are distinct in a Python dict). */
  type Fields = seq<(string, Value)>

  /** Python truthiness: what `x or default` and `if x` test. */
  predicate Truthy(v: Value) {
    match v
    case Null => false
    case Bool(b) => b
    case Int(i) => i != 0
    case Num(r) => r != 0.0
    case Str(s) => s != []
    case List(xs) => xs != []
    case Dict(es) => es != []
  }

  /** d.get(key) */
  function Get(d: Fields, key: string): (r: Option<Value>)
    ensures r.None? <==> forall k :: 0 <= k < |d| ==> d[k].0 != key
    ensures r.Some? ==> exists k :: 0 <= k < |d| && d[k] == (key, r.value)
  {
    if d == [] then None
    else if d[0].0 == key then Some(d[0].1)
    else Get(d[1..], key)
  }

  /** d.get(key, default): the default only when the key is absent. */
  function GetDefault(d: Fields, key: string, default: Value): Value {
    match Get(d, key)
    case Some(v) => v
    case None => default
  }

  /** d.get(key) or default: the default also replaces a falsy value. */
  function GetOr(d: Fields, key: string, default: Value): (r: Value)
    ensures Get(d, key).Some? && Truthy(Get(d, key).value) ==> r == Get(d, key).value
    ensures Get(d, key).None? || !Truthy(Get(d, key).value) ==> r == default
    ensures Truthy(r) || r == default
  {
    match Get(d, key)
    case Some(v) => if Truthy(v) then v else default
    case None => default
  }

  /** (d.get(key) or "").strip(); a truthy non-string has no .strip(). */
  function TextField(d: Fields, key: string): (r: Result<string>)
    ensures Get(d, key).None? ==> r == Ok([])
    ensures r.Err? <==> Get(d, key).Some? && Truthy(Get(d, key).value) && !Get(d, key).value.Str?
    ensures r.Err? ==> r.error == AttributeError
    ensures Get(d, key).Some? && Get(d, key).value.Str? ==> r == Ok(Strip(Get(d, key).value.s))
    ensures r.Ok? ==> r.value == [] || (!IsSpace(r.value[0]) && !IsSpace(r.value[|r.value| - 1]))
  {
    var v := GetOr(d, key, Str([]));
    var g := Get(d, key);
    assert g.Some? && g.value.Str? ==> v == Str(g.value.s) by {
      if g.Some? && g.value.Str? && !Truthy(g.value) {
        assert g.value == Str([]);
      }
    }
    if v.Str? then Ok(Strip(v.s)) else Err(AttributeError)
  }

  /** The integer value of a non-empty run of ASCII digits. */
  function DigitsValue(ds: string): (n: nat)
    requires AllDigits(ds)
  {
    if ds == [] then 0
    else
      var last := ds[|ds| - 1];
      assert last in ds && IsAsciiDigit(last);
      DigitsValue(ds[..|ds| - 1]) * 10 + (last as int - '0' as int)
  }

  predicate AllDigits(ds: string) {
    forall c :: c in ds ==> IsAsciiDigit(c)
  }

  /** Splits an optional leading sign off. */
  function SplitSign(t: string): (bool, string) {
    if t != [] && (t[0] == '-' || t[0] == '+') then (t[0] == '-', t[1..]) else (false, t)
  }

  /** An optional sign followed by one or more decimal digits. */
  predicate IsIntLiteral(t: string) {
    || (t != [] && AllDigits(t))
    || (|t| >= 2 && (t[0] == '-' || t[0] == '+') && AllDigits(t[1..]))
  }

  /** int(s) for a str: optional surrounding whitespace, an optional sign, decimal digits. */
  function ParseInt(s: string): (r: Option<int>)
    ensures r.Some? <==> IsIntLiteral(Strip(s))
    ensures var t := Strip(s); t != [] && AllDigits(t) ==> r == Some(DigitsValue(t))
    ensures var t := Strip(s); |t| >= 2 && t[0] == '+' && AllDigits(t[1..]) ==> r == Some(DigitsValue(t[1..]))
    ensures var t := Strip(s); |t| >= 2 && t[0] == '-' && AllDigits(t[1..]) ==> r.Some? && r.value == -(DigitsValue(t[1..]) as int)
  {
    var t := Strip(s);
    var (negative, body) := SplitSign(t);
    assert t != [] ==> t[0] in t;
    if body != [] && AllDigits(body) then
      var n: int := DigitsValue(body);
      Some(if negative then -n else n)
    else None
  }

  /** Rounds toward zero, as int() does to a float. */
  function Truncate(r: real): (n: int)
    ensures 0.0 <= r ==> n as real <= r < n as real + 1.0
    ensures r < 0.0 ==> n as real - 1.0 < r <= n as real
    ensures 0.0 <= r ==> 0 <= n
    ensures r <= 0.0 ==> n <= 0
  {
    if r >= 0.0 then r.Floor else -((-r).Floor)
  }

  /** int(v); it raises TypeError or ValueError and nothing else. */
  function ToInt(v: Value): (r: Result<int>)
    ensures r.Err? ==> r.error == TypeError || r.error.ValueError?
    ensures v.Int? ==> r == Ok(v.i)
    ensures v.Bool? ==> r == Ok(if v.b then 1 else 0)
    ensures v.Num? ==> r == Ok(Truncate(v.r))
    ensures v.Str? ==> (r.Ok? <==> ParseInt(v.s).Some?) && (r.Ok? ==> r.value == ParseInt(v.s).value)
    ensures v.Str? && r.Err? ==> r.error.ValueError?
    ensures v.Null? || v.List? || v.Dict? ==> r == Err(TypeError)
  {
    match v
    case Null => Err(TypeError)
    case Bool(b) => Ok(if b then 1 else 0)
    case Int(i) => Ok(i)
    case Num(x) => Ok(Truncate(x))
    case Str(s) =>
      (match ParseInt(s)
       case Some(n) => Ok(n)
       case None => Err(ValueError("invalid literal for int()")))
    case List(_) => Err(TypeError)
    case Dict(_) => Err(TypeError)
  }

  function Pow10(k: nat): (p: nat)
    ensures p >= 1
  {
    if k == 0 then 1 else 10 * Pow10(k - 1)
  }

  /** The whole part of an unsigned decimal, and its fraction after the first point. */
  function DecimalParts(body: string): (string, string) {
    var whole := BeforeFirst(body, '.');
    (whole, if |whole| < |body| then body[|whole| + 1..] else [])
  }

  /** whole.frac in positional notation. */
  function DecimalValue(whole: string, frac: string): real
    requires AllDigits(whole) && AllDigits(frac)
  {
    DigitsValue(whole) as real + DigitsValue(frac) as real / Pow10(|frac|) as real
  }

  /** The digits of a decimal after its sign: whole part, then an optional fraction after a point. */
  function UnsignedDecimal(body: string): Option<real> {
    var (whole, frac) := DecimalParts(body);
    if |whole| + |frac| > 0 && AllDigits(whole) && AllDigits(frac) then Some(DecimalValue(whole, frac))
    else None
  }

  /** float(s) for a str in positional notation: [sign] digits [. digits], at least one digit. */
  function ParseDecimal(s: string): Option<real> {
    SignedDecimal(Strip(s))
  }

  /** An optional sign, then an unsigned decimal. */
  function SignedDecimal(t: string): Option<real> {
    var (negative, body) := SplitSign(t);
    match UnsignedDecimal(body)
    case Some(x) => Some(if negative then -x else x)
    case None => None
  }

  /** Digits with at most one decimal point among them, at least one a digit. */
  predicate IsUnsignedDecimal(body: string) {
    && (forall k :: 0 <= k < |body| ==> IsAsciiDigit(body[k]) || body[k] == '.')
    && (forall i, j :: 0 <= i < j < |body| && body[i] == '.' ==> body[j] != '.')
    && (exists k :: 0 <= k < |body| && IsAsciiDigit(body[k]))
  }

  /** A str float() reads in positional notation: an optional sign, then an unsigned decimal. */
  predicate IsDecimalLiteral(t: string) {
    IsUnsignedDecimal(SplitSign(t).1)
  }

  /** Where the parts of an unsigned decimal sit in it. */
  lemma DecimalPartsAt(body: string)
    ensures var (whole, frac) := DecimalParts(body);
      && |whole| <= |body| && '.' !in whole
      && (|whole| < |body| ==> body[|whole|] == '.' && |frac| == |body| - |whole| - 1)
      && (|whole| == |body| ==> frac == [])
      && (forall k :: 0 <= k < |whole| ==> body[k] == whole[k])
      && (forall k :: |whole| < k < |body| ==> body[k] == frac[k - |whole| - 1])
  {
  }

  /** Every character of an accepted decimal but its point is a digit. */
  lemma DigitsAroundPoint(body: string)
    requires var (whole, frac) := DecimalParts(body); AllDigits(whole) && AllDigits(frac)
    ensures forall k :: 0 <= k < |body| && k != |DecimalParts(body).0| ==> IsAsciiDigit(body[k])
  {
    var (whole, frac) := DecimalParts(body);
    DecimalPartsAt(body);
    forall k | 0 <= k < |body| && k != |whole| ensures IsAsciiDigit(body[k]) {
      if k < |whole| {
        assert body[k] == whole[k] && whole[k] in whole;
      } else {
        assert body[k] == frac[k - |whole| - 1] && frac[k - |whole| - 1] in frac;
      }
    }
  }

  lemma AcceptedIsLiteral(body: string)
    requires UnsignedDecimal(body).Some?
    ensures IsUnsignedDecimal(body)
  {
    var (whole, frac) := DecimalParts(body);
    DecimalPartsAt(body);
    DigitsAroundPoint(body);
    if whole != [] {
      assert whole[0] in whole && IsAsciiDigit(body[0]);
    } else {
      assert frac[0] in frac && IsAsciiDigit(body[1]);
    }
  }

  lemma LiteralIsAccepted(body: string)
    requires IsUnsignedDecimal(body)
    ensures UnsignedDecimal(body).Some?
  {
    var (whole, frac) := DecimalParts(body);
    DecimalPartsAt(body);
    var d :| 0 <= d < |body| && IsAsciiDigit(body[d]);
    forall c | c in whole ensures IsAsciiDigit(c) {
      var k :| 0 <= k < |whole| && whole[k] == c;
      assert body[k] == c;
    }
    forall c | c in frac ensures IsAsciiDigit(c) {
      var k :| 0 <= k < |frac| && frac[k] == c;
      assert body[k + |whole| + 1] == c;
    }
    assert d < |whole| || |whole| < d;
  }

  /** An unsigned decimal is accepted exactly when it is digits with at most one point, one a digit. */
  lemma UnsignedDecimalAccepts(body: string)
    ensures UnsignedDecimal(body).Some? <==> IsUnsignedDecimal(body)
  {
    if UnsignedDecimal(body).Some? {
      AcceptedIsLiteral(body);
    }
    if IsUnsignedDecimal(body) {
      LiteralIsAccepted(body);
    }
  }

  /** ParseDecimal accepts exactly the decimal literals, around whitespace. */
  lemma ParseDecimalAccepts(s: string)
    ensures ParseDecimal(s).Some? <==> IsDecimalLiteral(Strip(s))
  {
    UnsignedDecimalAccepts(SplitSign(Strip(s)).1);
    assert ParseDecimal(s) == SignedDecimal(Strip(s));
  }

  lemma ShiftDigit(a: int, p: int, b: int, d: int)
    ensures (a * p + b) * 10 + d == a * (10 * p) + (b * 10 + d)
  {
  }

  /** Reading the digits of `a` then `b` shifts `a` left by the digits of `b`. */
  lemma {:induction false} DigitsAppend(a: string, b: string)
    requires AllDigits(a) && AllDigits(b)
    ensures AllDigits(a + b)
    ensures DigitsValue(a + b) == DigitsValue(a) * Pow10(|b|) + DigitsValue(b)
  {
    if b == [] {
      assert a + b == a;
    } else {
      var init, last := b[..|b| - 1], b[|b| - 1];
      var ab := a + b;
      assert ab[..|ab| - 1] == a + init && ab[|ab| - 1] == last;
      assert last in b;
      DigitsAppend(a, init);
      var d := last as int - '0' as int;
      assert DigitsValue(ab) == DigitsValue(a + init) * 10 + d;
      assert DigitsValue(b) == DigitsValue(init) * 10 + d;
      ShiftDigit(DigitsValue(a), Pow10(|init|), DigitsValue(init), d);
    }
  }

  /** `x` with the sign a literal starting with `sign` gives it. */
  function WithSign(sign: string, x: real): real {
    if sign == ['-'] then -x else x
  }

  lemma SplitSignOf(sign: string, body: string)
    requires sign == [] || sign == ['+'] || sign == ['-']
    requires body == [] || IsAsciiDigit(body[0]) || body[0] == '.'
    ensures SplitSign(sign + body) == (sign == ['-'], body)
  {
    if sign == [] {
      assert sign + body == body;
    } else {
      assert (sign + body)[0] == sign[0] && (sign + body)[1..] == body;
    }
  }

  /** s.split(sep)[0] is the prefix up to a position that holds `sep` or is the end. */
  lemma {:induction false} BeforeFirstAt(s: string, sep: char, n: nat)
    requires n <= |s| && sep !in s[..n] && (n == |s| || s[n] == sep)
    ensures BeforeFirst(s, sep) == s[..n]
  {
    if n > 0 {
      assert s[0] in s[..n];
      assert s[1..][..n - 1] == s[1..n];
      BeforeFirstAt(s[1..], sep, n - 1);
      assert s[..n] == [s[0]] + s[1..n];
    }
  }

  lemma UnsignedOfParts(body: string, w: string, f: string)
    requires DecimalParts(body) == (w, f) && AllDigits(w) && AllDigits(f) && |w| + |f| > 0
    ensures UnsignedDecimal(body) == Some(DecimalValue(w, f))
  {
  }

  lemma SignedOf(sign: string, body: string, x: real)
    requires sign == [] || sign == ['+'] || sign == ['-']
    requires body == [] || IsAsciiDigit(body[0]) || body[0] == '.'
    requires UnsignedDecimal(body) == Some(x)
    ensures SignedDecimal(sign + body) == Some(WithSign(sign, x))
  {
    SplitSignOf(sign, body);
  }

  lemma UnsignedWhole(w: string)
    requires w != [] && AllDigits(w)
    ensures UnsignedDecimal(w) == Some(DigitsValue(w) as real)
  {
    assert w[..|w|] == w;
    BeforeFirstAt(w, '.', |w|);
    assert DecimalParts(w) == (w, []);
    UnsignedOfParts(w, w, []);
  }

  /** A literal without a point reads as its digits' value, with its sign. */
  lemma ParseDecimalWhole(s: string, sign: string, w: string)
    requires sign == [] || sign == ['+'] || sign == ['-']
    requires w != [] && AllDigits(w) && Strip(s) == sign + w
    ensures ParseDecimal(s) == Some(WithSign(sign, DigitsValue(w) as real))
  {
    assert w[0] in w;
    UnsignedWhole(w);
    SignedOf(sign, w, DigitsValue(w) as real);
  }

  lemma JoinFraction(a: nat, b: nat, p: nat)
    requires p >= 1
    ensures a as real + b as real / p as real == (a * p + b) as real / p as real
  {
    var q := p as real;
    assert (a * p) as real == a as real * q;
    assert (a as real * q) / q == a as real;
  }

  /** whole.frac is the integer its digits spell over ten to the number of fraction digits. */
  lemma DecimalValueJoin(w: string, f: string)
    requires AllDigits(w) && AllDigits(f)
    ensures AllDigits(w + f)
    ensures DecimalValue(w, f) == DigitsValue(w + f) as real / Pow10(|f|) as real
  {
    DigitsAppend(w, f);
    JoinFraction(DigitsValue(w), DigitsValue(f), Pow10(|f|));
  }

  /** A point splits an unsigned decimal into the digits before it and those after it. */
  lemma PartsOfPoint(w: string, f: string)
    requires AllDigits(w)
    ensures DecimalParts(w + ['.'] + f) == (w, f)
  {
    var body := w + ['.'] + f;
    assert body[..|w|] == w;
    BeforeFirstAt(body, '.', |w|);
    assert body[|w| + 1..] == f;
  }

  lemma UnsignedPoint(w: string, f: string)
    requires AllDigits(w) && AllDigits(f) && |w| + |f| > 0
    ensures AllDigits(w + f)
    ensures UnsignedDecimal(w + ['.'] + f) == Some(DigitsValue(w + f) as real / Pow10(|f|) as real)
  {
    PartsOfPoint(w, f);
    UnsignedOfParts(w + ['.'] + f, w, f);
    DecimalValueJoin(w, f);
  }

  lemma PointBody(sign: string, w: string, f: string)
    requires AllDigits(w)
    ensures var body := w + ['.'] + f;
      && sign + w + ['.'] + f == sign + body
      && (IsAsciiDigit(body[0]) || body[0] == '.')
  {
    if w != [] {
      assert w[0] in w;
    }
  }

  /**
   * A literal with a point reads as the integer all its digits spell, divided
   * by ten to the number of fraction digits, with its sign.
   */
  lemma ParseDecimalPoint(s: string, sign: string, w: string, f: string)
    requires sign == [] || sign == ['+'] || sign == ['-']
    requires AllDigits(w) && AllDigits(f) && |w| + |f| > 0 && Strip(s) == sign + w + ['.'] + f
    ensures AllDigits(w + f)
    ensures ParseDecimal(s) == Some(WithSign(sign, DigitsValue(w + f) as real / Pow10(|f|) as real))
  {
    var body := w + ['.'] + f;
    PointBody(sign, w, f);
    UnsignedPoint(w, f);
    SignedOf(sign, body, DigitsValue(w + f) as real / Pow10(|f|) as real);
  }

  /** float(v) */
  function ToFloat(v: Value): (r: Result<real>)
    ensures r.Err? ==> r.error == TypeError || r.error.ValueError?
    ensures v.Num? ==> r == Ok(v.r)
    ensures v.Int? ==> r == Ok(v.i as real)
    ensures v.Bool? ==> r == Ok(if v.b then 1.0 else 0.0)
    ensures v.Str? ==> (r.Ok? <==> ParseDecimal(v.s).Some?) && (r.Ok? ==> r.value == ParseDecimal(v.s).value)
    ensures v.Str? && r.Err? ==> r.error.ValueError?
    ensures v.Null? || v.List? || v.Dict? ==> r == Err(TypeError)
  {
    match v
    case Null => Err(TypeError)
    case Bool(b) => Ok(if b then 1.0 else 0.0)
    case Int(i) => Ok(i as real)
    case Num(x) => Ok(x)
    case Str(s) =>
      (match ParseDecimal(s)
       case Some(x) => Ok(x)
       case None => Err(ValueError("could not convert string to float")))
    case List(_) => Err(TypeError)
    case Dict(_) => Err(TypeError)
  }

  /** `for x in v`: a list yields its items, a str its characters, a dict its keys. */
  function Iterate(v: Value): (r: Result<seq<Value>>)
    ensures r.Err? <==> v.Null? || v.Bool? || v.Int? || v.Num?
    ensures r.Err? ==> r.error == TypeError
    ensures r.Ok? ==> (|r.value| == 0 <==> !Truthy(v))
    ensures v.List? ==> r == Ok(v.items)
    ensures v.Str? ==> r.Ok? && |r.value| == |v.s| && forall k :: 0 <= k < |v.s| ==> r.value[k] == Str([v.s[k]])
    ensures v.Dict? ==> r.Ok? && |r.value| == |v.entries| && forall k :: 0 <= k < |v.entries| ==> r.value[k] == Str(v.entries[k].0)
  {
    match v
    case List(xs) => Ok(xs)
    case Str(s) => Ok(seq(|s|, k requires 0 <= k < |s| => Str([s[k]])))
    case Dict(es) => Ok(seq(|es|, k requires 0 <= k < |es| => Str(es[k].0)))
    case _ => Err(TypeError)
  }

  /** `for x in (v or [])` */
  function IterateOrEmpty(v: Value): (r: Result<seq<Value>>)
    ensures !Truthy(v) ==> r == Ok([])
    ensures Truthy(v) ==> r == Iterate(v)
    ensures r.Err? ==> r.error == TypeError
  {
    if Truthy(v) then Iterate(v) else Ok([])
  }
}
