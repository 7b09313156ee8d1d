/**
 * The two JavaScript coercions the route handlers rely on: truthiness of a form field and
 * `Number(...)` applied to a string (a form value or a URL segment).
 *
 * `Number` is modelled on integer literals only: the string is trimmed of white space, the empty
 * string becomes 0, an optionally signed run of decimal digits becomes that integer, and every
 * other string becomes NaN.
 */
module JsValues {
  import opened Wrappers

  /** The outcome of `Number(s)`: an integer or NaN. */
  datatype JsNumber = Num(value: int) | NaN

  /** A parsed `application/x-www-form-urlencoded` body: field name to field value. */
  type Form = map<string, string>

  /** Destructuring `const { key } = req.body`: the field, or undefined when it was not sent. */
  function Field(body: Form, key: string): Option<string> {
    if key in body then Some(body[key]) else None
  }

  /** `if (x)` on a form field: undefined and the empty string are falsy, every other string is truthy. */
  predicate Truthy(v: Option<string>) {
    v.Some? && v.value != ""
  }

  /** The white-space characters modelled as stripped from both ends by `Number` (ASCII white
      space, line terminators, no-break space and the byte-order mark). */
  predicate IsWhitespace(c: char) {
    c == ' ' || c == '\t' || c == '\n' || c == '\r' || c == '\U{B}' || c == '\U{C}'
    || c == '\U{A0}' || c == '\U{2028}' || c == '\U{2029}' || c == '\U{FEFF}'
  }

  /** Drops leading white space: the result is a suffix of `s`, only white space was dropped,
      and the result does not start with white space. */
  function TrimStart(s: string): (t: string)
    ensures |t| <= |s| && t == s[|s| - |t|..]
    ensures forall i :: 0 <= i < |s| - |t| ==> IsWhitespace(s[i])
    ensures t == [] || !IsWhitespace(t[0])
  {
    if s != [] && IsWhitespace(s[0]) then TrimStart(s[1..]) else s
  }

  /** Drops trailing white space: the result is a prefix of `s`, only white space was dropped,
      and the result does not end with white space. */
  function TrimEnd(s: string): (t: string)
    ensures |t| <= |s| && t == s[..|t|]
    ensures forall i :: |t| <= i < |s| ==> IsWhitespace(s[i])
    ensures t == [] || !IsWhitespace(t[|t| - 1])
  {
    if s != [] && IsWhitespace(s[|s| - 1]) then TrimEnd(s[..|s| - 1]) else s
  }

  function Trim(s: string): string {
    TrimEnd(TrimStart(s))
  }

  predicate IsDigit(c: char) {
    '0' <= c <= '9'
  }

  predicate AllDigits(s: string) {
    forall i :: 0 <= i < |s| ==> IsDigit(s[i])
  }

  function DigitValue(c: char): nat
    requires IsDigit(c)
  {
    (c as int) - ('0' as int)
  }

  /** The value of a run of decimal digits, most significant first. */
  function DigitsValue(s: string): nat
    requires AllDigits(s)
  {
    if s == [] then 0 else 10 * DigitsValue(s[..|s| - 1]) + DigitValue(s[|s| - 1])
  }

  /** A non-empty run of digits denotes its value; anything else is NaN. */
  function Unsigned(t: string): JsNumber {
    if t != [] && AllDigits(t) then Num(DigitsValue(t)) else NaN
  }

  function Negate(n: JsNumber): JsNumber {
    match n
    case Num(v) => Num(-v)
    case NaN => NaN
  }

  /** `Number(s)` for a string argument. */
  function ToNumber(s: string): JsNumber {
    var t := Trim(s);
    if t == [] then Num(0)
    else if t[0] == '-' then Negate(Unsigned(t[1..]))
    else if t[0] == '+' then Unsigned(t[1..])
    else Unsigned(t)
  }

  /** `isNaN(n)`. */
  predicate IsNaN(n: JsNumber) {
    n.NaN?
  }

  // ----- The decimal rendering of an integer: the inverse of `ToNumber` on integers -----

  function DigitChar(d: nat): (c: char)
    requires d < 10
    ensures IsDigit(c) && DigitValue(c) == d
  {
    ('0' as int + d) as char
  }

  /** The shortest decimal digit string of `n`. */
  function Digits(n: nat): (s: string)
    ensures s != [] && AllDigits(s)
  {
    if n < 10 then [DigitChar(n)] else Digits(n / 10) + [DigitChar(n % 10)]
  }

  /** The plain decimal rendering of an integer (optional minus sign, then the shortest digit
      string): the text the model's `Number` inverts. */
  function Decimal(n: int): string {
    if n < 0 then "-" + Digits(-n) else Digits(n)
  }

  lemma {:induction false} DigitsRoundTrip(n: nat)
    ensures DigitsValue(Digits(n)) == n
  {
    if n >= 10 {
      var s := Digits(n);
      assert s[..|s| - 1] == Digits(n / 10);
      DigitsRoundTrip(n / 10);
    }
  }

  /** The model's `Number` reads back the decimal rendering of every integer `n`. */
  lemma DecimalRoundTrip(n: int)
    ensures ToNumber(Decimal(n)) == Num(n)
  {
    var s := Decimal(n);
    TrimUnpadded(s);
    if n < 0 {
      assert s[1..] == Digits(-n);
      DigitsRoundTrip(-n);
    } else {
      DigitsRoundTrip(n);
    }
  }

  /** A string that neither starts nor ends with white space is its own trim. */
  lemma TrimUnpadded(s: string)
    requires s != [] && !IsWhitespace(s[0]) && !IsWhitespace(s[|s| - 1])
    ensures Trim(s) == s
  {
  }

  /** White space around a value does not change what `Number` makes of it. */
  lemma ToNumberIgnoresPadding(pre: string, s: string, post: string)
    requires forall i :: 0 <= i < |pre| ==> IsWhitespace(pre[i])
    requires forall i :: 0 <= i < |post| ==> IsWhitespace(post[i])
    ensures ToNumber(pre + s + post) == ToNumber(s)
  {
    TrimIgnoresPadding(pre, s, post);
  }

  lemma TrimIgnoresPadding(pre: string, s: string, post: string)
    requires forall i :: 0 <= i < |pre| ==> IsWhitespace(pre[i])
    requires forall i :: 0 <= i < |post| ==> IsWhitespace(post[i])
    ensures Trim(pre + s + post) == Trim(s)
  {
    assert pre + s + post == pre + (s + post);
    TrimStartSkipsWhitespace(pre, s + post);
    var u := TrimStart(s);
    if u == [] {
      TrimStartSkipsWhitespace(s, post);
      TrimStartOfBlank(post);
    } else {
      TrimStartKeepsTail(s, post);
      TrimEndSkipsWhitespace(u, post);
    }
  }

  lemma {:induction false} TrimStartSkipsWhitespace(w: string, s: string)
    requires forall i :: 0 <= i < |w| ==> IsWhitespace(w[i])
    ensures TrimStart(w + s) == TrimStart(s)
  {
    if w != [] {
      assert (w + s)[0] == w[0];
      assert (w + s)[1..] == w[1..] + s;
      TrimStartSkipsWhitespace(w[1..], s);
    } else {
      assert w + s == s;
    }
  }

  lemma TrimStartOfBlank(w: string)
    requires forall i :: 0 <= i < |w| ==> IsWhitespace(w[i])
    ensures TrimStart(w) == []
  {
    TrimStartSkipsWhitespace(w, []);
    assert w + [] == w;
  }

  /** Leading white space is stripped without looking past the first other character. */
  lemma {:induction false} TrimStartKeepsTail(s: string, post: string)
    requires TrimStart(s) != []
    ensures TrimStart(s + post) == TrimStart(s) + post
  {
    if IsWhitespace(s[0]) {
      assert (s + post)[1..] == s[1..] + post;
      TrimStartKeepsTail(s[1..], post);
    }
  }

  lemma {:induction false} TrimEndSkipsWhitespace(s: string, w: string)
    requires forall i :: 0 <= i < |w| ==> IsWhitespace(w[i])
    ensures TrimEnd(s + w) == TrimEnd(s)
  {
    if w != [] {
      assert (s + w)[..|s + w| - 1] == s + w[..|w| - 1];
      TrimEndSkipsWhitespace(s, w[..|w| - 1]);
    } else {
      assert s + w == s;
    }
  }
}
