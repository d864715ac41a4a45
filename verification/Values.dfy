/** DynamoDB typed attribute values, items, and the few library facts the
    engine leans on (number parsing, JSON text, base64 length). */
module Values {

  datatype Option<+T> = None | Some(value: T)

  /** A typed attribute value. The engine holds it as a one-entry JSON object
      whose key names the type. */
  datatype Value =
    | S(str: string)
    | N(num: string)
    | B(bin: string)
    | Bool(flag: bool)
    | Null
    | SS(elems: seq<string>)
    | NS(elems: seq<string>)
    | BS(elems: seq<string>)
    | L(list: seq<Value>)
    | M(fields: map<string, Value>)

  type Item = map<string, Value>

  /** Library functions outside the engine: `strconv.ParseFloat`, the text of
      the sum of two numbers (None when one does not parse), the text
      `json.Marshal` gives, and the decoded length of a base64 string. */
  datatype Lib = Lib(
    number: string -> real,
    sum: (string, string) -> Option<string>,
    json: Value -> string,
    decodedLength: string -> nat)

  function Lookup(item: Item, name: string): Option<Value> {
    if name in item then Some(item[name]) else None
  }

  /** `strings.Compare`: bytewise lexicographic order as -1, 0 or 1. */
  function CompareText(a: string, b: string): int {
    if a == [] && b == [] then 0
    else if a == [] then -1
    else if b == [] then 1
    else if a[0] < b[0] then -1
    else if a[0] > b[0] then 1
    else CompareText(a[1..], b[1..])
  }

  lemma {:induction false} TextOpposite(a: string, b: string)
    ensures CompareText(a, b) == -CompareText(b, a)
    ensures CompareText(a, b) == 0 <==> a == b
  {
    if a != [] && b != [] && a[0] == b[0] {
      TextOpposite(a[1..], b[1..]);
      assert a == [a[0]] + a[1..] && b == [b[0]] + b[1..];
    }
  }

  lemma {:induction false} TextTransitive(a: string, b: string, c: string)
    requires CompareText(a, b) < 0 && CompareText(b, c) < 0
    ensures CompareText(a, c) < 0
  {
    if a != [] && b != [] && c != [] && a[0] == b[0] == c[0] {
      TextTransitive(a[1..], b[1..], c[1..]);
    }
  }

  function CompareReal(a: real, b: real): int {
    if a < b then -1 else if a > b then 1 else 0
  }

  /** `dynamoValueCmp`; None is its error result. An absent attribute is None. */
  function CompareValues(lib: Lib, a: Option<Value>, b: Option<Value>): Option<int> {
    if a.None? || b.None? then None
    else
      match a.value
      case S(x) => if b.value.S? then Some(CompareText(x, b.value.str)) else None
      case N(x) => if b.value.N? then Some(CompareReal(lib.number(x), lib.number(b.value.num))) else None
      case _ => Some(CompareText(lib.json(a.value), lib.json(b.value)))
  }

  // Decimal text of numbers (`fmt.Sprintf("%d", n)` and `strconv.Atoi`).

  function Digit(d: nat): char
    requires d < 10
  {
    ['0', '1', '2', '3', '4', '5', '6', '7', '8', '9'][d]
  }

  predicate IsDigit(c: char) { '0' <= c <= '9' }

  predicate AllDigits(s: string) {
    forall i :: 0 <= i < |s| ==> IsDigit(s[i])
  }

  function Decimal(n: nat): (s: string)
    ensures |s| > 0 && AllDigits(s)
  {
    if n < 10 then [Digit(n)] else Decimal(n / 10) + [Digit(n % 10)]
  }

  function Natural(s: string): nat
    requires AllDigits(s)
  {
    if s == [] then 0
    else Natural(s[..|s| - 1]) * 10 + (s[|s| - 1] - '0') as nat
  }

  lemma {:induction false} NaturalOfDecimal(n: nat)
    ensures Natural(Decimal(n)) == n
  {
    if n >= 10 {
      NaturalOfDecimal(n / 10);
      var s := Decimal(n);
      assert s[..|s| - 1] == Decimal(n / 10);
    }
  }

  /** Splitting a decimal prefix off a text is unambiguous as long as what
      follows does not start with a digit. */
  lemma DecimalPrefixUnique(i: nat, s: string, j: nat, t: string)
    requires s == [] || !IsDigit(s[0])
    requires t == [] || !IsDigit(t[0])
    requires Decimal(i) + s == Decimal(j) + t
    ensures i == j && s == t
  {
    var a, b := Decimal(i), Decimal(j);
    var w := a + s;
    assert forall k :: 0 <= k < |a| ==> w[k] == a[k];
    assert forall k :: 0 <= k < |b| ==> w[k] == b[k];
    assert s != [] ==> w[|a|] == s[0];
    assert t != [] ==> w[|b|] == t[0];
    assert |a| == |b|;
    assert a == w[..|a|] && b == w[..|b|];
    assert s == w[|a|..] && t == w[|b|..];
    NaturalOfDecimal(i);
    NaturalOfDecimal(j);
  }
}
