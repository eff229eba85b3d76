/** JavaScript values as the sheet editor sees them: strings are sequences of
    UTF-16 code units, and a grid cell is whatever the xlsx library hands out
    for one position of a row (text, a number, a boolean, or nothing). */
module JsValues {

  /** One UTF-16 code unit; JavaScript strings are sequences of these. */
  newtype CodeUnit = x: int | 0 <= x < 0x1_0000

  type JsString = seq<CodeUnit>

  datatype Option<+T> = None | Some(value: T)

  /** A cell value. `Blank` stands for `undefined`/`null` and for the hole an
      array assignment past the end leaves behind. Numbers are integral. */
  datatype Cell = Blank | Text(s: JsString) | Number(n: int) | Bool(b: bool)

  /** JavaScript truthiness of a cell: `undefined`, `null`, `""`, `0` and
      `false` are falsy. */
  predicate Truthy(c: Cell)
    ensures !Truthy(c) <==> c in {Blank, Text([]), Number(0), Bool(false)}
  {
    match c
    case Blank => false
    case Text(s) => s != []
    case Number(n) => n != 0
    case Bool(b) => b
  }

  /** A string literal of the source as the code units JavaScript holds:
      every literal the component uses is plain ASCII, one code unit per
      character. */
  function Literal(s: string): (r: JsString)
    ensures |r| == |s|
  {
    seq(|s|, i requires 0 <= i < |s| => ((s[i] as int) % 0x1_0000) as CodeUnit)
  }

  /** The decimal digits of a natural number, most significant first. */
  function Digits(n: nat): (r: JsString)
    ensures r != []
    ensures forall k :: 0 <= k < |r| ==> '0' as CodeUnit <= r[k] <= '9' as CodeUnit
    decreases n
  {
    if n < 10 then [('0' as int + n) as CodeUnit]
    else Digits(n / 10) + [('0' as int + n % 10) as CodeUnit]
  }

  /** The number a sequence of decimal digits denotes, most significant
      first. */
  function DecimalValue(r: JsString): (v: int)
    decreases |r|
  {
    if r == [] then 0 else DecimalValue(r[..|r| - 1]) * 10 + (r[|r| - 1] as int - '0' as int)
  }

  /** The digits of `n` denote `n`. */
  lemma {:induction false} DigitsValue(n: nat)
    ensures DecimalValue(Digits(n)) == n
    decreases n
  {
    if n >= 10 {
      DigitsValue(n / 10);
      var d := Digits(n);
      assert d[..|d| - 1] == Digits(n / 10);
    }
  }

  /** `String(n)` for an integral number: a minus sign exactly for negative
      numbers, then the decimal digits of `|n|`. */
  function NumberToString(n: int): (r: JsString)
    ensures r != []
    ensures (r[0] == '-' as CodeUnit) <==> n < 0
    ensures forall k :: (if n < 0 then 1 else 0) <= k < |r| ==> '0' as CodeUnit <= r[k] <= '9' as CodeUnit
    ensures n < 0 ==> |r| >= 2 && DecimalValue(r[1..]) == -n
    ensures n >= 0 ==> DecimalValue(r) == n
  {
    if n < 0 then
      DigitsValue(-n);
      var r := ['-' as CodeUnit] + Digits(-n);
      assert r[1..] == Digits(-n);
      r
    else
      DigitsValue(n);
      Digits(n)
  }

  /** `String(value)` for a cell. Only truthy cells are ever turned into
      strings (the header map tests the cell first), so the `Blank` branch,
      which gives `undefined`'s string, is never taken; `String(null)` would
      differ. */
  function CellToString(c: Cell): (r: JsString)
    ensures Truthy(c) ==> r != []
    ensures c.Text? ==> r == c.s
  {
    match c
    case Blank => Literal("undefined")
    case Text(s) => s
    case Number(n) => NumberToString(n)
    case Bool(b) => if b then Literal("true") else Literal("false")
  }
}
