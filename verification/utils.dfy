/** Small string helpers: the integer parser that reads answers and callback
    data, its inverse (Python's `str` on integers), ASCII lower-casing and the
    keyword-renaming hook used when loading Telegram payloads. */
module Utils {
  import opened Wrappers

  predicate IsDigit(c: char) {
    '0' <= c <= '9'
  }

  predicate AllDigits(s: string) {
    forall i :: 0 <= i < |s| ==> IsDigit(s[i])
  }

  /** One or more ASCII decimal digits. */
  predicate IsNumeral(s: string) {
    |s| > 0 && AllDigits(s)
  }

  /** A numeral, optionally preceded by one `+` or `-` sign: the subset of
      Python's `int(s)` inputs this model accepts. */
  predicate IsSignedNumeral(s: string) {
    IsNumeral(s) || (|s| >= 2 && (s[0] == '-' || s[0] == '+') && IsNumeral(s[1..]))
  }

  function DigitValue(c: char): (d: nat)
    requires IsDigit(c)
    ensures d < 10
  {
    (c as int) - ('0' as int)
  }

  function DigitChar(d: nat): (c: char)
    requires d < 10
    ensures IsDigit(c) && DigitValue(c) == d
  {
    (('0' as int) + d) as char
  }

  /** The value of a string of decimal digits, read most significant first. */
  function NumeralValue(s: string): nat
    requires AllDigits(s)
    decreases |s|
  {
    if |s| == 0 then 0 else NumeralValue(s[..|s| - 1]) * 10 + DigitValue(s[|s| - 1])
  }

  /** `utils.parse_int`: the value of a decimal numeral, and `None` (never an
      exception) for anything else, the empty string included. */
  function ParseInt(s: string): (r: Option<int>)
    ensures r.Some? <==> IsSignedNumeral(s)
    ensures s == "" ==> r == None
    ensures IsNumeral(s) ==> r == Some(NumeralValue(s))
    ensures |s| >= 2 && s[0] == '-' && IsNumeral(s[1..]) ==> r == Some(-(NumeralValue(s[1..]) as int))
    ensures |s| >= 2 && s[0] == '+' && IsNumeral(s[1..]) ==> r == Some(NumeralValue(s[1..]))
  {
    if IsNumeral(s) then Some(NumeralValue(s))
    else if |s| >= 2 && s[0] == '-' && IsNumeral(s[1..]) then Some(-(NumeralValue(s[1..]) as int))
    else if |s| >= 2 && s[0] == '+' && IsNumeral(s[1..]) then Some(NumeralValue(s[1..]))
    else None
  }

  /** Decimal digits of a natural number, without leading zeros. */
  function ShowNat(n: nat): string
    decreases n
  {
    if n < 10 then [DigitChar(n)] else ShowNat(n / 10) + [DigitChar(n % 10)]
  }

  /** Python's `str(n)` / `f"{n}"` on an integer. */
  function ShowInt(n: int): string {
    if n < 0 then "-" + ShowNat(-n) else ShowNat(n)
  }

  lemma {:induction false} ShowNatIsNumeral(n: nat)
    ensures IsNumeral(ShowNat(n))
    ensures NumeralValue(ShowNat(n)) == n
    decreases n
  {
    if n >= 10 {
      ShowNatIsNumeral(n / 10);
      var s := ShowNat(n);
      assert s[..|s| - 1] == ShowNat(n / 10);
    }
  }

  /** `parse_int(str(n)) == n` for every integer: the text a bot writes with
      `str` reads back as the same number. */
  lemma ParseShowInt(n: int)
    ensures ParseInt(ShowInt(n)) == Some(n)
  {
    if n < 0 {
      ShowNatIsNumeral(-n);
      assert ShowInt(n)[1..] == ShowNat(-n);
    } else {
      ShowNatIsNumeral(n);
    }
  }

  /** `ShowInt` never produces a space, so space-joined numbers stay separable. */
  lemma ShowIntHasNoSpace(n: int)
    ensures ' ' !in ShowInt(n)
    ensures |ShowInt(n)| > 0
  {
    ShowNatIsNumeral(if n < 0 then -n else n);
    if n < 0 {
      assert ShowInt(n)[1..] == ShowNat(-n);
    }
  }

  function LowerChar(c: char): char {
    if 'A' <= c <= 'Z' then ((c as int) - ('A' as int) + ('a' as int)) as char else c
  }

  /** `str.lower` restricted to ASCII letters. */
  function Lower(s: string): (r: string)
    ensures |r| == |s|
    ensures forall i :: 0 <= i < |s| ==> r[i] == LowerChar(s[i])
  {
    seq(|s|, i requires 0 <= i < |s| => LowerChar(s[i]))
  }

  /** `utils.transform_keywords`: renames the one Python keyword that occurs in
      Telegram payloads, `from`, to `from_`, and leaves every other key alone. */
  function TransformKeywords(key: string): (r: string)
    ensures key == "from" ==> r == "from_"
    ensures r == key <==> key != "from"
  {
    if key != "from" then key else "from_"
  }

  /** Renaming keys is idempotent: no key is renamed twice. */
  lemma TransformKeywordsIdempotent(key: string)
    ensures TransformKeywords(TransformKeywords(key)) == TransformKeywords(key)
  {
    if key == "from" {
      assert "from_" != "from";
    }
  }
}
