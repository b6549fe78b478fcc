/** Token amounts as decimal text: `toUnits` and `fromUnits` of units.js. */
module Units {
  import opened Prelude
  import opened Numerals
  import opened JsText

  datatype AmountError = AmountRequired | InvalidAmount | TooManyDecimalPlaces

  predicate IsDigit(c: char) {
    '0' <= c <= '9'
  }

  predicate AllDigits(s: string) {
    forall i :: 0 <= i < |s| ==> IsDigit(s[i])
  }

  function DigitChar(d: nat): char
    requires d < 10
  {
    '0' + d as char
  }

  /** The decimal digits a text of digit characters stands for. */
  function DigitsOf(s: string): (ds: seq<nat>)
    requires AllDigits(s)
    ensures |ds| == |s| && DigitsBelow(ds, 10)
  {
    seq(|s|, i requires 0 <= i < |s| => (s[i] - '0') as nat)
  }

  /** `BigInt(text)` on a text of digits; the empty text counts as zero. */
  function BigInt(s: string): nat
    requires AllDigits(s)
  {
    if s == "" then 0 else 10 * BigInt(s[..|s| - 1]) + (s[|s| - 1] - '0') as nat
  }

  lemma {:induction false} BigIntIsValue(s: string)
    requires AllDigits(s)
    ensures BigInt(s) == Value(DigitsOf(s), 10)
    decreases |s|
  {
    if s != "" {
      BigIntIsValue(s[..|s| - 1]);
      assert DigitsOf(s)[..|s| - 1] == DigitsOf(s[..|s| - 1]);
    }
  }

  /** `bigint.toString()` */
  function Decimal(n: nat): (s: string)
    ensures |s| >= 1 && AllDigits(s)
  {
    if n < 10 then [DigitChar(n)] else Decimal(n / 10) + [DigitChar(n % 10)]
  }

  /** No leading zeros. */
  lemma {:induction false} DecimalIsPlain(n: nat)
    ensures n == 0 ==> Decimal(n) == "0"
    ensures n > 0 ==> Decimal(n)[0] != '0'
  {
    if n >= 10 {
      DecimalIsPlain(n / 10);
    }
  }

  lemma {:induction false} DecimalIsDigits(n: nat)
    ensures DigitsOf(Decimal(n)) == Digits(n, 10)
  {
    if n >= 10 {
      DecimalIsDigits(n / 10);
    }
  }

  /** `replace(/[^0-9]/g, "")` */
  function KeepDigits(s: string): (r: string)
    ensures AllDigits(r)
    ensures AllDigits(s) ==> r == s
  {
    if s == [] then [] else
      var rest := KeepDigits(s[1..]);
      assert s == [s[0]] + s[1..];
      if IsDigit(s[0]) then [s[0]] + rest else rest
  }

  /** Base units of a whole part and a fraction that has been padded to `d` digits. */
  function Units(whole: string, frac: string, d: nat): nat
    requires AllDigits(whole) && AllDigits(frac)
  {
    var padded := PadEnd(frac, d, '0');
    assert AllDigits(padded);
    Times(BigInt(whole), OneToken(d)) + BigInt(padded)
  }

  function ToUnits(value: string, decimals: nat): Result<nat, AmountError> {
    var s := Trim(value);
    if s == "" then Err(AmountRequired)
    else
      var parts := Split(s, '.');
      if |parts| > 2 then Err(InvalidAmount)
      else
        var whole := if parts[0] == "" then "0" else parts[0];
        var frac := KeepDigits(if |parts| == 2 then parts[1] else "");
        if !AllDigits(whole) then Err(InvalidAmount)
        else if |frac| > decimals then Err(TooManyDecimalPlaces)
        else Ok(Units(whole, frac, decimals))
  }

  /** A whole part and, when there is one, a fraction after the point. */
  function Joined(whole: string, fraction: string): string {
    if |fraction| > 0 then whole + "." + fraction else whole
  }

  /** `10^d`, the number of base units in one token. */
  function OneToken(d: nat): (p: nat)
    ensures p >= 1
  {
    if d == 0 then 1 else 10 * OneToken(d - 1)
  }

  lemma {:induction false} OneTokenIsPow(d: nat)
    ensures OneToken(d) == Pow(10, d)
  {
    if d > 0 {
      OneTokenIsPow(d - 1);
    }
  }

  function FromUnits(balance: nat, decimals: nat, fractionDigits: nat): string {
    var denom := OneToken(decimals);
    var integer := Quotient(balance, denom);
    var fraction := Remainder(balance, denom);
    var padded := PadStart(Decimal(fraction), decimals, '0');
    var fracStr := padded[..Min(decimals, fractionDigits)];
    Joined(Decimal(integer), fracStr)
  }

  lemma DigitsOfConcat(s: string, t: string)
    requires AllDigits(s) && AllDigits(t)
    ensures AllDigits(s + t) && DigitsOf(s + t) == DigitsOf(s) + DigitsOf(t)
  {
  }

  lemma DigitsOfZeros(k: nat)
    ensures AllDigits(Repeat('0', k)) && DigitsOf(Repeat('0', k)) == Zeros(k)
  {
  }

  /** Padding a fraction on the right scales it. */
  lemma {:induction false} BigIntOfZeros(f: string, k: nat)
    requires AllDigits(f)
    ensures AllDigits(f + Repeat('0', k)) && BigInt(f + Repeat('0', k)) == Times(BigInt(f), OneToken(k))
  {
    var s := f + Repeat('0', k);
    TimesIsProduct(BigInt(f), OneToken(k));
    if k == 0 {
      assert s == f;
    } else {
      BigIntOfZeros(f, k - 1);
      TimesIsProduct(BigInt(f), OneToken(k - 1));
      assert s[..|s| - 1] == f + Repeat('0', k - 1);
      TenTimes(BigInt(f), OneToken(k - 1));
    }
  }

  lemma TenTimes(x: nat, p: nat)
    ensures 10 * (x * p) == x * (10 * p)
  {
  }

  lemma BigIntOfPadEnd(f: string, d: nat)
    requires AllDigits(f) && |f| <= d
    ensures AllDigits(PadEnd(f, d, '0'))
    ensures BigInt(PadEnd(f, d, '0')) == Times(BigInt(f), OneToken(d - |f|))
  {
    BigIntOfZeros(f, d - |f|);
    assert f + Repeat('0', 0) == f;
  }

  lemma DigitsAreTrimmed(s: string)
    requires forall i :: 0 <= i < |s| ==> IsDigit(s[i]) || s[i] == '.'
    ensures Trim(s) == s
  {
    TrimmedStays(s);
  }

  /** A plain decimal text `w.f` means `w + f / 10^|f|` tokens, or is too precise. */
  lemma DottedAmount(w: string, f: string, d: nat)
    requires AllDigits(w) && AllDigits(f)
    ensures ToUnits(w + "." + f, d) ==
            if |f| > d then Err(TooManyDecimalPlaces)
            else Ok(Times(BigInt(w), OneToken(d)) + Times(BigInt(f), OneToken(d - |f|)))
  {
    var s := w + "." + f;
    DigitsAreTrimmed(s);
    SplitAtOnly(w, f, '.');
    if |f| <= d {
      UnitsOfDotted(w, f, d);
    }
  }

  /** Any text with one point: refused for its whole part or its precision, and other characters after the point are dropped. */
  lemma AnyDotted(w: string, f: string, d: nat)
    requires '.' !in w && '.' !in f && Trimmed(w + "." + f)
    ensures var digits := KeepDigits(f);
            ToUnits(w + "." + f, d) ==
              if !AllDigits(w) then Err(InvalidAmount)
              else if |digits| > d then Err(TooManyDecimalPlaces)
              else Ok(Times(BigInt(w), OneToken(d)) + Times(BigInt(digits), OneToken(d - |digits|)))
  {
    TrimmedStays(w + "." + f);
    SplitAtOnly(w, f, '.');
    if AllDigits(w) && |KeepDigits(f)| <= d {
      UnitsOfDotted(w, KeepDigits(f), d);
    }
  }

  /** Any text without a point. */
  lemma AnyWhole(w: string, d: nat)
    requires '.' !in w && Trimmed(w) && w != ""
    ensures ToUnits(w, d) == if AllDigits(w) then Ok(Times(BigInt(w), OneToken(d))) else Err(InvalidAmount)
  {
    TrimmedStays(w);
    SplitWithout(w, '.');
    if AllDigits(w) {
      UnitsOfWhole(w, d);
    }
  }

  /** White space alone is no amount, two points are an invalid one, and white space around an amount does not matter. */
  lemma OtherTexts(p: string, s: string, q: string, d: nat)
    requires AllSpace(p) && AllSpace(q) && Trimmed(s)
    ensures ToUnits(p, d) == Err(AmountRequired)
    ensures Count(s, '.') >= 2 ==> ToUnits(s, d) == Err(InvalidAmount)
    ensures s != "" ==> ToUnits(p + (s + q), d) == ToUnits(s, d) && ToUnits(s, d) != Err(AmountRequired)
  {
    TrimIsEmpty(p);
    TrimmedStays(s);
    SplitCount(s, '.');
    if s != "" {
      TrimAround(p, s, q);
    } else {
      assert Count(s, '.') == 0;
    }
  }

  /** What is kept of a text: its digits, in order. */
  lemma {:induction false} KeepDigitsOf(s: string, t: string)
    ensures KeepDigits(s + t) == KeepDigits(s) + KeepDigits(t)
    decreases |s|
  {
    if s == "" {
      assert s + t == t;
    } else {
      assert (s + t)[1..] == s[1..] + t;
      KeepDigitsOf(s[1..], t);
    }
  }

  lemma UnitsOfDotted(w: string, f: string, d: nat)
    requires AllDigits(w) && AllDigits(f) && |f| <= d
    ensures Units(if w == "" then "0" else w, f, d)
              == Times(BigInt(w), OneToken(d)) + Times(BigInt(f), OneToken(d - |f|))
  {
    BigIntOfPadEnd(f, d);
    if w == "" {
      assert "0"[..0] == "";
      assert BigInt("0") == 0;
    }
  }

  /** A plain whole number means that many tokens. */
  lemma WholeAmount(w: string, d: nat)
    requires AllDigits(w) && w != ""
    ensures ToUnits(w, d) == Ok(Times(BigInt(w), OneToken(d)))
  {
    DigitsAreTrimmed(w);
    SplitWithout(w, '.');
    UnitsOfWhole(w, d);
  }

  lemma UnitsOfWhole(w: string, d: nat)
    requires AllDigits(w)
    ensures Units(w, "", d) == Times(BigInt(w), OneToken(d))
  {
    BigIntOfPadEnd("", d);
    assert BigInt("") == 0;
  }

  /** The digits of the printed fraction, as a numeral of `d` digits. */
  lemma PaddedFraction(r: nat, d: nat)
    requires r < OneToken(d) && d > 0
    ensures var t := PadStart(Decimal(r), d, '0');
            |t| == d && AllDigits(t) && BigInt(t) == r
  {
    DigitsLength(r, 10, d);
    DecimalIsDigits(r);
    OneTokenIsPow(d);
    var k := d - |Decimal(r)|;
    DigitsOfZeros(k);
    var t := PadStart(Decimal(r), d, '0');
    assert t == Repeat('0', k) + Decimal(r);
    DigitsOfConcat(Repeat('0', k), Decimal(r));
    ValueOfPadded(k, Digits(r, 10), 10);
    ValueOfDigits(r, 10);
    BigIntIsValue(t);
  }

  /** The printed fraction: the leading `m` of the `d` digits of `r`. */
  lemma PrintedFraction(r: nat, d: nat, m: nat)
    requires r < OneToken(d) && m <= d
    ensures m <= |PadStart(Decimal(r), d, '0')|
    ensures AllDigits(PadStart(Decimal(r), d, '0')[..m])
    ensures Times(BigInt(PadStart(Decimal(r), d, '0')[..m]), OneToken(d - m)) + Remainder(r, OneToken(d - m)) == r
  {
    var t := PadStart(Decimal(r), d, '0');
    if d == 0 {
      assert t[..0] == "" && BigInt("") == 0 && r == 0;
    } else {
      PaddedFraction(r, d);
      PrefixValue(t, m);
    }
  }

  /** Cutting a text of digits off after `m` of them leaves the quotient by a power of ten. */
  lemma {:induction false} PrefixSplits(t: string, m: nat) returns (rest: nat)
    requires AllDigits(t) && m <= |t|
    ensures rest < OneToken(|t| - m) && BigInt(t) == BigInt(t[..m]) * OneToken(|t| - m) + rest
    decreases |t|
  {
    if m == |t| {
      assert t[..m] == t;
      rest := 0;
    } else {
      var init := t[..|t| - 1];
      var rest' := PrefixSplits(init, m);
      assert init[..m] == t[..m];
      rest := 10 * rest' + (t[|t| - 1] - '0') as nat;
      NextDigit(BigInt(t[..m]), OneToken(|init| - m), rest', (t[|t| - 1] - '0') as nat);
    }
  }

  lemma NextDigit(v: nat, p: nat, rest: nat, c: nat)
    ensures 10 * (v * p + rest) + c == v * (10 * p) + (10 * rest + c)
  {
    TenTimes(v, p);
  }

  lemma PrefixValue(t: string, m: nat)
    requires AllDigits(t) && m <= |t|
    ensures Times(BigInt(t[..m]), OneToken(|t| - m)) + Remainder(BigInt(t), OneToken(|t| - m)) == BigInt(t)
  {
    var rest := PrefixSplits(t, m);
    SplitOff(BigInt(t[..m]), OneToken(|t| - m), rest);
  }

  /** The low digits of `q * 10^d + r` are those of `r`. */
  lemma RemainderOfSum(q: nat, r: nat, a: nat, p: nat)
    requires p >= 1
    ensures Remainder(Times(q, a * p) + r, p) == Remainder(r, p)
  {
    TimesIsProduct(q, a * p);
    DivisionAgrees(r, p);
    DivisionAgrees(q * (a * p) + r, p);
    DivMod(r, p);
    Regroup(q, a, p, r / p, r % p);
    RemainderOf(q * a + r / p, p, r % p);
  }

  lemma Regroup(q: nat, a: nat, p: nat, t: nat, u: nat)
    ensures q * (a * p) + (t * p + u) == (q * a + t) * p + u
  {
    assert q * (a * p) == (q * a) * p;
  }

  lemma LowDigits(q: nat, r: nat, d: nat, m: nat)
    requires m <= d
    ensures Remainder(Times(q, OneToken(d)) + r, OneToken(d - m)) == Remainder(r, OneToken(d - m))
  {
    PowSum(10, m, d - m);
    OneTokenIsPow(d);
    OneTokenIsPow(m);
    OneTokenIsPow(d - m);
    RemainderOfSum(q, r, OneToken(m), OneToken(d - m));
  }

  /** What the parser makes of a printed whole part and fraction. */
  lemma ParseOfJoined(w: string, f: string, d: nat)
    requires AllDigits(w) && w != "" && AllDigits(f) && |f| <= d
    ensures ToUnits(Joined(w, f), d) == Ok(Times(BigInt(w), OneToken(d)) + Times(BigInt(f), OneToken(d - |f|)))
  {
    if |f| > 0 {
      DottedAmount(w, f, d);
    } else {
      WholeAmount(w, d);
    }
  }

  lemma BigIntOfDecimal(n: nat)
    ensures BigInt(Decimal(n)) == n
  {
    ValueOfDigits(n, 10);
    DecimalIsDigits(n);
    BigIntIsValue(Decimal(n));
  }

  /** Parsing a whole part worth `x` base units and a fraction worth `t`. */
  lemma ParseOfPieces(w: string, x: nat, f: string, d: nat, t: nat)
    requires AllDigits(w) && w != "" && Times(BigInt(w), OneToken(d)) == x
    requires AllDigits(f) && |f| <= d && Times(BigInt(f), OneToken(d - |f|)) == t
    ensures ToUnits(Joined(w, f), d) == Ok(x + t)
  {
    ParseOfJoined(w, f, d);
  }

  /** Printing writes the whole tokens and the leading digits of the rest. */
  lemma PrintedPieces(n: nat, d: nat, k: nat) returns (w: string, f: string)
    ensures FromUnits(n, d, k) == Joined(w, f)
    ensures AllDigits(w) && w != "" && BigInt(w) == Quotient(n, OneToken(d))
    ensures w == "0" || w[0] != '0'
    ensures AllDigits(f) && |f| == Min(d, k)
    ensures var r := Remainder(n, OneToken(d));
            Times(BigInt(f), OneToken(d - Min(d, k))) + Remainder(r, OneToken(d - Min(d, k))) == r
  {
    var r := Remainder(n, OneToken(d));
    w := Decimal(Quotient(n, OneToken(d)));
    f := PadStart(Decimal(r), d, '0')[..Min(d, k)] by {
      DivisionSplits(n, OneToken(d));
      PrintedFraction(r, d, Min(d, k));
    }
    BigIntOfDecimal(Quotient(n, OneToken(d)));
    DecimalIsPlain(Quotient(n, OneToken(d)));
    DivisionSplits(n, OneToken(d));
    PrintedFraction(r, d, Min(d, k));
  }

  /** Parsing the whole part of `n` and the first `m` digits of the rest. */
  lemma ParseOfShown(n: nat, d: nat, m: nat, w: string, f: string)
    requires m <= d
    requires AllDigits(w) && w != "" && BigInt(w) == Quotient(n, OneToken(d))
    requires AllDigits(f) && |f| == m
    requires var r := Remainder(n, OneToken(d));
             Times(BigInt(f), OneToken(d - m)) + Remainder(r, OneToken(d - m)) == r
    ensures Remainder(n, OneToken(d - m)) <= n
    ensures ToUnits(Joined(w, f), d) == Ok(n - Remainder(n, OneToken(d - m)))
  {
    var r := Remainder(n, OneToken(d));
    var lost := Remainder(r, OneToken(d - m));
    ShownAndLost(n, d, m);
    ParseOfPieces(w, n - r, f, d, r - lost);
  }

  lemma ShownAndLost(n: nat, d: nat, m: nat)
    requires m <= d
    ensures var r := Remainder(n, OneToken(d));
            && r <= n && Times(Quotient(n, OneToken(d)), OneToken(d)) == n - r
            && Remainder(n, OneToken(d - m)) == Remainder(r, OneToken(d - m))
  {
    DivisionSplits(n, OneToken(d));
    LowDigits(Quotient(n, OneToken(d)), Remainder(n, OneToken(d)), d, m);
  }

  /**
   Parsing what was printed with `k` fraction digits gives the balance back,
   less the digits that were not shown: truncation toward zero.
   */
  lemma ParseOfPrint(n: nat, d: nat, k: nat)
    ensures Remainder(n, OneToken(d - Min(d, k))) <= n
    ensures ToUnits(FromUnits(n, d, k), d) == Ok(n - Remainder(n, OneToken(d - Min(d, k))))
  {
    var w, f := PrintedPieces(n, d, k);
    ParseOfShown(n, d, Min(d, k), w, f);
  }

  /** The round trip is exact precisely when no digit that was cut off counts. */
  lemma RoundTripExactly(n: nat, d: nat, k: nat)
    ensures ToUnits(FromUnits(n, d, k), d) == Ok(n) <==> Remainder(n, OneToken(d - Min(d, k))) == 0
  {
    ParseOfPrint(n, d, k);
  }

  /** Printing every digit loses nothing. */
  lemma RoundTripAllDigits(n: nat, d: nat, k: nat)
    requires k >= d
    ensures ToUnits(FromUnits(n, d, k), d) == Ok(n)
  {
    ParseOfPrint(n, d, k);
    NothingIsLost(n, d, k);
  }

  lemma NothingIsLost(n: nat, d: nat, k: nat)
    requires k >= d
    ensures Remainder(n, OneToken(d - Min(d, k))) == 0
  {
    DivisionSplits(n, OneToken(0));
  }

  /** The remainder above is the one of plain arithmetic, `n` modulo `10^d`. */
  lemma RemainderIsModulus(n: nat, d: nat)
    ensures Pow(10, d) >= 1 && Remainder(n, OneToken(d)) == n % Pow(10, d)
  {
    OneTokenIsPow(d);
    DivisionAgrees(n, OneToken(d));
  }
}
