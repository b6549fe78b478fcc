/** 256-bit naturals and their 32-byte big-endian form (evm_rpc_types). */
module Nat256Bytes {
  import opened Prelude
  import opened Numerals

  /** `Nat256` wraps a natural; `TryFrom` is the only way to make one. */
  datatype Nat256 = Nat256(value: nat)

  const WIDTH: nat := 32

  ghost predicate IsByteArray(bytes: seq<nat>) {
    |bytes| == WIDTH && DigitsBelow(bytes, 256)
  }

  ghost predicate Fits(x: Nat256) {
    x.value < Pow(256, WIDTH)
  }

  /** Counts the bytes of the shortest form; zero takes one. */
  function TryFrom(n: nat): Result<Nat256, string> {
    if |Digits(n, 256)| > WIDTH then Err("Nat does not fit in a U256") else Ok(Nat256(n))
  }

  /** The shortest big-endian form, filled up with zero bytes on the left. */
  function BeBytes(x: Nat256): seq<nat>
    requires |Digits(x.value, 256)| <= WIDTH
  {
    Zeros(WIDTH - |Digits(x.value, 256)|) + Digits(x.value, 256)
  }

  function FromBeBytes(bytes: seq<nat>): Result<Nat256, string> {
    TryFrom(Value(bytes, 256))
  }

  lemma {:induction false} PowOfBytes(k: nat)
    ensures Pow(256, k) == Pow(2, 8 * k)
  {
    if k > 0 {
      PowOfBytes(k - 1);
      PowSum(2, 8, 8 * (k - 1));
      assert Pow(2, 8) == 256 by {
        assert Pow(2, 4) == 16;
        PowSum(2, 4, 4);
      }
    }
  }

  /** The conversion accepts exactly the numbers below 2^256. */
  lemma TryFromExactly(n: nat)
    ensures TryFrom(n) == (if n < Pow(2, 256) then Ok(Nat256(n)) else Err("Nat does not fit in a U256"))
    ensures Fits(Nat256(n)) <==> n < Pow(2, 256)
  {
    DigitsLength(n, 256, WIDTH);
    PowOfBytes(WIDTH);
  }

  /** The length assertion holds for every `Nat256`, and the buffer ends up holding its value. */
  method IntoBeBytes(x: Nat256) returns (buffer: array<nat>)
    requires Fits(x)
    ensures fresh(buffer) && IsByteArray(buffer[..])
    ensures Value(buffer[..], 256) == x.value
  {
    var valueBytes := Digits(x.value, 256);
    buffer := new nat[WIDTH](_ => 0);
    assert |valueBytes| <= WIDTH by {
      DigitsLength(x.value, 256, WIDTH);
    }
    forall i | 0 <= i < |valueBytes| {
      buffer[WIDTH - |valueBytes| + i] := valueBytes[i];
    }
    assert buffer[..] == BeBytes(x);
    BytesOfNumber(x);
  }

  /** Number to bytes and back. */
  lemma BytesOfNumber(x: Nat256)
    requires Fits(x)
    ensures |Digits(x.value, 256)| <= WIDTH
    ensures IsByteArray(BeBytes(x)) && FromBeBytes(BeBytes(x)) == Ok(x)
    ensures Value(BeBytes(x), 256) == x.value
  {
    DigitsLength(x.value, 256, WIDTH);
    ValueOfPadded(WIDTH - |Digits(x.value, 256)|, Digits(x.value, 256), 256);
    ValueOfDigits(x.value, 256);
  }

  /** Bytes to number and back; `from_be_bytes` never fails. */
  lemma NumberOfBytes(bytes: seq<nat>)
    requires IsByteArray(bytes)
    ensures FromBeBytes(bytes).Ok? && Fits(FromBeBytes(bytes).value)
    ensures |Digits(FromBeBytes(bytes).value.value, 256)| <= WIDTH
    ensures BeBytes(FromBeBytes(bytes).value) == bytes
  {
    ValueBound(bytes, 256);
    var x := Nat256(Value(bytes, 256));
    DigitsLength(x.value, 256, WIDTH);
    BytesOfNumber(x);
    ValueInjective(BeBytes(x), bytes, 256);
  }
}
