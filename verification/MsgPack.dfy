/** Integers on the MessagePack wire: natively where the format can, otherwise as text. */
module MsgPack {
  import opened Wrappers
  import opened Decimal

  datatype Wire = Native(n: int) | Text(s: string)

  datatype Error = TooLong | NotANumber

  predicate InRange(v: int) {
    -0x8000_0000_0000_0000 <= v < 0x1_0000_0000_0000_0000
  }

  /** `str(v)` */
  function ShowInt(v: int): string {
    if v < 0 then "-" + Show(-v) else Show(v)
  }

  predicate AllDigits(s: string) {
    s != "" && forall i | 0 <= i < |s| :: IsDigit(s[i])
  }

  /** `int(s)`, for a sign and digits */
  function ReadInt(s: string): Result<int, Error> {
    if s != "" && s[0] == '-' && AllDigits(s[1..]) then
      var n: int := Read(s[1..]);
      Ok(-n)
    else if AllDigits(s) then Ok(Read(s))
    else Err(NotANumber)
  }

  /** `integer_to_bytes` */
  function ToWire(v: int): Wire {
    if InRange(v) then Native(v) else Text(ShowInt(v))
  }

  /** `integer_from_bytes`; `limit` is `max_str_len`. */
  function FromWire(w: Wire, limit: Option<nat>): Result<int, Error> {
    match w
    case Native(n) => Ok(n)
    case Text(s) => if limit.Some? && |s| > limit.value then Err(TooLong) else ReadInt(s)
  }

  lemma ReadShowInt(v: int)
    ensures ReadInt(ShowInt(v)) == Ok(v)
  {
    hide Show, Read;
    if v < 0 {
      ReadShow(-v);
      assert ShowInt(v)[1..] == Show(-v);
    } else {
      ReadShow(v);
      assert IsDigit(Show(v)[0]);
    }
  }

  /** An integer comes back unless it is out of the native range and its text is over the limit. */
  lemma IntegerBack(v: int, limit: Option<nat>)
    ensures FromWire(ToWire(v), limit) == Ok(v) <==>
      InRange(v) || limit.None? || |ShowInt(v)| <= limit.value
  {
    ReadShowInt(v);
  }

  function Pow2(n: nat): int {
    if n == 0 then 1 else 2 * Pow2(n - 1)
  }

  lemma {:induction false} Pow2Adds(m: nat, n: nat)
    ensures Pow2(m + n) == Pow2(m) * Pow2(n)
  {
    if m > 0 { Pow2Adds(m - 1, n); }
  }

  /** Native are the signed and the unsigned integers of 64 bits, any other goes as its digits with a sign. */
  lemma NativeExactly(v: int)
    ensures ToWire(v) == Native(v) <==> -Pow2(63) <= v < Pow2(64)
    ensures !(-Pow2(63) <= v < Pow2(64)) ==> ToWire(v) == Text(if v < 0 then "-" + Show(-v) else Show(v))
  {
    hide Show;
    assert Pow2(8) == 256;
    Pow2Adds(8, 8);
    Pow2Adds(16, 16);
    Pow2Adds(32, 32);
    assert Pow2(64) == 2 * Pow2(63);
  }
}
