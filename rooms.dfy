/**
 * Room naming in src/notifications/notifications.gateway.ts: the template
 * `user_${id}`, used both when a client joins and when an event is emitted.
 * A safe JavaScript integer (|n| <= 2^53 - 1) is rendered in decimal, with a
 * leading `-` when negative.
 */
module Rooms {
  import opened Wrappers

  predicate IsDigit(c: char)
  {
    '0' <= c <= '9'
  }

  predicate IsDigits(s: string)
  {
    forall i :: 0 <= i < |s| ==> IsDigit(s[i])
  }

  function DigitChar(d: nat): (c: char)
    requires d < 10
    ensures IsDigit(c)
  {
    ('0' as int + d) as char
  }

  function DigitValue(c: char): nat
    requires IsDigit(c)
  {
    c as int - '0' as int
  }

  /** The decimal rendering of a natural number, most significant digit first. */
  function NatToDecimal(n: nat): (s: string)
    ensures |s| >= 1 && IsDigits(s)
  {
    if n < 10 then [DigitChar(n)] else NatToDecimal(n / 10) + [DigitChar(n % 10)]
  }

  /**
   * JavaScript's `String(n)` for a safe integer `n` (|n| <= 2^53 - 1): a minus
   * sign exactly for negative numbers, followed by decimal digits.
   */
  function IntToDecimal(n: int): (text: string)
    ensures |text| >= 1
    ensures n < 0 <==> text[0] == '-'
    ensures n < 0 ==> |text| > 1 && IsDigits(text[1..])
    ensures n >= 0 ==> IsDigits(text)
  {
    if n < 0 then
      var text := "-" + NatToDecimal(-n);
      assert text[1..] == NatToDecimal(-n);
      text
    else
      NatToDecimal(n)
  }

  /** The value of a string of decimal digits (the inverse of `NatToDecimal`). */
  function DecimalToNat(s: string): nat
    requires IsDigits(s)
  {
    if s == [] then 0 else 10 * DecimalToNat(s[..|s| - 1]) + DigitValue(s[|s| - 1])
  }

  const RoomPrefix := "user_"

  /** The private room of user `id`: `user_${id}`. */
  function RoomName(id: int): (room: string)
    ensures |room| > |RoomPrefix| && room[..|RoomPrefix|] == RoomPrefix
  {
    RoomPrefix + IntToDecimal(id)
  }

  /** Reads an integer written in decimal, with an optional leading `-`. */
  function ParseInt(text: string): Option<int>
  {
    if |text| > 1 && text[0] == '-' && IsDigits(text[1..]) then
      var magnitude: int := DecimalToNat(text[1..]);
      Some(-magnitude)
    else if text != [] && IsDigits(text) then Some(DecimalToNat(text) as int)
    else None
  }

  /** Reads the user id back out of a room name; `None` for a name no user owns. */
  function ParseRoom(room: string): Option<int>
  {
    if |room| < |RoomPrefix| || room[..|RoomPrefix|] != RoomPrefix then None
    else ParseInt(room[|RoomPrefix|..])
  }

  lemma {:induction false} DecimalRoundTrip(n: nat)
    ensures DecimalToNat(NatToDecimal(n)) == n
  {
    if n >= 10 {
      var s := NatToDecimal(n);
      assert s[..|s| - 1] == NatToDecimal(n / 10);
      DecimalRoundTrip(n / 10);
    }
  }

  lemma IntRoundTrip(n: int)
    ensures ParseInt(IntToDecimal(n)) == Some(n)
  {
    var text := IntToDecimal(n);
    if n < 0 {
      assert text[1..] == NatToDecimal(-n);
      DecimalRoundTrip(-n);
    } else {
      assert IsDigit(text[0]);
      DecimalRoundTrip(n);
    }
  }

  /** Reading a room name back gives the user id it was built from. */
  lemma RoomNameRoundTrip(id: int)
    ensures ParseRoom(RoomName(id)) == Some(id)
  {
    var room := RoomName(id);
    assert room[..|RoomPrefix|] == RoomPrefix;
    assert room[|RoomPrefix|..] == IntToDecimal(id);
    IntRoundTrip(id);
  }

  /** Distinct users never share a room. */
  lemma RoomNameInjective(u: int, v: int)
    ensures RoomName(u) == RoomName(v) <==> u == v
  {
    RoomNameRoundTrip(u);
    RoomNameRoundTrip(v);
  }
}
