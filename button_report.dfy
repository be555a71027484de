/**
 * The 2-byte input report payload of the gamepad.
 *
 * The firmware hands the transport the raw memory of its `uint16_t` button
 * register (`&_buttons`, `sizeof(_buttons)`).  On the AVR target that memory
 * is little-endian, so byte 0 carries buttons 1..8 and byte 1 buttons 9..16;
 * that byte order is a modelling assumption fixed here.
 */
module ButtonReport {

  /** `sizeof(uint16_t)`: the number of payload bytes in every report. */
  const PayloadSize: nat := 2

  /** The number of logical buttons, one bit each. */
  const ButtonCount: nat := 16

  /** Button `i + 1` is pressed when bit `i` of the register is set; a
      `bv4` index names exactly the 16 buttons. */
  predicate IsPressed(b: bv16, i: bv4) {
    (b >> i) & 1 == 1
  }

  /** Bit `k` of one payload byte. */
  predicate ByteBit(x: bv8, k: bv4)
    requires k < 8
  {
    (x >> k) & 1 == 1
  }

  /** The little-endian bytes of the button register, as sent on the wire. */
  function Encode(b: bv16): (r: seq<bv8>)
    ensures |r| == PayloadSize
    ensures r[0] as bv16 == b & 0xFF && r[1] as bv16 == b >> 8
  {
    [(b & 0xFF) as bv8, (b >> 8) as bv8]
  }

  /** The button register a host reads back from a 2-byte payload. */
  function Decode(p: seq<bv8>): (b: bv16)
    requires |p| == PayloadSize
    ensures b & 0xFF == p[0] as bv16 && b >> 8 == p[1] as bv16
  {
    (p[0] as bv16) | ((p[1] as bv16) << 8)
  }

  /** Decoding a sent payload recovers exactly the stored register. */
  lemma DecodeEncode(b: bv16)
    ensures Decode(Encode(b)) == b
  {
  }

  /** Every 2-byte payload is the encoding of exactly one register value. */
  lemma EncodeDecode(p: seq<bv8>)
    requires |p| == PayloadSize
    ensures Encode(Decode(p)) == p
  {
    var e := Encode(Decode(p));
    assert e[0] == p[0] && e[1] == p[1];
  }

  /** Encoding is injective: distinct button states give distinct payloads. */
  lemma EncodeInjective(b1: bv16, b2: bv16)
    ensures Encode(b1) == Encode(b2) <==> b1 == b2
  {
    if Encode(b1) == Encode(b2) {
      DecodeEncode(b1);
      DecodeEncode(b2);
    }
  }

  /** Wire layout: button `i + 1` is bit `i % 8` of payload byte `i / 8`. */
  lemma ButtonBitLayout(b: bv16, i: bv4)
    ensures i < 8 ==> (IsPressed(b, i) <==> ByteBit(Encode(b)[0], i))
    ensures i >= 8 ==> (IsPressed(b, i) <==> ByteBit(Encode(b)[1], i - 8))
  {
  }
}
