/** The wire codec of the client: bytes, the single-digit integer encoding, and what one
    receive call delivers from the server's byte stream.

    The model assumes that a plain C `char` is signed, as it is on x86 and on Windows (on ARM
    Linux it is unsigned), so a byte read into a `char` has the value `CharValue(b)`. Only
    values outside 0..9 depend on this. The server-to-client stream is a finite sequence of
    bytes read through a cursor; a receive of `n` bytes delivers `n` bytes when that many remain
    and otherwise everything that is left (the short read). */
module Wire {

  newtype byte = x: int | 0 <= x < 256

  datatype Option<T> = None | Some(value: T)

  const NUL: byte := 0
  const NEWLINE: byte := 10
  const DIGIT_ZERO: byte := 48  // '0'
  const DIGIT_NINE: byte := 57  // '9'

  predicate IsDigitByte(b: byte) {
    DIGIT_ZERO <= b <= DIGIT_NINE
  }

  /** The value of byte `b` stored in a signed `char`. */
  function CharValue(b: byte): (c: int)
    ensures -128 <= c < 128
    ensures (c - b as int) % 256 == 0
  {
    if b < 128 then b as int else b as int - 256
  }

  /** `msg - '0'` in recv_int: no range check, so every byte decodes to something. */
  function DecodeDigit(b: byte): (v: int)
    ensures -176 <= v < 80
    ensures 0 <= v <= 9 <==> IsDigitByte(b)
    ensures IsDigitByte(b) ==> v == b as int - DIGIT_ZERO as int
  {
    CharValue(b) - DIGIT_ZERO as int
  }

  /** `(char)(msg + '0')` in write_server_int: the conversion keeps the low eight bits. */
  function EncodeDigit(v: int): (b: byte)
    ensures (b as int - v - DIGIT_ZERO as int) % 256 == 0
    ensures 0 <= v <= 9 ==> IsDigitByte(b) && b as int == v + DIGIT_ZERO as int
  {
    ((v + DIGIT_ZERO as int) % 256) as byte
  }

  /** Every digit value travels as one of the bytes '0'..'9' and decodes back to itself. */
  lemma DigitRoundTrip(v: int)
    requires 0 <= v <= 9
    ensures IsDigitByte(EncodeDigit(v))
    ensures DecodeDigit(EncodeDigit(v)) == v
  {
  }

  /** The round trip holds for exactly the values a signed `char` can carry after adding '0'. */
  lemma RoundTripExactly(v: int)
    ensures DecodeDigit(EncodeDigit(v)) == v <==> -176 <= v < 80
  {
    var b := EncodeDigit(v);
    if -176 <= v < 80 {
      if v + 48 >= 0 {
        assert b as int == v + 48;
      } else {
        assert b as int == v + 48 + 256;
      }
    }
  }

  /** Encoding the decoded value of any byte gives the byte back. */
  lemma EncodeInvertsDecode(b: byte)
    ensures EncodeDigit(DecodeDigit(b)) == b
  {
  }

  /** The result of one receive or of a fixed-size read built from it: either the value read
      and the cursor after it, or a short read and the cursor after the bytes it swallowed. */
  datatype Read<T> = Got(value: T, next: nat) | Short(next: nat)

  /** The bytes one `recv(sockfd, buf, n, 0)` delivers when the cursor is at `pos`. */
  function Recv(inbound: seq<byte>, pos: nat, n: nat): (got: seq<byte>)
    requires pos <= |inbound|
    ensures pos + |got| <= |inbound|
    ensures got == inbound[pos..pos + |got|]
    ensures |got| == n || (|got| < n && pos + |got| == |inbound|)
  {
    if pos + n <= |inbound| then inbound[pos..pos + n] else inbound[pos..]
  }

  /** `got` followed by NULs up to `width` bytes: a zeroed buffer after a receive into it. */
  function Padded(got: seq<byte>, width: nat): (buf: seq<byte>)
    requires |got| <= width
    ensures |buf| == width && buf[..|got|] == got
    ensures forall i :: |got| <= i < width ==> buf[i] == NUL
    decreases width - |got|
  {
    if |got| == width then got else Padded(got + [NUL], width)
  }

  /** The three bytes at cursor `pos`. */
  function Frame(inbound: seq<byte>, pos: nat): (f: seq<byte>)
    requires pos + 3 <= |inbound|
    ensures |f| == 3
  {
    [inbound[pos], inbound[pos + 1], inbound[pos + 2]]
  }

  /** recv_msg: three bytes and the terminating NUL when three remain; anything less is fatal,
      and the short read has swallowed what was left. */
  function MsgAt(inbound: seq<byte>, pos: nat): (r: Read<seq<byte>>)
    requires pos <= |inbound|
    ensures r.Got? <==> pos + 3 <= |inbound|
    ensures r.Got? ==> r.next == pos + 3 && |r.value| == 4 && r.value[3] == NUL
    ensures r.Got? ==> r.value[..3] == Frame(inbound, pos)
    ensures r.Short? ==> r.next == |inbound|
  {
    if pos + 3 <= |inbound| then Got(Frame(inbound, pos) + [NUL], pos + 3) else Short(|inbound|)
  }

  /** MsgAt is what recv_msg's buffer holds: zeroed, then filled by one receive of three bytes,
      with anything but exactly three bytes fatal. */
  lemma MsgAtIsPaddedRecv(inbound: seq<byte>, pos: nat)
    requires pos <= |inbound|
    ensures var got := Recv(inbound, pos, 3);
      MsgAt(inbound, pos) == if |got| == 3 then Got(Padded(got, 4), pos + 3) else Short(pos + |got|)
  {
    var got := Recv(inbound, pos, 3);
    if |got| == 3 {
      var buf := Padded(got, 4);
      assert buf == Frame(inbound, pos) + [NUL] by {
        assert buf[..3] == got && buf[3] == NUL;
      }
    }
  }

  /** recv_int: the byte at the cursor decoded with `DecodeDigit`; no byte left is fatal. */
  function IntAt(inbound: seq<byte>, pos: nat): (r: Read<int>)
    requires pos <= |inbound|
    ensures r.Got? <==> pos < |inbound|
    ensures r.Got? ==> r.next == pos + 1
    ensures r.Short? ==> r.next == pos == |inbound|
  {
    if pos < |inbound| then Got(DecodeDigit(inbound[pos]), pos + 1) else Short(pos)
  }

  /** IntAt is one receive of one byte, decoded whenever that byte arrived. */
  lemma IntAtIsRecv(inbound: seq<byte>, pos: nat)
    requires pos <= |inbound|
    ensures var got := Recv(inbound, pos, 1);
      IntAt(inbound, pos) == if |got| == 1 then Got(DecodeDigit(got[0]), pos + 1) else Short(pos + |got|)
  {
  }
}
