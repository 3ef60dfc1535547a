/** What take_turn makes of the user's input. Each element of `lines` is what one call of
    `fgets(buffer, 10, stdin)` reads, without the newline that ends it: a typed line of up to
    eight characters is one element, and a longer one arrives as several elements of at
    most nine bytes each (its newline may then come alone, as an empty element). An empty
    line leaves '\n' in `buffer[0]`. Only `buffer[0]` matters: the move is
    `buffer[0] - '0'`, and the read is accepted when that is 0..9. */
module Prompt {
  import opened Wire

  /** `buffer[0]` after `fgets` has stored `line`. */
  function FirstByte(line: seq<byte>): byte {
    if |line| > 0 then line[0] else NEWLINE
  }

  /** The move a line asks for, `buffer[0] - '0'`. */
  function MoveOf(line: seq<byte>): int {
    DecodeDigit(FirstByte(line))
  }

  /** `move <= 9 && move >= 0`: the test take_turn applies before sending. */
  predicate Accepts(line: seq<byte>) {
    0 <= MoveOf(line) <= 9
  }

  /** A line is accepted exactly when it starts with one of the bytes '0'..'9'; 9, the
      request for the number of active players, is accepted like a board position. */
  lemma AcceptsIffDigit(line: seq<byte>)
    ensures Accepts(line) <==> |line| > 0 && IsDigitByte(line[0])
    ensures Accepts(line) ==> EncodeDigit(MoveOf(line)) == line[0]
    ensures Accepts([DIGIT_NINE]) && MoveOf([DIGIT_NINE]) == 9
  {
  }

  /** The first line at or after `from` that take_turn accepts, if any. */
  function FirstAccepted(lines: seq<seq<byte>>, from: nat): (r: Option<nat>)
    requires from <= |lines|
    ensures r.Some? ==> from <= r.value < |lines| && Accepts(lines[r.value])
    ensures forall k :: from <= k < (if r.Some? then r.value else |lines|) ==> !Accepts(lines[k])
    decreases |lines| - from
  {
    if from == |lines| then None
    else if Accepts(lines[from]) then Some(from)
    else FirstAccepted(lines, from + 1)
  }
}
