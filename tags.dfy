/** The ten three-letter message tags of the protocol, and how the client recognises one:
    it compares the NUL-terminated receive buffer with each tag's spelling using `strcmp`. */
module Tags {
  import opened Wire

  datatype Tag = HLD | SRT | TRN | INV | CNT | UPD | WAT | WIN | LSE | DRW

  /** The three ASCII bytes that carry tag `t` on the wire. */
  function Spelling(t: Tag): (s: seq<byte>)
    ensures |s| == 3 && NUL !in s
  {
    match t
    case HLD => [0x48, 0x4C, 0x44]  // "HLD"
    case SRT => [0x53, 0x52, 0x54]  // "SRT"
    case TRN => [0x54, 0x52, 0x4E]  // "TRN"
    case INV => [0x49, 0x4E, 0x56]  // "INV"
    case CNT => [0x43, 0x4E, 0x54]  // "CNT"
    case UPD => [0x55, 0x50, 0x44]  // "UPD"
    case WAT => [0x57, 0x41, 0x54]  // "WAT"
    case WIN => [0x57, 0x49, 0x4E]  // "WIN"
    case LSE => [0x4C, 0x53, 0x45]  // "LSE"
    case DRW => [0x44, 0x52, 0x57]  // "DRW"
  }

  /** No two tags share a spelling, so a buffer names at most one tag. */
  lemma SpellingInjective(t: Tag, u: Tag)
    ensures Spelling(t) == Spelling(u) ==> t == u
  {
    if Spelling(t) == Spelling(u) {
      assert Spelling(t)[0] == Spelling(u)[0];
      assert Spelling(t)[1] == Spelling(u)[1];
      assert Spelling(t)[2] == Spelling(u)[2];
    }
  }

  /** The C string held by `buf`: its bytes up to the first NUL, or all of it when it has none. */
  function CString(buf: seq<byte>): (s: seq<byte>)
    ensures |s| <= |buf| && s == buf[..|s|]
    ensures NUL !in s
    ensures |s| < |buf| ==> buf[|s|] == NUL
  {
    if buf == [] || buf[0] == NUL then [] else [buf[0]] + CString(buf[1..])
  }

  /** The tag whose spelling `strcmp` finds equal to the buffer, if there is one: the wait
      loop's tests (HLD, SRT) and then the active loop's (TRN to DRW), in their order. */
  function Classify(buf: seq<byte>): (r: Option<Tag>)
    ensures r.Some? ==> CString(buf) == Spelling(r.value)
    ensures r.None? ==> forall t: Tag :: CString(buf) != Spelling(t)
  {
    var s := CString(buf);
    if s == Spelling(HLD) then Some(HLD)
    else if s == Spelling(SRT) then Some(SRT)
    else if s == Spelling(TRN) then Some(TRN)
    else if s == Spelling(INV) then Some(INV)
    else if s == Spelling(CNT) then Some(CNT)
    else if s == Spelling(UPD) then Some(UPD)
    else if s == Spelling(WAT) then Some(WAT)
    else if s == Spelling(WIN) then Some(WIN)
    else if s == Spelling(LSE) then Some(LSE)
    else if s == Spelling(DRW) then Some(DRW)
    else None
  }

  /** For the buffer recv_msg leaves behind (three received bytes and a NUL), `strcmp`
      recognises tag `t` exactly when the three bytes are its spelling. */
  lemma ClassifyFrame(buf: seq<byte>, t: Tag)
    requires |buf| == 4 && buf[3] == NUL
    ensures Classify(buf) == Some(t) <==> buf[..3] == Spelling(t)
  {
    var s := CString(buf);
    if buf[..3] == Spelling(t) {
      assert NUL !in buf[..3];
      assert |s| == 3;
      assert s == buf[..3];
      SpellingInjective(Classify(buf).value, t);
    }
    if Classify(buf) == Some(t) {
      assert |s| == 3;
    }
  }
}
