/** The client's session as a function of what it is given: the bytes the server sends and
    the lines the user types. This is the reference semantics that the imperative client in
    module Engine is proved to follow, and about which the protocol's properties are proved.

    A session reads the player's identity digit, skips tags until SRT, announces the player's
    mark, draws the empty board, and then dispatches on one tag per step until WIN, LSE or DRW
    or until something goes wrong. */
module Protocol {
  import opened Wire
  import opened Tags
  import opened Board
  import opened Prompt

  /** The two reasons the client calls error() once connected. */
  datatype Fault = ReadFailed | UnknownMessage

  datatype Outcome = Win | Lose | Draw

  /** How a session ends. */
  datatype Stop =
    | Ended(outcome: Outcome)    // WIN, LSE or DRW: the loop ends and the socket is closed
    | Fatal(fault: Fault)        // error(): the process exits without closing the socket
    | NoMoreInput                // standard input ran out while take_turn was prompting
    | MoveOutOfRange(move: int)  // an update whose move is not 0..8: the C store is out of bounds

  /** The state the session carries: the cursor into the server's bytes, the cursor into the
      user's lines, the bytes sent to the server, the board, and every board drawn so far. */
  datatype Conf = Conf(pos: nat, line: nat, sent: seq<byte>, board: seq<char>, shown: seq<string>)

  predicate Fits(inbound: seq<byte>, lines: seq<seq<byte>>, c: Conf) {
    c.pos <= |inbound| && c.line <= |lines| && |c.board| == 9
  }

  datatype Halted = Halted(stop: Stop, last: Conf)

  /** One pass of the active loop either goes round again or leaves it. */
  datatype Step = Continue(next: Conf) | Stopped(halt: Halted)

  /** A whole session: how it stopped, the mark announced once SRT arrived, the last state. */
  datatype Final = Final(stop: Stop, announced: Option<char>, last: Conf)

  const INITIAL: Conf := Conf(0, 0, [], BLANK, [])

  /** The three bytes at `pos` spell tag `t`. */
  predicate TagAt(inbound: seq<byte>, pos: nat, t: Tag) {
    pos + 3 <= |inbound| && Frame(inbound, pos) == Spelling(t)
  }

  /** The wait loop: receive tags until one is SRT; the cursor just after it, or None when a
      receive comes up short. HLD only prints a notice, and every other tag is skipped too. */
  function AwaitStart(inbound: seq<byte>, pos: nat): (r: Option<nat>)
    requires pos <= |inbound|
    ensures r.Some? ==> pos + 3 <= r.value <= |inbound|
    decreases |inbound| - pos
  {
    match MsgAt(inbound, pos)
    case Short(_) => None
    case Got(msg, p) =>
      ClassifyFrame(msg, SRT);
      if Classify(msg) == Some(SRT) then Some(p) else AwaitStart(inbound, p)
  }

  /** The `n` three-byte messages from `pos` on all arrive whole, and none of them is SRT:
      HLD, another tag or bytes that are no tag at all. */
  predicate NoStartFor(inbound: seq<byte>, pos: nat, n: nat) {
    pos + 3 * n <= |inbound| && forall i :: 0 <= i < n ==> Frame(inbound, pos + 3 * i) != Spelling(SRT)
  }

  /** HLD, and every other tag but SRT, is a message the wait loop skips. */
  lemma OtherTagIsNoStart(inbound: seq<byte>, pos: nat, t: Tag)
    requires TagAt(inbound, pos, t) && t != SRT
    ensures NoStartFor(inbound, pos, 1)
  {
    SpellingInjective(t, SRT);
    assert pos + 3 * 0 == pos;
  }

  /** Past the first of the `n` messages, the other `n - 1` are still none of them SRT. */
  lemma NoStartForTail(inbound: seq<byte>, pos: nat, n: nat)
    requires NoStartFor(inbound, pos, n) && n > 0
    ensures Frame(inbound, pos) != Spelling(SRT) && NoStartFor(inbound, pos + 3, n - 1)
  {
    assert Frame(inbound, pos + 3 * 0) != Spelling(SRT);
    forall i | 0 <= i < n - 1
      ensures Frame(inbound, pos + 3 + 3 * i) != Spelling(SRT)
    {
      assert pos + 3 + 3 * i == pos + 3 * (i + 1);
    }
  }

  /** A whole message at the cursor: SRT ends the wait loop just after it, anything else is
      skipped. */
  lemma AwaitStartAt(inbound: seq<byte>, pos: nat)
    requires pos + 3 <= |inbound|
    ensures AwaitStart(inbound, pos)
      == if Frame(inbound, pos) == Spelling(SRT) then Some(pos + 3) else AwaitStart(inbound, pos + 3)
  {
    var msg := Frame(inbound, pos) + [NUL];
    assert MsgAt(inbound, pos) == Got(msg, pos + 3);
    assert msg[..3] == Frame(inbound, pos);
    ClassifyFrame(msg, SRT);
  }

  /** Of `n` messages that are not SRT, the wait loop skips the first, and `n - 1` remain. */
  lemma SkipOne(inbound: seq<byte>, pos: nat, n: nat)
    requires NoStartFor(inbound, pos, n) && n > 0
    ensures NoStartFor(inbound, pos + 3, n - 1) && (pos + 3) + 3 * (n - 1) == pos + 3 * n
    ensures AwaitStart(inbound, pos) == AwaitStart(inbound, pos + 3)
  {
    NoStartForTail(inbound, pos, n);
    AwaitStartAt(inbound, pos);
  }

  /** The wait loop ends only just after an SRT. */
  lemma {:induction false} AwaitStartEndsOnStart(inbound: seq<byte>, pos: nat)
    requires pos <= |inbound|
    ensures AwaitStart(inbound, pos).Some? ==> TagAt(inbound, AwaitStart(inbound, pos).value - 3, SRT)
    decreases |inbound| - pos
  {
    if pos + 3 <= |inbound| {
      AwaitStartAt(inbound, pos);
      if Frame(inbound, pos) == Spelling(SRT) {
        assert AwaitStart(inbound, pos).value - 3 == pos;
        assert TagAt(inbound, AwaitStart(inbound, pos).value - 3, SRT);
      } else {
        var r := AwaitStart(inbound, pos + 3);
        AwaitStartEndsOnStart(inbound, pos + 3);
        assert AwaitStart(inbound, pos) == r;
        assert r.Some? ==> TagAt(inbound, r.value - 3, SRT);
      }
    } else {
      assert MsgAt(inbound, pos).Short?;
      assert AwaitStart(inbound, pos) == None;
    }
  }

  /** Every message before the first SRT is skipped, and the loop ends just after that SRT. */
  lemma {:induction false} AwaitStartSkips(inbound: seq<byte>, pos: nat, n: nat)
    requires NoStartFor(inbound, pos, n) && TagAt(inbound, pos + 3 * n, SRT)
    ensures AwaitStart(inbound, pos) == Some(pos + 3 * n + 3)
    decreases n
  {
    if n == 0 {
      AwaitStartAt(inbound, pos);
    } else {
      SkipOne(inbound, pos, n);
      AwaitStartSkips(inbound, pos + 3, n - 1);
    }
  }

  /** When the stream ends, with fewer than three bytes left, before any SRT, the wait loop
      fails instead of proceeding with a partial tag. */
  lemma {:induction false} AwaitStartShort(inbound: seq<byte>, pos: nat, n: nat)
    requires NoStartFor(inbound, pos, n) && |inbound| < pos + 3 * n + 3
    ensures AwaitStart(inbound, pos) == None
    decreases n
  {
    if n == 0 {
      assert MsgAt(inbound, pos).Short?;
    } else {
      SkipOne(inbound, pos, n);
      AwaitStartShort(inbound, pos + 3, n - 1);
    }
  }

  /** What can come of get_update. */
  datatype Update = Updated(board: seq<char>, next: nat) | Failed(stop: Stop, next: nat)

  /** get_update: the acting player's identity and then the move, one digit each, and the
      move applied to the board. */
  function UpdateAt(inbound: seq<byte>, pos: nat, b: seq<char>): (r: Update)
    requires pos <= |inbound| && |b| == 9
    ensures r.next <= |inbound|
    ensures r.Updated? <==> pos + 2 <= |inbound| && 0 <= DecodeDigit(inbound[pos + 1]) < 9
    ensures r.Updated? ==>
      r.next == pos + 2 && r.board == Placed(b, DecodeDigit(inbound[pos]), DecodeDigit(inbound[pos + 1]))
    ensures r.Failed? && pos + 2 > |inbound| ==> r.stop == Fatal(ReadFailed) && r.next == |inbound|
    ensures r.Failed? && pos + 2 <= |inbound| ==>
      r.stop == MoveOutOfRange(DecodeDigit(inbound[pos + 1])) && r.next == pos + 2
  {
    match IntAt(inbound, pos)
    case Short(n) => Failed(Fatal(ReadFailed), n)
    case Got(id, p) =>
      match IntAt(inbound, p)
      case Short(n) => Failed(Fatal(ReadFailed), n)
      case Got(move, q) =>
        if 0 <= move < 9 then Updated(Placed(b, id, move), q) else Failed(MoveOutOfRange(move), q)
  }

  /** The outcome a closing tag announces. */
  function OutcomeOf(t: Tag): (o: Option<Outcome>)
    ensures o.Some? <==> t == WIN || t == LSE || t == DRW
  {
    match t
    case WIN => Some(Win)
    case LSE => Some(Lose)
    case DRW => Some(Draw)
    case _ => None
  }

  /** What the active loop does once the tag before `p` has been classified as `tag`. */
  function Dispatch(inbound: seq<byte>, lines: seq<seq<byte>>, c: Conf, tag: Option<Tag>, p: nat): (r: Step)
    requires Fits(inbound, lines, c) && c.pos < p <= |inbound|
    ensures r.Continue? ==> p <= r.next.pos && Fits(inbound, lines, r.next)
    ensures r.Stopped? ==> Fits(inbound, lines, r.halt.last)
  {
    match tag
    case Some(TRN) =>
      (match FirstAccepted(lines, c.line)
       case None => Stopped(Halted(NoMoreInput, c.(pos := p, line := |lines|)))
       case Some(k) =>
         Continue(c.(pos := p, line := k + 1, sent := c.sent + [EncodeDigit(MoveOf(lines[k]))])))
    case Some(INV) => Continue(c.(pos := p))
    case Some(CNT) =>
      (match IntAt(inbound, p)
       case Short(n) => Stopped(Halted(Fatal(ReadFailed), c.(pos := n)))
       case Got(_, q) => Continue(c.(pos := q)))
    case Some(UPD) =>
      (match UpdateAt(inbound, p, c.board)
       case Failed(stop, n) => Stopped(Halted(stop, c.(pos := n)))
       case Updated(b, n) => Continue(c.(pos := n, board := b, shown := c.shown + [Render(b)])))
    case Some(WAT) => Continue(c.(pos := p))
    case Some(WIN) | Some(LSE) | Some(DRW) => Stopped(Halted(Ended(OutcomeOf(tag.value).value), c.(pos := p)))
    case _ => Stopped(Halted(Fatal(UnknownMessage), c.(pos := p)))
  }

  /** One pass of the active loop: receive a tag and act on it. */
  function ActiveStep(inbound: seq<byte>, lines: seq<seq<byte>>, c: Conf): (r: Step)
    requires Fits(inbound, lines, c)
    ensures r.Continue? ==> c.pos < r.next.pos && Fits(inbound, lines, r.next)
    ensures r.Stopped? ==> Fits(inbound, lines, r.halt.last)
  {
    match MsgAt(inbound, c.pos)
    case Short(n) => Stopped(Halted(Fatal(ReadFailed), c.(pos := n)))
    case Got(msg, p) => Dispatch(inbound, lines, c, Classify(msg), p)
  }

  /** The active loop, run to its end. */
  function Active(inbound: seq<byte>, lines: seq<seq<byte>>, c: Conf): (h: Halted)
    requires Fits(inbound, lines, c)
    ensures Fits(inbound, lines, h.last)
    decreases |inbound| - c.pos
  {
    match ActiveStep(inbound, lines, c)
    case Continue(n) => Active(inbound, lines, n)
    case Stopped(h) => h
  }

  /** A pass that goes on leaves the rest of the loop to the state it produced. */
  lemma ActiveContinues(inbound: seq<byte>, lines: seq<seq<byte>>, c: Conf, n: Conf)
    requires Fits(inbound, lines, c) && ActiveStep(inbound, lines, c) == Continue(n)
    ensures Active(inbound, lines, c) == Active(inbound, lines, n)
  {
  }

  /** How the part of main before the active loop went: the identity digit read, and the
      cursor just after SRT. */
  datatype Begun = Begun(id: int, at: nat)

  /** The part of main before the active loop: the identity digit, then the wait for SRT.
      None when a read came up short on the way. */
  function Opening(inbound: seq<byte>): (r: Option<Begun>)
    ensures r.Some? ==> |inbound| > 0 && r.value.id == DecodeDigit(inbound[0])
    ensures r.Some? ==> 4 <= r.value.at <= |inbound|
  {
    match IntAt(inbound, 0)
    case Short(_) => None
    case Got(id, p) =>
      match AwaitStart(inbound, p)
      case None => None
      case Some(q) => Some(Begun(id, q))
  }

  /** The active loop starts only right after the SRT that ended the wait. */
  lemma OpeningEndsOnStart(inbound: seq<byte>)
    ensures Opening(inbound).Some? ==> TagAt(inbound, Opening(inbound).value.at - 3, SRT)
  {
    if |inbound| > 0 {
      AwaitStartEndsOnStart(inbound, 1);
    }
  }

  /** The whole session, from the identity digit to the end of the active loop. A failed
      read before the loop leaves the whole stream consumed. */
  function Play(inbound: seq<byte>, lines: seq<seq<byte>>): (f: Final)
  {
    match Opening(inbound)
    case None => Final(Fatal(ReadFailed), None, INITIAL.(pos := |inbound|))
    case Some(Begun(id, q)) =>
      var h := Active(inbound, lines, INITIAL.(pos := q, shown := [Render(BLANK)]));
      Final(h.stop, Some(Symbol(id)), h.last)
  }

  // ---------------------------------------------------------------------------------------
  // One step of the active loop, tag by tag

  /** A tag at the cursor is recognised as itself, whatever follows it. */
  lemma StepAt(inbound: seq<byte>, lines: seq<seq<byte>>, c: Conf, t: Tag)
    requires Fits(inbound, lines, c) && TagAt(inbound, c.pos, t)
    ensures ActiveStep(inbound, lines, c) == Dispatch(inbound, lines, c, Some(t), c.pos + 3)
  {
    ClassifyFrame(Frame(inbound, c.pos) + [NUL], t);
  }

  /** TRN: the client sends exactly one byte, the digit the first accepted line starts with,
      and nothing else changes; with no acceptable line left it never sends. */
  lemma StepOnTurn(inbound: seq<byte>, lines: seq<seq<byte>>, c: Conf)
    requires Fits(inbound, lines, c) && TagAt(inbound, c.pos, TRN)
    ensures ActiveStep(inbound, lines, c) == match FirstAccepted(lines, c.line)
      case Some(k) => Continue(c.(pos := c.pos + 3, line := k + 1, sent := c.sent + [lines[k][0]]))
      case None => Stopped(Halted(NoMoreInput, c.(pos := c.pos + 3, line := |lines|)))
  {
    StepAt(inbound, lines, c, TRN);
    match FirstAccepted(lines, c.line) {
      case Some(k) => AcceptsIffDigit(lines[k]);
      case None =>
    }
  }

  /** INV and WAT: nothing more is read, nothing is sent and the board is unchanged. */
  lemma StepOnNotice(inbound: seq<byte>, lines: seq<seq<byte>>, c: Conf, t: Tag)
    requires Fits(inbound, lines, c) && (t == INV || t == WAT) && TagAt(inbound, c.pos, t)
    ensures ActiveStep(inbound, lines, c) == Continue(c.(pos := c.pos + 3))
  {
    StepAt(inbound, lines, c, t);
  }

  /** CNT: exactly one more digit, the player count, is read; its absence is fatal. */
  lemma StepOnCount(inbound: seq<byte>, lines: seq<seq<byte>>, c: Conf)
    requires Fits(inbound, lines, c) && TagAt(inbound, c.pos, CNT)
    ensures ActiveStep(inbound, lines, c) ==
      if c.pos + 4 <= |inbound| then Continue(c.(pos := c.pos + 4))
      else Stopped(Halted(Fatal(ReadFailed), c.(pos := |inbound|)))
  {
    StepAt(inbound, lines, c, CNT);
  }

  /** UPD: exactly two more digits are read, the acting player and the move; the move's cell,
      and only it, gets that player's mark, and the board is drawn again. */
  lemma StepOnUpdate(inbound: seq<byte>, lines: seq<seq<byte>>, c: Conf)
    requires Fits(inbound, lines, c) && TagAt(inbound, c.pos, UPD)
    requires c.pos + 5 <= |inbound| && 0 <= DecodeDigit(inbound[c.pos + 4]) < 9
    ensures var b := Placed(c.board, DecodeDigit(inbound[c.pos + 3]), DecodeDigit(inbound[c.pos + 4]));
      ActiveStep(inbound, lines, c) == Continue(c.(pos := c.pos + 5, board := b, shown := c.shown + [Render(b)]))
  {
    StepAt(inbound, lines, c, UPD);
  }

  /** UPD with a missing digit is fatal, and with a move outside 0..8 it leaves the model. */
  lemma StepOnBadUpdate(inbound: seq<byte>, lines: seq<seq<byte>>, c: Conf)
    requires Fits(inbound, lines, c) && TagAt(inbound, c.pos, UPD)
    requires !(c.pos + 5 <= |inbound| && 0 <= DecodeDigit(inbound[c.pos + 4]) < 9)
    ensures ActiveStep(inbound, lines, c).Stopped?
    ensures var h := ActiveStep(inbound, lines, c).halt;
      h.last.board == c.board && h.last.sent == c.sent &&
      h.stop == if c.pos + 5 <= |inbound| then MoveOutOfRange(DecodeDigit(inbound[c.pos + 4]))
                else Fatal(ReadFailed)
  {
    StepAt(inbound, lines, c, UPD);
  }

  /** WIN, LSE and DRW end the loop with that outcome, after the three tag bytes. */
  lemma StepOnEnd(inbound: seq<byte>, lines: seq<seq<byte>>, c: Conf, t: Tag)
    requires Fits(inbound, lines, c) && OutcomeOf(t).Some? && TagAt(inbound, c.pos, t)
    ensures ActiveStep(inbound, lines, c) == Stopped(Halted(Ended(OutcomeOf(t).value), c.(pos := c.pos + 3)))
  {
    StepAt(inbound, lines, c, t);
  }

  /** Three bytes that are none of the active-phase tags (HLD and SRT included) are fatal. */
  lemma StepOnUnknown(inbound: seq<byte>, lines: seq<seq<byte>>, c: Conf)
    requires Fits(inbound, lines, c) && c.pos + 3 <= |inbound|
    requires forall t: Tag :: TagAt(inbound, c.pos, t) ==> t == HLD || t == SRT
    ensures ActiveStep(inbound, lines, c) == Stopped(Halted(Fatal(UnknownMessage), c.(pos := c.pos + 3)))
  {
    var msg := Frame(inbound, c.pos) + [NUL];
    var r := Classify(msg);
    if r.Some? {
      ClassifyFrame(msg, r.value);
      assert TagAt(inbound, c.pos, r.value);
    }
  }

  /** Fewer than three bytes left for a tag is fatal. */
  lemma StepOnShortRead(inbound: seq<byte>, lines: seq<seq<byte>>, c: Conf)
    requires Fits(inbound, lines, c) && c.pos + 3 > |inbound|
    ensures ActiveStep(inbound, lines, c) == Stopped(Halted(Fatal(ReadFailed), c.(pos := |inbound|)))
  {
  }

  // ---------------------------------------------------------------------------------------
  // What every step keeps

  /** The board holds only spaces and marks, and only digit bytes have been sent. */
  ghost predicate Sound(c: Conf) {
    WellFormed(c.board) && forall i :: 0 <= i < |c.sent| ==> IsDigitByte(c.sent[i])
  }

  /** `d` comes after `c`: the cursors only advance, what was sent and drawn stays as it was,
      and no mark on the board is turned back into a space. */
  ghost predicate Extends(c: Conf, d: Conf) {
    && c.pos <= d.pos && c.line <= d.line
    && c.sent <= d.sent && c.shown <= d.shown
    && |c.board| == 9 && |d.board| == 9
    && forall k :: 0 <= k < 9 && c.board[k] != ' ' ==> d.board[k] != ' '
  }

  /** The state a step leaves behind, whether the loop goes on or not. */
  function After(s: Step): Conf {
    match s
    case Continue(n) => n
    case Stopped(h) => h.last
  }

  /** An answered turn appends one digit byte to what was sent and changes nothing else. */
  lemma TurnPreserves(inbound: seq<byte>, lines: seq<seq<byte>>, c: Conf, p: nat)
    requires Fits(inbound, lines, c) && c.pos < p <= |inbound| && Sound(c)
    ensures var d := After(Dispatch(inbound, lines, c, Some(TRN), p)); Sound(d) && Extends(c, d)
  {
    match FirstAccepted(lines, c.line) {
      case Some(k) =>
        AcceptsIffDigit(lines[k]);
        assert Dispatch(inbound, lines, c, Some(TRN), p).next.sent == c.sent + [lines[k][0]];
      case None =>
    }
  }

  /** An update only ever writes a mark into a cell. */
  lemma UpdatePreserves(inbound: seq<byte>, lines: seq<seq<byte>>, c: Conf, p: nat)
    requires Fits(inbound, lines, c) && c.pos < p <= |inbound| && Sound(c)
    ensures var d := After(Dispatch(inbound, lines, c, Some(UPD), p)); Sound(d) && Extends(c, d)
  {
    if UpdateAt(inbound, p, c.board).Updated? {
      PlacedKeepsCells(c.board, DecodeDigit(inbound[p]), DecodeDigit(inbound[p + 1]));
    }
  }

  lemma DispatchPreserves(inbound: seq<byte>, lines: seq<seq<byte>>, c: Conf, tag: Option<Tag>, p: nat)
    requires Fits(inbound, lines, c) && c.pos < p <= |inbound| && Sound(c)
    ensures var d := After(Dispatch(inbound, lines, c, tag, p)); Sound(d) && Extends(c, d)
  {
    if tag == Some(TRN) {
      TurnPreserves(inbound, lines, c, p);
    } else if tag == Some(UPD) {
      UpdatePreserves(inbound, lines, c, p);
    }
  }

  lemma StepPreserves(inbound: seq<byte>, lines: seq<seq<byte>>, c: Conf)
    requires Fits(inbound, lines, c) && Sound(c)
    ensures var d := After(ActiveStep(inbound, lines, c)); Sound(d) && Extends(c, d)
  {
    match MsgAt(inbound, c.pos) {
      case Short(_) =>
      case Got(msg, p) => DispatchPreserves(inbound, lines, c, Classify(msg), p);
    }
  }

  /** The whole active loop keeps `Sound` and only moves forward. */
  lemma {:induction false} ActivePreserves(inbound: seq<byte>, lines: seq<seq<byte>>, c: Conf)
    requires Fits(inbound, lines, c) && Sound(c)
    ensures Sound(Active(inbound, lines, c).last) && Extends(c, Active(inbound, lines, c).last)
    decreases |inbound| - c.pos
  {
    StepPreserves(inbound, lines, c);
    match ActiveStep(inbound, lines, c)
    case Continue(n) =>
      ActivePreserves(inbound, lines, n);
    case Stopped(h) =>
  }

  /** Over a whole session: every board cell is a space, 'O' or 'X'; only digits are sent;
      the mark announced is the one `Symbol` gives the identity digit, and it is announced
      exactly when SRT arrived; the empty board is the first thing drawn; a session that
      never got that far failed on a read. */
  lemma PlaySound(inbound: seq<byte>, lines: seq<seq<byte>>)
    ensures var f := Play(inbound, lines);
      && Sound(f.last) && f.last.pos <= |inbound| && f.last.line <= |lines|
      && (f.announced.Some? ==>
            |inbound| > 0 && f.announced == Some(Symbol(DecodeDigit(inbound[0])))
            && |f.last.shown| > 0 && f.last.shown[0] == Render(BLANK))
      && (f.announced.None? ==> f.stop == Fatal(ReadFailed) && f.last.board == BLANK && f.last.sent == [])
    ensures Play(inbound, lines).announced.Some? <==> Opening(inbound).Some?
    ensures Play(inbound, lines).announced.Some? ==> TagAt(inbound, Opening(inbound).value.at - 3, SRT)
  {
    OpeningEndsOnStart(inbound);
    match Opening(inbound)
    case None =>
    case Some(Begun(id, q)) =>
        var c := INITIAL.(pos := q, shown := [Render(BLANK)]);
        ActivePreserves(inbound, lines, c);
        assert c.shown <= Active(inbound, lines, c).last.shown;
  }

  // ---------------------------------------------------------------------------------------
  // Two sessions traced through

  /** UPD by player 1 at cell 4, then WIN: 'X' goes in the centre cell, the board is drawn
      once more, and the client wins. */
  lemma UpdateThenWin(inbound: seq<byte>, lines: seq<seq<byte>>, c: Conf)
    requires Fits(inbound, lines, c) && c.pos + 8 <= |inbound|
    requires TagAt(inbound, c.pos, UPD) && TagAt(inbound, c.pos + 5, WIN)
    requires inbound[c.pos + 3] == EncodeDigit(1) && inbound[c.pos + 4] == EncodeDigit(4)
    ensures var b := Placed(c.board, 1, 4);
      Active(inbound, lines, c) == Halted(Ended(Win), c.(pos := c.pos + 8, board := b, shown := c.shown + [Render(b)]))
  {
    StepOnUpdate(inbound, lines, c);
    var b := Placed(c.board, 1, 4);
    var c1 := c.(pos := c.pos + 5, board := b, shown := c.shown + [Render(b)]);
    assert ActiveStep(inbound, lines, c) == Continue(c1);
    StepOnEnd(inbound, lines, c1, WIN);
  }

  /** The identity digit, then any number of messages other than SRT, then SRT: the active
      loop starts just after the SRT, with the identity the digit gives. */
  lemma OpeningAfterWaits(inbound: seq<byte>, n: nat)
    requires |inbound| > 0 && NoStartFor(inbound, 1, n) && TagAt(inbound, 1 + 3 * n, SRT)
    ensures Opening(inbound) == Some(Begun(DecodeDigit(inbound[0]), 4 + 3 * n))
  {
    assert IntAt(inbound, 0) == Got(DecodeDigit(inbound[0]), 1);
    AwaitStartSkips(inbound, 1, n);
  }

  /** TRN with an acceptable line next: its first byte is sent, and the loop goes on. */
  lemma TurnAnswered(inbound: seq<byte>, lines: seq<seq<byte>>, c: Conf)
    requires Fits(inbound, lines, c) && TagAt(inbound, c.pos, TRN)
    requires c.line < |lines| && Accepts(lines[c.line])
    ensures ActiveStep(inbound, lines, c)
      == Continue(c.(pos := c.pos + 3, line := c.line + 1, sent := c.sent + [FirstByte(lines[c.line])]))
  {
    StepOnTurn(inbound, lines, c);
    assert FirstAccepted(lines, c.line) == Some(c.line);
  }

  /** From any state: TRN answered with "4", UPD by player 1 at cell 4, WIN. The client
      sends '4', puts 'X' in the centre cell, draws the board once more, and wins. */
  lemma TurnUpdateWin(inbound: seq<byte>, lines: seq<seq<byte>>, c: Conf)
    requires Fits(inbound, lines, c) && c.pos + 11 <= |inbound|
    requires TagAt(inbound, c.pos, TRN) && TagAt(inbound, c.pos + 3, UPD) && TagAt(inbound, c.pos + 8, WIN)
    requires inbound[c.pos + 6] == EncodeDigit(1) && inbound[c.pos + 7] == EncodeDigit(4)
    requires c.line < |lines| && lines[c.line] == [EncodeDigit(4)]
    ensures var b := Placed(c.board, 1, 4);
      Active(inbound, lines, c)
        == Halted(Ended(Win), Conf(c.pos + 11, c.line + 1, c.sent + [EncodeDigit(4)], b, c.shown + [Render(b)]))
  {
    assert Accepts(lines[c.line]) by {
      assert FirstByte(lines[c.line]) == EncodeDigit(4);
    }
    var c1 := c.(pos := c.pos + 3, line := c.line + 1, sent := c.sent + [FirstByte(lines[c.line])]);
    TurnAnswered(inbound, lines, c);
    ActiveContinues(inbound, lines, c, c1);
    UpdateThenWin(inbound, lines, c1);
  }

  /** A short game the client wins: the server sends identity 1, HLD, SRT, TRN, then UPD
      by player 1 at cell 4, then WIN, and the user answers the turn with "4". Whatever
      follows is never read: the client is 'X', skips the HLD, sends '4', ends with 'X' in
      the centre cell, and wins. */
  lemma WinScenario(inbound: seq<byte>, lines: seq<seq<byte>>)
    requires |inbound| >= 18 && inbound[0] == EncodeDigit(1)
    requires TagAt(inbound, 1, HLD) && TagAt(inbound, 4, SRT) && TagAt(inbound, 7, TRN)
    requires TagAt(inbound, 10, UPD) && TagAt(inbound, 15, WIN)
    requires inbound[13] == EncodeDigit(1) && inbound[14] == EncodeDigit(4)
    requires |lines| > 0 && lines[0] == [EncodeDigit(4)]
    ensures var f := Play(inbound, lines);
            && f.stop == Ended(Win) && f.announced == Some('X') && f.last.pos == 18
            && f.last.sent == [EncodeDigit(4)] && f.last.board == Placed(BLANK, 1, 4)
            && f.last.board[4] == 'X' && f.last.shown == [Render(BLANK), Render(f.last.board)]
  {
    OtherTagIsNoStart(inbound, 1, HLD);
    OpeningAfterWaits(inbound, 1);
    TurnUpdateWin(inbound, lines, INITIAL.(pos := 7, shown := [Render(BLANK)]));
  }

  /** TRN answered by an acceptable line, then INV or WAT: the line's first byte is sent and
      the loop carries on six bytes further, with the board untouched. */
  lemma TurnThenNotice(inbound: seq<byte>, lines: seq<seq<byte>>, c: Conf, t: Tag)
    requires Fits(inbound, lines, c) && (t == INV || t == WAT)
    requires TagAt(inbound, c.pos, TRN) && TagAt(inbound, c.pos + 3, t)
    requires c.line < |lines| && Accepts(lines[c.line])
    ensures Active(inbound, lines, c)
      == Active(inbound, lines, c.(pos := c.pos + 6, line := c.line + 1, sent := c.sent + [FirstByte(lines[c.line])]))
  {
    var c1 := c.(pos := c.pos + 3, line := c.line + 1, sent := c.sent + [FirstByte(lines[c.line])]);
    assert Active(inbound, lines, c) == Active(inbound, lines, c1) by {
      TurnAnswered(inbound, lines, c);
      ActiveContinues(inbound, lines, c, c1);
    }
    assert Active(inbound, lines, c1) == Active(inbound, lines, c1.(pos := c1.pos + 3)) by {
      StepOnNotice(inbound, lines, c1, t);
      ActiveContinues(inbound, lines, c1, c1.(pos := c1.pos + 3));
    }
  }

  /** TRN, INV, TRN, WAT: a move the server refuses is followed by a fresh prompt that reads
      the next acceptable line, so the client sends the first bytes of two lines in order,
      leaves the board untouched, and is still in the active loop. */
  lemma RetryAfterInvalid(inbound: seq<byte>, lines: seq<seq<byte>>, c: Conf)
    requires Fits(inbound, lines, c)
    requires TagAt(inbound, c.pos, TRN) && TagAt(inbound, c.pos + 3, INV)
    requires TagAt(inbound, c.pos + 6, TRN) && TagAt(inbound, c.pos + 9, WAT)
    requires c.line + 2 <= |lines| && Accepts(lines[c.line]) && Accepts(lines[c.line + 1])
    ensures Active(inbound, lines, c)
      == Active(inbound, lines, c.(pos := c.pos + 12, line := c.line + 2,
                                   sent := c.sent + [FirstByte(lines[c.line])] + [FirstByte(lines[c.line + 1])]))
  {
    TurnThenNotice(inbound, lines, c, INV);
    var c1 := c.(pos := c.pos + 6, line := c.line + 1, sent := c.sent + [FirstByte(lines[c.line])]);
    TurnThenNotice(inbound, lines, c1, WAT);
  }
}
