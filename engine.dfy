/** The client as it runs: a socket cursor, a board array updated in place, and a main loop
    that dispatches on each tag. Every method here is proved to do what the reference
    semantics in module Protocol says, so the whole run ends exactly as `Play` says it does.

    The server's bytes and the user's lines are fixed when the client is made: a receive
    takes the next bytes of `inbound` (fewer when the stream has run out) and a prompt takes
    the next element of `lines`. What error() does, printing and exiting, becomes a returned
    `Stop` after which nothing else happens. */
module Engine {
  import opened Wire
  import opened Tags
  import opened Board
  import opened Prompt
  import opened Protocol

  class Client {
    /** Everything the server sends over the connection, in order. */
    const inbound: seq<byte>
    /** Every line the user types, in order. */
    const lines: seq<seq<byte>>
    /** `char board[3][3]` */
    const board: array2<char>
    /** `char msg[4]`, the receive buffer of the main loop */
    const msg: array<byte>

    /** How many of the server's bytes have been received. */
    var pos: nat
    /** How many lines have been read from standard input. */
    var line: nat
    /** Every byte sent to the server so far. */
    var sent: seq<byte>
    /** Every board drawn so far, as printed. */
    var shown: seq<string>
    /** The mark printed by "You are %c's", once it has been. */
    var announced: Option<char>
    /** How many times the socket has been closed. */
    var closes: nat

    ghost predicate Valid()
      reads this
    {
      board.Length0 == 3 && board.Length1 == 3 && msg.Length == 4
      && pos <= |inbound| && line <= |lines|
    }

    /** The client's state in the terms of the reference semantics. */
    function Current(): (c: Conf)
      requires Valid()
      reads this, board
      ensures Fits(inbound, lines, c)
    {
      Conf(pos, line, sent, Flatten(board), shown)
    }

    /** A client connected to a server that will send `inbound`, with a user who will type
        `lines`; the board starts with every cell a space. */
    constructor (inbound: seq<byte>, lines: seq<seq<byte>>)
      ensures Valid() && fresh(board) && fresh(msg)
      ensures this.inbound == inbound && this.lines == lines
      ensures Current() == INITIAL && announced == None && closes == 0
    {
      this.inbound := inbound;
      this.lines := lines;
      board := new char[3, 3]((i, j) => ' ');
      msg := new byte[4](_ => NUL);
      pos, line, sent, shown := 0, 0, [], [];
      announced := None;
      closes := 0;
    }

    /** recv_msg: zero the four-byte buffer, receive up to three bytes into it, and report
        whether exactly three arrived. */
    method RecvMsg() returns (ok: bool)
      requires Valid()
      modifies this, msg
      ensures Valid() && old(pos) <= pos
      ensures msg[..] == Padded(Recv(inbound, old(pos), 3), 4)
      ensures MsgAt(inbound, old(pos)) == if ok then Got(msg[..], pos) else Short(pos)
      ensures line == old(line) && sent == old(sent) && shown == old(shown)
      ensures announced == old(announced) && closes == old(closes)
    {
      var i := 0;
      while i < 4
        invariant 0 <= i <= 4
        invariant forall j :: 0 <= j < i ==> msg[j] == NUL
        modifies msg
      {
        msg[i] := NUL;
        i := i + 1;
      }
      var got := Recv(inbound, pos, 3);
      var k := 0;
      while k < |got|
        invariant 0 <= k <= |got|
        invariant forall j :: 0 <= j < k ==> msg[j] == got[j]
        invariant forall j :: k <= j < 4 ==> msg[j] == NUL
        modifies msg
      {
        msg[k] := got[k];
        k := k + 1;
      }
      assert msg[..] == Padded(got, 4);
      MsgAtIsPaddedRecv(inbound, pos);
      pos := pos + |got|;
      ok := |got| == 3;
    }

    /** recv_int: receive one byte and return it minus '0'; None when nothing arrived. */
    method RecvInt() returns (r: Option<int>)
      requires Valid()
      modifies this
      ensures Valid() && old(pos) <= pos
      ensures IntAt(inbound, old(pos)) == if r.Some? then Got(r.value, pos) else Short(pos)
      ensures line == old(line) && sent == old(sent) && shown == old(shown)
      ensures announced == old(announced) && closes == old(closes)
    {
      var got := Recv(inbound, pos, 1);
      IntAtIsRecv(inbound, pos);
      pos := pos + |got|;
      if |got| == 1 {
        r := Some(DecodeDigit(got[0]));
      } else {
        r := None;
      }
    }

    /** write_server_int: send `v + '0'` as one byte. */
    method WriteServerInt(v: int)
      requires Valid()
      modifies this
      ensures Valid()
      ensures sent == old(sent) + [EncodeDigit(v)]
      ensures pos == old(pos) && line == old(line) && shown == old(shown)
      ensures announced == old(announced) && closes == old(closes)
    {
      sent := sent + [EncodeDigit(v)];
    }

    /** draw_board: print the board's current cells. */
    method DrawBoard()
      requires Valid()
      modifies this
      ensures Valid()
      ensures shown == old(shown) + [Render(Flatten(board))]
      ensures pos == old(pos) && line == old(line) && sent == old(sent)
      ensures announced == old(announced) && closes == old(closes)
    {
      var text := Board.Draw(board);
      shown := shown + [text];
    }

    /** take_turn: read lines until one starts with a digit and send that digit. When the
        input runs out first nothing is sent and `ok` is false. */
    method TakeTurn() returns (ok: bool)
      requires Valid()
      modifies this
      ensures Valid() && old(line) <= line
      ensures ok ==> 0 < line
      ensures FirstAccepted(lines, old(line)) == if ok then Some(line - 1) else None
      ensures ok ==> sent == old(sent) + [EncodeDigit(MoveOf(lines[line - 1]))]
      ensures !ok ==> line == |lines| && sent == old(sent)
      ensures pos == old(pos) && shown == old(shown)
      ensures announced == old(announced) && closes == old(closes)
    {
      while true
        invariant Valid() && old(line) <= line
        invariant FirstAccepted(lines, line) == FirstAccepted(lines, old(line))
        invariant sent == old(sent) && pos == old(pos) && shown == old(shown)
        invariant announced == old(announced) && closes == old(closes)
        decreases |lines| - line
      {
        if line == |lines| {
          return false;
        }
        var buffer := lines[line];
        line := line + 1;
        var move := DecodeDigit(FirstByte(buffer));
        if move <= 9 && move >= 0 {
          WriteServerInt(move);
          return true;
        }
      }
    }

    /** get_update: receive the acting player's identity and the move, and mark the move's
        cell. A missing digit or a move outside 0..8 is reported and the board is left
        as it was. */
    method GetUpdate() returns (failure: Option<Stop>)
      requires Valid()
      modifies this, board
      ensures Valid() && old(pos) <= pos
      ensures UpdateAt(inbound, old(pos), old(Flatten(board)))
        == if failure.None? then Updated(Flatten(board), pos) else Failed(failure.value, pos)
      ensures failure.Some? ==> Flatten(board) == old(Flatten(board))
      ensures line == old(line) && sent == old(sent) && shown == old(shown)
      ensures announced == old(announced) && closes == old(closes)
    {
      var player := RecvInt();
      if player.None? {
        return Some(Fatal(ReadFailed));
      }
      var move := RecvInt();
      if move.None? {
        return Some(Fatal(ReadFailed));
      }
      if !(0 <= move.value < 9) {
        return Some(MoveOutOfRange(move.value));
      }
      PlaceMark(board, player.value, move.value);
      failure := None;
    }

    /** The wait loop of main: receive tags until one is SRT. False when a receive came up
        short, which error() makes fatal. */
    method WaitForStart() returns (started: bool)
      requires Valid()
      modifies this, msg
      ensures Valid()
      ensures AwaitStart(inbound, old(pos)) == if started then Some(pos) else None
      ensures !started ==> pos == |inbound|
      ensures line == old(line) && sent == old(sent) && shown == old(shown)
      ensures announced == old(announced) && closes == old(closes)
    {
      while true
        invariant Valid() && old(pos) <= pos
        invariant AwaitStart(inbound, pos) == AwaitStart(inbound, old(pos))
        invariant line == old(line) && sent == old(sent) && shown == old(shown)
        invariant announced == old(announced) && closes == old(closes)
        decreases |inbound| - pos
      {
        var ok := RecvMsg();
        if !ok {
          return false;
        }
        if Classify(msg[..]) == Some(SRT) {
          return true;
        }
      }
    }

    /** The UPD branch of main's active loop: get_update, then draw_board. */
    method UpdateAndDraw() returns (failure: Option<Stop>)
      requires Valid()
      modifies this, board
      ensures Valid()
      ensures match UpdateAt(inbound, old(pos), old(Flatten(board)))
        case Updated(b, n) =>
          failure.None? && Current() == old(Current()).(pos := n, board := b, shown := old(shown) + [Render(b)])
        case Failed(s, n) => failure == Some(s) && Current() == old(Current()).(pos := n)
      ensures announced == old(announced) && closes == old(closes)
    {
      failure := GetUpdate();
      if failure.None? {
        DrawBoard();
      }
    }

    /** One pass of the active loop of main: receive a tag and act on it. None means the
        loop goes round again; otherwise how it stopped. */
    method Step() returns (stop: Option<Stop>)
      requires Valid()
      modifies this, msg, board
      ensures Valid()
      ensures ActiveStep(inbound, lines, old(Current()))
        == if stop.None? then Continue(Current()) else Stopped(Halted(stop.value, Current()))
      ensures announced == old(announced) && closes == old(closes)
    {
      ghost var before := Current();
      var ok := RecvMsg();
      if !ok {
        return Some(Fatal(ReadFailed));
      }
      ghost var p := pos;
      assert ActiveStep(inbound, lines, before) == Dispatch(inbound, lines, before, Classify(msg[..]), p);
      match Classify(msg[..]) {
        case Some(TRN) =>
          var answered := TakeTurn();
          stop := if answered then None else Some(NoMoreInput);
        case Some(INV) =>
          stop := None;
        case Some(CNT) =>
          var count := RecvInt();
          stop := if count.Some? then None else Some(Fatal(ReadFailed));
        case Some(UPD) =>
          stop := UpdateAndDraw();
        case Some(WAT) =>
          stop := None;
        case Some(WIN) =>
          stop := Some(Ended(Win));
        case Some(LSE) =>
          stop := Some(Ended(Lose));
        case Some(DRW) =>
          stop := Some(Ended(Draw));
        case _ =>
          stop := Some(Fatal(UnknownMessage));
      }
    }

    /** The start of main: read the identity digit, wait for SRT, announce the mark and draw
        the empty board. None when a read failed, which error() makes fatal. */
    method Begin() returns (id: Option<int>)
      requires Valid() && Current() == INITIAL && announced == None && closes == 0
      modifies this, msg
      ensures Valid() && closes == 0
      ensures Opening(inbound) == if id.Some? then Some(Begun(id.value, pos)) else None
      ensures id.None? ==> Current() == INITIAL.(pos := |inbound|) && announced == None
      ensures id.Some? ==>
        Current() == INITIAL.(pos := pos, shown := [Render(BLANK)]) && announced == Some(Symbol(id.value))
    {
      id := RecvInt();
      if id.None? {
        return;
      }
      var started := WaitForStart();
      if !started {
        return None;
      }
      announced := Some(Symbol(id.value));
      DrawBoard();
    }

    /** The active loop of main: one step after another until one stops it. */
    method ActiveLoop() returns (stop: Stop)
      requires Valid()
      modifies this, msg, board
      ensures Valid()
      ensures Active(inbound, lines, old(Current())) == Halted(stop, Current())
      ensures announced == old(announced) && closes == old(closes)
    {
      ghost var h := Active(inbound, lines, Current());
      while true
        invariant Valid()
        invariant Active(inbound, lines, Current()) == h
        invariant announced == old(announced) && closes == old(closes)
        decreases |inbound| - pos
      {
        ghost var before := Current();
        var next := Step();
        if next.Some? {
          assert Active(inbound, lines, before) == Halted(next.value, Current());
          return next.value;
        }
      }
    }

    /** main from the identity digit on. The socket is closed once when the game has ended
        with WIN, LSE or DRW, and never when error() ended the process first. */
    method Run() returns (stop: Stop)
      requires Valid() && Current() == INITIAL && announced == None && closes == 0
      modifies this, msg, board
      ensures Valid()
      ensures Final(stop, announced, Current()) == Play(inbound, lines)
      ensures closes == if stop.Ended? then 1 else 0
    {
      var id := Begin();
      if id.None? {
        return Fatal(ReadFailed);
      }
      stop := ActiveLoop();
      if stop.Ended? {
        closes := closes + 1;
      }
    }
  }
}
