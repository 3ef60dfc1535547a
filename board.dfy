/** The client's copy of the 3x3 game board: a `char` grid whose cells hold a space, 'O' or
    'X', updated in place by a move and drawn as fixed text.

    Cells are numbered 0..8 row by row, so cell `k` is row `k / 3`, column `k % 3`; for these
    non-negative indices C's truncating `/` and `%` agree with Dafny's. */
module Board {

  /** The board as the client starts it: every cell a space. */
  const BLANK: seq<char> := [' ', ' ', ' ', ' ', ' ', ' ', ' ', ' ', ' ']

  predicate IsCell(c: char) {
    c == ' ' || c == 'O' || c == 'X'
  }

  /** Nine cells, each a space, 'O' or 'X'. */
  predicate WellFormed(b: seq<char>) {
    |b| == 9 && forall k :: 0 <= k < 9 ==> IsCell(b[k])
  }

  /** `player_id ? 'X' : 'O'`: the mark of a player identity, used both for a board update and
      for the "You are" announcement. */
  function Symbol(id: int): (c: char)
  {
    if id != 0 then 'X' else 'O'
  }

  /** The two identities the server hands out get the two different marks, 0 the 'O' and 1
      the 'X', and every identity the server may name in an update gets one of them. */
  lemma SymbolOfIdentity(id: int)
    ensures Symbol(0) == 'O' && Symbol(1) == 'X'
    ensures IsCell(Symbol(id)) && Symbol(id) != ' '
    ensures Symbol(id) == 'X' <==> id != 0
  {
  }

  /** The board after `player_id` plays `move`. */
  function Placed(b: seq<char>, id: int, move: int): (r: seq<char>)
    requires |b| == 9 && 0 <= move < 9
    ensures |r| == 9 && r[move] == Symbol(id)
    ensures forall k :: 0 <= k < 9 && k != move ==> r[k] == b[k]
  {
    b[move := Symbol(id)]
  }

  /** A move keeps every cell a space or a mark, and never turns a mark back into a space. */
  lemma PlacedKeepsCells(b: seq<char>, id: int, move: int)
    requires WellFormed(b) && 0 <= move < 9
    ensures WellFormed(Placed(b, id, move))
    ensures forall k :: 0 <= k < 9 && b[k] != ' ' ==> Placed(b, id, move)[k] != ' '
  {
    forall k | 0 <= k < 9
      ensures IsCell(Placed(b, id, move)[k])
    {
      if k == move {
        SymbolOfIdentity(id);
      }
    }
  }

  /** One row as draw_board prints it: `" %c | %c | %c \n"`. */
  function Line(x: char, y: char, z: char): string {
    [' ', x, ' ', '|', ' ', y, ' ', '|', ' ', z, ' ', '\n']
  }

  /** The rule draw_board prints between rows. */
  const RULE: string := "-----------\n"

  /** The text draw_board prints for a board. */
  function Render(b: seq<char>): (text: string)
    requires |b| == 9
    ensures |text| == 60
  {
    Line(b[0], b[1], b[2]) + (RULE + (Line(b[3], b[4], b[5]) + (RULE + Line(b[6], b[7], b[8]))))
  }

  /** Where cell `k` appears in the rendered text: twelve characters per printed line, two
      printed lines per board row, four characters per column. */
  function CellOffset(k: int): (i: int)
    requires 0 <= k < 9
    ensures 0 <= i < 60
  {
    24 * (k / 3) + 1 + 4 * (k % 3)
  }

  /** The rendering shows each cell at its offset. */
  lemma RenderShowsCell(b: seq<char>, k: int)
    requires |b| == 9 && 0 <= k < 9
    ensures Render(b)[CellOffset(k)] == b[k]
  {
    var text := Render(b);
    assert text[1] == b[0] && text[5] == b[1] && text[9] == b[2];
    assert text[25] == b[3] && text[29] == b[4] && text[33] == b[5];
    assert text[49] == b[6] && text[53] == b[7] && text[57] == b[8];
    assert CellOffset(k) == [1, 5, 9, 25, 29, 33, 49, 53, 57][k];
  }

  /** Apart from its three cells, a printed row is the same text whatever the cells hold. */
  lemma LineFrameFixed(x: char, y: char, z: char, x': char, y': char, z': char, j: int)
    requires 0 <= j < 12 && j != 1 && j != 5 && j != 9
    ensures Line(x, y, z)[j] == Line(x', y', z')[j]
  {
  }

  /** Every character that is not a cell is the same for all boards. */
  lemma RenderFrameFixed(a: seq<char>, b: seq<char>, i: int)
    requires |a| == 9 && |b| == 9 && 0 <= i < 60
    requires forall k :: 0 <= k < 9 ==> i != CellOffset(k)
    ensures Render(a)[i] == Render(b)[i]
  {
    if i < 12 {
      assert i != CellOffset(0) && i != CellOffset(1) && i != CellOffset(2);
      LineFrameFixed(a[0], a[1], a[2], b[0], b[1], b[2], i);
    } else if i < 24 {
    } else if i < 36 {
      assert i != CellOffset(3) && i != CellOffset(4) && i != CellOffset(5);
      LineFrameFixed(a[3], a[4], a[5], b[3], b[4], b[5], i - 24);
    } else if i < 48 {
    } else {
      assert i != CellOffset(6) && i != CellOffset(7) && i != CellOffset(8);
      LineFrameFixed(a[6], a[7], a[8], b[6], b[7], b[8], i - 48);
    }
  }

  /** Different boards are drawn differently: the rendering determines the board. */
  lemma RenderInjective(a: seq<char>, b: seq<char>)
    requires |a| == 9 && |b| == 9 && Render(a) == Render(b)
    ensures a == b
  {
    forall k | 0 <= k < 9
      ensures a[k] == b[k]
    {
      RenderShowsCell(a, k);
      RenderShowsCell(b, k);
    }
  }

  /** The cells of the `char board[3][3]` array, row by row. */
  function Flatten(a: array2<char>): (b: seq<char>)
    requires a.Length0 == 3 && a.Length1 == 3
    reads a
    ensures |b| == 9 && forall k :: 0 <= k < 9 ==> b[k] == a[k / 3, k % 3]
  {
    [a[0, 0], a[0, 1], a[0, 2], a[1, 0], a[1, 1], a[1, 2], a[2, 0], a[2, 1], a[2, 2]]
  }

  /** get_update's `board[move/3][move%3] = player_id ? 'X' : 'O'`. */
  method PlaceMark(a: array2<char>, id: int, move: int)
    requires a.Length0 == 3 && a.Length1 == 3 && 0 <= move < 9
    modifies a
    ensures Flatten(a) == Placed(old(Flatten(a)), id, move)
  {
    a[move / 3, move % 3] := Symbol(id);
  }

  /** draw_board: the text printed for the array's current cells. */
  method Draw(a: array2<char>) returns (text: string)
    requires a.Length0 == 3 && a.Length1 == 3
    ensures text == Render(Flatten(a))
  {
    text := Line(a[0, 0], a[0, 1], a[0, 2])
      + (RULE + (Line(a[1, 0], a[1, 1], a[1, 2]) + (RULE + Line(a[2, 0], a[2, 1], a[2, 2]))));
  }
}
