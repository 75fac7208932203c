/**
 * The text form of a board: each of the `size * size` cells, in row-major order,
 * written as its text followed by one space, with a line break after every
 * `size`-th cell.
 *
 * The layout is stated over any cell renderer `cell: nat -> string`; the
 * builders instantiate it with the emoji lookup of `CellRenderer`.
 */
module BoardText {
  import opened Game
  import opened Arithmetic

  /** What `emojies[boardData[i]]` evaluates to when `i` is past the end of the data. */
  const Undefined := "undefined"

  /** The emoji of cell `i`, or the text of `undefined` past the end of the data. */
  function CellText(emojies: Triple<string>, data: seq<Player>, i: nat): string
  {
    if i < |data| then emojies.At(data[i]) else Undefined
  }

  function CellRenderer(emojies: Triple<string>, data: seq<Player>): nat -> string
  {
    (i: nat) => CellText(emojies, data, i)
  }

  /** One step of the serialising loop: cell `i`, a space, and a line break when `i + 1` is a multiple of `size`. */
  function Chunk(cell: nat -> string, size: nat, i: nat): string
    requires size > 0
  {
    cell(i) + " " + (if (i + 1) % size == 0 then "\n" else "")
  }

  /** The text the serialising loop has written after its first `k` steps. */
  function Serialise(cell: nat -> string, size: nat, k: nat): string
    requires size > 0 || k == 0
  {
    if k == 0 then "" else Serialise(cell, size, k - 1) + Chunk(cell, size, k - 1)
  }

  /** The whole board: the loop runs over `size * size` cells. */
  function Board(emojies: Triple<string>, data: seq<Player>, size: nat): string
  {
    Serialise(CellRenderer(emojies, data), size, size * size)
  }

  // ---------------------------------------------------------------------------
  // A second, row-by-row description of the same text.

  /** Cells `start .. start + k - 1`, each followed by a space. */
  function Cells(cell: nat -> string, start: nat, k: nat): string
  {
    if k == 0 then "" else Cells(cell, start, k - 1) + cell(start + k - 1) + " "
  }

  /** The first `r` lines of a board of width `size`, each ending in a line break. */
  function Rows(cell: nat -> string, size: nat, r: nat): string
  {
    if r == 0 then "" else Rows(cell, size, r - 1) + Cells(cell, (r - 1) * size, size) + "\n"
  }

  /** Inside row `r` the loop writes the cells of that row and no line break. */
  lemma {:induction false} SerialiseWithinRow(cell: nat -> string, size: nat, r: nat, j: nat)
    requires 0 < size && j < size
    requires Serialise(cell, size, r * size) == Rows(cell, size, r)
    ensures Serialise(cell, size, r * size + j) == Rows(cell, size, r) + Cells(cell, r * size, j)
    decreases j
  {
    if j > 0 {
      var base := r * size;
      SerialiseWithinRow(cell, size, r, j - 1);
      DivModUnique(base + j, size, r, j);
      assert Chunk(cell, size, base + (j - 1)) == cell(base + j - 1) + " " + "";
    }
  }

  /** The last step of row `r - 1` writes its last cell and the line break. */
  lemma RowEnd(cell: nat -> string, size: nat, r: nat)
    requires r > 0 && size > 0
    ensures r * size == (r - 1) * size + size
    ensures Serialise(cell, size, r * size)
         == Serialise(cell, size, r * size - 1) + (cell(r * size - 1) + " " + "\n")
  {
  }

  /** After `r * size` steps the loop has written exactly the first `r` lines. */
  lemma {:induction false} SerialiseRows(cell: nat -> string, size: nat, r: nat)
    requires 0 < size
    ensures Serialise(cell, size, r * size) == Rows(cell, size, r)
    decreases r
  {
    if r > 0 {
      var prev: nat := r - 1;
      SerialiseRows(cell, size, prev);
      SerialiseWithinRow(cell, size, prev, size - 1);
      RowEnd(cell, size, r);
    }
  }

  /** The board is exactly `size` lines, line `r` listing cells `r * size .. r * size + size - 1`. */
  lemma BoardRows(emojies: Triple<string>, data: seq<Player>, size: nat)
    ensures Board(emojies, data, size) == Rows(CellRenderer(emojies, data), size, size)
  {
    if size > 0 {
      SerialiseRows(CellRenderer(emojies, data), size, size);
    }
  }

  // ---------------------------------------------------------------------------
  // Line breaks.

  function Count(s: string, c: char): nat
  {
    if |s| == 0 then 0 else Count(s[..|s| - 1], c) + (if s[|s| - 1] == c then 1 else 0)
  }

  lemma {:induction false} CountConcat(a: string, b: string, c: char)
    ensures Count(a + b, c) == Count(a, c) + Count(b, c)
    decreases |b|
  {
    if |b| == 0 {
      assert a + b == a;
    } else {
      assert (a + b)[..|a + b| - 1] == a + b[..|b| - 1];
      assert (a + b)[|a + b| - 1] == b[|b| - 1];
      CountConcat(a, b[..|b| - 1], c);
    }
  }

  lemma {:induction false} CountAbsent(s: string, c: char)
    requires c !in s
    ensures Count(s, c) == 0
    decreases |s|
  {
    if |s| > 0 {
      assert c !in s[..|s| - 1];
      CountAbsent(s[..|s| - 1], c);
    }
  }

  /** No cell text contains a line break. */
  ghost predicate Unbroken(cell: nat -> string)
  {
    forall i :: '\n' !in cell(i)
  }

  /** No emoji of the table contains a line break. */
  predicate NoLineBreak(emojies: Triple<string>)
  {
    '\n' !in emojies.none && '\n' !in emojies.first && '\n' !in emojies.second
  }

  lemma RendererUnbroken(emojies: Triple<string>, data: seq<Player>)
    requires NoLineBreak(emojies)
    ensures Unbroken(CellRenderer(emojies, data))
  {
  }

  /** Appending a cell's text and its space adds no line break. */
  lemma CountAppendCell(before: string, text: string)
    requires '\n' !in text
    ensures Count(before + (text + " "), '\n') == Count(before, '\n')
  {
    assert '\n' !in text + " ";
    CountAbsent(text + " ", '\n');
    CountConcat(before, text + " ", '\n');
  }

  lemma {:induction false} CellsHaveNoLineBreak(cell: nat -> string, start: nat, k: nat)
    requires Unbroken(cell)
    ensures Count(Cells(cell, start, k), '\n') == 0
    decreases k
  {
    if k > 0 {
      var text := cell(start + k - 1);
      CellsHaveNoLineBreak(cell, start, k - 1);
      CountAppendCell(Cells(cell, start, k - 1), text);
      assert Cells(cell, start, k) == Cells(cell, start, k - 1) + (text + " ");
    }
  }

  /** Appending a line without breaks, and then a break, adds one line break. */
  lemma CountLine(prev: string, line: string)
    requires Count(line, '\n') == 0
    ensures Count(prev + line + "\n", '\n') == Count(prev, '\n') + 1
  {
    assert Count("\n", '\n') == 1 by {
      assert "\n"[..0] == "";
    }
    CountConcat(prev + line, "\n", '\n');
    CountConcat(prev, line, '\n');
  }

  lemma {:induction false} RowsLineBreaks(cell: nat -> string, size: nat, r: nat)
    requires Unbroken(cell)
    ensures Count(Rows(cell, size, r), '\n') == r
    decreases r
  {
    if r > 0 {
      var prev: nat := r - 1;
      RowsLineBreaks(cell, size, prev);
      CellsHaveNoLineBreak(cell, prev * size, size);
      CountLine(Rows(cell, size, prev), Cells(cell, prev * size, size));
    }
  }

  /**
   * With emojis free of line breaks, the board holds exactly `size` line breaks,
   * ends with one when `size > 0`, and is empty exactly when `size == 0`.
   */
  lemma BoardShape(emojies: Triple<string>, data: seq<Player>, size: nat)
    requires NoLineBreak(emojies)
    ensures Count(Board(emojies, data, size), '\n') == size
    ensures size == 0 <==> Board(emojies, data, size) == ""
    ensures size > 0 ==> Board(emojies, data, size)[|Board(emojies, data, size)| - 1] == '\n'
  {
    BoardRows(emojies, data, size);
    RendererUnbroken(emojies, data);
    RowsLineBreaks(CellRenderer(emojies, data), size, size);
  }

  // ---------------------------------------------------------------------------
  // Cell contents, in index order.

  /** The emojis of cells `0 .. k - 1`, each followed by a space. */
  function Emojis(emojies: Triple<string>, data: seq<Player>, k: nat): string
    requires k <= |data|
  {
    if k == 0 then "" else Emojis(emojies, data, k - 1) + emojies.At(data[k - 1]) + " "
  }

  /** `s` with every line break removed. */
  function Unbreak(s: string): string
  {
    if |s| == 0 then "" else Unbreak(s[..|s| - 1]) + (if s[|s| - 1] == '\n' then "" else [s[|s| - 1]])
  }

  lemma {:induction false} UnbreakConcat(a: string, b: string)
    ensures Unbreak(a + b) == Unbreak(a) + Unbreak(b)
    decreases |b|
  {
    if |b| == 0 {
      assert a + b == a;
    } else {
      assert (a + b)[..|a + b| - 1] == a + b[..|b| - 1];
      assert (a + b)[|a + b| - 1] == b[|b| - 1];
      UnbreakConcat(a, b[..|b| - 1]);
    }
  }

  lemma {:induction false} UnbreakIdentity(s: string)
    requires '\n' !in s
    ensures Unbreak(s) == s
    decreases |s|
  {
    if |s| > 0 {
      assert '\n' !in s[..|s| - 1];
      UnbreakIdentity(s[..|s| - 1]);
    }
  }

  /** Appending break-free text, and perhaps a break, adds just that text once breaks are dropped. */
  lemma UnbreakAppend(before: string, t: string, withBreak: bool)
    requires '\n' !in t
    ensures Unbreak(before + (t + (if withBreak then "\n" else ""))) == Unbreak(before) + t
  {
    var brk := if withBreak then "\n" else "";
    UnbreakIdentity(t);
    UnbreakConcat(before, t + brk);
    UnbreakConcat(t, brk);
    assert Unbreak(brk) == "" by {
      if withBreak {
        assert brk[..0] == "";
      }
    }
  }

  /** Dropping the line breaks from the loop's output leaves the cells with their spaces. */
  lemma {:induction false} SerialiseUnbreak(cell: nat -> string, size: nat, k: nat)
    requires size > 0 && Unbroken(cell)
    ensures Unbreak(Serialise(cell, size, k)) == Cells(cell, 0, k)
    decreases k
  {
    if k > 0 {
      var t := cell(k - 1) + " ";
      SerialiseUnbreak(cell, size, k - 1);
      assert '\n' !in t;
      UnbreakAppend(Serialise(cell, size, k - 1), t, k % size == 0);
    }
  }

  lemma {:induction false} CellsAreEmojis(emojies: Triple<string>, data: seq<Player>, k: nat)
    requires k <= |data|
    ensures Cells(CellRenderer(emojies, data), 0, k) == Emojis(emojies, data, k)
    decreases k
  {
    if k > 0 {
      CellsAreEmojis(emojies, data, k - 1);
    }
  }

  /**
   * Dropping the line breaks from the board leaves, for every cell in index
   * order, its emoji followed by one space.
   */
  lemma BoardCellsInOrder(emojies: Triple<string>, data: seq<Player>, size: nat)
    requires |data| >= size * size && NoLineBreak(emojies)
    ensures Unbreak(Board(emojies, data, size)) == Emojis(emojies, data, size * size)
  {
    if size > 0 {
      RendererUnbroken(emojies, data);
      SerialiseUnbreak(CellRenderer(emojies, data), size, size * size);
      CellsAreEmojis(emojies, data, size * size);
    }
  }
}
