/** The renderer: one pass over the lines with four flags and a growing output. */
module MarkdownRenderer {
  import opened HtmlReader
  import opened Markdown
  import opened Wrappers

  // Inline text

  /** Escape first, then drop every backtick. */
  function InlineMarkdown(text: string): string {
    WithoutTicks(Escape(text))
  }

  lemma {:induction false} NoTicks(s: string)
    requires '`' !in s
    ensures WithoutTicks(s) == s
  {
    if s != [] {
      assert s[0] in s;
      NoTicks(s[1..]);
    }
  }

  lemma EscapedCharTicks(c: char)
    ensures WithoutTicks(EscapeChar(c)) == Escape(UnlessTick(c))
  {
    if c != '`' {
      assert '`' !in EscapeChar(c);
      NoTicks(EscapeChar(c));
      assert [c][1..] == "" && Escape([c]) == EscapeChar(c) + Escape("") == EscapeChar(c);
    } else {
      assert EscapeChar(c) == ['`'] && EscapeChar(c)[1..] == "";
      assert WithoutTicks(EscapeChar(c)) == UnlessTick('`') + WithoutTicks("") == "";
    }
  }

  /** Dropping backticks after escaping drops exactly the text's own backticks: no escape contains one. */
  lemma {:induction false} InlineIsEscaped(text: string)
    ensures InlineMarkdown(text) == Escape(WithoutTicks(text))
  {
    if text != [] {
      InlineIsEscaped(text[1..]);
      EscapedCharTicks(text[0]);
      SpelledAppends(EscapeChar(text[0]), Escape(text[1..]), UnlessTick);
      SpelledAppends(UnlessTick(text[0]), WithoutTicks(text[1..]), EscapeChar);
    }
  }

  lemma JoinedOfThree(p: Piece, q: Piece, r: Piece, show: Piece -> string)
    ensures Joined([p, q, r], show) == show(p) + show(q) + show(r)
  {
    assert [p, q, r][1..] == [q, r] && [q, r][1..] == [r] && [r][1..] == [];
    assert Joined([r], show) == show(r) + "" == show(r);
    assert Joined([q, r], show) == show(q) + show(r);
  }

  lemma BlockShows(t: Tag, text: string)
    ensures ShowAll(Block(t, text)) == Show(Open(t)) + InlineMarkdown(text) + Show(Close(t))
  {
    JoinedOfThree(Open(t), Piece.Text(WithoutTicks(text)), Close(t), Show);
    InlineIsEscaped(text);
  }

  lemma EscapedLine(line: string)
    ensures Escape(line + "\n") == Escape(line) + "\n"
  {
    SpelledAppends(line, "\n", EscapeChar);
    assert Escape("\n") == "\n";
  }

  lemma OneTextAppends(pieces: seq<Piece>, text: string)
    ensures ShowAll(pieces + [Piece.Text(text)]) == ShowAll(pieces) + Escape(text)
  {
    JoinedAppends(pieces, [Piece.Text(text)], Show);
    assert Joined([Piece.Text(text)], Show) == Escape(text) + "" == Escape(text);
  }

  lemma Regroup<T>(a: seq<T>, b: seq<T>, c: seq<T>)
    ensures a + b + c == a + (b + c)
  {
  }

  // The flags

  class Renderer {
    var out: string
    var inCode: bool
    var inUL: bool
    var inOL: bool
    var inTable: bool
    /** What has been written, piece by piece. */
    ghost var pieces: seq<Piece>

    /** At most one flag is set, and the output is the pieces. */
    ghost predicate Valid()
      reads this
    {
      && !(inCode && inUL) && !(inCode && inOL) && !(inCode && inTable)
      && !(inUL && inOL) && !(inUL && inTable) && !(inOL && inTable)
      && out == ShowAll(pieces)
    }

    ghost function Mode(): Mode
      reads this
    {
      if inCode then InCode else if inUL then InUl else if inOL then InOl else if inTable then InTable else Plain
    }

    constructor ()
      ensures Valid() && Mode() == Plain && pieces == []
    {
      out, inCode, inUL, inOL, inTable, pieces := "", false, false, false, false, [];
    }

    method Write(ps: seq<Piece>)
      requires out == ShowAll(pieces)
      modifies this`out, this`pieces
      ensures out == ShowAll(pieces) && pieces == old(pieces) + ps
    {
      JoinedAppends(pieces, ps, Show);
      out := out + ShowAll(ps);
      pieces := pieces + ps;
    }

    method CloseLists()
      requires Valid()
      modifies this
      ensures Valid() && inCode == old(inCode) && inTable == old(inTable) && !inUL && !inOL
      ensures pieces == old(pieces) + (if old(inUL) || old(inOL) then Closing(old(Mode())) else [])
    {
      if inUL {
        Write([Close(Ul)]);
        inUL := false;
      }
      if inOL {
        Write([Close(Ol)]);
        inOL := false;
      }
    }

    method CloseTable()
      requires Valid()
      modifies this
      ensures Valid() && inCode == old(inCode) && inUL == old(inUL) && inOL == old(inOL) && !inTable
      ensures pieces == old(pieces) + (if old(inTable) then Closing(InTable) else [])
    {
      if inTable {
        Write([Close(Tbody), Close(Table)]);
        inTable := false;
      }
    }

    /** An element around inline text, written as it is printed. */
    method WriteBlock(t: Tag, text: string)
      requires Valid()
      modifies this`out, this`pieces
      ensures Valid() && pieces == old(pieces) + Block(t, text)
    {
      BlockShows(t, text);
      JoinedAppends(pieces, Block(t, text), Show);
      ghost var before := out;
      out := out + Show(Open(t)) + InlineMarkdown(text) + Show(Close(t));
      assert out == before + (Show(Open(t)) + InlineMarkdown(text) + Show(Close(t)));
      pieces := pieces + Block(t, text);
    }

    method WriteCodeLine(line: string)
      requires Valid()
      modifies this`out, this`pieces
      ensures Valid() && pieces == old(pieces) + [Piece.Text(line + "\n")]
    {
      ghost var text, before := line + "\n", out;
      EscapedLine(line);
      OneTextAppends(pieces, text);
      out := out + Escape(line) + "\n";
      assert out == before + (Escape(line) + "\n");
      pieces := pieces + [Piece.Text(text)];
    }

    /** One line, given what it is. */
    method RenderLine(line: string, kind: Kind)
      requires Valid()
      modifies this
      ensures Valid() && Mode() == NextMode(old(Mode()), kind)
      ensures pieces == old(pieces) + LinePieces(old(Mode()), line, kind)
    {
      ghost var mode := Mode();
      if kind == Fence {
        RenderFence();
        assert Content(Fence) == [];
      } else if inCode {
        WriteCodeLine(line);
      } else {
        RenderProse(kind);
      }
    }

    /** A line outside code blocks that is no fence. */
    method RenderProse(kind: Kind)
      requires Valid() && !inCode && kind != Fence
      modifies this
      ensures Valid() && Mode() == NextMode(old(Mode()), kind)
      ensures pieces == old(pieces) + (Enter(old(Mode()), Mode()) + Content(kind))
    {
      if kind == Blank {
        CloseLists();
        CloseTable();
      } else if kind == Divider {
        CloseLists();
      } else if kind.Row? {
        RenderRow(kind.cells);
      } else {
        CloseTable();
        match kind
        case Heading(level, text) => RenderBlock(old(Mode()), old(pieces), HeadingTag(level), text);
        case Bullet(text) => RenderItem(old(Mode()), old(pieces), InUl, text);
        case Numbered(text) => RenderItem(old(Mode()), old(pieces), InOl, text);
        case Paragraph(text) => RenderBlock(old(Mode()), old(pieces), P, text);
      }
    }

    method RenderFence()
      requires Valid()
      modifies this
      ensures Valid() && Mode() == NextMode(old(Mode()), Fence)
      ensures pieces == old(pieces) + Enter(old(Mode()), Mode())
    {
      CloseLists();
      CloseTable();
      if inCode {
        Write([Close(Code), Close(Pre)]);
        inCode := false;
      } else {
        Write([Open(Pre), Open(Code)]);
        inCode := true;
      }
    }

    method RenderRow(cells: seq<string>)
      requires Valid() && !inCode
      modifies this
      ensures Valid() && Mode() == InTable
      ensures pieces == old(pieces) + (Enter(old(Mode()), InTable) + Content(Row(cells)))
    {
      ghost var before, from := pieces, Mode();
      CloseLists();
      if !inTable {
        Write(Opening(InTable));
        inTable := true;
      }
      assert pieces == before + Enter(from, InTable);
      WriteRow(cells);
      Regroup(before, Enter(from, InTable), Content(Row(cells)));
    }

    method WriteRow(cells: seq<string>)
      requires Valid()
      modifies this`out, this`pieces
      ensures Valid() && pieces == old(pieces) + Content(Row(cells))
    {
      ghost var before := pieces;
      Write([Open(Tr)]);
      WriteCells(cells);
      Write([Close(Tr)]);
      assert pieces == before + [Open(Tr)] + Cells(cells) + [Close(Tr)] == before + ([Open(Tr)] + Cells(cells) + [Close(Tr)]);
    }

    method WriteCells(cells: seq<string>)
      requires Valid()
      modifies this`out, this`pieces
      ensures Valid() && pieces == old(pieces) + Cells(cells)
    {
      ghost var before := pieces;
      for k := 0 to |cells|
        invariant Valid() && pieces == before + Cells(cells[..k])
      {
        CellsNext(cells, k);
        Regroup(before, Cells(cells[..k]), Block(Td, cells[k]));
        WriteBlock(Td, cells[k]);
      }
      assert cells[..|cells|] == cells;
    }

    /** What a line that is no table row starts with: a table that was open is closed. */
    ghost predicate LeftTable(from: Mode, before: seq<Piece>)
      reads this
    {
      && Mode() == (if from == InTable then Plain else from)
      && pieces == before + (if from == InTable then Closing(InTable) else [])
    }

    method RenderBlock(ghost from: Mode, ghost before: seq<Piece>, t: Tag, text: string)
      requires Valid() && !inCode && from != InCode && LeftTable(from, before)
      modifies this
      ensures Valid() && Mode() == Plain && pieces == before + (Enter(from, Plain) + Block(t, text))
    {
      CloseLists();
      assert pieces == before + Enter(from, Plain);
      WriteBlock(t, text);
      Regroup(before, Enter(from, Plain), Block(t, text));
    }

    method RenderItem(ghost from: Mode, ghost before: seq<Piece>, list: Mode, text: string)
      requires Valid() && !inCode && from != InCode && LeftTable(from, before) && (list == InUl || list == InOl)
      modifies this
      ensures Valid() && Mode() == list && pieces == before + (Enter(from, list) + Block(Li, text))
    {
      StartList(list);
      assert pieces == before + Enter(from, list);
      WriteBlock(Li, text);
      Regroup(before, Enter(from, list), Block(Li, text));
    }

    /** Closes the other list and opens this one, unless it is open already. */
    method StartList(list: Mode)
      requires Valid() && !inCode && !inTable && (list == InUl || list == InOl)
      modifies this
      ensures Valid() && Mode() == list && pieces == old(pieces) + Enter(old(Mode()), list)
    {
      if list == InUl {
        if inOL {
          Write([Close(Ol)]);
          inOL := false;
        }
        if !inUL {
          Write([Open(Ul)]);
          inUL := true;
        }
      } else {
        if inUL {
          Write([Close(Ul)]);
          inUL := false;
        }
        if !inOL {
          Write([Open(Ol)]);
          inOL := true;
        }
      }
    }

    method Finish()
      requires Valid()
      modifies this
      ensures out == ShowAll(pieces) && pieces == old(pieces) + Closing(old(Mode()))
    {
      CloseLists();
      CloseTable();
      if inCode {
        Write([Close(Code), Close(Pre)]);
      }
    }
  }

  lemma {:induction false} CellsAppend(a: seq<string>, b: seq<string>)
    ensures Cells(a + b) == Cells(a) + Cells(b)
    decreases |a|
  {
    if a == [] {
      assert a + b == b;
    } else {
      CellsAppend(a[1..], b);
      assert (a + b)[1..] == a[1..] + b && (a + b)[0] == a[0];
    }
  }

  lemma CellsNext(cells: seq<string>, k: nat)
    requires k < |cells|
    ensures Cells(cells[..k + 1]) == Cells(cells[..k]) + Block(Td, cells[k])
  {
    CellsAppend(cells[..k], [cells[k]]);
    assert cells[..k] + [cells[k]] == cells[..k + 1];
    assert Cells([cells[k]]) == Block(Td, cells[k]) + Cells([]);
  }

  method RenderLines(lines: seq<string>, kindOf: string -> Kind) returns (html: string)
    ensures html == ShowAll(PiecesAfter(lines, kindOf) + Closing(ModeAfter(lines, kindOf)))
  {
    var r := new Renderer();
    for k := 0 to |lines|
      invariant fresh(r) && r.Valid()
      invariant r.Mode() == ModeAfter(lines[..k], kindOf) && r.pieces == PiecesAfter(lines[..k], kindOf)
    {
      assert lines[..k + 1][..k] == lines[..k];
      r.RenderLine(lines[k], kindOf(lines[k]));
    }
    assert lines[..|lines|] == lines;
    r.Finish();
    html := r.out;
  }

  /** Renders the pieces of the document, which read back as a closed, well-nested whole with their own text. */
  method RenderMarkdown(md: string) returns (html: string)
    ensures html == ShowAll(Document(md))
    ensures Read(html, Doc([], "")) == Some(Doc([], TextOf(Document(md))))
  {
    DocumentNests(md);
    html := RenderLines(Split(md, '\n'), KindOf);
  }
}
