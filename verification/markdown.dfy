/** The documentation viewer's Markdown: which blocks a text consists of, and the HTML pieces they become. */
module Markdown {
  import opened HtmlReader
  import opened Text
  import opened Wrappers

  // Lines

  /** `strings.Split` at one character. */
  function Split(s: string, c: char): (parts: seq<string>)
    ensures parts != []
    decreases |s|
  {
    var n := Find(s, c);
    if n == |s| then [s] else [s[..n]] + Split(s[n + 1..], c)
  }

  function JoinWith(parts: seq<string>, c: char): string
    requires parts != []
  {
    if |parts| == 1 then parts[0] else parts[0] + [c] + JoinWith(parts[1..], c)
  }

  /** Splitting loses nothing, and no part holds the separator. */
  lemma {:induction false} SplitJoins(s: string, c: char)
    ensures JoinWith(Split(s, c), c) == s
    ensures forall part | part in Split(s, c) :: c !in part
    decreases |s|
  {
    var n := Find(s, c);
    if n < |s| {
      SplitJoins(s[n + 1..], c);
      var parts := Split(s, c);
      assert parts[1..] == Split(s[n + 1..], c);
      assert s == s[..n] + [c] + s[n + 1..];
    } else {
      assert s[..n] == s;
    }
  }

  // What a line is

  datatype Kind =
    | Fence
    | Blank
    | Divider
    | Row(cells: seq<string>)
    | Heading(level: nat, text: string)
    | Bullet(text: string)
    | Numbered(text: string)
    | Paragraph(text: string)

  predicate TableRow(line: string) {
    line != [] && line[0] == '|' && line[|line| - 1] == '|'
  }

  /** A row of nothing but rules; a lone bar counts. */
  predicate TableSeparator(line: string) {
    forall c | c in Trim(line, "| ") :: c == '-' || c == ':' || c == '|' || c == ' '
  }

  function Trimmed(parts: seq<string>): seq<string> {
    seq(|parts|, i requires 0 <= i < |parts| => TrimSpace(parts[i]))
  }

  function TableCells(line: string): seq<string> {
    Trimmed(Split(Trim(line, "|"), '|'))
  }

  /** The white space of regular expressions. */
  predicate PatternSpace(c: char) {
    c == ' ' || c == '\t' || c == '\n' || c == '\r' || c == '\U{0C}'
  }

  function Leading(s: string, wanted: char -> bool): (n: nat)
    ensures n <= |s|
  {
    if s != [] && wanted(s[0]) then 1 + Leading(s[1..], wanted) else 0
  }

  /** One to four hashes, white space, and the rest. */
  function HeadingOf(line: string): Option<(nat, string)> {
    var level := Leading(line, c => c == '#');
    var rest := line[level..];
    var gap := Leading(rest, PatternSpace);
    if 1 <= level <= 4 && gap > 0 && gap < |rest| then Some((level, rest[gap..])) else None
  }

  /** Digits, a point, white space, and the rest. */
  function NumberedOf(line: string): Option<string> {
    var digits := Leading(line, IsDigit);
    if digits == 0 || digits == |line| || line[digits] != '.' then None
    else
      var rest := line[digits + 1..];
      var gap := Leading(rest, PatternSpace);
      if gap > 0 && gap < |rest| then Some(rest[gap..]) else None
  }

  /** What a trimmed line is when no code block is open; only a fence matters when one is. */
  function Classify(line: string): Kind {
    if "```" <= line then Fence
    else if line == "" then Blank
    else if TableRow(line) then (if TableSeparator(line) then Divider else Row(TableCells(line)))
    else if HeadingOf(line).Some? then Heading(HeadingOf(line).value.0, HeadingOf(line).value.1)
    else if "- " <= line then Bullet(TrimSpace(line[2..]))
    else if NumberedOf(line).Some? then Numbered(NumberedOf(line).value)
    else Paragraph(line)
  }

  // What a line becomes

  datatype Mode = Plain | InCode | InUl | InOl | InTable

  function StackOf(m: Mode): seq<Tag> {
    match m
    case Plain => []
    case InCode => [Pre, Code]
    case InUl => [Ul]
    case InOl => [Ol]
    case InTable => [Table, Tbody]
  }

  function Opening(m: Mode): seq<Piece> {
    match m
    case Plain => []
    case InCode => [Open(Pre), Open(Code)]
    case InUl => [Open(Ul)]
    case InOl => [Open(Ol)]
    case InTable => [Open(Table), Open(Tbody)]
  }

  function Closing(m: Mode): seq<Piece> {
    match m
    case Plain => []
    case InCode => [Close(Code), Close(Pre)]
    case InUl => [Close(Ul)]
    case InOl => [Close(Ol)]
    case InTable => [Close(Tbody), Close(Table)]
  }

  function Enter(from: Mode, to: Mode): seq<Piece> {
    if from == to then [] else Closing(from) + Opening(to)
  }

  function UnlessTick(c: char): string {
    if c == '`' then "" else [c]
  }

  function WithoutTicks(s: string): string {
    Spelled(s, UnlessTick)
  }

  function Block(t: Tag, text: string): seq<Piece> {
    [Open(t), Piece.Text(WithoutTicks(text)), Close(t)]
  }

  function Cells(cells: seq<string>): seq<Piece> {
    if cells == [] then [] else Block(Td, cells[0]) + Cells(cells[1..])
  }

  function HeadingTag(level: nat): Tag {
    if level == 1 then H1 else if level == 2 then H2 else if level == 3 then H3 else H4
  }

  function NextMode(m: Mode, kind: Kind): Mode {
    match kind
    case Fence => if m == InCode then Plain else InCode
    case _ =>
      if m == InCode then InCode
      else
        match kind
        case Row(_) => InTable
        case Divider => if m == InTable then InTable else Plain
        case Bullet(_) => InUl
        case Numbered(_) => InOl
        case _ => Plain
  }

  /** What stands inside the block that is open after the line. */
  function Content(kind: Kind): seq<Piece> {
    match kind
    case Row(cells) => [Open(Tr)] + Cells(cells) + [Close(Tr)]
    case Heading(level, text) => Block(HeadingTag(level), text)
    case Bullet(text) => Block(Li, text)
    case Numbered(text) => Block(Li, text)
    case Paragraph(text) => Block(P, text)
    case _ => []
  }

  function LinePieces(m: Mode, line: string, kind: Kind): seq<Piece> {
    if kind != Fence && m == InCode then [Piece.Text(line + "\n")]
    else Enter(m, NextMode(m, kind)) + Content(kind)
  }

  function KindOf(line: string): Kind {
    Classify(TrimSpace(line))
  }

  function ModeAfter(lines: seq<string>, kindOf: string -> Kind): Mode {
    if lines == [] then Plain else NextMode(ModeAfter(lines[..|lines| - 1], kindOf), kindOf(lines[|lines| - 1]))
  }

  function PiecesAfter(lines: seq<string>, kindOf: string -> Kind): seq<Piece> {
    if lines == [] then []
    else
      var before, last := lines[..|lines| - 1], lines[|lines| - 1];
      PiecesAfter(before, kindOf) + LinePieces(ModeAfter(before, kindOf), last, kindOf(last))
  }

  function Document(md: string): seq<Piece> {
    var lines := Split(md, '\n');
    PiecesAfter(lines, KindOf) + Closing(ModeAfter(lines, KindOf))
  }

  // Nesting

  function TextOf(ps: seq<Piece>): string {
    if ps == [] then "" else (if ps[0].Text? then ps[0].text else "") + TextOf(ps[1..])
  }

  /** From one set of open elements to another, adding exactly the text of the pieces. */
  ghost predicate Leads(ps: seq<Piece>, from: seq<Tag>, to: seq<Tag>) {
    forall text :: ApplyAll(ps, Doc(from, text)) == Some(Doc(to, text + TextOf(ps)))
  }

  lemma {:induction false} TextAppends(ps: seq<Piece>, qs: seq<Piece>)
    ensures TextOf(ps + qs) == TextOf(ps) + TextOf(qs)
    decreases |ps|
  {
    if ps == [] {
      assert ps + qs == qs;
    } else {
      TextAppends(ps[1..], qs);
      assert (ps + qs)[1..] == ps[1..] + qs && (ps + qs)[0] == ps[0];
    }
  }

  lemma LeadsOn(ps: seq<Piece>, qs: seq<Piece>, from: seq<Tag>, through: seq<Tag>, to: seq<Tag>)
    requires Leads(ps, from, through) && Leads(qs, through, to)
    ensures Leads(ps + qs, from, to)
  {
    TextAppends(ps, qs);
    forall text ensures ApplyAll(ps + qs, Doc(from, text)) == Some(Doc(to, text + TextOf(ps + qs))) {
      ThroughText(ps, qs, Doc(from, text), Doc(through, text + TextOf(ps)));
      OneAfterTheOther(text, TextOf(ps), TextOf(qs));
    }
  }

  lemma ThroughText(ps: seq<Piece>, qs: seq<Piece>, d: Doc, middle: Doc)
    requires ApplyAll(ps, d) == Some(middle)
    ensures ApplyAll(ps + qs, d) == ApplyAll(qs, middle)
  {
    ApplyAppends(ps, qs, d);
  }

  lemma OneAfterTheOther(a: string, b: string, c: string)
    ensures a + (b + c) == (a + b) + c
  {
  }

  lemma OpenLeads(t: Tag, stack: seq<Tag>)
    requires Fits(stack, t)
    ensures Leads([Open(t)], stack, stack + [t])
  {
    forall text ensures ApplyAll([Open(t)], Doc(stack, text)) == Some(Doc(stack + [t], text + TextOf([Open(t)]))) {
      assert TextOf([Open(t)]) == "" && text + "" == text;
    }
  }

  lemma CloseLeads(t: Tag, stack: seq<Tag>)
    ensures Leads([Close(t)], stack + [t], stack)
  {
    forall text ensures ApplyAll([Close(t)], Doc(stack + [t], text)) == Some(Doc(stack, text + TextOf([Close(t)]))) {
      assert TextOf([Close(t)]) == "" && (stack + [t])[..|stack|] == stack && text + "" == text;
    }
  }

  lemma TextLeads(x: string, stack: seq<Tag>)
    requires HoldsText(stack)
    ensures Leads([Piece.Text(x)], stack, stack)
  {
    forall text ensures ApplyAll([Piece.Text(x)], Doc(stack, text)) == Some(Doc(stack, text + TextOf([Piece.Text(x)]))) {
      assert x + "" == x;
    }
  }

  lemma EmptyLeads(stack: seq<Tag>)
    ensures Leads([], stack, stack)
  {
    forall text ensures ApplyAll([], Doc(stack, text)) == Some(Doc(stack, text + TextOf([]))) {
      assert text + "" == text;
    }
  }

  lemma ElementLeads(t: Tag, inside: seq<Piece>, stack: seq<Tag>)
    requires Fits(stack, t) && Leads(inside, stack + [t], stack + [t])
    ensures Leads([Open(t)] + inside + [Close(t)], stack, stack)
  {
    OpenLeads(t, stack);
    CloseLeads(t, stack);
    LeadsOn([Open(t)], inside, stack, stack + [t], stack + [t]);
    LeadsOn([Open(t)] + inside, [Close(t)], stack, stack + [t], stack);
  }

  lemma BlockLeads(t: Tag, text: string, stack: seq<Tag>)
    requires Fits(stack, t) && HoldsText(stack + [t])
    ensures Leads(Block(t, text), stack, stack)
  {
    var x := Piece.Text(WithoutTicks(text));
    TextLeads(WithoutTicks(text), stack + [t]);
    ElementLeads(t, [x], stack);
    assert [Open(t)] + [x] + [Close(t)] == Block(t, text);
  }

  lemma {:induction false} CellsLead(cells: seq<string>)
    ensures var stack := [Table, Tbody, Tr]; Leads(Cells(cells), stack, stack)
  {
    var stack := [Table, Tbody, Tr];
    if cells == [] {
      EmptyLeads(stack);
    } else {
      BlockLeads(Td, cells[0], stack);
      CellsLead(cells[1..]);
      LeadsOn(Block(Td, cells[0]), Cells(cells[1..]), stack, stack, stack);
    }
  }

  lemma TwoLead(p: Piece, q: Piece, from: seq<Tag>, through: seq<Tag>, to: seq<Tag>)
    requires Leads([p], from, through) && Leads([q], through, to)
    ensures Leads([p, q], from, to)
  {
    var both := [p] + [q];
    assert both == [p, q];
    LeadsOn([p], [q], from, through, to);
    assert Leads(both, from, to);
  }

  lemma RowLeads(cells: seq<string>)
    ensures var stack := [Table, Tbody]; Leads([Open(Tr)] + Cells(cells) + [Close(Tr)], stack, stack)
  {
    assert [Table, Tbody] + [Tr] == [Table, Tbody, Tr];
    CellsLead(cells);
    ElementLeads(Tr, Cells(cells), [Table, Tbody]);
  }

  lemma OpeningLeads(m: Mode)
    ensures Leads(Opening(m), [], StackOf(m))
  {
    match m
    case Plain => EmptyLeads([]);
    case InUl => OpenLeads(Ul, []); assert [] + [Ul] == [Ul];
    case InOl => OpenLeads(Ol, []); assert [] + [Ol] == [Ol];
    case InCode =>
      OpenLeads(Pre, []);
      OpenLeads(Code, [Pre]);
      assert [] + [Pre] == [Pre] && [Pre] + [Code] == [Pre, Code];
      TwoLead(Open(Pre), Open(Code), [], [Pre], [Pre, Code]);
    case InTable =>
      OpenLeads(Table, []);
      OpenLeads(Tbody, [Table]);
      assert [] + [Table] == [Table] && [Table] + [Tbody] == [Table, Tbody];
      TwoLead(Open(Table), Open(Tbody), [], [Table], [Table, Tbody]);
  }

  lemma ClosingLeads(m: Mode)
    ensures Leads(Closing(m), StackOf(m), [])
  {
    match m
    case Plain => EmptyLeads([]);
    case InUl => CloseLeads(Ul, []); assert [] + [Ul] == [Ul];
    case InOl => CloseLeads(Ol, []); assert [] + [Ol] == [Ol];
    case InCode =>
      CloseLeads(Code, [Pre]);
      CloseLeads(Pre, []);
      assert [] + [Pre] == [Pre] && [Pre] + [Code] == [Pre, Code];
      TwoLead(Close(Code), Close(Pre), [Pre, Code], [Pre], []);
    case InTable =>
      CloseLeads(Tbody, [Table]);
      CloseLeads(Table, []);
      assert [] + [Table] == [Table] && [Table] + [Tbody] == [Table, Tbody];
      TwoLead(Close(Tbody), Close(Table), [Table, Tbody], [Table], []);
  }

  lemma EnterLeads(from: Mode, to: Mode)
    ensures Leads(Enter(from, to), StackOf(from), StackOf(to))
  {
    if from == to {
      EmptyLeads(StackOf(from));
    } else {
      ClosingLeads(from);
      OpeningLeads(to);
      LeadsOn(Closing(from), Opening(to), StackOf(from), [], StackOf(to));
    }
  }

  /** The open elements a line's own content belongs in. */
  function Container(kind: Kind): seq<Tag> {
    match kind
    case Row(_) => [Table, Tbody]
    case Bullet(_) => [Ul]
    case Numbered(_) => [Ol]
    case _ => []
  }

  lemma HeadingLeads(level: nat, text: string)
    ensures Leads(Block(HeadingTag(level), text), [], [])
  {
    var t := HeadingTag(level);
    assert [] + [t] == [t];
    BlockLeads(t, text, []);
  }

  lemma ItemLeads(list: Tag, text: string)
    requires list == Ul || list == Ol
    ensures Leads(Block(Li, text), [list], [list])
  {
    BlockLeads(Li, text, [list]);
  }

  lemma ParagraphLeads(text: string)
    ensures Leads(Block(P, text), [], [])
  {
    assert [] + [P] == [P];
    BlockLeads(P, text, []);
  }

  lemma ContentLeads(kind: Kind)
    ensures Leads(Content(kind), Container(kind), Container(kind))
  {
    match kind
    case Row(cells) => RowLeads(cells);
    case Heading(level, text) => HeadingLeads(level, text);
    case Bullet(text) => ItemLeads(Ul, text);
    case Numbered(text) => ItemLeads(Ol, text);
    case Paragraph(text) => ParagraphLeads(text);
    case _ => EmptyLeads([]);
  }

  lemma ContainerIsOpen(m: Mode, kind: Kind)
    requires m != InCode && Content(kind) != []
    ensures StackOf(NextMode(m, kind)) == Container(kind)
  {
  }

  lemma LineLeads(m: Mode, line: string, kind: Kind)
    ensures Leads(LinePieces(m, line, kind), StackOf(m), StackOf(NextMode(m, kind)))
  {
    var to := NextMode(m, kind);
    if kind != Fence && m == InCode {
      TextLeads(line + "\n", StackOf(InCode));
    } else {
      EnterLeads(m, to);
      if Content(kind) == [] {
        EmptyLeads(StackOf(to));
      } else {
        ContainerIsOpen(m, kind);
        ContentLeads(kind);
      }
      LeadsOn(Enter(m, to), Content(kind), StackOf(m), StackOf(to), StackOf(to));
    }
  }

  lemma {:induction false} LinesLead(lines: seq<string>, kindOf: string -> Kind)
    ensures Leads(PiecesAfter(lines, kindOf), [], StackOf(ModeAfter(lines, kindOf)))
    decreases |lines|
  {
    if lines == [] {
      EmptyLeads([]);
    } else {
      var before, last := lines[..|lines| - 1], lines[|lines| - 1];
      var m := ModeAfter(before, kindOf);
      LinesLead(before, kindOf);
      LineLeads(m, last, kindOf(last));
      LeadsOn(PiecesAfter(before, kindOf), LinePieces(m, last, kindOf(last)), [], StackOf(m),
              StackOf(NextMode(m, kindOf(last))));
    }
  }

  lemma NestedReads(ps: seq<Piece>, stack: seq<Tag>)
    requires Leads(ps, [], stack)
    ensures Read(ShowAll(ps), Doc([], "")) == Some(Doc(stack, TextOf(ps)))
  {
    assert ApplyAll(ps, Doc([], "")) == Some(Doc(stack, "" + TextOf(ps)));
    assert "" + TextOf(ps) == TextOf(ps);
    ReadPieces(ps, Doc([], ""));
  }

  /** After every line at most one block is open, with nothing but its own elements. */
  lemma EveryLineNests(lines: seq<string>)
    ensures var ps := PiecesAfter(lines, KindOf);
            Read(ShowAll(ps), Doc([], "")) == Some(Doc(StackOf(ModeAfter(lines, KindOf)), TextOf(ps)))
  {
    LinesLead(lines, KindOf);
    NestedReads(PiecesAfter(lines, KindOf), StackOf(ModeAfter(lines, KindOf)));
  }

  lemma ClosedLead(ps: seq<Piece>, m: Mode)
    requires Leads(ps, [], StackOf(m))
    ensures Leads(ps + Closing(m), [], [])
  {
    ClosingLeads(m);
    LeadsOn(ps, Closing(m), [], StackOf(m), []);
  }

  /** For every text: the whole output is well nested and closed, and its text is the text of the blocks. */
  lemma DocumentNests(md: string)
    ensures Read(ShowAll(Document(md)), Doc([], "")) == Some(Doc([], TextOf(Document(md))))
  {
    var lines := Split(md, '\n');
    LinesLead(lines, KindOf);
    ClosedLead(PiecesAfter(lines, KindOf), ModeAfter(lines, KindOf));
    NestedReads(Document(md), []);
  }
}
