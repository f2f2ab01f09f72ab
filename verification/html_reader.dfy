/** Printing tags and escaped text, and a reader of the result that checks nesting and recovers the text. */
module HtmlReader {
  import T = Text
  import opened Wrappers

  datatype Tag = Pre | Code | Ul | Ol | Li | Table | Tbody | Tr | Td | P | H1 | H2 | H3 | H4

  function Name(t: Tag): string {
    match t
    case Pre => "pre" case Code => "code" case Ul => "ul" case Ol => "ol" case Li => "li" case Table => "table"
    case Tbody => "tbody" case Tr => "tr" case Td => "td" case P => "p"
    case H1 => "h1" case H2 => "h2" case H3 => "h3" case H4 => "h4"
  }

  function Named(name: string): Option<Tag> {
    if name == "pre" then Some(Pre) else if name == "code" then Some(Code) else if name == "ul" then Some(Ul)
    else if name == "ol" then Some(Ol) else if name == "li" then Some(Li) else if name == "table" then Some(Table)
    else if name == "tbody" then Some(Tbody) else if name == "tr" then Some(Tr) else if name == "td" then Some(Td)
    else if name == "p" then Some(P) else if name == "h1" then Some(H1) else if name == "h2" then Some(H2)
    else if name == "h3" then Some(H3) else if name == "h4" then Some(H4) else None
  }

  // Escaping

  /** `html.EscapeString` of one character. */
  function EscapeChar(c: char): string {
    if c == '&' then "&amp;"
    else if c == '\'' then "&#39;"
    else if c == '<' then "&lt;"
    else if c == '>' then "&gt;"
    else if c == '"' then "&#34;"
    else [c]
  }

  /** Every character spelled out in turn. */
  function Spelled(s: string, spell: char -> string): string {
    if s == [] then [] else spell(s[0]) + Spelled(s[1..], spell)
  }

  lemma {:induction false} SpelledAppends(a: string, b: string, spell: char -> string)
    ensures Spelled(a + b, spell) == Spelled(a, spell) + Spelled(b, spell)
    decreases |a|
  {
    if a == [] {
      assert a + b == b;
    } else {
      SpelledAppends(a[1..], b, spell);
      assert (a + b)[1..] == a[1..] + b && (a + b)[0] == a[0];
    }
  }

  function Escape(s: string): string {
    Spelled(s, EscapeChar)
  }

  /** The character a piece of text starts with, and how much of the text spells it. */
  function FirstChar(s: string): (r: (char, nat))
    requires s != []
    ensures 0 < r.1 <= |s|
  {
    if "&amp;" <= s then ('&', 5)
    else if "&#39;" <= s then ('\'', 5)
    else if "&lt;" <= s then ('<', 4)
    else if "&gt;" <= s then ('>', 4)
    else if "&#34;" <= s then ('"', 5)
    else (s[0], 1)
  }

  lemma FirstCharOfEscaped(c: char, rest: string)
    ensures FirstChar(EscapeChar(c) + rest) == (c, |EscapeChar(c)|)
    ensures EscapeChar(c)[0] != '<' && EscapeChar(c)[0] != '>'
  {
    var s := EscapeChar(c) + rest;
    assert s[..|EscapeChar(c)|] == EscapeChar(c);
    assert s[0] == EscapeChar(c)[0];
    if |EscapeChar(c)| > 1 {
      assert s[1] == EscapeChar(c)[1] && s[2] == EscapeChar(c)[2] && s[3] == EscapeChar(c)[3];
    }
  }

  // Reading

  /** What has been read: the open elements, outermost first, and the text. */
  datatype Doc = Doc(stack: seq<Tag>, text: string)

  function Top(stack: seq<Tag>): Option<Tag> {
    if stack == [] then None else Some(stack[|stack| - 1])
  }

  /** May this element start here? Blocks stand at the top level, parts only in their containers. */
  predicate Fits(stack: seq<Tag>, t: Tag) {
    match t
    case Li => Top(stack) == Some(Ul) || Top(stack) == Some(Ol)
    case Tbody => Top(stack) == Some(Table)
    case Tr => Top(stack) == Some(Tbody)
    case Td => Top(stack) == Some(Tr)
    case Code => Top(stack) == Some(Pre)
    case _ => stack == []
  }

  predicate HoldsText(stack: seq<Tag>) {
    match Top(stack)
    case Some(t) => t.Code? || t.Li? || t.Td? || t.P? || t.H1? || t.H2? || t.H3? || t.H4?
    case None => false
  }

  function Opened(d: Doc, t: Tag): Option<Doc> {
    if Fits(d.stack, t) then Some(d.(stack := d.stack + [t])) else None
  }

  function Closed(d: Doc, t: Tag): Option<Doc> {
    if Top(d.stack) == Some(t) then Some(d.(stack := d.stack[..|d.stack| - 1])) else None
  }

  function Written(d: Doc, text: string): Option<Doc> {
    if text == "" || HoldsText(d.stack) then Some(d.(text := d.text + text)) else None
  }

  function ReadTag(name: string, d: Doc): Option<Doc> {
    if name != [] && name[0] == '/' then
      var t := Named(name[1..]);
      if t.Some? then Closed(d, t.value) else None
    else
      var t := Named(name);
      if t.Some? then Opened(d, t.value) else None
  }

  /** Reads character by character; refuses unknown tags, misplaced elements and text, and a stray bracket. */
  function Read(s: string, d: Doc): Option<Doc>
    decreases |s|
  {
    if s == [] then Some(d)
    else if s[0] == '<' then
      var n := T.Find(s, '>');
      if n == |s| then None
      else
        var after := ReadTag(s[1..n], d);
        if after.None? then None else Read(s[n + 1..], after.value)
    else if s[0] == '>' then None
    else
      var (c, n) := FirstChar(s);
      var after := Written(d, [c]);
      if after.None? then None else Read(s[n..], after.value)
  }

  // Printing

  datatype Piece = Open(tag: Tag) | Close(tag: Tag) | Text(text: string)

  function Show(p: Piece): string {
    match p
    case Open(t) => "<" + Name(t) + ">"
    case Close(t) => "</" + Name(t) + ">"
    case Text(text) => Escape(text)
  }

  function Joined(ps: seq<Piece>, show: Piece -> string): string {
    if ps == [] then "" else show(ps[0]) + Joined(ps[1..], show)
  }

  function ShowAll(ps: seq<Piece>): string {
    Joined(ps, Show)
  }

  function Apply(p: Piece, d: Doc): Option<Doc> {
    match p
    case Open(t) => Opened(d, t)
    case Close(t) => Closed(d, t)
    case Text(text) => Written(d, text)
  }

  function ApplyAll(ps: seq<Piece>, d: Doc): Option<Doc> {
    if ps == [] then Some(d)
    else
      var after := Apply(ps[0], d);
      if after.None? then None else ApplyAll(ps[1..], after.value)
  }

  lemma {:induction false} JoinedAppends(ps: seq<Piece>, qs: seq<Piece>, show: Piece -> string)
    ensures Joined(ps + qs, show) == Joined(ps, show) + Joined(qs, show)
    decreases |ps|
  {
    if ps == [] {
      assert ps + qs == qs;
    } else {
      JoinedAppends(ps[1..], qs, show);
      assert (ps + qs)[1..] == ps[1..] + qs && (ps + qs)[0] == ps[0];
    }
  }

  lemma {:induction false} ApplyAppends(ps: seq<Piece>, qs: seq<Piece>, d: Doc)
    ensures var after := ApplyAll(ps, d);
            ApplyAll(ps + qs, d) == if after.None? then None else ApplyAll(qs, after.value)
    decreases |ps|
  {
    if ps == [] {
      assert ps + qs == qs;
    } else {
      assert (ps + qs)[1..] == ps[1..] + qs && (ps + qs)[0] == ps[0];
      if Apply(ps[0], d).Some? {
        ApplyAppends(ps[1..], qs, Apply(ps[0], d).value);
      }
    }
  }

  // The reader understands the printer

  lemma NamesAreRead(t: Tag)
    ensures Named(Name(t)) == Some(t) && Name(t) != [] && Name(t)[0] != '/' && '>' !in Name(t)
  {
  }

  lemma ReadBracketed(name: string, rest: string, d: Doc)
    requires '>' !in name
    ensures Read("<" + name + ">" + rest, d)
         == if ReadTag(name, d).None? then None else Read(rest, ReadTag(name, d).value)
  {
    var s := "<" + name + ">" + rest;
    assert s == ("<" + name) + (">" + rest);
    T.FindAfter("<" + name, ">" + rest, '>');
    assert s[1..|name| + 1] == name && s[|name| + 2..] == rest;
  }

  lemma EscapeSplits(text: string, rest: string)
    requires text != []
    ensures Escape(text) + rest == EscapeChar(text[0]) + (Escape(text[1..]) + rest)
  {
  }

  lemma {:induction false} ReadText(text: string, rest: string, d: Doc)
    requires text == [] || HoldsText(d.stack)
    ensures Read(Escape(text) + rest, d) == Read(rest, d.(text := d.text + text))
    decreases |text|
  {
    if text == [] {
      assert Escape(text) + rest == rest && d.text + text == d.text;
    } else {
      var t := Doc(d.stack, d.text + [text[0]]);
      EscapeSplits(text, rest);
      ReadEscaped(text[0], Escape(text[1..]) + rest, d);
      ReadText(text[1..], rest, t);
      assert t.text + text[1..] == d.text + text;
    }
  }

  lemma ReadEscaped(c: char, more: string, d: Doc)
    requires HoldsText(d.stack)
    ensures Read(EscapeChar(c) + more, d) == Read(more, d.(text := d.text + [c]))
  {
    var s := EscapeChar(c) + more;
    FirstCharOfEscaped(c, more);
    assert s[0] == EscapeChar(c)[0] && s[|EscapeChar(c)|..] == more;
  }

  lemma ReadOpening(t: Tag, rest: string, d: Doc)
    requires Opened(d, t).Some?
    ensures Read(Show(Open(t)) + rest, d) == Read(rest, Opened(d, t).value)
  {
    NamesAreRead(t);
    ReadBracketed(Name(t), rest, d);
  }

  lemma ReadClosing(t: Tag, rest: string, d: Doc)
    requires Closed(d, t).Some?
    ensures Read(Show(Close(t)) + rest, d) == Read(rest, Closed(d, t).value)
  {
    var name := "/" + Name(t);
    NamesAreRead(t);
    assert name[1..] == Name(t);
    ReadBracketed(name, rest, d);
    assert Show(Close(t)) == "<" + name + ">";
  }

  lemma ReadPiece(p: Piece, rest: string, d: Doc)
    requires Apply(p, d).Some?
    ensures Read(Show(p) + rest, d) == Read(rest, Apply(p, d).value)
  {
    match p
    case Open(t) => ReadOpening(t, rest, d);
    case Close(t) => ReadClosing(t, rest, d);
    case Text(text) => ReadText(text, rest, d);
  }

  /** Pieces that nest are read back as exactly themselves: their structure and their text. */
  lemma {:induction false} ReadPieces(ps: seq<Piece>, d: Doc)
    requires ApplyAll(ps, d).Some?
    ensures Read(ShowAll(ps), d) == ApplyAll(ps, d)
    decreases |ps|
  {
    if ps != [] {
      ReadPiece(ps[0], ShowAll(ps[1..]), d);
      ReadPieces(ps[1..], Apply(ps[0], d).value);
    }
  }
}
