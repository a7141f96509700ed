/** JSON texts, in every spelling that RFC 8259 allows: whitespace anywhere it may be, escapes wherever they may be. */
module Json {
  /** One character of a string (section 7): itself, a two-character escape, or a \u escape. */
  datatype StrChar = Plain(c: char) | Short(c: char) | Unicode(hex: string)

  datatype Bracket = Square | Curly

  /**
   * Atoms are null, true, false and numbers. `space` is the whitespace of an array or object without entries;
   * otherwise whitespace belongs to the entries.
   */
  datatype Value =
    | Atom(text: string)
    | Str(chars: seq<StrChar>)
    | Node(bracket: Bracket, space: string, entries: Entries)

  datatype Label = Bare(before: string) | Key(before: string, chars: seq<StrChar>, mid: string, gap: string)

  datatype Entries = End | Entry(head: Label, value: Value, after: string, rest: Entries)

  // --- which of them are texts of the standard ------------------------------------------------------

  predicate Spaces(s: string)
  {
    forall i :: 0 <= i < |s| ==> s[i] in {' ', '\t', '\n', '\r'}
  }

  predicate HexDigit(c: char)
  {
    '0' <= c <= '9' || 'a' <= c <= 'f' || 'A' <= c <= 'F'
  }

  predicate CharOk(c: StrChar)
  {
    match c
    case Plain(x) => x as int >= 0x20 && x != '"' && x != '\\'
    case Short(x) => x in {'"', '\\', '/', 'b', 'f', 'n', 'r', 't'}
    case Unicode(hex) => |hex| == 4 && forall i :: 0 <= i < 4 ==> HexDigit(hex[i])
  }

  predicate CharsOk(chars: seq<StrChar>)
  {
    forall i :: 0 <= i < |chars| ==> CharOk(chars[i])
  }

  /** No more than what sections 3 and 6 leave an atom: letters, digits, signs and points. */
  predicate AtomOk(text: string)
  {
    text != "" && forall i :: 0 <= i < |text| ==>
      'a' <= text[i] <= 'z' || text[i] == 'E' || '0' <= text[i] <= '9' || text[i] in {'+', '-', '.'}
  }

  predicate LabelOk(b: Bracket, l: Label)
  {
    match l
    case Bare(before) => b == Square && Spaces(before)
    case Key(before, chars, mid, gap) => b == Curly && Spaces(before) && CharsOk(chars) && Spaces(mid) && Spaces(gap)
  }

  predicate ValueOk(v: Value)
    decreases v
  {
    match v
    case Atom(text) => AtomOk(text)
    case Str(chars) => CharsOk(chars)
    case Node(b, space, entries) => Spaces(space) && EntriesOk(b, entries)
  }

  predicate EntriesOk(b: Bracket, e: Entries)
    decreases e
  {
    match e
    case End => true
    case Entry(head, value, after, rest) => LabelOk(b, head) && ValueOk(value) && Spaces(after) && EntriesOk(b, rest)
  }

  // --- printing --------------------------------------------------------------------------------------

  function PrintChar(c: StrChar): (s: string)
  {
    match c
    case Plain(x) => [x]
    case Short(x) => ['\\', x]
    case Unicode(hex) => "\\u" + hex
  }

  function PrintChars(chars: seq<StrChar>): (s: string)
  {
    if chars == [] then "" else PrintChar(chars[0]) + PrintChars(chars[1..])
  }

  function Quoted(chars: seq<StrChar>): (s: string)
  {
    "\"" + PrintChars(chars) + "\""
  }

  function Opener(b: Bracket): (r: char)
  {
    if b == Square then '[' else '{'
  }

  function Closer(b: Bracket): (r: char)
  {
    if b == Square then ']' else '}'
  }

  function PrintLabel(l: Label): (s: string)
  {
    match l
    case Bare(before) => before
    case Key(before, chars, mid, gap) => before + Quoted(chars) + mid + ":" + gap
  }

  function Print(v: Value): (s: string)
    decreases v
  {
    match v
    case Atom(text) => text
    case Str(chars) => Quoted(chars)
    case Node(b, space, entries) => [Opener(b)] + Body(space, entries) + [Closer(b)]
  }

  function Body(space: string, entries: Entries): (s: string)
    decreases entries, 1
  {
    if entries.End? then space else PrintEntries(entries)
  }

  function PrintEntries(e: Entries): (s: string)
    decreases e, 0
  {
    match e
    case End => ""
    case Entry(head, value, after, rest) =>
      PrintLabel(head) + Print(value) + after + (if rest.End? then "" else "," + PrintEntries(rest))
  }
}
