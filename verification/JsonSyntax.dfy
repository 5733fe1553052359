/** The texts that stand for values, spelled out as trees of tokens without looking at the
    reader: the characters, the gaps between the tokens and what each piece means. The reader
    accepts exactly these texts. */
module JsonSyntax {
  import opened Wrappers
  import opened JsonText

  // ----- gaps between tokens

  type BlankChar = c: char |
    c == ' ' || c == '\t' || c == '\n' || c == '\r' || c == 11 as char || c == 12 as char
    witness ' '

  datatype Gap =
    | Blank(c: BlankChar)
    | LineNote(body: string, ending: BlankChar)
    | BlockNote(body: string)

  /** No end and no beginning of a block comment in the text. */
  predicate NoMarks(t: string) {
    forall i, j :: 0 <= i && j == i + 1 < |t| ==>
      !(t[i] == '*' && t[j] == '/') && !(t[i] == '/' && t[j] == '*')
  }

  predicate GapFits(g: Gap) {
    match g
    case Blank(_) => true
    case LineNote(body, ending) => (ending == '\r' || ending == '\n') && '\r' !in body && '\n' !in body
    case BlockNote(body) => NoMarks(body + "*")
  }

  function GapText(g: Gap): string {
    match g
    case Blank(c) => [c]
    case LineNote(body, ending) => "//" + (body + [ending])
    case BlockNote(body) => "/*" + (body + "*/")
  }

  predicate GapsFit(gs: seq<Gap>) { forall i :: 0 <= i < |gs| ==> GapFits(gs[i]) }

  function GapsText(gs: seq<Gap>): string {
    if gs == [] then "" else GapText(gs[0]) + GapsText(gs[1..])
  }

  // ----- strings

  type Nibble = v: int | 0 <= v < 16

  datatype HexDigit = HexDigit(value: Nibble, capital: bool)

  function HexText(h: HexDigit): char {
    if h.capital then "0123456789ABCDEF"[h.value] else "0123456789abcdef"[h.value]
  }

  type PlainChar = c: char | c != '"' && c != '\\' witness ' '

  type ShortLetter = c: char |
    c == 'b' || c == 't' || c == 'n' || c == 'f' || c == 'r' || c == '"' || c == '/' || c == '\\'
    witness 'b'

  /** One character of a string literal: plain, after a backslash, or by its code unit. */
  datatype Piece =
    | Plain(c: PlainChar)
    | Short(letter: ShortLetter)
    | Code(h3: HexDigit, h2: HexDigit, h1: HexDigit, h0: HexDigit)

  type BytePiece = p: Piece | !p.Code? witness Plain(' ')

  function PieceText(p: Piece): string {
    match p
    case Plain(c) => [c]
    case Short(letter) => ['\\', letter]
    case Code(h3, h2, h1, h0) => ['\\', 'u', HexText(h3), HexText(h2), HexText(h1), HexText(h0)]
  }

  function PiecesText(ps: seq<Piece>): string {
    if ps == [] then "" else PieceText(ps[0]) + PiecesText(ps[1..])
  }

  /** What a letter after a backslash stands for. */
  function ShortChar(letter: ShortLetter): char {
    match letter
    case 'b' => 8 as char
    case 't' => 9 as char
    case 'n' => 10 as char
    case 'f' => 12 as char
    case 'r' => 13 as char
    case c => c
  }

  function PieceChar(p: BytePiece): char {
    match p
    case Plain(c) => c
    case Short(letter) => ShortChar(letter)
  }

  function PieceUnit(p: Piece): int {
    match p
    case Code(h3, h2, h1, h0) => h3.value * 0x1000 + h2.value * 0x100 + h1.value * 0x10 + h0.value
    case _ => PieceChar(p) as int
  }

  function Characters(ps: seq<BytePiece>): string {
    if ps == [] then "" else [PieceChar(ps[0])] + Characters(ps[1..])
  }

  function CodeUnits(ps: seq<Piece>): seq<int> {
    if ps == [] then [] else [PieceUnit(ps[0])] + CodeUnits(ps[1..])
  }

  /** The literal has no code unit: it is a byte string. Otherwise it is a unicode string. */
  predicate IsBytes(ps: seq<Piece>) { forall i :: 0 <= i < |ps| ==> !ps[i].Code? }

  /** A unicode string is joined from ASCII characters and code units only. */
  predicate IsJoinable(ps: seq<Piece>) { forall i :: 0 <= i < |ps| ==> ps[i].Code? || PieceUnit(ps[i]) < 128 }

  // ----- numbers

  type Digit = d: int | 0 <= d < 10

  function DigitText(d: Digit): char { "0123456789"[d] }

  function DigitsText(ds: seq<Digit>): string {
    if ds == [] then "" else DigitsText(ds[..|ds| - 1]) + [DigitText(ds[|ds| - 1])]
  }

  function Decimal(ds: seq<Digit>): int {
    if ds == [] then 0 else Decimal(ds[..|ds| - 1]) * 10 + ds[|ds| - 1]
  }

  function NumberText(negative: bool, whole: seq<Digit>, fraction: Maybe<seq<Digit>>): string {
    (if negative then "-" else "")
    + (DigitsText(whole) + (if fraction.Some? then "." + DigitsText(fraction.value) else ""))
  }

  /** At least one digit; and in front of a dot either a minus sign or a digit. */
  predicate NumberFits(negative: bool, whole: seq<Digit>, fraction: Maybe<seq<Digit>>) {
    whole != [] || (negative && fraction.Some? && fraction.value != [])
  }

  // ----- values

  datatype Node =
    | NullWord
    | TrueWord
    | FalseWord
    | Number(negative: bool, whole: seq<Digit>, fraction: Maybe<seq<Digit>>)
    | Quote(pieces: seq<Piece>)
    | Array(items: seq<Item>)
    | Object(members: seq<Member>)

  /** A value with what stands around it. */
  datatype Item = Item(before: seq<Gap>, node: Node, after: seq<Gap>)

  /** A key with what stands around it, and its value. Only a byte string is a key. */
  datatype Member = Member(before: seq<Gap>, key: seq<BytePiece>, after: seq<Gap>, value: Item)

  predicate Fits(n: Node) {
    match n
    case Number(negative, whole, fraction) => NumberFits(negative, whole, fraction)
    case Quote(pieces) => IsBytes(pieces) || IsJoinable(pieces)
    case Array(items) => ItemsFit(items)
    case Object(members) => MembersFit(members)
    case _ => true
  }

  predicate ItemFits(i: Item) {
    GapsFit(i.before) && Fits(i.node) && GapsFit(i.after)
  }

  predicate ItemsFit(items: seq<Item>) {
    items == [] || (ItemFits(items[0]) && ItemsFit(items[1..]))
  }

  predicate MembersFit(members: seq<Member>) {
    members == []
    || (GapsFit(members[0].before) && GapsFit(members[0].after) && ItemFits(members[0].value)
        && MembersFit(members[1..]))
  }

  function QuoteText(ps: seq<Piece>): string { "\"" + (PiecesText(ps) + "\"") }

  function NodeText(n: Node): string {
    match n
    case NullWord => "null"
    case TrueWord => "true"
    case FalseWord => "false"
    case Number(negative, whole, fraction) => NumberText(negative, whole, fraction)
    case Quote(pieces) => QuoteText(pieces)
    case Array(items) => "[" + (if items == [] then "]" else ItemsText(items))
    case Object(members) => "{" + (if members == [] then "}" else MembersText(members))
  }

  function ItemText(i: Item): string {
    GapsText(i.before) + (NodeText(i.node) + GapsText(i.after))
  }

  /** Commas between the items, and the closing bracket. */
  function ItemsText(items: seq<Item>): string
    requires items != []
  {
    ItemText(items[0]) + (if |items| == 1 then "]" else "," + ItemsText(items[1..]))
  }

  /** A member and what follows it. */
  function MemberThen(m: Member, sep: string): string
    decreases m
  {
    GapsText(m.before) + (QuoteText(m.key) + (GapsText(m.after) + (":" + (ItemText(m.value) + sep))))
  }

  /** Commas between the members, and the closing brace. */
  function MembersText(members: seq<Member>): string
    requires members != []
    decreases members
  {
    MemberThen(members[0], if |members| == 1 then "}" else "," + MembersText(members[1..]))
  }

  /** What the tree means. A float keeps its literal. Of two members with one key the later counts. */
  function NodeValue(n: Node): Json {
    match n
    case NullWord => Null
    case TrueWord => Bool(true)
    case FalseWord => Bool(false)
    case Number(negative, whole, fraction) =>
      if fraction.Some? then Float(NumberText(negative, whole, fraction))
      else Int(if negative then -Decimal(whole) else Decimal(whole))
    case Quote(pieces) => if IsBytes(pieces) then Str(Characters(pieces)) else Unicode(CodeUnits(pieces))
    case Array(items) => List(ItemValues(items))
    case Object(members) => Dict(Entries(members))
  }

  function ItemValues(items: seq<Item>): seq<Json> {
    if items == [] then [] else [NodeValue(items[0].node)] + ItemValues(items[1..])
  }

  function Entries(members: seq<Member>): map<string, Json> {
    if members == [] then map[]
    else map[Characters(members[0].key) := NodeValue(members[0].value.node)] + Entries(members[1..])
  }

  ghost predicate SpelledBy(text: string, value: Json, gs: seq<Gap>, n: Node) {
    GapsFit(gs) && Fits(n) && text == GapsText(gs) + NodeText(n) && value == NodeValue(n)
  }

  /** The text is a spelling of the value, with any gaps in front. */
  ghost predicate Spells(text: string, value: Json) {
    exists gs, n :: SpelledBy(text, value, gs, n)
  }
}
