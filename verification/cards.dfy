/** Playing cards and the two-symbol token codec of `poker.py`.

    A token is `<value><suit>`: the value symbol is one of `23456789TJQKA`
    (mapped to 2..14) and the suit symbol one of `CDHS` (mapped to 1..4).
    Parsing reads only the first two symbols of a token; an unknown symbol is
    the source's `KeyError`, a token too short to hold a symbol is its
    `IndexError`.
 */
module Cards {

  /** Face value: 2..10 for the pip cards, 11 = Jack, 12 = Queen, 13 = King, 14 = Ace. */
  type Value = v: int | 2 <= v <= 14 witness 2

  /** Suit: 1 = Clubs, 2 = Diamonds, 3 = Hearts, 4 = Spades. */
  type Suit = s: int | 1 <= s <= 4 witness 1

  /** One card, compared by value (the source never relies on object identity). */
  datatype Card = Card(v: Value, s: Suit)

  /** Why a token could not be read. */
  datatype ParseError =
    | UnknownSymbol(symbol: char)   // a dictionary lookup that misses (KeyError)
    | MissingSymbol                 // the token has no character at that position (IndexError)

  datatype Result<T> = Ok(value: T) | Err(error: ParseError)

  /** The value-symbol table. */
  const VALUE: map<char, int> := map[
    '2' := 2, '3' := 3, '4' := 4, '5' := 5, '6' := 6, '7' := 7, '8' := 8,
    '9' := 9, 'T' := 10, 'J' := 11, 'Q' := 12, 'K' := 13, 'A' := 14]

  /** The suit-symbol table. */
  const SUIT: map<char, int> := map['C' := 1, 'D' := 2, 'H' := 3, 'S' := 4]

  /** The inverse of `VALUE`, which the source rebuilds on every call to `__str__`. */
  function ValueSymbol(v: Value): (c: char)
    ensures c in VALUE && VALUE[c] == v
  {
    match v
    case 2 => '2' case 3 => '3' case 4 => '4' case 5 => '5' case 6 => '6'
    case 7 => '7' case 8 => '8' case 9 => '9' case 10 => 'T' case 11 => 'J'
    case 12 => 'Q' case 13 => 'K' case 14 => 'A'
  }

  /** The inverse of `SUIT`. */
  function SuitSymbol(s: Suit): (c: char)
    ensures c in SUIT && SUIT[c] == s
  {
    match s
    case 1 => 'C' case 2 => 'D' case 3 => 'H' case 4 => 'S'
  }

  /** The dictionary inversion is exact because both tables are injective:
      every symbol is recovered from the number it stands for. */
  lemma SymbolTablesInjective(c: char)
    ensures c in VALUE ==> 2 <= VALUE[c] <= 14 && ValueSymbol(VALUE[c]) == c
    ensures c in SUIT ==> 1 <= SUIT[c] <= 4 && SuitSymbol(SUIT[c]) == c
  {
  }

  /** `Card(token)`: look the value up first, then the suit; extra symbols are ignored. */
  function Parse(t: string): (r: Result<Card>)
    ensures r.Ok? <==> |t| >= 2 && t[0] in VALUE && t[1] in SUIT
    ensures r.Ok? ==> r.value.v == VALUE[t[0]] && r.value.s == SUIT[t[1]]
    ensures r == Err(MissingSymbol) <==> |t| == 0 || (|t| == 1 && t[0] in VALUE)
    ensures r.Err? && r.error.UnknownSymbol? ==>
              (|t| >= 1 && t[0] !in VALUE && r.error.symbol == t[0]) ||
              (|t| >= 2 && t[0] in VALUE && t[1] !in SUIT && r.error.symbol == t[1])
  {
    if |t| == 0 then Err(MissingSymbol)
    else if t[0] !in VALUE then Err(UnknownSymbol(t[0]))
    else if |t| == 1 then Err(MissingSymbol)
    else if t[1] !in SUIT then Err(UnknownSymbol(t[1]))
    else Ok(Card(VALUE[t[0]], SUIT[t[1]]))
  }

  /** `str(card)`: value symbol followed by suit symbol. */
  function Format(c: Card): (t: string)
    ensures |t| == 2
    ensures t[0] in VALUE && VALUE[t[0]] == c.v
    ensures t[1] in SUIT && SUIT[t[1]] == c.s
  {
    [ValueSymbol(c.v), SuitSymbol(c.s)]
  }

  /** Printing a parsed card gives back the two symbols it was read from. */
  lemma FormatParse(t: string)
    requires Parse(t).Ok?
    ensures Format(Parse(t).value) == t[..2]
  {
    SymbolTablesInjective(t[0]);
    SymbolTablesInjective(t[1]);
  }

  /** Reading a printed card gives back the card. */
  lemma ParseFormat(c: Card)
    ensures Parse(Format(c)) == Ok(c)
  {
  }
}
