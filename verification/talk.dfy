/**
 * The byte classifier of the hello-world example: two constant lookup
 * tables, one from bytes to classes and one from classes to "is alphanumeric".
 */
module Talk {

  /** `#[repr(u8)] enum Byte`, with discriminants 0, 1, 2. */
  datatype Byte = Letter | Digit | Punct

  datatype Classified = Ok(kind: Byte) | Err

  function Discriminant(b: Byte): (k: nat)
    ensures k < 3
  {
    match b
    case Letter => 0
    case Digit => 1
    case Punct => 2
  }

  /** The 256-entry table as const evaluation leaves it: only `b'a'` and `b'.'` are set. */
  function ParseTable(): (t: seq<Classified>)
    ensures |t| == 256
  {
    seq(256, InitialEntry)
  }

  /** Entry `i` of the parse table: `Err` everywhere but at `b'a'` and `b'.'`. */
  function InitialEntry(i: int): Classified {
    if i == 'a' as int then Ok(Letter) else if i == '.' as int then Ok(Punct) else Err
  }

  /** `is_alphanumeric`'s table, indexed by discriminant. */
  const AlnumTable: seq<bool> := [true, true, false]

  /** `talk::parse`: one table lookup. */
  function Parse(byte: bv8): (r: Classified)
    ensures byte == 'a' as bv8 ==> r == Ok(Letter)
    ensures byte == '.' as bv8 ==> r == Ok(Punct)
  {
    ParseTable()[byte as int]
  }

  /** `talk::is_alphanumeric`: one table lookup. */
  function IsAlphanumeric(byte: Byte): (r: bool)
    ensures r <==> byte == Letter || byte == Digit
  {
    AlnumTable[Discriminant(byte)]
  }

  /** As written, the table knows two bytes only: every other byte is an error, and `Digit` is never produced. */
  lemma ParseCoverage(byte: bv8)
    ensures Parse(byte).Ok? <==> byte == 'a' as bv8 || byte == '.' as bv8
    ensures Parse(byte) != Ok(Digit)
  {
  }
}
