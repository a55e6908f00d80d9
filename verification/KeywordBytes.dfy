/** Bytes as the keyword lookup sees them. */
module KeywordBytes {
  /** The ASCII code of a character of the packed text. */
  function Byte(c: char): bv8 {
    match c
    case 'A' => 65 case 'B' => 66 case 'C' => 67 case 'D' => 68 case 'E' => 69 case 'F' => 70 case 'G' => 71
    case 'H' => 72 case 'I' => 73 case 'J' => 74 case 'K' => 75 case 'L' => 76 case 'M' => 77 case 'N' => 78
    case 'O' => 79 case 'P' => 80 case 'Q' => 81 case 'R' => 82 case 'S' => 83 case 'T' => 84 case 'U' => 85
    case 'V' => 86 case 'W' => 87 case 'X' => 88 case 'Y' => 89 case 'Z' => 90 case '_' => 95
    case _ => 0
  }

  /** The table above is ASCII. */
  lemma ByteIsAscii(c: char)
    requires 'A' <= c <= 'Z' || c == '_'
    ensures Byte(c) as int == c as int
  {
  }

  /** `charMap`: the ASCII lower-casing of a byte. */
  function CharMap(c: bv8): bv8 {
    if 65 <= c <= 90 then c + 32 else c
  }

  /** The bucket of a token, from its first byte, its last byte and its length. */
  function Bucket(first: bv8, last: bv8, n: nat): (b: nat)
    requires n < 0x8000_0000
    ensures b < 127
  {
    LowerBucket(CharMap(first), CharMap(last), n)
  }

  function LowerBucket(first: bv8, last: bv8, n: nat): (b: nat)
    requires n < 0x8000_0000
    ensures b < 127
  {
    ((((first as bv32) * 4) ^ ((last as bv32) * 3) ^ (n as bv32)) as nat) % 127
  }
}
