/** Material to token mapping (lib/building/material-utils.ts). */
module MaterialUtils {
  import opened Types
  import opened BlueprintUtils

  /** The blueprint token of a material; it is never the empty token and reads back as the same material. */
  function MaterialToToken(material: Material): (t: char)
    ensures t in {'w', 't', 's', 'g'} && t != EMPTY_CELL
    ensures TokenToMaterial(t) == Some(material)
  {
    match material
    case Wood => 'w'
    case Steel => 't'
    case Stone => 's'
    case Glass => 'g'
  }

  /** The token of an empty cell. */
  function EmptyToken(): (t: char)
    ensures t == EMPTY_CELL && TokenToMaterial(t) == None
  {
    EMPTY_CELL
  }

  /** Token and material are inverse on the four material tokens. */
  lemma TokenRoundTrip(token: char)
    requires TokenToMaterial(token).Some?
    ensures MaterialToToken(TokenToMaterial(token).value) == token
  {
  }

  /** Distinct materials get distinct tokens. */
  lemma MaterialToTokenInjective(a: Material, b: Material)
    requires MaterialToToken(a) == MaterialToToken(b)
    ensures a == b
  {
    assert TokenToMaterial(MaterialToToken(a)) == Some(a);
  }
}
