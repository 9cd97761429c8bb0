/** The material label table and the piece catalogue (lib/building/registry.ts). */
module Registry {
  import opened Types
  import MatterTypes
  import PlaceUtils

  /** `MATERIAL_LABEL`: the body label of each material; wood blocks are plain "block". */
  function MaterialLabel(m: Material): (s: string)
    ensures m == Wood <==> s == "block"
    ensures m == Steel <==> s == "steel"
    ensures m == Stone <==> s == "stone"
    ensures m == Glass <==> s == "glass"
    ensures MatterTypes.IsBlockLabel(s)
  {
    match m
    case Wood => "block"
    case Steel => "steel"
    case Stone => "stone"
    case Glass => "glass"
  }

  /** Distinct materials get distinct labels, so a block's label names its material. */
  lemma MaterialLabelInjective(a: Material, b: Material)
    requires MaterialLabel(a) == MaterialLabel(b)
    ensures a == b
  {
  }

  /** `PIECES`: the catalogue entry stored under each piece id. */
  function Pieces(id: PieceId): (p: PieceDef)
    ensures p.id == id
    ensures id == Unit ==> p.footprint == [[1]] && p.title == "Unit (1x1)"
    ensures id == Beam3 ==> p.footprint == [[1, 1, 1]] && p.title == "Beam (3x1)"
    ensures id == Pillar3 ==> p.footprint == [[1], [1], [1]] && p.title == "Pillar (1x3)"
    ensures PlaceUtils.Rectangular(p.footprint)
  {
    match id
    case Unit => PieceDef(Unit, "Unit (1x1)", [[1]])
    case Beam3 => PieceDef(Beam3, "Beam (3x1)", [[1, 1, 1]])
    case Pillar3 => PieceDef(Pillar3, "Pillar (1x3)", [[1], [1], [1]])
  }

  /** A quarter turn of the beam is the pillar. */
  lemma BeamTurnsIntoPillar()
    ensures PlaceUtils.Rot90(Pieces(Beam3).footprint) == Pieces(Pillar3).footprint
  {
    var r := PlaceUtils.Rot90(Pieces(Beam3).footprint);
    assert |r| == 3 && |r[0]| == 1 && |r[1]| == 1 && |r[2]| == 1;
    assert r[0][0] == 1 && r[1][0] == 1 && r[2][0] == 1;
    assert r[0] == [1] && r[1] == [1] && r[2] == [1];
  }
}
