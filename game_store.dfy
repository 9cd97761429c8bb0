/** The game session store (store/game-store.ts): screen size, drag input, whose
    turn it is, floating damage texts and the configuration, together with the
    occupancy map and piece selection that the systems read from it. */
module GameStore {
  import opened Types
  import opened Constants

  /** The slingshot drag. */
  datatype InputState = InputState(isDragging: bool, startX: real, startY: real, currentX: real, currentY: real)

  /** `Partial<InputState>`: the fields to overwrite. */
  datatype InputPatch = InputPatch(
    isDragging: Option<bool>, startX: Option<real>, startY: Option<real>,
    currentX: Option<real>, currentY: Option<real>)

  /** A rising damage number. `text` is the integer whose decimal rendering is shown. */
  datatype FloatingText = FloatingText(
    x: real, y: real, text: int, life: real, maxLife: real, color: string, size: real, vy: real)

  /** What an occupied grid cell holds. */
  datatype Occupant = Occupant(material: Material, team: Team)

  /** `Partial<GameConfig>`: the keys to overwrite. */
  datatype ConfigPatch = ConfigPatch(
    blockSize: Option<real>,
    soldierRadius: Option<real>,
    projectileRadius: Option<real>,
    physicsSpeed: Option<real>,
    velocityMultiplier: Option<real>,
    maxSpeed: Option<real>,
    minDamageVelocity: Option<real>,
    damageMultiplier: Option<real>,
    blockMaxHealth: Option<real>,
    steelMaxHealth: Option<real>,
    stoneMaxHealth: Option<real>,
    glassMaxHealth: Option<real>)

  /** The opposing team. */
  function Other(t: Team): (u: Team)
    ensures u != t
  {
    if t == Red then Blue else Red
  }

  /** Switching twice gives the turn back. */
  lemma OtherInvolution(t: Team)
    ensures Other(Other(t)) == t
  {
  }

  /** The patched value when a patch is given, otherwise the old one. */
  function Pick<T>(patch: Option<T>, old_: T): (v: T)
    ensures patch.Some? ==> v == patch.value
    ensures patch.None? ==> v == old_
  {
    if patch.Some? then patch.value else old_
  }

  /** `{ ...state.input, ...input }`. */
  function PatchInput(i: InputState, p: InputPatch): (r: InputState)
    ensures r.isDragging == Pick(p.isDragging, i.isDragging)
    ensures r.startX == Pick(p.startX, i.startX) && r.startY == Pick(p.startY, i.startY)
    ensures r.currentX == Pick(p.currentX, i.currentX) && r.currentY == Pick(p.currentY, i.currentY)
  {
    InputState(
      Pick(p.isDragging, i.isDragging), Pick(p.startX, i.startX), Pick(p.startY, i.startY),
      Pick(p.currentX, i.currentX), Pick(p.currentY, i.currentY))
  }

  /** An empty patch changes nothing, and patching twice with the same patch is patching once. */
  lemma PatchInputLaws(i: InputState, p: InputPatch)
    ensures PatchInput(i, InputPatch(None, None, None, None, None)) == i
    ensures PatchInput(PatchInput(i, p), p) == PatchInput(i, p)
  {
  }

  /** `{ ...state.config, ...updates }`. */
  function PatchConfig(c: GameConfig, p: ConfigPatch): (r: GameConfig)
    ensures r.blockSize == Pick(p.blockSize, c.blockSize)
    ensures r.soldierRadius == Pick(p.soldierRadius, c.soldierRadius)
    ensures r.projectileRadius == Pick(p.projectileRadius, c.projectileRadius)
    ensures r.physicsSpeed == Pick(p.physicsSpeed, c.physicsSpeed)
    ensures r.velocityMultiplier == Pick(p.velocityMultiplier, c.velocityMultiplier)
    ensures r.maxSpeed == Pick(p.maxSpeed, c.maxSpeed)
    ensures r.minDamageVelocity == Pick(p.minDamageVelocity, c.minDamageVelocity)
    ensures r.damageMultiplier == Pick(p.damageMultiplier, c.damageMultiplier)
    ensures r.blockMaxHealth == Pick(p.blockMaxHealth, c.blockMaxHealth)
    ensures r.steelMaxHealth == Pick(p.steelMaxHealth, c.steelMaxHealth)
    ensures r.stoneMaxHealth == Pick(p.stoneMaxHealth, c.stoneMaxHealth)
    ensures r.glassMaxHealth == Pick(p.glassMaxHealth, c.glassMaxHealth)
  {
    GameConfig(
      Pick(p.blockSize, c.blockSize),
      Pick(p.soldierRadius, c.soldierRadius),
      Pick(p.projectileRadius, c.projectileRadius),
      Pick(p.physicsSpeed, c.physicsSpeed),
      Pick(p.velocityMultiplier, c.velocityMultiplier),
      Pick(p.maxSpeed, c.maxSpeed),
      Pick(p.minDamageVelocity, c.minDamageVelocity),
      Pick(p.damageMultiplier, c.damageMultiplier),
      Pick(p.blockMaxHealth, c.blockMaxHealth),
      Pick(p.steelMaxHealth, c.steelMaxHealth),
      Pick(p.stoneMaxHealth, c.stoneMaxHealth),
      Pick(p.glassMaxHealth, c.glassMaxHealth))
  }

  /** The input at rest: not dragging, all coordinates 0. */
  const RESTING_INPUT: InputState := InputState(false, 0.0, 0.0, 0.0, 0.0)

  /** One frame of ageing: life drops by 0.02 and the text rises by its vy. */
  function Age(t: FloatingText): (a: FloatingText)
    ensures a.life == t.life - 0.02 && a.y == t.y + t.vy
    ensures a.x == t.x && a.text == t.text && a.maxLife == t.maxLife && a.vy == t.vy
    ensures a.color == t.color && a.size == t.size
  {
    t.(life := t.life - 0.02, y := t.y + t.vy)
  }

  /** Ages every text and keeps, in order, those still alive. */
  function Aged(ts: seq<FloatingText>): (r: seq<FloatingText>)
    ensures |r| <= |ts|
    ensures forall t :: t in r ==> t.life > 0.0
  {
    if ts == [] then []
    else (if Age(ts[0]).life > 0.0 then [Age(ts[0])] else []) + Aged(ts[1..])
  }

  /** Ageing works text by text: the texts of a concatenation age independently and keep their order. */
  lemma {:induction false} AgedAppend(a: seq<FloatingText>, b: seq<FloatingText>)
    ensures Aged(a + b) == Aged(a) + Aged(b)
  {
    if a != [] {
      assert (a + b)[1..] == a[1..] + b;
      AgedAppend(a[1..], b);
    } else {
      assert a + b == b;
    }
  }

  /** A text survives a frame exactly when its aged life is positive. */
  lemma {:induction false} AgedMembers(ts: seq<FloatingText>, t: FloatingText)
    ensures t in Aged(ts) <==> exists s :: s in ts && t == Age(s) && Age(s).life > 0.0
  {
    if ts != [] {
      AgedMembers(ts[1..], t);
      if t in Aged(ts[1..]) {
        var s :| s in ts[1..] && t == Age(s) && Age(s).life > 0.0;
        assert s in ts;
      }
      if exists s :: s in ts && t == Age(s) && Age(s).life > 0.0 {
        var s :| s in ts && t == Age(s) && Age(s).life > 0.0;
        if s != ts[0] {
          var i :| 0 <= i < |ts| && ts[i] == s;
          assert ts[1..][i - 1] == s;
        }
      }
    }
  }

  class Store {
    var width: real
    var height: real
    var input: InputState
    var currentPlayer: Team
    var floatingTexts: seq<FloatingText>
    var config: GameConfig
    var debugPanelOpen: bool
    /** The ground band's height (`config.groundHeight`, which GameConfig does not declare). */
    var groundHeight: real
    /** Which grid cells hold a block, keyed by cell. */
    var occupiedCells: map<Cell, Occupant>
    var selectedPieceId: PieceId
    var selectedRotation: Rotation
    var selectedMaterial: Material

    /** The initial state for a window of the given size. */
    constructor (width: real, height: real, groundHeight: real)
      ensures this.width == width && this.height == height && this.groundHeight == groundHeight
      ensures input == RESTING_INPUT && currentPlayer == Red && floatingTexts == []
      ensures config == CONFIG && !debugPanelOpen && occupiedCells == map[]
    {
      this.width := width;
      this.height := height;
      this.groundHeight := groundHeight;
      input := RESTING_INPUT;
      currentPlayer := Red;
      floatingTexts := [];
      config := CONFIG;
      debugPanelOpen := false;
      occupiedCells := map[];
      selectedPieceId := Unit;
      selectedRotation := R0;
      selectedMaterial := Wood;
    }

    /** The window was resized. */
    method SetDimensions(width: real, height: real)
      modifies this`width, this`height
      ensures this.width == width && this.height == height
    {
      this.width := width;
      this.height := height;
    }

    /** Overwrites only the given input fields. */
    method SetInput(p: InputPatch)
      modifies this`input
      ensures input == PatchInput(old(input), p)
    {
      input := PatchInput(input, p);
    }

    method ResetInput()
      modifies this`input
      ensures input == RESTING_INPUT
    {
      input := RESTING_INPUT;
    }

    /** Passes the turn to the other team. */
    method SwitchPlayer()
      modifies this`currentPlayer
      ensures currentPlayer == Other(old(currentPlayer))
    {
      currentPlayer := Other(currentPlayer);
    }

    /** Gives the turn to the given team. */
    method SetCurrentPlayer(player: Team)
      modifies this`currentPlayer
      ensures currentPlayer == player
    {
      currentPlayer := player;
    }

    /** Appends a text after the existing ones. */
    method AddFloatingText(t: FloatingText)
      modifies this`floatingTexts
      ensures floatingTexts == old(floatingTexts) + [t]
    {
      floatingTexts := floatingTexts + [t];
    }

    /** Ages every text by one frame and drops the expired ones. */
    method UpdateFloatingTexts()
      modifies this`floatingTexts
      ensures floatingTexts == Aged(old(floatingTexts))
    {
      floatingTexts := Aged(floatingTexts);
    }

    /** Opens a closed debug panel and closes an open one. */
    method ToggleDebugPanel()
      modifies this`debugPanelOpen
      ensures debugPanelOpen == !old(debugPanelOpen)
    {
      debugPanelOpen := !debugPanelOpen;
    }

    /** Overwrites only the given configuration keys. */
    method UpdateConfig(p: ConfigPatch)
      modifies this`config
      ensures config == PatchConfig(old(config), p)
    {
      config := PatchConfig(config, p);
    }

    /** Red to move, no texts, input at rest; configuration and everything else untouched. */
    method ResetGame()
      modifies this`currentPlayer, this`floatingTexts, this`input
      ensures currentPlayer == Red && floatingTexts == [] && input == RESTING_INPUT
      ensures config == old(config) && occupiedCells == old(occupiedCells)
    {
      currentPlayer := Red;
      floatingTexts := [];
      input := RESTING_INPUT;
    }

    /** Replaces the whole occupancy map. */
    method SetOccupiedCells(m: map<Cell, Occupant>)
      modifies this`occupiedCells
      ensures occupiedCells == m
    {
      occupiedCells := m;
    }

    /** Marks every given cell as holding `occ`; other cells keep their occupant. */
    method OccupyCells(cells: seq<Cell>, occ: Occupant)
      modifies this`occupiedCells
      ensures forall c :: c in cells ==> c in occupiedCells && occupiedCells[c] == occ
      ensures forall c :: c !in cells ==> (c in occupiedCells <==> c in old(occupiedCells))
      ensures forall c :: c !in cells && c in old(occupiedCells) ==> occupiedCells[c] == old(occupiedCells)[c]
      ensures occupiedCells == old(occupiedCells) + map c | c in cells :: occ
    {
      occupiedCells := occupiedCells + map c | c in cells :: occ;
    }
  }
}
