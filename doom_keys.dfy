/**
 The key translator of the SDL front end: a total, stateless mapping from a
 platform (SDL) key code to the byte the game engine understands.

 The numeric values of the SDL key codes and of the game keys come from
 headers that are not part of this model, so they are kept abstract in a
 KeyTable. All that is assumed of them is what those headers guarantee: the
 recognised SDL key codes are pairwise distinct (they are the labels of one
 switch), and the game keys are pairwise distinct and non-zero.
 */
module DoomKeys {

  newtype byte = x: int | 0 <= x < 0x100
  newtype u32 = x: int | 0 <= x < 0x1_0000_0000

  /** The SDL key codes the translator recognises. */
  datatype Sym =
    | SdlkReturn | SdlkEscape
    | SdlkA | SdlkLeft | SdlkD | SdlkRight | SdlkW | SdlkUp | SdlkS | SdlkDown
    | SdlkLCtrl | SdlkSpace | SdlkLShift

  /** The game keys the translator can produce. */
  datatype GameKey =
    | KeyEnter | KeyEscape
    | KeyLeftArrow | KeyRightArrow | KeyUpArrow | KeyDownArrow
    | KeyFire | KeyUse | KeyRShift

  /** The header constants: the numeric code of each SDL key and of each game key. */
  datatype KeyTable = KeyTable(sym: Sym -> u32, code: GameKey -> byte)
  {
    /** What the headers guarantee about the constants. */
    ghost predicate Valid()
    {
      && (forall a: Sym, b: Sym :: sym(a) == sym(b) ==> a == b)
      && (forall a: GameKey, b: GameKey :: code(a) == code(b) ==> a == b)
      && (forall g: GameKey :: code(g) != 0)
    }
  }

  /** The translation table of the switch, by name: which game key each recognised SDL key stands for. */
  function Binding(s: Sym): GameKey
  {
    match s
    case SdlkReturn => KeyEnter
    case SdlkEscape => KeyEscape
    case SdlkA | SdlkLeft => KeyLeftArrow
    case SdlkD | SdlkRight => KeyRightArrow
    case SdlkW | SdlkUp => KeyUpArrow
    case SdlkS | SdlkDown => KeyDownArrow
    case SdlkLCtrl => KeyFire
    case SdlkSpace => KeyUse
    case SdlkLShift => KeyRShift
  }

  /** The switch on the raw key code: a recognised code gives its game key, anything else 0. */
  function ConvertToDoomKey(t: KeyTable, key: u32): (r: byte)
    ensures r == 0 || exists g: GameKey :: r == t.code(g)
  {
    if key == t.sym(SdlkReturn) then t.code(KeyEnter)
    else if key == t.sym(SdlkEscape) then t.code(KeyEscape)
    else if key == t.sym(SdlkA) || key == t.sym(SdlkLeft) then t.code(KeyLeftArrow)
    else if key == t.sym(SdlkD) || key == t.sym(SdlkRight) then t.code(KeyRightArrow)
    else if key == t.sym(SdlkW) || key == t.sym(SdlkUp) then t.code(KeyUpArrow)
    else if key == t.sym(SdlkS) || key == t.sym(SdlkDown) then t.code(KeyDownArrow)
    else if key == t.sym(SdlkLCtrl) then t.code(KeyFire)
    else if key == t.sym(SdlkSpace) then t.code(KeyUse)
    else if key == t.sym(SdlkLShift) then t.code(KeyRShift)
    else 0
  }

  /** Every recognised SDL key translates to the game key the table binds it to. */
  lemma ConvertRecognised(t: KeyTable, s: Sym)
    requires t.Valid()
    ensures ConvertToDoomKey(t, t.sym(s)) == t.code(Binding(s))
  {
    // one case per label of the switch
    match s
    case SdlkReturn =>
    case SdlkEscape =>
    case SdlkA =>
    case SdlkLeft =>
    case SdlkD =>
    case SdlkRight =>
    case SdlkW =>
    case SdlkUp =>
    case SdlkS =>
    case SdlkDown =>
    case SdlkLCtrl =>
    case SdlkSpace =>
    case SdlkLShift =>
  }

  /** A key code translates to 0 exactly when it is none of the recognised SDL keys. */
  lemma ConvertUnrecognised(t: KeyTable, key: u32)
    requires t.Valid()
    ensures ConvertToDoomKey(t, key) == 0 <==> forall s: Sym :: key != t.sym(s)
  {
    if ConvertToDoomKey(t, key) != 0 {
      var s := Unconvert(t, key);
      assert key == t.sym(s);
    } else {
      forall s: Sym ensures key != t.sym(s) {
        if key == t.sym(s) {
          ConvertRecognised(t, s);
        }
      }
    }
  }

  /**
   A key code translates to game key g exactly when it is the code of an SDL
   key bound to g: the translation is the table, read in both directions.
   */
  lemma ConvertIsBinding(t: KeyTable, key: u32, g: GameKey)
    requires t.Valid()
    ensures ConvertToDoomKey(t, key) == t.code(g) <==> exists s: Sym :: key == t.sym(s) && Binding(s) == g
  {
    if ConvertToDoomKey(t, key) == t.code(g) {
      var s := Unconvert(t, key);
      ConvertRecognised(t, s);
    } else {
      forall s: Sym | key == t.sym(s) ensures Binding(s) != g {
        ConvertRecognised(t, s);
      }
    }
  }

  /** Keys that share a target: a and Left, d and Right, w and Up, s and Down; left shift gives the run key. */
  lemma ConvertSharedTargets(t: KeyTable)
    requires t.Valid()
    ensures ConvertToDoomKey(t, t.sym(SdlkA)) == ConvertToDoomKey(t, t.sym(SdlkLeft)) == t.code(KeyLeftArrow)
    ensures ConvertToDoomKey(t, t.sym(SdlkD)) == ConvertToDoomKey(t, t.sym(SdlkRight)) == t.code(KeyRightArrow)
    ensures ConvertToDoomKey(t, t.sym(SdlkW)) == ConvertToDoomKey(t, t.sym(SdlkUp)) == t.code(KeyUpArrow)
    ensures ConvertToDoomKey(t, t.sym(SdlkS)) == ConvertToDoomKey(t, t.sym(SdlkDown)) == t.code(KeyDownArrow)
    ensures ConvertToDoomKey(t, t.sym(SdlkLShift)) == t.code(KeyRShift)
  {
    ConvertRecognised(t, SdlkA);
    ConvertRecognised(t, SdlkLeft);
    ConvertRecognised(t, SdlkD);
    ConvertRecognised(t, SdlkRight);
    ConvertRecognised(t, SdlkW);
    ConvertRecognised(t, SdlkUp);
    ConvertRecognised(t, SdlkS);
    ConvertRecognised(t, SdlkDown);
    ConvertRecognised(t, SdlkLShift);
  }

  /** The SDL key behind a non-zero translation (helper for the lemmas above). */
  ghost function Unconvert(t: KeyTable, key: u32): (s: Sym)
    requires ConvertToDoomKey(t, key) != 0
    ensures key == t.sym(s)
  {
    if key == t.sym(SdlkReturn) then SdlkReturn
    else if key == t.sym(SdlkEscape) then SdlkEscape
    else if key == t.sym(SdlkA) then SdlkA
    else if key == t.sym(SdlkLeft) then SdlkLeft
    else if key == t.sym(SdlkD) then SdlkD
    else if key == t.sym(SdlkRight) then SdlkRight
    else if key == t.sym(SdlkW) then SdlkW
    else if key == t.sym(SdlkUp) then SdlkUp
    else if key == t.sym(SdlkS) then SdlkS
    else if key == t.sym(SdlkDown) then SdlkDown
    else if key == t.sym(SdlkLCtrl) then SdlkLCtrl
    else if key == t.sym(SdlkSpace) then SdlkSpace
    else SdlkLShift
  }
}
