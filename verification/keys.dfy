/**
 Keys, modifier masks and the key tables of input_handlers.py.

 A key is identified the way tcod identifies it, by its SDL2 keysym: a key
 that types a character has that character's code as its keysym, and every
 other key has its scancode with bit 30 set. The model names the keys the
 handlers test for and keeps the rest as Char (character keys) or Other
 (non-character keys, by scancode).
 */
module Keys {

  datatype Key =
    | Char(c: char)
    | Up | Down | Left | Right | Home | End | PageUp | PageDown
    | Kp1 | Kp2 | Kp3 | Kp4 | Kp5 | Kp6 | Kp7 | Kp8 | Kp9 | KpEnter
    | Return | Escape | Clear
    | LShift | RShift | LCtrl | RCtrl | LAlt | RAlt
    | Other(scancode: nat)

  /** SDL_SCANCODE_TO_KEYCODE: the scancode with bit 30 set. */
  function ScancodeKey(scancode: nat): int
  {
    0x4000_0000 + scancode
  }

  /** The integer value of the key's tcod KeySym. */
  function KeySym(k: Key): int
  {
    match k
    case Char(c) => c as int
    case Return => 13
    case Escape => 27
    case Right => ScancodeKey(79)
    case Left => ScancodeKey(80)
    case Down => ScancodeKey(81)
    case Up => ScancodeKey(82)
    case Home => ScancodeKey(74)
    case PageUp => ScancodeKey(75)
    case End => ScancodeKey(77)
    case PageDown => ScancodeKey(78)
    case KpEnter => ScancodeKey(88)
    case Kp1 => ScancodeKey(89)
    case Kp2 => ScancodeKey(90)
    case Kp3 => ScancodeKey(91)
    case Kp4 => ScancodeKey(92)
    case Kp5 => ScancodeKey(93)
    case Kp6 => ScancodeKey(94)
    case Kp7 => ScancodeKey(95)
    case Kp8 => ScancodeKey(96)
    case Kp9 => ScancodeKey(97)
    case Clear => ScancodeKey(156)
    case LCtrl => ScancodeKey(224)
    case LShift => ScancodeKey(225)
    case LAlt => ScancodeKey(226)
    case RCtrl => ScancodeKey(228)
    case RShift => ScancodeKey(229)
    case RAlt => ScancodeKey(230)
    case Other(s) => ScancodeKey(s)
  }

  /** `key - KeySym.a`, the inventory handler's letter offset. */
  function LetterIndex(k: Key): int
  {
    KeySym(k) - KeySym(Char('a'))
  }

  /**
   Only character keys from 'a' up to the character after 'z' have an
   offset in the 0..26 window the inventory handler accepts, and letter
   'a' + i has offset i.
   */
  lemma LetterIndexWindow(k: Key)
    ensures 0 <= LetterIndex(k) <= 26 <==> k.Char? && 'a' <= k.c <= '{'
    ensures k.Char? ==> LetterIndex(k) == k.c as int - 'a' as int
  {
  }

  /** MOVE_KEYS: arrow and navigation keys, the keypad, and the vi keys. */
  const MoveKeys: map<Key, (int, int)> := map[
    Up := (0, -1), Down := (0, 1), Left := (-1, 0), Right := (1, 0),
    Home := (-1, -1), End := (-1, 1), PageUp := (1, -1), PageDown := (1, 1),
    Kp8 := (0, -1), Kp2 := (0, 1), Kp4 := (-1, 0), Kp6 := (1, 0),
    Kp7 := (-1, -1), Kp1 := (-1, 1), Kp9 := (1, -1), Kp3 := (1, 1),
    Char('k') := (0, -1), Char('j') := (0, 1), Char('h') := (-1, 0), Char('l') := (1, 0),
    Char('y') := (-1, -1), Char('b') := (-1, 1), Char('u') := (1, -1), Char('n') := (1, 1)
  ]

  /** WAIT_KEYS */
  const WaitKeys: set<Key> := {Char('.'), Kp5, Clear}

  /** CONFIRM_KEYS */
  const ConfirmKeys: set<Key> := {Return, KpEnter}

  /** CURSOR_Y_KEYS: cursor adjustments of the message history viewer. */
  const CursorYKeys: map<Key, int> := map[Up := -1, Down := 1, PageUp := -10, PageDown := 10]

  /** The shift, ctrl and alt keys of either side, which the ask-user handlers ignore. */
  const ModifierKeys: set<Key> := {LShift, RShift, LCtrl, RCtrl, LAlt, RAlt}

  /** One king's move: a step to one of the eight neighbouring cells. */
  predicate KingStep(d: (int, int))
  {
    -1 <= d.0 <= 1 && -1 <= d.1 <= 1 && d != (0, 0)
  }

  /**
   Every move key steps to a neighbouring cell, and every one of the eight
   directions has a move key.
   */
  lemma MoveKeysAreKingSteps(d: (int, int))
    ensures forall k :: k in MoveKeys ==> KingStep(MoveKeys[k])
    ensures KingStep(d) ==> exists k :: k in MoveKeys && MoveKeys[k] == d
  {
    if KingStep(d) {
      if d == (0, -1) { assert MoveKeys[Up] == d; }
      else if d == (0, 1) { assert MoveKeys[Down] == d; }
      else if d == (-1, 0) { assert MoveKeys[Left] == d; }
      else if d == (1, 0) { assert MoveKeys[Right] == d; }
      else if d == (-1, -1) { assert MoveKeys[Home] == d; }
      else if d == (-1, 1) { assert MoveKeys[End] == d; }
      else if d == (1, -1) { assert MoveKeys[PageUp] == d; }
      else { assert MoveKeys[PageDown] == d; }
    }
  }

  /**
   The key tables never overlap, and none of the main game's command keys
   is a move or wait key, so the order in which the handlers test them does
   not matter.
   */
  lemma KeyTablesDisjoint(k: Key)
    ensures !(k in MoveKeys && k in WaitKeys)
    ensures !(k in MoveKeys && k in ConfirmKeys)
    ensures !(k in WaitKeys && k in ConfirmKeys)
  {
  }

  /** The modifier keys are not move keys. */
  lemma ModifierKeysAreNotMoveKeys()
    ensures LShift !in MoveKeys && RShift !in MoveKeys && LCtrl !in MoveKeys
    ensures RCtrl !in MoveKeys && LAlt !in MoveKeys && RAlt !in MoveKeys
  {
  }

  /** The modifier keys are in none of the tables. */
  lemma ModifierKeysOutsideTables(k: Key)
    ensures k in ModifierKeys ==> k !in MoveKeys && k !in WaitKeys && k !in ConfirmKeys && k !in CursorYKeys
  {
    ModifierKeysAreNotMoveKeys();
  }

  /** None of the main game's command keys is a move or wait key. */
  lemma CommandKeysOutsideTables(k: Key)
    ensures k == Escape || k == Char('v') || k == Char('g') || k == Char('i') || k == Char('d') || k == Char('/')
            ==> k !in MoveKeys && k !in WaitKeys
  {
    if k == Escape {
    } else if k.Char? {
      assert k == Char(k.c);
    }
  }

  // ---------------------------------------------------------------------
  // Modifier masks
  // ---------------------------------------------------------------------

  /** SDL_Keymod bits of the modifier mask a key event carries. */
  const KmodLShift: bv16 := 0x0001
  const KmodRShift: bv16 := 0x0002
  const KmodLCtrl: bv16 := 0x0040
  const KmodRCtrl: bv16 := 0x0080
  const KmodLAlt: bv16 := 0x0100
  const KmodRAlt: bv16 := 0x0200

  predicate ShiftHeld(mod: bv16) { mod & (KmodLShift | KmodRShift) != 0 }
  predicate CtrlHeld(mod: bv16) { mod & (KmodLCtrl | KmodRCtrl) != 0 }
  predicate AltHeld(mod: bv16) { mod & (KmodLAlt | KmodRAlt) != 0 }

  /**
   The cursor speed-up for a held modifier set: shift x5, ctrl x10, alt x20,
   composing by multiplication.
   */
  function Multiplier(mod: bv16): (m: int)
    ensures m in {1, 5, 10, 20, 50, 100, 200, 1000}
    ensures m % 5 == 0 <==> ShiftHeld(mod) || CtrlHeld(mod) || AltHeld(mod)
    ensures ShiftHeld(mod) && CtrlHeld(mod) && !AltHeld(mod) ==> m == 50
  {
    (if ShiftHeld(mod) then 5 else 1)
    * (if CtrlHeld(mod) then 10 else 1)
    * (if AltHeld(mod) then 20 else 1)
  }

  /** The key of either side counts. */
  lemma MultiplierOfEitherSide()
    ensures Multiplier(KmodLShift) == Multiplier(KmodRShift) == 5
    ensures Multiplier(KmodLCtrl) == Multiplier(KmodRCtrl) == 10
    ensures Multiplier(KmodLAlt) == Multiplier(KmodRAlt) == 20
  {
  }

  /** Shift and ctrl together: 50 times. */
  lemma ShiftCtrlMultiplier()
    ensures Multiplier(KmodLShift | KmodLCtrl) == 50
  {
    assert ShiftHeld(KmodLShift | KmodLCtrl) && CtrlHeld(KmodLShift | KmodLCtrl);
    assert !AltHeld(KmodLShift | KmodLCtrl);
  }

  /** Bits other than shift, ctrl and alt (caps lock, num lock, ...) change nothing. */
  lemma MultiplierIgnoresOtherBits(mod: bv16)
    ensures Multiplier(mod & 0x03C3) == Multiplier(mod)
  {
    assert ShiftHeld(mod & 0x03C3) == ShiftHeld(mod);
    assert CtrlHeld(mod & 0x03C3) == CtrlHeld(mod);
    assert AltHeld(mod & 0x03C3) == AltHeld(mod);
  }

  /** The KeySym values of the six modifier keys, as 32-bit masks. */
  const LShiftSym: bv32 := 0x4000_00E1
  const RShiftSym: bv32 := 0x4000_00E5
  const LCtrlSym: bv32 := 0x4000_00E0
  const RCtrlSym: bv32 := 0x4000_00E4
  const LAltSym: bv32 := 0x4000_00E2
  const RAltSym: bv32 := 0x4000_00E6

  /** The 32-bit masks are the KeySym values of the modifier keys. */
  lemma ShiftSymsAgree()
    ensures LShiftSym as int == KeySym(LShift) && RShiftSym as int == KeySym(RShift)
  {
  }

  lemma CtrlSymsAgree()
    ensures LCtrlSym as int == KeySym(LCtrl) && RCtrlSym as int == KeySym(RCtrl)
  {
  }

  lemma AltSymsAgree()
    ensures LAltSym as int == KeySym(LAlt) && RAltSym as int == KeySym(RAlt)
  {
  }

  /**
   The multiplier as input_handlers.py:265-271 computes it: the modifier
   mask is tested against OR-ed KeySym values (LSHIFT | RSHIFT and so on)
   rather than against the KMOD bits.
   */
  function MultiplierAsWritten(mod: bv16): int
  {
    var m32 := mod as bv32;
    (if m32 & (LShiftSym | RShiftSym) != 0 then 5 else 1)
    * (if m32 & (LCtrlSym | RCtrlSym) != 0 then 10 else 1)
    * (if m32 & (LAltSym | RAltSym) != 0 then 20 else 1)
  }

  /**
   With the KeySym masks, left ctrl alone speeds the cursor up 1000-fold
   (it trips all three tests), right shift counts as alt, and alt is never
   seen.
   */
  lemma MultiplierAsWrittenDiffers()
    ensures MultiplierAsWritten(KmodLCtrl) == 1000 && Multiplier(KmodLCtrl) == 10
    ensures MultiplierAsWritten(KmodRShift) == 20 && Multiplier(KmodRShift) == 5
    ensures MultiplierAsWritten(KmodLAlt) == 1 && Multiplier(KmodLAlt) == 20
    ensures MultiplierAsWritten(KmodLShift) == 5 && Multiplier(KmodLShift) == 5
  {
  }
}
