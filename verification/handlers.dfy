/**
 The input-handler state machine of input_handlers.py.

 Exactly one handler is active. Dispatching an event to it yields the next
 engine state, the next handler and at most one action, or a request to
 terminate the program (SystemExit in input_handlers.py). The engine state keeps
 what the handlers read and write: the mouse (cursor) location, the map
 size, the player's position, the inventory and the message log.
 */
module Handlers {
  import opened Keys
  import opened Bounds
  import History
  import InventoryMenu
  import Rooms

  datatype Option<T> = None | Some(value: T)

  datatype Item = Item(name: string)

  /** The two message colours the handlers use: color.impossible and color.invalid. */
  datatype Tint = ImpossibleTint | InvalidTint

  datatype Message = Message(text: string, tint: Tint)

  datatype Engine = Engine(
    mouse: Rooms.Pos,
    width: int,
    height: int,
    player: Rooms.Pos,
    items: seq<Item>,
    log: seq<Message>)

  /** The actions the handlers build; performing them is outside the model. */
  datatype Action =
    | Bump(dx: int, dy: int)
    | Wait
    | Pickup
    | Activate(item: Item)
    | Drop(item: Item)

  /**
   The concrete handler classes. AskUserEventHandler, InventoryEventHandler
   and SelectIndexHandler are bases that are never active themselves.
   */
  datatype Handler =
    | MainGame
    | InventoryActivate
    | InventoryDrop
    | Look
    | HistoryViewer(viewer: History.Viewer)
    | GameOver

  /** The handlers derived from AskUserEventHandler. */
  predicate AskUser(h: Handler)
  {
    h.InventoryActivate? || h.InventoryDrop? || h.Look?
  }

  datatype Event =
    | KeyDown(key: Key, mod: bv16)
    | MouseMotion(tile: Rooms.Pos)
    | MouseButtonDown(tile: Rooms.Pos, button: int)
    | Quit
    | OtherEvent

  /** The result of dispatching one event. */
  datatype Dispatched = Next(engine: Engine, handler: Handler, action: Option<Action>) | Exit

  /** GameMap.in_bounds: the tile lies on the width x height map. */
  predicate InBounds(e: Engine, p: Rooms.Pos)
  {
    0 <= p.0 < e.width && 0 <= p.1 < e.height
  }

  /** The log after the step extends the log before it by at most one message. */
  predicate LogExtends(before: seq<Message>, after: seq<Message>)
  {
    after == before || (|after| == |before| + 1 && after[..|before|] == before)
  }

  // ---------------------------------------------------------------------
  // Transitions into handlers
  // ---------------------------------------------------------------------

  /** AskUserEventHandler.on_exit: back to the main game, no action. */
  function ExitToMain(e: Engine): Dispatched
  {
    Next(e, MainGame, None)
  }

  /** Constructing a LookHandler puts the cursor on the player. */
  function EnterLook(e: Engine): (r: Dispatched)
    ensures r.Next? && r.handler == Look && r.action == None
    ensures r.engine.mouse == e.player
    ensures r.engine == e.(mouse := r.engine.mouse)
  {
    Next(e.(mouse := e.player), Look, None)
  }

  /** Constructing a HistoryViewer snapshots the log length; the cursor starts on the newest message. */
  function EnterHistory(e: Engine): (r: Dispatched)
    ensures r.Next? && r.engine == e && r.action == None && r.handler.HistoryViewer?
    ensures r.handler.viewer.logLength == |e.log|
    ensures |e.log| >= 1 ==> History.InRange(r.handler.viewer) && r.handler.viewer.cursor == |e.log| - 1
  {
    Next(e, HistoryViewer(History.Open(|e.log|)), None)
  }

  // ---------------------------------------------------------------------
  // Key and mouse handling of each handler
  // ---------------------------------------------------------------------

  /** MainGameEventHandler.ev_keydown */
  function MainGameKey(e: Engine, key: Key): Dispatched
  {
    if key in MoveKeys then Next(e, MainGame, Some(Bump(MoveKeys[key].0, MoveKeys[key].1)))
    else if key in WaitKeys then Next(e, MainGame, Some(Wait))
    else if key == Escape then Exit
    else if key == Char('v') then EnterHistory(e)
    else if key == Char('g') then Next(e, MainGame, Some(Pickup))
    else if key == Char('i') then Next(e, InventoryActivate, None)
    else if key == Char('d') then Next(e, InventoryDrop, None)
    else if key == Char('/') then EnterLook(e)
    else Next(e, MainGame, None)
  }

  /** AskUserEventHandler.ev_keydown: modifier keys are ignored, any other key exits. */
  function AskUserKey(e: Engine, h: Handler, key: Key): Dispatched
  {
    if key in ModifierKeys then Next(e, h, None) else ExitToMain(e)
  }

  /** on_item_selected of the two inventory handlers. */
  function ItemSelected(h: Handler, item: Item): Action
  {
    if h.InventoryActivate? then Activate(item) else Drop(item)
  }

  const InvalidEntry: string := "Invalid entry"

  /** InventoryEventHandler.ev_keydown */
  function InventoryKey(e: Engine, h: Handler, key: Key): Dispatched
  {
    var index := LetterIndex(key);
    if 0 <= index <= 26 then
      if index < |e.items| then Next(e, h, Some(ItemSelected(h, e.items[index])))
      else Next(e.(log := e.log + [Message(InvalidEntry, InvalidTint)]), h, None)
    else AskUserKey(e, h, key)
  }

  /** LookHandler.on_index_selected: back to the main game, no action. */
  function LookSelected(e: Engine, tile: Rooms.Pos): Dispatched
  {
    Next(e, MainGame, None)
  }

  /** The cursor after a move key: the scaled step, clamped to the map. */
  function MoveCursor(e: Engine, d: (int, int), m: int): (p: Rooms.Pos)
    ensures e.width >= 1 && e.height >= 1 ==> InBounds(e, p)
    ensures InBounds(e, (e.mouse.0 + d.0 * m, e.mouse.1 + d.1 * m)) ==> p == (e.mouse.0 + d.0 * m, e.mouse.1 + d.1 * m)
  {
    (Clamp(e.mouse.0 + d.0 * m, 0, e.width - 1), Clamp(e.mouse.1 + d.1 * m, 0, e.height - 1))
  }

  /** SelectIndexHandler.ev_keydown, for the look handler. */
  function SelectIndexKey(e: Engine, key: Key, mod: bv16): Dispatched
  {
    if key in MoveKeys then Next(e.(mouse := MoveCursor(e, MoveKeys[key], Multiplier(mod))), Look, None)
    else if key in ConfirmKeys then LookSelected(e, e.mouse)
    else AskUserKey(e, Look, key)
  }

  /** SelectIndexHandler.ev_mousebuttondown: a left click on the map selects, any other click exits. */
  function SelectIndexClick(e: Engine, tile: Rooms.Pos, button: int): Dispatched
  {
    if InBounds(e, tile) && button == 1 then LookSelected(e, tile) else ExitToMain(e)
  }

  /** GameOverEventHandler.ev_keydown */
  function GameOverKey(e: Engine, key: Key): Dispatched
  {
    if key == Escape then Exit else Next(e, GameOver, None)
  }

  /** HistoryViewer.ev_keydown */
  function HistoryKey(e: Engine, v: History.Viewer, key: Key): Dispatched
  {
    match History.Navigate(v, key)
    case Moved(v') => Next(e, HistoryViewer(v'), None)
    case Closed => Next(e, MainGame, None)
  }

  /** EventHandler.ev_mousemotion: the cursor follows the mouse while it is over the map. */
  function MouseMoved(e: Engine, tile: Rooms.Pos): (e': Engine)
    ensures e'.mouse == tile || e'.mouse == e.mouse
    ensures e'.mouse == tile <==> InBounds(e, tile) || tile == e.mouse
    ensures e' == e.(mouse := e'.mouse)
  {
    if InBounds(e, tile) then e.(mouse := tile) else e
  }

  /**
   tcod's EventDispatch.dispatch on the active handler. Only the quit event
   and ESCAPE in the main game or game-over handler terminate; only the main
   game and the inventory handlers produce actions, and an action never comes
   with a change of handler; the log grows by at most one message.
   */
  function Dispatch(e: Engine, h: Handler, ev: Event): (r: Dispatched)
    ensures r.Exit? <==> ev.Quit? || (ev.KeyDown? && ev.key == Escape && (h.MainGame? || h.GameOver?))
    ensures r.Next? && r.action.Some? ==> ev.KeyDown? && (h.MainGame? || h.InventoryActivate? || h.InventoryDrop?)
    ensures r.Next? && r.action.Some? ==> r.handler == h && r.engine == e
    ensures r.Next? ==> LogExtends(e.log, r.engine.log)
    ensures r.Next? ==> r.engine.width == e.width && r.engine.height == e.height
                        && r.engine.player == e.player && r.engine.items == e.items
  {
    match ev
    case Quit => Exit
    case MouseMotion(tile) => Next(MouseMoved(e, tile), h, None)
    case OtherEvent => Next(e, h, None)
    case MouseButtonDown(tile, button) =>
      if h.InventoryActivate? || h.InventoryDrop? then ExitToMain(e)
      else if h.Look? then SelectIndexClick(e, tile, button)
      else Next(e, h, None)
    case KeyDown(key, mod) =>
      match h
      case MainGame => MainGameKey(e, key)
      case InventoryActivate => InventoryKey(e, h, key)
      case InventoryDrop => InventoryKey(e, h, key)
      case Look => SelectIndexKey(e, key, mod)
      case HistoryViewer(v) => HistoryKey(e, v, key)
      case GameOver => GameOverKey(e, key)
  }

  // ---------------------------------------------------------------------
  // Performing the action
  // ---------------------------------------------------------------------

  /** What performing an action reports: success, or exceptions.Impossible with its message. */
  datatype Outcome = Ok | Impossible(msg: string)

  /** The engine's turn-resolution steps, in the order handle_action calls them. */
  datatype Effect = EnemyTurns | UpdateFov

  datatype Turn = Turn(engine: Engine, advanced: bool, effects: seq<Effect>)

  /**
   EventHandler.handle_action. A turn advances exactly when there is an
   action and it succeeds; then the enemies move and the field of view is
   recomputed, in that order. An impossible action logs its message and
   nothing else happens.
   */
  function HandleAction(e: Engine, action: Option<Action>, perform: Action -> Outcome): (t: Turn)
    ensures t.advanced <==> action.Some? && perform(action.value).Ok?
    ensures t.advanced ==> t.effects == [EnemyTurns, UpdateFov] && t.engine == e
    ensures !t.advanced ==> t.effects == []
    ensures action.None? ==> t.engine == e
    ensures action.Some? && perform(action.value).Impossible? ==>
              t.engine == e.(log := e.log + [Message(perform(action.value).msg, ImpossibleTint)])
  {
    match action
    case None => Turn(e, false, [])
    case Some(a) =>
      match perform(a)
      case Impossible(msg) => Turn(e.(log := e.log + [Message(msg, ImpossibleTint)]), false, [])
      case Ok => Turn(e, true, [EnemyTurns, UpdateFov])
  }

  datatype Step = Running(engine: Engine, handler: Handler, advanced: bool, effects: seq<Effect>) | Terminated

  /**
   EventHandler.handle_events: dispatch the event, then run the dispatching
   handler's handle_action on the result. The AskUser family overrides
   handle_action to return to the main game when the turn advanced.
   */
  function HandleEvent(e: Engine, h: Handler, ev: Event, perform: Action -> Outcome): Step
  {
    match Dispatch(e, h, ev)
    case Exit => Terminated
    case Next(e1, h1, action) =>
      var t := HandleAction(e1, action, perform);
      Running(t.engine, if AskUser(h) && t.advanced then MainGame else h1, t.advanced, t.effects)
  }

  // ---------------------------------------------------------------------
  // Properties of the state machine
  // ---------------------------------------------------------------------

  /** A quit event terminates whatever handler is active. */
  lemma QuitTerminates(e: Engine, h: Handler, perform: Action -> Outcome)
    ensures HandleEvent(e, h, Quit, perform) == Terminated
  {
  }

  /**
   Mouse motion never changes the handler or takes a turn; the cursor follows
   the mouse only onto tiles of the map.
   */
  lemma MouseMotionStep(e: Engine, h: Handler, tile: Rooms.Pos, perform: Action -> Outcome)
    ensures var s := HandleEvent(e, h, MouseMotion(tile), perform);
            && s.Running? && s.handler == h && !s.advanced && s.effects == []
            && s.engine == (if InBounds(e, tile) then e.(mouse := tile) else e)
  {
  }

  /**
   The main game's keys: a move key bumps in its direction, a wait key waits,
   g picks up, ESCAPE terminates, v, i, d and / open the history viewer, the
   two inventory menus and the look cursor without an action, and any other
   key does nothing.
   */
  lemma MainGameKeyTable(e: Engine, key: Key, mod: bv16)
    ensures var r := Dispatch(e, MainGame, KeyDown(key, mod));
            && (key in MoveKeys ==> r == Next(e, MainGame, Some(Bump(MoveKeys[key].0, MoveKeys[key].1))))
            && (key in WaitKeys ==> r == Next(e, MainGame, Some(Wait)))
            && (key == Char('g') ==> r == Next(e, MainGame, Some(Pickup)))
            && (key == Escape ==> r == Exit)
            && (key == Char('v') ==> r == Next(e, HistoryViewer(History.Viewer(|e.log|, |e.log| - 1)), None))
            && (key == Char('i') ==> r == Next(e, InventoryActivate, None))
            && (key == Char('d') ==> r == Next(e, InventoryDrop, None))
            && (key == Char('/') ==> r == Next(e.(mouse := e.player), Look, None))
            && (key !in MoveKeys && key !in WaitKeys && key != Escape && key != Char('g')
                && key != Char('v') && key != Char('i') && key != Char('d') && key != Char('/')
                ==> r == Next(e, MainGame, None))
  {
    CommandKeysOutsideTables(key);
    KeyTablesDisjoint(key);
  }

  /**
   A move into a wall (any impossible bump) leaves the main game active,
   appends exactly one message and runs no enemy turn.
   */
  lemma ImpossibleMoveScenario(e: Engine, key: Key, mod: bv16, perform: Action -> Outcome)
    requires key in MoveKeys
    requires perform(Bump(MoveKeys[key].0, MoveKeys[key].1)).Impossible?
    ensures var s := HandleEvent(e, MainGame, KeyDown(key, mod), perform);
            && s.Running? && s.handler == MainGame && !s.advanced
            && |s.engine.log| == |e.log| + 1 && EnemyTurns !in s.effects
  {
  }

  /**
   The handler after an event: the AskUser family returns to the main game
   exactly when the turn advanced; otherwise, and for every other handler,
   the handler is the one dispatching chose.
   */
  lemma HandlerAfterEvent(e: Engine, h: Handler, ev: Event, perform: Action -> Outcome)
    ensures var s := HandleEvent(e, h, ev, perform);
            var r := Dispatch(e, h, ev);
            && (s.Running? <==> r.Next?)
            && (s.Running? && AskUser(h) && s.advanced ==> s.handler == MainGame && r.handler == h)
            && (s.Running? && !(AskUser(h) && s.advanced) ==> s.handler == r.handler)
            && (s.Running? && s.advanced ==> r.action.Some? && perform(r.action.value).Ok?)
  {
  }

  /** An inventory handler: the inventory menu for using or for dropping items. */
  predicate Inventory(h: Handler)
  {
    h.InventoryActivate? || h.InventoryDrop?
  }

  /**
   Inventory keys: a key whose offset from 'a' is 0..26 selects that item
   when it exists, and otherwise logs exactly one "Invalid entry" message and
   stays in the menu; other keys fall back to the ask-user behaviour
   (modifier keys are ignored, anything else returns to the main game).
   */
  lemma InventoryKeys(e: Engine, h: Handler, key: Key, mod: bv16)
    requires Inventory(h)
    ensures var r, i := Dispatch(e, h, KeyDown(key, mod)), LetterIndex(key);
            && (0 <= i <= 26 && i < |e.items| ==> r == Next(e, h, Some(ItemSelected(h, e.items[i]))))
            && (0 <= i <= 26 && i >= |e.items| ==>
                  r == Next(e.(log := e.log + [Message(InvalidEntry, InvalidTint)]), h, None))
            && (!(0 <= i <= 26) && key in ModifierKeys ==> r == Next(e, h, None))
            && (!(0 <= i <= 26) && key !in ModifierKeys ==> r == Next(e, MainGame, None))
  {
  }

  /** Pressing the letter the menu shows before item i selects item i. */
  lemma LabelSelectsItem(e: Engine, h: Handler, i: nat, mod: bv16)
    requires Inventory(h)
    requires i < |e.items| && i <= 26
    ensures Dispatch(e, h, KeyDown(Char(InventoryMenu.ItemLabel(i)), mod))
            == Next(e, h, Some(ItemSelected(h, e.items[i])))
  {
    InventoryMenu.LabelKeyOffset(i);
  }

  /**
   Selecting an item whose action turns out impossible keeps the menu open
   with one more message; a successful one closes it after the turn.
   */
  lemma InventorySelectionTurn(e: Engine, h: Handler, i: nat, mod: bv16, perform: Action -> Outcome)
    requires Inventory(h)
    requires i < |e.items| && i <= 26
    ensures var s := HandleEvent(e, h, KeyDown(Char(InventoryMenu.ItemLabel(i)), mod), perform);
            var o := perform(ItemSelected(h, e.items[i]));
            && s.Running?
            && (o.Ok? ==> s.handler == MainGame && s.advanced && s.effects == [EnemyTurns, UpdateFov])
            && (o.Impossible? ==> s.handler == h && !s.advanced && |s.engine.log| == |e.log| + 1)
  {
    LabelSelectsItem(e, h, i, mod);
  }

  /**
   Look cursor keys: a move key moves the cursor by the direction scaled by
   the modifier multiplier, clamped to the map, with no action and no change
   of handler; a confirm key returns to the main game.
   */
  lemma LookKeys(e: Engine, key: Key, mod: bv16)
    ensures var r := Dispatch(e, Look, KeyDown(key, mod));
            var d, m := if key in MoveKeys then MoveKeys[key] else (0, 0), Multiplier(mod);
            && (key in MoveKeys ==>
                  r == Next(e.(mouse := (Clamp(e.mouse.0 + d.0 * m, 0, e.width - 1),
                                         Clamp(e.mouse.1 + d.1 * m, 0, e.height - 1))), Look, None))
            && (key in ConfirmKeys ==> r == Next(e, MainGame, None))
            && (key !in MoveKeys && key !in ConfirmKeys ==>
                  r == (if key in ModifierKeys then Next(e, Look, None) else Next(e, MainGame, None)))
  {
    KeyTablesDisjoint(key);
  }

  /** Holding shift and ctrl moves the look cursor 50 cells, when that stays on the map. */
  lemma ShiftCtrlMovesFifty(e: Engine, key: Key)
    requires key in MoveKeys
    requires InBounds(e, (e.mouse.0 + 50 * MoveKeys[key].0, e.mouse.1 + 50 * MoveKeys[key].1))
    ensures Dispatch(e, Look, KeyDown(key, KmodLShift | KmodLCtrl)).engine.mouse
            == (e.mouse.0 + 50 * MoveKeys[key].0, e.mouse.1 + 50 * MoveKeys[key].1)
  {
    ShiftCtrlMultiplier();
    var d := MoveKeys[key];
    assert Dispatch(e, Look, KeyDown(key, KmodLShift | KmodLCtrl)).engine.mouse == MoveCursor(e, d, 50);
  }

  /** Every click in the look handler returns to the main game without an action. */
  lemma LookClicks(e: Engine, tile: Rooms.Pos, button: int)
    ensures Dispatch(e, Look, MouseButtonDown(tile, button)) == Next(e, MainGame, None)
  {
  }

  /** Both inventory menus keep the ask-user default: any click returns to the main game. */
  lemma InventoryClicks(e: Engine, h: Handler, tile: Rooms.Pos, button: int)
    requires Inventory(h)
    ensures Dispatch(e, h, MouseButtonDown(tile, button)) == Next(e, MainGame, None)
  {
  }

  /** The game-over handler reacts to ESCAPE and quit only. */
  lemma GameOverIgnoresKeys(e: Engine, ev: Event)
    requires !ev.Quit? && !(ev.KeyDown? && ev.key == Escape)
    ensures var r := Dispatch(e, GameOver, ev);
            r.Next? && r.handler == GameOver && r.action == None && r.engine.log == e.log
  {
  }

  /**
   History viewer keys: cursor keys, HOME and END keep the viewer open with
   the cursor on a message of the log; any other key returns to the main game.
   Nothing is logged and no action is produced.
   */
  lemma HistoryKeys(e: Engine, v: History.Viewer, key: Key, mod: bv16)
    requires v.logLength >= 1
    ensures var r := Dispatch(e, HistoryViewer(v), KeyDown(key, mod));
            && r.Next? && r.engine == e && r.action == None
            && (key in CursorYKeys || key == Home || key == End ==>
                  r.handler.HistoryViewer? && History.InRange(r.handler.viewer))
            && (key !in CursorYKeys && key != Home && key != End ==> r.handler == MainGame)
  {
  }

  /** The engine and handler invariant: the cursors point into what they index. */
  predicate WellFormed(e: Engine, h: Handler)
  {
    && e.width >= 1 && e.height >= 1
    && InBounds(e, e.mouse) && InBounds(e, e.player)
    && (h.HistoryViewer? ==>
          && 0 <= h.viewer.logLength <= |e.log|
          && (h.viewer.logLength >= 1 ==> History.InRange(h.viewer))
          && (h.viewer.logLength == 0 ==> -1 <= h.viewer.cursor <= 0))
  }

  /**
   Every event keeps the invariant: the look cursor stays on the map, and the
   history cursor stays on a message of the log (at -1 or 0 for an empty log).
   */
  lemma StepPreservesWellFormed(e: Engine, h: Handler, ev: Event, perform: Action -> Outcome)
    requires WellFormed(e, h)
    ensures var s := HandleEvent(e, h, ev, perform);
            s.Running? ==> WellFormed(s.engine, s.handler)
  {
    DispatchPreservesWellFormed(e, h, ev);
  }

  lemma DispatchPreservesWellFormed(e: Engine, h: Handler, ev: Event)
    requires WellFormed(e, h)
    ensures var r := Dispatch(e, h, ev);
            r.Next? ==> WellFormed(r.engine, r.handler)
  {
    if ev.KeyDown? && h.HistoryViewer? {
      assert Dispatch(e, h, ev) == HistoryKey(e, h.viewer, ev.key);
    } else if ev.KeyDown? && h.Look? {
      assert Dispatch(e, h, ev) == SelectIndexKey(e, ev.key, ev.mod);
    }
  }

  /**
   The handlers themselves add at most one message per event: the message of
   an impossible action, or "Invalid entry". Earlier messages never change.
   Messages logged by performing an action or by the enemies' turns are
   outside this model, since performing is a parameter.
   */
  lemma LogGrowsByAtMostOne(e: Engine, h: Handler, ev: Event, perform: Action -> Outcome)
    ensures var s := HandleEvent(e, h, ev, perform);
            s.Running? ==> LogExtends(e.log, s.engine.log)
  {
    var r := Dispatch(e, h, ev);
    if r.Next? && r.action.Some? {
      var t := HandleAction(r.engine, r.action, perform);
      assert t.engine.log[..|e.log|] == e.log;
    }
  }
}
