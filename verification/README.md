# Dungeon generation and input handling of a tcod roguelike, in Dafny

This project models two parts of a turn-based roguelike built on tcod, and
proves properties of the model:

- **The procedural dungeon generator** (`procgen.py`). Rectangular rooms are
  placed at random. An attempt is rejected when its room overlaps an earlier
  room. Each accepted room has its interior carved to floor and is joined to
  the previous room by an L-shaped tunnel between the two centers. The
  player starts at the first room's center.
- **The input-handler state machine** (`input_handlers.py`). Exactly one
  handler is active: the main game, the two inventory menus, the look
  cursor, the message-history viewer or the game-over screen. Each event is
  dispatched to the active handler. The result is the next handler and
  possibly an action, and performing the action decides whether the turn
  advances.

Modules:

| file | module | models |
|---|---|---|
| `rooms.dfy` | `Rooms` | `RectangularRoom`: bounds, `center`, `inner`, `intersects` |
| `tunnels.dfy` | `Tunnels` | `tunnel_between`: two straight legs meeting at a corner |
| `procgen.dfy` | `Procgen` | `generate_dungeon` as a fold over its attempts |
| `bounds.dfy` | `Bounds` | the `max(lo, min(x, hi))` clamp both cursors use |
| `keys.dfy` | `Keys` | tcod key symbols, the key tables, the modifier multiplier |
| `history.dfy` | `History` | `HistoryViewer`'s cursor and the slice of messages it shows |
| `inventory_menu.dfy` | `InventoryMenu` | the inventory menu's layout and item letters |
| `handlers.dfy` | `Handlers` | the handlers, `dispatch`, `handle_action`, `handle_events` |

Randomness is an input to the generator. Each attempt consumes one `Draw`:
the room's width and height, its origin, and the coin that chooses the
tunnel's corner. `ValidDraw` says what `random.randint` can return for each
value.

Performing an action is an input to the handlers: a function from actions
to `Ok` or `Impossible(message)`. The engine's enemy turns and field-of-view
update are recorded as effects, in the order `handle_action` runs them.

Keys are identified by their SDL2 key symbol, as tcod identifies them:

- a key that types a character has that character's code;
- every other key has its scancode with bit 30 set.

This makes the inventory handler's `key - KeySym.a` exact.

One behaviour of the code is modelled as written, although a reader might
expect otherwise. Another is modelled as evidently intended:

- **Modelled as written: page keys in the history viewer wrap at the
  edges.** The edge test at `input_handlers.py:395-400` applies to every
  adjustment, not only to UP and DOWN; the comment on line 396 says that
  moving from top to bottom happens only on the edge. So PAGEDOWN from the
  last message goes to the first one, and PAGEUP from the first goes to the
  last. Elsewhere the page keys stop at the first or last message (line
  403). `History.PageKeys` states this.
- **Corrected: the modifier multiplier.** Lines 267, 269 and 271 multiply
  by 5 for shift, 10 for ctrl and 20 for alt, but the tests on lines 266,
  268 and 270 check the wrong bits of the modifier mask. The handlers use
  the multiplier those lines evidently intend (`Keys.Multiplier`). The
  code's version is kept as `Keys.MultiplierAsWritten` and recorded under
  Findings.

## Model

| member | source | states |
|---|---|---|
| Rooms.MakeRoom | procgen.py:15-20 | The room spans exactly the given width and height from its origin. |
| Rooms.HalfTowardZero | procgen.py:25-26 | `int(s / 2)` is half of s rounded toward zero, for either sign of s. |
| Rooms.Center | procgen.py:23-28 | The center lies within the room's bounds. It lies strictly inside when the room spans at least two cells in that direction. |
| Rooms.InnerIsRoomWithoutWalls | procgen.py:31-34 | The `inner` slices select exactly the room's closed rectangle minus its one-cell wall ring. |
| Rooms.IntersectsSymmetric | procgen.py:36-43 | Overlap is symmetric. |
| Rooms.TouchingRoomsIntersect | procgen.py:36-43 | Rooms whose walls meet, along an edge or only at a corner, count as overlapping (inclusive bounds), although their carved interiors share no cell. |
| Rooms.IntersectsIffSharedCell | procgen.py:36-43 | Two well-formed rooms overlap exactly when some cell lies in both closed rectangles. |
| Rooms.NonIntersectingRoomsDisjoint | procgen.py:36-43 | Rooms that do not overlap carve no common interior cell. |
| Tunnels.Line | procgen.py:60-63 | On an axis-aligned segment, the line has Distance+1 cells and starts and ends at the given points. Each cell is next to the one before. It holds exactly the cells of the segment's box. |
| Tunnels.Corner | procgen.py:52-57 | Going horizontally first, the first leg runs along the start's row and the second along the end's column. Otherwise it is the reverse. Both legs are axis-aligned. |
| Tunnels.Tunnel | procgen.py:46-63 | The tunnel starts at the start point and ends at the end point. It passes the corner. Its length is the Manhattan distance plus two. Consecutive cells are at most one orthogonal step apart. |
| Tunnels.TunnelListsCornerTwice | procgen.py:59-63 | The corner is yielded twice in a row: as the last cell of the first leg, at its distance from the start, and as the first cell of the second leg. |
| Tunnels.TunnelOnLegs | procgen.py:50-63 | Every tunnel cell is on one of the two legs and inside the bounding box of the two end points. |
| Tunnels.TunnelCoversBothLegs | procgen.py:59-63 | Every cell of either leg is carved. |
| Tunnels.StraightTunnel | procgen.py:52-63 | Between two points in a line, both corner choices carve exactly the segment between them. |
| Procgen.Attempt | procgen.py:87-106 | A rejected attempt changes nothing. An accepted one appends its room. Floor is only ever added. The player moves to the new room's center only for the first room. |
| Procgen.Generate | procgen.py:76-80 | There are never more rooms than attempts, and the map keeps its size. |
| Procgen.DisjointAppend | procgen.py:89-91 | Accepting only rooms that overlap no earlier room keeps all rooms pairwise non-overlapping. |
| Procgen.AttemptPreservesValid | procgen.py:80-106 | One attempt preserves the generation invariant: rooms fit and do not overlap, one tunnel joins each room to the previous one, the floor is exactly interiors plus tunnels, and the player is at the first center. |
| Procgen.GenerateValid | procgen.py:76-106 | The invariant holds after any sequence of attempts. |
| Procgen.FloorInsideMap | procgen.py:84-85 | When room sizes are not negative, every floor cell lies on the map. When rooms are at least two cells across, every floor cell also stays off the map's outer border. |
| Procgen.RoomsReachable | procgen.py:101-103 | For every later room there is a walk of floor cells, each at most one orthogonal step from the next, from the first room's center to that room's center. |
| Procgen.TunnelCarved | procgen.py:101-103 | Both centers of consecutive rooms, and one of the two corners between them, are floor. |
| Procgen.PlacementOrder | procgen.py:89-106 | Rooms are the accepted attempts in attempt order. Every rejected attempt overlapped a room accepted before it. |
| Procgen.GenerateDungeon | procgen.py:67-108 | Results for max_rooms attempts: at most max_rooms rooms, pairwise non-overlapping, each on the map and sized within [room_min_size, room_max_size], the player at the first center, the floor exactly interiors plus tunnels, and, when room sizes are not negative, the floor on the map. |
| Procgen.SingleRoom | procgen.py:67-108 | With one attempt of 4x4 rooms on a 20x20 map: exactly one room, the player at its center, no tunnel, and exactly its interior carved. |
| Bounds.Clamp | input_handlers.py:278-279 | The clamped value lies in the range and is unchanged when already inside it. |
| Bounds.ClampIsNearest | input_handlers.py:277-279 | The clamped value is the point of the range nearest to the input. |
| Keys.LetterIndexWindow | input_handlers.py:202-204 | The offset from KeySym.a is in 0..26 exactly for the character keys 'a' to '{'. For a character key it is the character's distance from 'a'. |
| Keys.MoveKeysAreKingSteps | input_handlers.py:25-53 | Every move key steps to a neighbouring cell, and each of the eight directions has a key. |
| Keys.KeyTablesDisjoint | input_handlers.py:25-64 | No key is in two of MOVE_KEYS, WAIT_KEYS and CONFIRM_KEYS. |
| Keys.CommandKeysOutsideTables | input_handlers.py:316-338 | ESCAPE, v, g, i, d and / are neither move nor wait keys, so the main game reaches their branches. |
| Keys.ModifierKeysOutsideTables | input_handlers.py:125-132 | The six modifier keys are in none of the key tables. |
| Keys.Multiplier | input_handlers.py:265-271 | The speed-up is 1, 5, 10, 20 or one of their products. It is a multiple of 5 exactly when some modifier is held. Shift with ctrl and no alt gives 50. |
| Keys.ShiftCtrlMultiplier | input_handlers.py:265-269 | Left shift with left ctrl gives 50. |
| Keys.MultiplierOfEitherSide | input_handlers.py:266-271 | The left and right key of each modifier give the same speed-up. |
| Keys.MultiplierIgnoresOtherBits | input_handlers.py:266-271 | Mask bits other than shift, ctrl and alt (such as caps lock or num lock) do not change the speed-up. |
| Keys.ShiftSymsAgree | input_handlers.py:266 | The 32-bit masks the code ORs together are the KeySym values of the shift keys. |
| Keys.CtrlSymsAgree | input_handlers.py:268 | The same for the ctrl keys. |
| Keys.AltSymsAgree | input_handlers.py:270 | The same for the alt keys. |
| Keys.MultiplierAsWrittenDiffers | input_handlers.py:265-271 | The code's mask tests give left ctrl ×1000, right shift ×20 and left alt ×1, where the intended values are ×10, ×5 and ×20. |
| History.Open | input_handlers.py:362-365 | The viewer snapshots the log length. Its cursor starts on the newest message, or at -1 for an empty log. |
| History.Scroll | input_handlers.py:393-403 | Any adjustment leaves the cursor on a message of a non-empty log, whatever cursor it started from. |
| History.UpIsCyclicPredecessor | input_handlers.py:395-403 | UP moves to (cursor - 1) mod log length. |
| History.DownIsCyclicSuccessor | input_handlers.py:398-403 | DOWN moves to (cursor + 1) mod log length. |
| History.PageKeys | input_handlers.py:393-403 | PAGEUP/PAGEDOWN move ten messages and stop at the first or last one. From that edge itself they wrap to the other edge. |
| History.FullCycle | input_handlers.py:395-403 | Pressing UP once per message returns the cursor to where it started. |
| History.Navigate | input_handlers.py:391-409 | The viewer stays open exactly for the cursor keys, HOME and END. HOME goes to the first message and END to the last. The cursor stays on a message of the log. |
| History.VisibleMessages | input_handlers.py:386 | The viewer shows a prefix of the log: up to and including the cursor's message, or nothing when the log is empty (cursor -1 or 0 on no messages). |
| InventoryMenu.MenuFrame | input_handlers.py:165-179 | The frame is at the top. Its interior has one row per item, or one for "(Empty)". It is as wide as the title plus 4. For titles of at most 27 characters it never covers the player's column. |
| InventoryMenu.TitlesFit | input_handlers.py:223-233 | Both menu titles are short enough for the frame to miss the player. |
| InventoryMenu.RowsInsideFrame | input_handlers.py:192-197 | Every item line is printed strictly between the frame's top and bottom borders. |
| InventoryMenu.LabelKeyOffset | input_handlers.py:194-204 | The letter shown before item i, when pressed, gives offset i. |
| Handlers.EnterLook | input_handlers.py:245-251 | Opening the look handler puts the cursor on the player and changes nothing else. |
| Handlers.EnterHistory | input_handlers.py:326-327 | Opening the history viewer snapshots the log, with the cursor on the newest message. |
| Handlers.MoveCursor | input_handlers.py:273-280 | On a non-empty map the moved cursor is on the map. It is exactly the scaled step when that stays on the map. |
| Handlers.MouseMoved | input_handlers.py:95-97 | The cursor follows the mouse exactly onto tiles of the map. Nothing else changes. |
| Handlers.Dispatch | input_handlers.py:95-348 | The program ends exactly on quit, or on ESCAPE in the main game or game-over handler. Only key presses in the main game or an inventory menu produce actions, and never together with a handler change. The log grows by at most one message. Map, player and inventory are untouched. |
| Handlers.HandleAction | input_handlers.py:76-92 | A turn advances exactly when there is an action and it succeeds. Then enemy turns run, followed by the field-of-view update. An impossible action logs its message and nothing else. |
| Handlers.QuitTerminates | input_handlers.py:100-101 | Quit ends the program in every handler. |
| Handlers.MouseMotionStep | input_handlers.py:95-97 | Mouse motion keeps the handler, takes no turn, and moves the cursor only onto tiles of the map. |
| Handlers.MainGameKeyTable | input_handlers.py:309-341 | Move keys bump in their direction and wait keys wait. g picks up, ESCAPE quits. v, i, d and / open their handlers without an action. Every other key does nothing. |
| Handlers.ImpossibleMoveScenario | input_handlers.py:83-87 | An impossible bump leaves the main game active, adds exactly one message and runs no enemy turn. |
| Handlers.HandlerAfterEvent | input_handlers.py:112-119 | The ask-user `handle_action` override switches to the main game exactly when the turn advanced. Otherwise the handler dispatch chose is kept, which may itself be the main game (ESCAPE, a click, another key). |
| Handlers.InventoryKeys | input_handlers.py:199-211 | An offset in 0..26 selects that item when it exists. Otherwise it adds one "Invalid entry" message and stays in the menu. Other keys: modifiers are ignored and anything else returns to the main game. |
| Handlers.LabelSelectsItem | input_handlers.py:193-210 | Pressing the letter shown before item i selects item i. |
| Handlers.InventorySelectionTurn | input_handlers.py:112-119 | A successful item action closes the menu after enemy turns and the field-of-view update. An impossible one keeps the menu open with one more message. |
| Handlers.LookKeys | input_handlers.py:260-285 | Move keys move the cursor by the scaled step, clamped to the map, without an action. Confirm keys return to the main game. Modifiers are ignored and other keys return to the main game. |
| Handlers.ShiftCtrlMovesFifty | input_handlers.py:264-280 | Shift with ctrl moves the look cursor 50 cells when that stays on the map. |
| Handlers.LookClicks | input_handlers.py:287-301 | Every click in the look handler returns to the main game without an action. |
| Handlers.InventoryClicks | input_handlers.py:137-139 | Every click in either inventory menu returns to the main game without an action. |
| Handlers.GameOverIgnoresKeys | input_handlers.py:344-348 | In the game-over handler, every event except ESCAPE and quit keeps the handler, with no action and no message. |
| Handlers.HistoryKeys | input_handlers.py:391-409 | Cursor keys, HOME and END keep the viewer open with the cursor on a message. Every other key returns to the main game. |
| Handlers.DispatchPreservesWellFormed | input_handlers.py:95-348 | Dispatching keeps the map non-empty and the mouse and player on it. It keeps the history cursor on a message, or in -1..0 for an empty log. |
| Handlers.StepPreservesWellFormed | input_handlers.py:72-92 | A whole event step, action included, keeps the same invariant. |
| Handlers.LogGrowsByAtMostOne | input_handlers.py:72-92 | The handlers themselves add at most one message per event (an impossible action's message or "Invalid entry") and never change earlier messages. |

## Left out

- Drawing is not modelled: the map, the highlighted look cell, the menu frame and the history window. Only the menu's layout arithmetic is modelled.
- Performing actions is a parameter. Bump, wait, pickup, drop and item use live outside these files, and so does `consumable.get_action`, which is modelled as `Activate(item)`. The model assumes performing an action leaves the engine unchanged apart from the message an `Impossible` adds.
- Enemy turns and the field-of-view update are recorded as `Effect`s, not computed.
- Handlers.LogGrowsByAtMostOne: counts only the messages the handlers write. A successful `action.perform()` and `handle_enemy_turns()` log their own messages (attacks, pickups, enemy moves), which this model does not see.
- `SystemExit` is modelled as the `Exit` / `Terminated` result. The main loop that calls `handle_events` and the engine's switch to the game-over handler are not part of this model.
- Python's `random` is replaced by the `Draw` sequence. The code draws the tunnel coin only when a tunnel is dug; the model gives every attempt a coin and ignores it when unused. The set of possible dungeons is the same.
- A map too small for the drawn room makes `random.randint` raise `ValueError`. The model has no valid draw for such parameters, so `GenerateDungeon` cannot be called with them.
- `tcod.los.bresenham` is replaced by a straight axis-aligned line. The tunnel's two legs are always axis-aligned, and on such a segment Bresenham's algorithm visits exactly the cells between the end points.
- `GameMap` is a width, a height and a set of floor cells. `in_bounds` is taken to be the half-open box [0, width) x [0, height); `game_map.py` is not part of this model.
- Rooms.HalfTowardZero: models `int((a + b) / 2)` as exact truncation toward zero, without the float conversion. The two differ only beyond 2^53.
- Keys that the handlers never name are `Char(c)` or `Other(scancode)`. The model does not identify keys that tcod might map to the same symbol.
- Procgen.GenerateDungeon: promises the floor is on the map only when `room_min_size` is not negative. A negative size gives a room with x2 < x1. Its center can then lie off the map, and numpy reads a negative stop of the `inner` slice from the far end of the map. For example, x = 0 and width = -3 on an 80-wide map carves columns 1 to 76. The model's `Inner` is empty there, so for negative room sizes the model's floor is not the program's.

## Findings

| source | as written | input that shows it | evidently intended | confidence | as-written member | corrected member |
|---|---|---|---|---|---|---|
| input_handlers.py:265-271 | The key's modifier mask (SDL KMOD bits) is ANDed with OR-ed KeySym values such as `KeySym.LSHIFT \| KeySym.RSHIFT` = 0x400000E5. | Holding only left ctrl (mod 0x0040) trips all three tests and moves the look cursor ×1000 instead of ×10. Right shift (0x0002) counts as alt, ×20. Left alt (0x0100) is never seen, ×1. | Test the KMOD masks: shift 0x0003 ×5, ctrl 0x00C0 ×10, alt 0x0300 ×20. | medium, not executed; relies on the SDL2 key symbol and KMOD values | Keys.MultiplierAsWrittenDiffers | Keys.Multiplier |
