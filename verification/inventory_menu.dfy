/**
 Layout arithmetic of the inventory menu (InventoryEventHandler.on_render).
 Only the frame's placement and the row and letter of each item are
 modelled; the drawing itself is console output.
 */
module InventoryMenu {
  import opened Keys

  const ActivateTitle: string := "Select an item to use"
  const DropTitle: string := "Select an item to drop"

  datatype Frame = Frame(x: int, y: int, width: int, height: int)

  /**
   The frame the menu is drawn in. Its interior has exactly one row per
   item, or one row for "(Empty)"; it is as wide as the title plus 4; and it
   sits on the other side of the screen from the player, so that for any
   title of at most 27 characters it never covers the player's column.
   */
  function MenuFrame(itemCount: nat, playerX: int, title: string): (f: Frame)
    ensures f.y == 0
    ensures f.height - 2 == (if itemCount == 0 then 1 else itemCount)
    ensures f.width == |title| + 4
    ensures |title| <= 27 ==> !(f.x <= playerX < f.x + f.width)
  {
    var height := if itemCount + 2 <= 3 then 3 else itemCount + 2;
    var x := if playerX <= 30 then 40 else 0;
    Frame(x, 0, |title| + 4, height)
  }

  /** Both menus' titles are short enough for the frame to miss the player. */
  lemma TitlesFit()
    ensures |ActivateTitle| + 4 == 25 && |DropTitle| + 4 == 26
    ensures |ActivateTitle| <= 27 && |DropTitle| <= 27
  {
  }

  /** The console row item i is printed on. */
  function ItemRow(f: Frame, i: nat): int
  {
    f.y + i + 1
  }

  /** Every printed line lies strictly between the frame's top and bottom borders. */
  lemma RowsInsideFrame(itemCount: nat, playerX: int, title: string, i: nat)
    requires i < (if itemCount == 0 then 1 else itemCount)
    ensures var f := MenuFrame(itemCount, playerX, title);
            f.y < ItemRow(f, i) < f.y + f.height - 1
  {
  }

  /** chr(ord("a") + i), the letter shown before item i. */
  function ItemLabel(i: nat): char
    requires 'a' as int + i < 0xD800
  {
    ('a' as int + i) as char
  }

  /** Pressing the letter shown before item i gives offset i, inside the accepted window. */
  lemma LabelKeyOffset(i: nat)
    requires i <= 26
    ensures LetterIndex(Char(ItemLabel(i))) == i
  {
  }
}
