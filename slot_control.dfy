/** `SlotControl`: an item slot of an inventory screen. Clicking it moves
    items between the slot and the stack held on the mouse cursor. */
module SlotControls {
  import opened Options
  import opened JavaNumerics
  import opened Geometry
  import opened Themes
  import opened InteractiveControls

  /** An item kind; `Air` is the kind of every empty stack. */
  type Item = nat
  const Air: Item := 0

  /** An item stack reduced to what the slot logic reads: its item, its
      count and the largest count the item stacks to. */
  datatype ItemStack = ItemStack(item: Item, count: int, maxCount: int)

  /** `ItemStack.EMPTY`. */
  const EmptyStack := ItemStack(Air, 0, 0)

  /** `isEmpty`: air, or no positive count. */
  predicate IsEmpty(s: ItemStack)
  {
    s.item == Air || s.count <= 0
  }

  /** `getItem`: the item of a stack, `Air` for an empty one. */
  function ItemOf(s: ItemStack): (i: Item)
    ensures IsEmpty(s) ==> i == Air
    ensures !IsEmpty(s) ==> i == s.item
  {
    if IsEmpty(s) then Air else s.item
  }

  /** `areItemsEqual`: both stacks hold something, and the same item. */
  predicate ItemsEqual(a: ItemStack, b: ItemStack)
  {
    !IsEmpty(a) && !IsEmpty(b) && a.item == b.item
  }

  /** A stack whose count lies between 0 and its maximum. */
  predicate WellFormed(s: ItemStack)
  {
    0 <= s.count <= s.maxCount
  }

  /** How many units of `item` the stack holds. */
  function UnitsOf(s: ItemStack, item: Item): (n: int)
    ensures n >= 0
    ensures n > 0 ==> s.item == item && !IsEmpty(s)
  {
    if IsEmpty(s) || s.item != item then 0 else s.count
  }

  /** The reference result of `combineStacks(from, to, amount)`: with equal
      items, exactly `min(amount, from.count, to.maxCount - to.count)` units
      move from `from` to `to`; otherwise neither stack changes. */
  function Combined(from: ItemStack, to: ItemStack, amount: int): (r: (ItemStack, ItemStack))
    ensures !ItemsEqual(from, to) ==> r == (from, to)
    ensures r.0.item == from.item && r.0.maxCount == from.maxCount
    ensures r.1.item == to.item && r.1.maxCount == to.maxCount
    ensures r.0.count + r.1.count == from.count + to.count
  {
    if ItemsEqual(from, to) then
      var m := Min(Min(amount, from.count), to.maxCount - to.count);
      (from.(count := from.count - m), to.(count := to.count + m))
    else (from, to)
  }

  /** On well-formed stacks and a non-negative amount the transfer never
      overfills `to`, never drives `from` negative, never moves anything
      back from `to` and moves no more than asked. */
  lemma CombinedBounds(from: ItemStack, to: ItemStack, amount: int)
    requires WellFormed(from) && WellFormed(to) && amount >= 0
    ensures var (f, t) := Combined(from, to, amount);
            WellFormed(f) && WellFormed(t) && to.count <= t.count
            && t.count - to.count <= amount
  {
  }

  /** `combineStacks`: the source's recursion, which first lowers the amount
      to what `from` holds, then to the room left in `to`, then moves it if
      the items are equal. It terminates on every input and agrees with
      `Combined`. */
  method CombineStacks(from: ItemStack, to: ItemStack, amount: int) returns (from': ItemStack, to': ItemStack)
    ensures (from', to') == Combined(from, to, amount)
    decreases if from.count < amount then 2 else if to.maxCount - to.count < amount then 1 else 0
  {
    if from.count < amount {
      from', to' := CombineStacks(from, to, from.count);
    } else if to.maxCount - to.count < amount {
      from', to' := CombineStacks(from, to, to.maxCount - to.count);
    } else if ItemsEqual(from, to) {
      from' := from.(count := from.count - amount);
      to' := to.(count := to.count + amount);
    } else {
      from', to' := from, to;
    }
  }

  /** `ItemStack.split(n)`: a copy holding `min(n, count)` units, taken off
      the original. */
  function Split(s: ItemStack, n: int): (r: (ItemStack, ItemStack))
    ensures r.0.item == s.item && r.1.item == s.item && r.0.maxCount == s.maxCount && r.1 .maxCount == s.maxCount
    ensures r.0.count + r.1.count == s.count
    ensures n <= s.count ==> r.0.count == n
    ensures n >= s.count ==> r.0.count == s.count
  {
    var i := Min(n, s.count);
    (s.(count := i), s.(count := s.count - i))
  }

  /** `Inventory.removeStack(slot)`: a non-empty stack is handed out and the
      slot left empty; an empty slot gives the empty stack. Returns the
      stack handed out and the slot's new content. */
  function RemoveStack(s: ItemStack): (r: (ItemStack, ItemStack))
    ensures IsEmpty(s) ==> r == (EmptyStack, s)
    ensures !IsEmpty(s) ==> r == (s, EmptyStack)
  {
    if IsEmpty(s) then (EmptyStack, s) else (s, EmptyStack)
  }

  /** `Inventory.removeStack(slot, n)`: splits `n` units off a non-empty
      stack; with an empty stack or `n <= 0` nothing is taken. */
  function RemoveSome(s: ItemStack, n: int): (r: (ItemStack, ItemStack))
    ensures IsEmpty(s) || n <= 0 ==> r == (EmptyStack, s)
    ensures !IsEmpty(s) && n > 0 ==> r == Split(s, n)
  {
    if !IsEmpty(s) && n > 0 then Split(s, n) else (EmptyStack, s)
  }

  /** The effect of one click on the cursor and the slot: the new cursor and
      slot stacks, whether a transfer branch was taken (which triggers the
      sync), and the content the slot's original stack object has afterwards,
      which decides whether its tooltip is shown. */
  datatype SlotTx = SlotTx(cursor: ItemStack, slot: ItemStack, changed: bool, held: ItemStack)

  /** The reference click transaction. With an empty cursor and taking
      allowed, a left click takes the whole slot and a right click half of it
      (rounded toward zero). With a full cursor and inserting allowed, a left
      click places the whole cursor stack in an empty slot or merges it into
      a full one, and a right click places or merges one unit. */
  function Click(cursor: ItemStack, slot: ItemStack, takeOk: bool, insertOk: bool,
                 left: bool, right: bool): (tx: SlotTx)
    ensures !tx.changed ==> tx.cursor == cursor && tx.slot == slot && tx.held == slot
    ensures tx.changed <==> (left || right) && (if IsEmpty(cursor) then takeOk else insertOk)
  {
    if IsEmpty(cursor) then
      if takeOk && left then
        var (taken, rest) := RemoveStack(slot);
        SlotTx(taken, rest, true, slot)
      else if takeOk && right then
        var (taken, rest) := RemoveSome(slot, Half(slot.count));
        SlotTx(taken, rest, true, rest)
      else SlotTx(cursor, slot, false, slot)
    else if insertOk && left then
      if IsEmpty(slot) then SlotTx(EmptyStack, cursor, true, slot)
      else
        var (c, s) := Combined(cursor, slot, cursor.count);
        SlotTx(c, s, true, s)
    else if insertOk && right then
      if IsEmpty(slot) then
        var (one, rest) := Split(cursor, 1);
        SlotTx(rest, one, true, slot)
      else
        var (c, s) := Combined(cursor, slot, 1);
        SlotTx(c, s, true, s)
    else SlotTx(cursor, slot, false, slot)
  }

  /** A left click with an empty cursor moves the whole slot stack onto the
      cursor and leaves the slot empty; a right click moves half of it,
      rounded down, and leaves the rest, so a single unit stays where it is. */
  lemma TakeBranch(slot: ItemStack, left: bool, right: bool)
    requires !IsEmpty(slot) && WellFormed(slot)
    ensures left ==> var tx := Click(EmptyStack, slot, true, false, left, right);
                     tx.cursor == slot && IsEmpty(tx.slot)
    ensures !left && right && slot.count >= 2 ==>
              var tx := Click(EmptyStack, slot, true, false, left, right);
              tx.cursor == slot.(count := slot.count / 2) && tx.slot == slot.(count := slot.count - slot.count / 2)
    ensures !left && right && slot.count == 1 ==>
              var tx := Click(EmptyStack, slot, true, false, left, right);
              IsEmpty(tx.cursor) && tx.slot == slot
  {
  }

  /** With a full cursor and an empty slot, a left click puts the whole
      cursor stack in the slot and empties the cursor; a right click moves
      exactly one unit. */
  lemma InsertIntoEmptyBranch(cursor: ItemStack, slot: ItemStack, left: bool, right: bool)
    requires !IsEmpty(cursor) && IsEmpty(slot)
    ensures left ==> var tx := Click(cursor, slot, false, true, left, right);
                     tx.slot == cursor && IsEmpty(tx.cursor)
    ensures !left && right ==> var tx := Click(cursor, slot, false, true, left, right);
                               tx.slot == cursor.(count := 1) && tx.cursor == cursor.(count := cursor.count - 1)
  {
  }

  /** A click never creates or destroys items: for every item kind, the
      units on the cursor and in the slot add up to the same number before
      and after, and both stacks stay well formed. */
  lemma ClickConservesItems(cursor: ItemStack, slot: ItemStack, takeOk: bool, insertOk: bool,
                            left: bool, right: bool, item: Item)
    requires WellFormed(cursor) && WellFormed(slot)
    ensures var tx := Click(cursor, slot, takeOk, insertOk, left, right);
            UnitsOf(tx.cursor, item) + UnitsOf(tx.slot, item) == UnitsOf(cursor, item) + UnitsOf(slot, item)
    ensures var tx := Click(cursor, slot, takeOk, insertOk, left, right);
            WellFormed(tx.cursor) && WellFormed(tx.slot)
  {
    var tx := Click(cursor, slot, takeOk, insertOk, left, right);
    if !IsEmpty(cursor) && insertOk && !IsEmpty(slot) && (left || right) {
      var amount := if left then cursor.count else 1;
      CombinedBounds(cursor, slot, amount);
    } else if IsEmpty(cursor) && takeOk && !left && right {
      assert Half(slot.count) == slot.count / 2;
    }
  }

  /** `filter(items...)`: the stack's item must be every listed item. */
  predicate MatchesAllItems(items: seq<Item>, s: ItemStack)
  {
    forall k :: 0 <= k < |items| ==> ItemOf(s) == items[k]
  }

  /** `filter(tags...)`: the stack's item must be in every listed tag. */
  predicate InAllTags(tags: seq<set<Item>>, s: ItemStack)
  {
    forall k :: 0 <= k < |tags| ==> ItemOf(s) in tags[k]
  }

  /** An empty item filter accepts everything; one naming two different
      items accepts nothing. */
  lemma ItemFilterQuirk(items: seq<Item>, s: ItemStack)
    ensures items == [] ==> MatchesAllItems(items, s)
    ensures (exists j, k :: 0 <= j < k < |items| && items[j] != items[k]) ==> !MatchesAllItems(items, s)
  {
  }

  /** The body of the `filter(items...)` predicate: the loop gives up at the
      first listed item the stack's item differs from. */
  method FilterItems(items: seq<Item>, s: ItemStack) returns (ok: bool)
    ensures ok <==> MatchesAllItems(items, s)
  {
    var i := 0;
    while i < |items|
      invariant 0 <= i <= |items|
      invariant forall k :: 0 <= k < i ==> ItemOf(s) == items[k]
    {
      if ItemOf(s) != items[i] {
        return false;
      }
      i := i + 1;
    }
    return true;
  }

  /** The body of the `filter(tags...)` predicate. */
  method FilterTags(tags: seq<set<Item>>, s: ItemStack) returns (ok: bool)
    ensures ok <==> InAllTags(tags, s)
  {
    var i := 0;
    while i < |tags|
      invariant 0 <= i <= |tags|
      invariant forall k :: 0 <= k < i ==> ItemOf(s) in tags[k]
    {
      if ItemOf(s) !in tags[i] {
        return false;
      }
      i := i + 1;
    }
    return true;
  }

  /** The screen handler the GUI reports: whether it is an inventory screen
      handler, its sync id, its inventories by id and the player's cursor stack. */
  class ScreenHandler {
    const isInventoryHandler: bool
    const syncId: int
    var inventories: map<int, seq<ItemStack>>
    var cursor: ItemStack

    constructor (inventoryHandler: bool, id: int, invs: map<int, seq<ItemStack>>, held: ItemStack)
      ensures isInventoryHandler == inventoryHandler && syncId == id && inventories == invs && cursor == held
    {
      isInventoryHandler := inventoryHandler;
      syncId := id;
      inventories := invs;
      cursor := held;
    }
  }

  /** What a slot asks of the outside world during `preDraw`. */
  datatype SlotEvent =
    | SyncStack(slot: int, inventoryID: int, syncId: int, stack: ItemStack)
    | ShowTooltip(stack: ItemStack)

  /** The item icon's and the highlight's rectangles from `draw`. */
  datatype SlotDraw =
    | NotDrawn                                  // no inventory screen handler
    | NullInventory                             // the inventory lookup gives null and `draw` throws
    | Drawn(stack: ItemStack, icon: Rect, highlight: Option<Rect>)

  /** Where the 16-pixel item icon goes in an area `size` wide at `origin`:
      centred, with Java's truncating halving of the spare room. */
  function IconOrigin(origin: int, size: int): int
  {
    Half(size - 16) + origin
  }

  /** The icon is centred: the spare room on its two sides differs by at
      most one pixel, the extra pixel going after it, and for areas at least
      16 wide neither side is negative. */
  lemma IconCentred(origin: int, size: int)
    ensures var before := IconOrigin(origin, size) - origin;
            var after := (origin + size) - (IconOrigin(origin, size) + 16);
            (size >= 16 ==> 0 <= before <= after <= before + 1) &&
            (size <= 16 ==> before - 1 <= after <= before)
  {
  }

  /** The highlight rectangle: the area shrunk by the slot border on every side. */
  function Highlight(area: Rect, border: int): (r: Rect)
    ensures r.x - area.x == border && r.y - area.y == border
    ensures (area.x + area.width) - (r.x + r.width) == border
    ensures (area.y + area.height) - (r.y + r.height) == border
  {
    Rect(area.x + border, area.y + border, area.width - 2 * border, area.height - 2 * border)
  }

  /** A non-negative border keeps the highlight inside the slot. */
  lemma HighlightInside(area: Rect, border: int)
    requires border >= 0
    ensures Covers(area, Highlight(area, border))
  {
  }

  class SlotControl {
    const id: string
    const slot: int
    const inventoryID: int
    const interactive: InteractiveControl
    var highlightStyle: StyleRef
    var slotBorder: int
    var canInsert: ItemStack -> bool
    var canTake: ItemStack -> bool
    /** Syncs sent and tooltips shown so far. */
    ghost var log: seq<SlotEvent>

    /** An 18 by 18 slot that accepts every insertion and every take. */
    constructor (slotIndex: int, inventory: int, highlight: StyleRef)
      ensures id == "item_slot" && slot == slotIndex && inventoryID == inventory
      ensures fresh(interactive) && interactive.areaWidth == 18 && interactive.areaHeight == 18
      ensures !interactive.isMouseWithin
      ensures highlightStyle == highlight && slotBorder == 1 && log == []
      ensures forall s :: canInsert(s) && canTake(s)
    {
      id := "item_slot";
      slot := slotIndex;
      inventoryID := inventory;
      interactive := new InteractiveControl(18, 18);
      highlightStyle := highlight;
      slotBorder := 1;
      canInsert := s => true;
      canTake := s => true;
      log := [];
    }

    method HighlightStyle(style: StyleRef)
      modifies this`highlightStyle
      ensures highlightStyle == style
    {
      highlightStyle := style;
    }

    method SlotBorder(border: int)
      modifies this`slotBorder
      ensures slotBorder == border
    {
      slotBorder := border;
    }

    method CanInsert(p: ItemStack -> bool)
      modifies this`canInsert
      ensures canInsert == p
    {
      canInsert := p;
    }

    method CanTake(p: ItemStack -> bool)
      modifies this`canTake
      ensures canTake == p
    {
      canTake := p;
    }

    /** `filter(items...)`: insertion is allowed only for stacks whose item
        is every one of `items`. */
    method FilterByItems(items: seq<Item>)
      modifies this`canInsert
      ensures forall s :: canInsert(s) <==> MatchesAllItems(items, s)
    {
      canInsert := s => MatchesAllItems(items, s);
    }

    /** `filter(tags...)`: insertion is allowed only for stacks whose item
        is in every one of `tags`. */
    method FilterByTags(tags: seq<set<Item>>)
      modifies this`canInsert
      ensures forall s :: canInsert(s) <==> InAllTags(tags, s)
    {
      canInsert := s => InAllTags(tags, s);
    }

    /** `preDraw`: with an inventory screen handler, an inventory under this
        slot's id and the mouse over the slot, one click transaction runs on
        the cursor and the slot; a transaction that took a transfer branch is
        synced with the slot's new content, and a non-empty original slot
        stack shows its tooltip. Otherwise nothing changes. `left` and
        `right` are the GUI's just-clicked flags. */
    method PreDraw(handler: Option<ScreenHandler>, left: bool, right: bool)
      requires handler.Some? && inventoryID in handler.value.inventories ==>
                 0 <= slot < |handler.value.inventories[inventoryID]|
      modifies if handler.Some? then {handler.value} else {}
      modifies this`log
      ensures handler.None? || !handler.value.isInventoryHandler
              || inventoryID !in handler.value.inventories || !interactive.isMouseWithin ==>
                log == old(log) && (handler.Some? ==> handler.value.inventories == old(handler.value.inventories)
                                                      && handler.value.cursor == old(handler.value.cursor))
      ensures handler.Some? && handler.value.isInventoryHandler && interactive.isMouseWithin
              && inventoryID in old(handler.value.inventories) ==>
                var h := handler.value;
                var before := old(h.inventories[inventoryID][slot]);
                var tx := Click(old(h.cursor), before, canTake(before), canInsert(old(h.cursor)), left, right);
                h.cursor == tx.cursor
                && h.inventories == old(h.inventories)[inventoryID := old(h.inventories[inventoryID])[slot := tx.slot]]
                && log == old(log) + (if tx.changed then [SyncStack(slot, inventoryID, h.syncId, tx.slot)] else [])
                                   + (if !IsEmpty(tx.held) then [ShowTooltip(tx.held)] else [])
    {
      if handler.None? || !handler.value.isInventoryHandler {
        return;
      }
      var h := handler.value;
      if !(interactive.isMouseWithin && inventoryID in h.inventories) {
        return;
      }
      var inventory := h.inventories[inventoryID];
      ghost var original := inventory;
      ghost var tx := Click(h.cursor, inventory[slot], canTake(inventory[slot]), canInsert(h.cursor), left, right);
      var stackChanged := false;
      var stackInSlot := inventory[slot];
      var held := stackInSlot;
      if IsEmpty(h.cursor) {
        if canTake(stackInSlot) {
          if left {
            var (taken, rest) := RemoveStack(stackInSlot);
            inventory := inventory[slot := rest];
            h.cursor := taken;
            held := taken;
            stackChanged := true;
          } else if right {
            var (taken, rest) := RemoveSome(stackInSlot, Half(stackInSlot.count));
            inventory := inventory[slot := rest];
            h.cursor := taken;
            held := rest;
            stackChanged := true;
          }
        }
      } else {
        var cursorStack := h.cursor;
        if canInsert(cursorStack) {
          if left {
            if IsEmpty(stackInSlot) {
              inventory := inventory[slot := h.cursor];
              h.cursor := EmptyStack;
              stackChanged := true;
            } else {
              var c, s := CombineStacks(cursorStack, stackInSlot, cursorStack.count);
              h.cursor := c;
              inventory := inventory[slot := s];
              held := s;
              stackChanged := true;
            }
          } else if right {
            if IsEmpty(stackInSlot) {
              var (one, rest) := Split(h.cursor, 1);
              h.cursor := rest;
              inventory := inventory[slot := one];
              stackChanged := true;
            } else {
              var c, s := CombineStacks(cursorStack, stackInSlot, 1);
              h.cursor := c;
              inventory := inventory[slot := s];
              held := s;
              stackChanged := true;
            }
          }
        }
      }
      assert inventory == original[slot := tx.slot];
      h.inventories := h.inventories[inventoryID := inventory];
      if stackChanged {
        log := log + [SyncStack(slot, inventoryID, h.syncId, inventory[slot])];
      }
      if !IsEmpty(held) {
        log := log + [ShowTooltip(held)];
      }
    }

    /** `draw`: the slot's stack centred in the area, and the highlight while
        the mouse is over the slot. The inventory is not checked for null
        here, unlike in `preDraw`. */
    method Draw(handler: Option<ScreenHandler>) returns (result: SlotDraw)
      requires handler.Some? && inventoryID in handler.value.inventories ==>
                 0 <= slot < |handler.value.inventories[inventoryID]|
      ensures handler.None? || !handler.value.isInventoryHandler ==> result == NotDrawn
      ensures handler.Some? && handler.value.isInventoryHandler && inventoryID !in handler.value.inventories
              ==> result == NullInventory
      ensures handler.Some? && handler.value.isInventoryHandler && inventoryID in handler.value.inventories ==>
                var area := Rect(interactive.trueX, interactive.trueY, interactive.areaWidth, interactive.areaHeight);
                result == Drawn(handler.value.inventories[inventoryID][slot],
                                Rect(IconOrigin(area.x, area.width), IconOrigin(area.y, area.height), 16, 16),
                                if interactive.isMouseWithin then Some(Highlight(area, slotBorder)) else None)
    {
      if handler.None? || !handler.value.isInventoryHandler {
        return NotDrawn;
      }
      var h := handler.value;
      if inventoryID !in h.inventories {
        return NullInventory;
      }
      var stack := h.inventories[inventoryID][slot];
      var itemX := Half(interactive.areaWidth - 16) + interactive.trueX;
      var itemY := Half(interactive.areaHeight - 16) + interactive.trueY;
      var highlight := None;
      if interactive.isMouseWithin {
        highlight := Some(Rect(interactive.trueX + slotBorder, interactive.trueY + slotBorder,
                               interactive.areaWidth - 2 * slotBorder, interactive.areaHeight - 2 * slotBorder));
      }
      result := Drawn(stack, Rect(itemX, itemY, 16, 16), highlight);
    }
  }
}
