/**
 * The change log: UndoItem (one reversible edit), UndoList (the bounded
 * undo stack with its block bracketing, change numbering and eviction
 * ceilings) and RedoList (the plain redo stack).
 *
 * Both stacks have their newest entry at the end of `items`. A cap that is
 * zero or negative imposes no limit.
 */
module SynUndo {
  import opened SynTypes

  datatype ChangeReason =
    | Insert | Delete | Caret | Selection | GroupBreak | LeftTop | LineBreak
    | MoveSelectionUp | MoveSelectionDown | ReplaceLine
    | Nothing  // reported for an empty list

  /** One recorded change; `memoryUsage` is fixed when the item is built. */
  datatype UndoItem = UndoItem(
    reason: ChangeReason,
    selMode: SelectionMode,
    startPos: BufferCoord,
    endPos: BufferCoord,
    text: seq<string>,
    number: nat,
    memoryUsage: nat)

  /** The footprint estimate of an item's text: the code units of all its lines. */
  function TextMemory(text: seq<string>): (m: nat)
    ensures |text| == 0 ==> m == 0
    ensures |text| == 1 ==> m == |text[0]|
    ensures |text| > 0 ==> m >= |text[0]|
  {
    if |text| == 0 then 0 else |text[0]| + TextMemory(text[1..])
  }

  /** The footprint of two texts one after the other is the sum of theirs, so it is the total length of the lines. */
  lemma {:induction false} TextMemoryAppend(a: seq<string>, b: seq<string>)
    ensures TextMemory(a + b) == TextMemory(a) + TextMemory(b)
    decreases |a|
  {
    if |a| == 0 {
      assert a + b == b;
    } else {
      assert (a + b)[1..] == a[1..] + b;
      TextMemoryAppend(a[1..], b);
    }
  }

  /** No line of a text is larger than the text's footprint. */
  lemma {:induction false} TextMemoryCovers(text: seq<string>, k: int)
    requires 0 <= k < |text|
    ensures |text[k]| <= TextMemory(text)
    decreases k
  {
    if k > 0 {
      TextMemoryCovers(text[1..], k - 1);
    }
  }

  /** The item the UndoItem constructor builds. */
  function NewItem(reason: ChangeReason, selMode: SelectionMode, startPos: BufferCoord,
                   endPos: BufferCoord, text: seq<string>, number: nat): (it: UndoItem)
    ensures it.reason == reason && it.selMode == selMode && it.text == text && it.number == number
    ensures it.startPos == startPos && it.endPos == endPos
    ensures it.memoryUsage == TextMemory(text)
  {
    UndoItem(reason, selMode, startPos, endPos, text, number, TextMemory(text))
  }

  /** The cumulative footprint of a list of items. */
  function SumMemory(items: seq<UndoItem>): nat
  {
    if |items| == 0 then 0 else items[0].memoryUsage + SumMemory(items[1..])
  }

  lemma {:induction false} SumMemoryAppend(items: seq<UndoItem>, it: UndoItem)
    ensures SumMemory(items + [it]) == SumMemory(items) + it.memoryUsage
    decreases |items|
  {
    if |items| == 0 {
      assert items + [it] == [it];
    } else {
      assert (items + [it])[1..] == items[1..] + [it];
      SumMemoryAppend(items[1..], it);
    }
  }

  /** Whether a list breaks the entry-count cap or the memory cap. */
  predicate OverLimit(items: seq<UndoItem>, maxActions: int, maxMemory: int)
  {
    (maxActions > 0 && |items| > maxActions) || (maxMemory > 0 && SumMemory(items) > maxMemory)
  }

  /** Within both caps: at most maxActions entries and maxMemory footprint, where a cap applies. */
  lemma WithinCaps(items: seq<UndoItem>, maxActions: int, maxMemory: int)
    requires !OverLimit(items, maxActions, maxMemory)
    ensures maxActions > 0 ==> |items| <= maxActions
    ensures maxMemory > 0 ==> SumMemory(items) <= maxMemory
  {
  }

  /** The list after oldest-first eviction: drop front entries while a cap is broken. */
  function Evict(items: seq<UndoItem>, maxActions: int, maxMemory: int): seq<UndoItem>
    decreases |items|
  {
    if |items| > 0 && OverLimit(items, maxActions, maxMemory) then
      Evict(items[1..], maxActions, maxMemory)
    else
      items
  }

  /**
   * Eviction keeps a suffix of the list (the newest entries, in order),
   * leaves it within both caps, and drops no entry it did not have to:
   * every longer suffix breaks a cap.
   */
  lemma {:induction false} EvictSpec(items: seq<UndoItem>, maxActions: int, maxMemory: int)
    ensures var r := Evict(items, maxActions, maxMemory);
      |r| <= |items| && r == items[|items| - |r|..]
    ensures !OverLimit(Evict(items, maxActions, maxMemory), maxActions, maxMemory)
    ensures var r := Evict(items, maxActions, maxMemory);
      forall j :: 0 <= j < |items| - |r| ==> OverLimit(items[j..], maxActions, maxMemory)
    ensures |Evict(items, maxActions, maxMemory)| < |items| <==> OverLimit(items, maxActions, maxMemory)
    decreases |items|
  {
    if |items| > 0 && OverLimit(items, maxActions, maxMemory) {
      var tail := items[1..];
      EvictSpec(tail, maxActions, maxMemory);
      var r := Evict(tail, maxActions, maxMemory);
      assert Evict(items, maxActions, maxMemory) == r;
      assert tail[|tail| - |r|..] == items[|items| - |r|..];
      forall j | 0 <= j < |items| - |r|
        ensures OverLimit(items[j..], maxActions, maxMemory)
      {
        if j > 0 {
          assert tail[j - 1..] == items[j..];
        } else {
          assert items[0..] == items;
        }
      }
    } else {
      assert items[|items| - |items|..] == items;
    }
  }

  /** A list already within both caps loses nothing. */
  lemma EvictWithin(items: seq<UndoItem>, maxActions: int, maxMemory: int)
    requires !OverLimit(items, maxActions, maxMemory)
    ensures Evict(items, maxActions, maxMemory) == items
  {
  }

  /** Dropping the newest entry keeps a list within the caps it was within. */
  lemma {:induction false} DropLastWithin(items: seq<UndoItem>, maxActions: int, maxMemory: int)
    requires |items| > 0 && !OverLimit(items, maxActions, maxMemory)
    ensures !OverLimit(items[..|items| - 1], maxActions, maxMemory)
    ensures SumMemory(items[..|items| - 1]) == SumMemory(items) - items[|items| - 1].memoryUsage
  {
    var front := items[..|items| - 1];
    assert front + [items[|items| - 1]] == items;
    SumMemoryAppend(front, items[|items| - 1]);
  }

  /** Whether every recorded item carries a number below `bound`. */
  predicate NumbersBelow(items: seq<UndoItem>, bound: nat)
  {
    forall k :: 0 <= k < |items| ==> items[k].number < bound
  }

  lemma NumbersBelowAppend(items: seq<UndoItem>, it: UndoItem, bound: nat)
    requires NumbersBelow(items, bound) && it.number < bound
    ensures NumbersBelow(items + [it], bound)
  {
    assert forall k :: 0 <= k < |items| ==> (items + [it])[k] == items[k];
  }

  /** Eviction keeps only numbers that were recorded, so a bound on them survives it. */
  lemma NumbersBelowSuffix(whole: seq<UndoItem>, items: seq<UndoItem>, bound: nat)
    requires |items| <= |whole| && items == whole[|whole| - |items|..]
    requires NumbersBelow(whole, bound)
    ensures NumbersBelow(items, bound)
  {
    forall k | 0 <= k < |items|
      ensures items[k].number < bound
    {
      assert items[k] == whole[|whole| - |items| + k];
    }
  }

  /** The newest entry of a stack, or None for an empty one. */
  function Top(items: seq<UndoItem>): (r: Option<UndoItem>)
    ensures r.None? <==> |items| == 0
    ensures r.Some? ==> r.value == items[|items| - 1]
  {
    if |items| == 0 then None else Some(items[|items| - 1])
  }

  /** The reason of the newest entry; Nothing for an empty stack. */
  function TopReason(items: seq<UndoItem>): (r: ChangeReason)
    ensures |items| == 0 ==> r == Nothing
    ensures |items| > 0 ==> r == items[|items| - 1].reason
  {
    if |items| == 0 then Nothing else items[|items| - 1].reason
  }

  /** Popping what was just pushed gives it back and restores the stack. */
  lemma PushPop(items: seq<UndoItem>, it: UndoItem)
    ensures Top(items + [it]) == Some(it)
    ensures (items + [it])[..|items|] == items
    ensures TopReason(items + [it]) == it.reason
  {
  }

  class UndoList {
    var items: seq<UndoItem>
    var memoryUsage: int
    var maxUndoActions: int
    var maxMemoryUsage: int
    /** Sticky: set when an eviction happens, cleared only by Clear. */
    var fullUndoImposible: bool
    var nextChangeNumber: nat
    /** Nesting depth of BeginBlock/EndBlock; > 0 means inside a block. */
    var blockLock: nat
    var blockChangeNumber: nat
    var initialChangeNumber: nat
    var insideRedo: bool

    /**
     * The memory counter is the footprint of the items, the list is within
     * both caps, and every number handed out so far (recorded items and the
     * open block's number) is below the next one.
     */
    ghost predicate Valid()
      reads this
    {
      memoryUsage == SumMemory(items)
      && !OverLimit(items, maxUndoActions, maxMemoryUsage)
      && NumbersBelow(items, nextChangeNumber)
      && (blockLock > 0 ==> blockChangeNumber < nextChangeNumber)
    }

    /** The caps are the constructor's parameters, numbering starts at 1. */
    constructor (maxActions: int, maxMemory: int)
      ensures Valid()
      ensures items == [] && memoryUsage == 0 && !fullUndoImposible
      ensures maxUndoActions == maxActions && maxMemoryUsage == maxMemory
      ensures nextChangeNumber == 1 && blockLock == 0 && initialChangeNumber == 0 && !insideRedo
    {
      items := [];
      memoryUsage := 0;
      maxUndoActions := maxActions;
      maxMemoryUsage := maxMemory;
      fullUndoImposible := false;
      nextChangeNumber := 1;
      blockLock := 0;
      blockChangeNumber := 0;
      initialChangeNumber := 0;
      insideRedo := false;
    }

    function ItemCount(): (n: int)
      reads this
      ensures n == |items| && n >= 0
    {
      |items|
    }

    /** isEmpty and canUndo both mean "no items", i.e. ItemCount() == 0. */
    predicate IsEmpty()
      reads this
      ensures IsEmpty() <==> ItemCount() == 0
    {
      |items| == 0
    }

    predicate CanUndo()
      reads this
      ensures CanUndo() <==> !IsEmpty()
      ensures CanUndo() <==> ItemCount() > 0
    {
      |items| > 0
    }

    function LastChangeReason(): (r: ChangeReason)
      reads this
      ensures IsEmpty() ==> r == Nothing
      ensures !IsEmpty() ==> r == items[|items| - 1].reason
    {
      TopReason(items)
    }

    function PeekItem(): (r: Option<UndoItem>)
      reads this
      ensures r.None? <==> IsEmpty()
      ensures r.Some? ==> r.value == items[|items| - 1]
    {
      Top(items)
    }

    predicate InBlock()
      reads this
      ensures InBlock() <==> blockLock > 0
    {
      blockLock > 0
    }

    /**
     * Whether the list stands where SetInitialState last marked it: the
     * newest item carries the marked number, or the list is empty and the
     * mark is the empty mark 0.
     */
    predicate InitialState()
      reads this
      ensures IsEmpty() ==> (InitialState() <==> initialChangeNumber == 0)
      ensures !IsEmpty() ==> (InitialState() <==> items[|items| - 1].number == initialChangeNumber)
    {
      if |items| == 0 then initialChangeNumber == 0 else items[|items| - 1].number == initialChangeNumber
    }

    method SetInitialState()
      requires Valid()
      modifies this`initialChangeNumber
      ensures Valid() && InitialState()
      ensures initialChangeNumber == if |items| == 0 then 0 else items[|items| - 1].number
    {
      if |items| == 0 {
        initialChangeNumber := 0;
      } else {
        initialChangeNumber := items[|items| - 1].number;
      }
    }

    method SetInsideRedo(value: bool)
      requires Valid()
      modifies this`insideRedo
      ensures Valid() && insideRedo == value
    {
      insideRedo := value;
    }

    /** Hands out the next change number; successive numbers strictly increase. */
    method GetNextChangeNumber() returns (n: nat)
      requires Valid()
      modifies this`nextChangeNumber
      ensures Valid()
      ensures n == old(nextChangeNumber) && nextChangeNumber == n + 1
      ensures NumbersBelow(items, n)
    {
      n := nextChangeNumber;
      nextChangeNumber := nextChangeNumber + 1;
    }

    /**
     * Evicts oldest entries while either cap is broken. A list found over a
     * cap sets the sticky fullUndoImposible flag.
     */
    method EnsureMaxEntries()
      requires memoryUsage == SumMemory(items)
      modifies this`items, this`memoryUsage, this`fullUndoImposible
      ensures items == Evict(old(items), maxUndoActions, maxMemoryUsage)
      ensures memoryUsage == SumMemory(items)
      ensures !OverLimit(items, maxUndoActions, maxMemoryUsage)
      ensures |items| <= |old(items)| && items == old(items)[|old(items)| - |items|..]
      ensures fullUndoImposible == (old(fullUndoImposible) || OverLimit(old(items), maxUndoActions, maxMemoryUsage))
      ensures |items| < |old(items)| <==> OverLimit(old(items), maxUndoActions, maxMemoryUsage)
    {
      ghost var s := items;
      EvictSpec(s, maxUndoActions, maxMemoryUsage);
      if (maxUndoActions > 0 && |items| > maxUndoActions) || (maxMemoryUsage > 0 && memoryUsage > maxMemoryUsage) {
        fullUndoImposible := true;
      }
      ghost var d := 0;
      while |items| > 0 && ((maxUndoActions > 0 && |items| > maxUndoActions) || (maxMemoryUsage > 0 && memoryUsage > maxMemoryUsage))
        invariant memoryUsage == SumMemory(items)
        invariant 0 <= d <= |s| && items == s[d..]
        invariant Evict(items, maxUndoActions, maxMemoryUsage) == Evict(s, maxUndoActions, maxMemoryUsage)
        invariant fullUndoImposible == (old(fullUndoImposible) || OverLimit(s, maxUndoActions, maxMemoryUsage))
        decreases |items|
      {
        memoryUsage := memoryUsage - items[0].memoryUsage;
        items := items[1..];
        d := d + 1;
      }
      EvictWithin(items, maxUndoActions, maxMemoryUsage);
    }

    /** Appends an item and restores the caps; the shared tail of AddChange and RestoreItem. */
    method Append(it: UndoItem)
      requires Valid() && it.number < nextChangeNumber
      modifies this`items, this`memoryUsage, this`fullUndoImposible
      ensures Valid()
      ensures items == Evict(old(items) + [it], maxUndoActions, maxMemoryUsage)
      ensures fullUndoImposible == (old(fullUndoImposible) || OverLimit(old(items) + [it], maxUndoActions, maxMemoryUsage))
    {
      SumMemoryAppend(items, it);
      NumbersBelowAppend(items, it, nextChangeNumber);
      items := items + [it];
      memoryUsage := memoryUsage + it.memoryUsage;
      ghost var whole := items;
      EnsureMaxEntries();
      NumbersBelowSuffix(whole, items, nextChangeNumber);
    }

    /**
     * Records a change. Inside a block it shares the block's number;
     * outside one it takes a fresh number, larger than that of every item
     * already recorded.
     */
    method AddChange(reason: ChangeReason, start: BufferCoord, end: BufferCoord,
                     changeText: seq<string>, selMode: SelectionMode)
      requires Valid()
      modifies this`items, this`memoryUsage, this`fullUndoImposible, this`nextChangeNumber
      ensures Valid()
      ensures var n := if old(blockLock) > 0 then old(blockChangeNumber) else old(nextChangeNumber);
        items == Evict(old(items) + [NewItem(reason, selMode, start, end, changeText, n)], maxUndoActions, maxMemoryUsage)
        && fullUndoImposible == (old(fullUndoImposible)
             || OverLimit(old(items) + [NewItem(reason, selMode, start, end, changeText, n)], maxUndoActions, maxMemoryUsage))
      ensures nextChangeNumber == old(nextChangeNumber) + (if old(blockLock) > 0 then 0 else 1)
      ensures old(blockLock) == 0 ==> NumbersBelow(old(items), old(nextChangeNumber))
    {
      var n: nat;
      if blockLock > 0 {
        n := blockChangeNumber;
      } else {
        n := GetNextChangeNumber();
      }
      Append(NewItem(reason, selMode, start, end, changeText, n));
    }

    /**
     * Puts back an item that a redo replays, keeping its number. A number at
     * or past the counter moves the counter beyond it, so later numbers stay
     * larger.
     */
    method RestoreItem(it: UndoItem)
      requires Valid()
      modifies this`items, this`memoryUsage, this`fullUndoImposible, this`nextChangeNumber
      ensures Valid()
      ensures items == Evict(old(items) + [it], maxUndoActions, maxMemoryUsage)
      ensures fullUndoImposible == (old(fullUndoImposible) || OverLimit(old(items) + [it], maxUndoActions, maxMemoryUsage))
      ensures nextChangeNumber == Max(old(nextChangeNumber), it.number + 1)
    {
      if it.number >= nextChangeNumber {
        nextChangeNumber := it.number + 1;
      }
      Append(it);
    }

    method RestoreChange(reason: ChangeReason, start: BufferCoord, end: BufferCoord,
                         changeText: seq<string>, selMode: SelectionMode, changeNumber: nat)
      requires Valid()
      modifies this`items, this`memoryUsage, this`fullUndoImposible, this`nextChangeNumber
      ensures Valid()
      ensures items == Evict(old(items) + [NewItem(reason, selMode, start, end, changeText, changeNumber)],
                             maxUndoActions, maxMemoryUsage)
      ensures fullUndoImposible == (old(fullUndoImposible)
        || OverLimit(old(items) + [NewItem(reason, selMode, start, end, changeText, changeNumber)], maxUndoActions, maxMemoryUsage))
      ensures nextChangeNumber == Max(old(nextChangeNumber), changeNumber + 1)
    {
      RestoreItem(NewItem(reason, selMode, start, end, changeText, changeNumber));
    }

    /**
     * Adds a GroupBreak marker, except on an empty list or right after
     * another marker.
     */
    method AddGroupBreak()
      requires Valid()
      modifies this`items, this`memoryUsage, this`fullUndoImposible, this`nextChangeNumber
      ensures Valid()
      ensures old(|items| == 0 || LastChangeReason() == GroupBreak) ==>
        items == old(items) && nextChangeNumber == old(nextChangeNumber) && fullUndoImposible == old(fullUndoImposible)
      ensures old(|items| > 0 && LastChangeReason() != GroupBreak) ==>
        var n := if old(blockLock) > 0 then old(blockChangeNumber) else old(nextChangeNumber);
        var marker := NewItem(GroupBreak, Normal, BufferCoord(0, 0), BufferCoord(0, 0), [], n);
        && items == Evict(old(items) + [marker], maxUndoActions, maxMemoryUsage)
        && fullUndoImposible == (old(fullUndoImposible) || OverLimit(old(items) + [marker], maxUndoActions, maxMemoryUsage))
        && nextChangeNumber == old(nextChangeNumber) + (if old(blockLock) > 0 then 0 else 1)
    {
      if CanUndo() && LastChangeReason() != GroupBreak {
        AddChange(GroupBreak, BufferCoord(0, 0), BufferCoord(0, 0), [], Normal);
      }
    }

    /** Opens a (possibly nested) block; the outermost one draws the block's number. */
    method BeginBlock()
      requires Valid()
      modifies this`blockLock, this`blockChangeNumber, this`nextChangeNumber
      ensures Valid() && blockLock == old(blockLock) + 1
      ensures old(blockLock) == 0 ==>
        blockChangeNumber == old(nextChangeNumber) && nextChangeNumber == old(nextChangeNumber) + 1
      ensures old(blockLock) > 0 ==>
        blockChangeNumber == old(blockChangeNumber) && nextChangeNumber == old(nextChangeNumber)
    {
      if blockLock == 0 {
        blockChangeNumber := GetNextChangeNumber();
      }
      blockLock := blockLock + 1;
    }

    /** Closes a block; an unmatched call does nothing. */
    method EndBlock()
      requires Valid()
      modifies this`blockLock, this`blockChangeNumber
      ensures Valid()
      ensures blockLock == if old(blockLock) > 0 then old(blockLock) - 1 else 0
      ensures blockLock == 0 && old(blockLock) > 0 ==> blockChangeNumber == 0
      ensures blockLock > 0 ==> blockChangeNumber == old(blockChangeNumber)
    {
      if blockLock > 0 {
        blockLock := blockLock - 1;
        if blockLock == 0 {
          blockChangeNumber := 0;
        }
      }
    }

    /** Empties the list and resets the flag, the mark and the block depth; numbering goes on. */
    method Clear()
      requires Valid()
      modifies this`items, this`memoryUsage, this`fullUndoImposible, this`initialChangeNumber, this`blockLock
      ensures Valid()
      ensures items == [] && memoryUsage == 0 && !fullUndoImposible
      ensures initialChangeNumber == 0 && blockLock == 0
    {
      items := [];
      memoryUsage := 0;
      fullUndoImposible := false;
      initialChangeNumber := 0;
      blockLock := 0;
    }

    /** Removes and returns the newest item; None on an empty list. */
    method PopItem() returns (r: Option<UndoItem>)
      requires Valid()
      modifies this`items, this`memoryUsage
      ensures Valid()
      ensures r == Top(old(items))
      ensures old(|items|) == 0 ==> items == old(items)
      ensures old(|items|) > 0 ==> items == old(items)[..|old(items)| - 1]
      ensures memoryUsage == SumMemory(items)
    {
      if |items| == 0 {
        r := None;
      } else {
        r := Some(items[|items| - 1]);
        DropLastWithin(items, maxUndoActions, maxMemoryUsage);
        memoryUsage := memoryUsage - items[|items| - 1].memoryUsage;
        items := items[..|items| - 1];
      }
    }

    /** A new entry cap evicts at once; setting the same cap again changes nothing. */
    method SetMaxUndoActions(maxActions: int)
      requires Valid()
      modifies this`maxUndoActions, this`items, this`memoryUsage, this`fullUndoImposible
      ensures Valid() && maxUndoActions == maxActions
      ensures items == Evict(old(items), maxActions, maxMemoryUsage)
      ensures fullUndoImposible == (old(fullUndoImposible) || OverLimit(old(items), maxActions, maxMemoryUsage))
    {
      if maxActions != maxUndoActions {
        maxUndoActions := maxActions;
        EnsureMaxEntries();
      } else {
        EvictWithin(items, maxUndoActions, maxMemoryUsage);
      }
    }

    method SetMaxMemoryUsage(maxMemory: int)
      requires Valid()
      modifies this`maxMemoryUsage, this`items, this`memoryUsage, this`fullUndoImposible
      ensures Valid() && maxMemoryUsage == maxMemory
      ensures items == Evict(old(items), maxUndoActions, maxMemory)
      ensures fullUndoImposible == (old(fullUndoImposible) || OverLimit(old(items), maxUndoActions, maxMemory))
    {
      maxMemoryUsage := maxMemory;
      EnsureMaxEntries();
    }
  }

  /** The redo stack: items popped off the undo list, newest at the end. */
  class RedoList {
    var items: seq<UndoItem>

    constructor ()
      ensures items == []
    {
      items := [];
    }

    function ItemCount(): (n: int)
      reads this
      ensures n == |items| && n >= 0
    {
      |items|
    }

    predicate IsEmpty()
      reads this
      ensures IsEmpty() <==> ItemCount() == 0
    {
      |items| == 0
    }

    predicate CanRedo()
      reads this
      ensures CanRedo() <==> !IsEmpty()
    {
      |items| > 0
    }

    function LastChangeReason(): (r: ChangeReason)
      reads this
      ensures IsEmpty() ==> r == Nothing
      ensures !IsEmpty() ==> r == items[|items| - 1].reason
    {
      TopReason(items)
    }

    function PeekItem(): (r: Option<UndoItem>)
      reads this
      ensures r.None? <==> IsEmpty()
      ensures r.Some? ==> r.value == items[|items| - 1]
    {
      Top(items)
    }

    method AddRedoItem(it: UndoItem)
      modifies this
      ensures items == old(items) + [it]
    {
      items := items + [it];
    }

    method AddRedo(reason: ChangeReason, start: BufferCoord, end: BufferCoord,
                   changeText: seq<string>, selMode: SelectionMode, changeNumber: nat)
      modifies this
      ensures items == old(items) + [NewItem(reason, selMode, start, end, changeText, changeNumber)]
    {
      AddRedoItem(NewItem(reason, selMode, start, end, changeText, changeNumber));
    }

    method Clear()
      modifies this
      ensures items == []
    {
      items := [];
    }

    method PopItem() returns (r: Option<UndoItem>)
      modifies this
      ensures r == Top(old(items))
      ensures old(|items|) == 0 ==> items == old(items)
      ensures old(|items|) > 0 ==> items == old(items)[..|old(items)| - 1]
    {
      if |items| == 0 {
        r := None;
      } else {
        r := Some(items[|items| - 1]);
        items := items[..|items| - 1];
      }
    }
  }

  /**
   * The example of a list capped at two entries: three Insert changes
   * keep the newest two and the list was over its cap.
   */
  lemma ThreeInsertsKeepTwo(a: UndoItem, b: UndoItem, c: UndoItem)
    requires a.reason == Insert && b.reason == Insert && c.reason == Insert
    ensures Evict([a, b, c], 2, 0) == [b, c]
    ensures OverLimit([a, b, c], 2, 0)
  {
    assert [a, b, c][1..] == [b, c];
  }
}
