// The child contexts of a data channel: a 32-bit mask that stands for a set of context IDs.
// All numbers here are the machine's 32-bit words, and -1 is the word of all ones.
module ChildContexts {
  const MAX_CID: bv32 := 31     // MAX_CID_NUMERIC
  const MINUS_ONE: bv32 := 0xFFFF_FFFF

  /** An ID the mask can hold: bit 0 is never used. */
  predicate InRange(id: bv32) {
    id != 0 && id <= MAX_CID
  }

  predicate Bit(mask: bv32, i: bv32)
    requires i <= 31
  {
    mask & (1 << i) != 0
  }

  /** The set a mask stands for. */
  ghost function Members(mask: bv32): iset<bv32> {
    iset id: bv32 | InRange(id) && Bit(mask, id)
  }

  function Added(mask: bv32, id: bv32): bv32 {
    if InRange(id) then mask | (1 << id) else mask
  }

  function Removed(mask: bv32, id: bv32): bv32 {
    if InRange(id) then mask & !(1 << id) else mask
  }

  lemma BitOfAdded(mask: bv32, id: bv32, i: bv32)
    requires id <= 31 && i <= 31
    ensures Bit(mask | (1 << id), i) <==> Bit(mask, i) || i == id
  {
  }

  lemma BitOfRemoved(mask: bv32, id: bv32, i: bv32)
    requires id <= 31 && i <= 31
    ensures Bit(mask & !(1 << id), i) <==> Bit(mask, i) && i != id
  {
  }

  /** Adding in range inserts the ID; out of range it does nothing. */
  lemma AddedRefines(mask: bv32, id: bv32)
    ensures Members(Added(mask, id)) == Members(mask) + if 1 <= id <= 31 then iset{id} else iset{}
    ensures Bit(Added(mask, id), 0) == Bit(mask, 0)
  {
    if InRange(id) {
      BitOfAdded(mask, id, 0);
      forall i: bv32 | InRange(i) ensures Bit(Added(mask, id), i) <==> Bit(mask, i) || i == id {
        BitOfAdded(mask, id, i);
      }
    }
    hide Bit, Added;
  }

  lemma RemovedRefines(mask: bv32, id: bv32)
    ensures Members(Removed(mask, id)) == Members(mask) - iset{id}
    ensures Bit(Removed(mask, id), 0) == Bit(mask, 0)
  {
    if InRange(id) {
      BitOfRemoved(mask, id, 0);
      forall i: bv32 | InRange(i) ensures Bit(Removed(mask, id), i) <==> Bit(mask, i) && i != id {
        BitOfRemoved(mask, id, i);
      }
    }
    hide Bit, Removed;
  }

  /** All bits below n are clear. */
  predicate ClearBelow(mask: bv32, n: bv32)
    requires n <= 32
  {
    mask & ((1 << n) - 1) == 0
  }

  lemma BitBelow(mask: bv32, n: bv32, i: bv32)
    requires n <= 31 && i < n && ClearBelow(mask, n)
    ensures !Bit(mask, i)
  {
  }

  lemma ClearStep(mask: bv32, n: bv32)
    requires n <= 31 && ClearBelow(mask, n) && !Bit(mask, n)
    ensures ClearBelow(mask, n + 1)
  {
  }

  lemma ClearAll(mask: bv32)
    requires ClearBelow(mask, 32)
    ensures mask == 0
  {
  }

  /** rff1 ends and returns the least set bit, or -1 for the zero word. */
  method Rff1(entry: bv32) returns (r: bv32)
    ensures r == MINUS_ONE <==> entry == 0
    ensures entry != 0 ==> r <= 31 && Bit(entry, r)
    ensures entry != 0 ==> forall i: bv32 :: i < r ==> i <= 31 && !Bit(entry, i)
  {
    hide Bit, ClearBelow;
    if entry == 0 {
      return MINUS_ONE;
    }
    var i: bv32 := 0;
    assert ClearBelow(entry, 0) by { NothingBelow(entry); }
    while !Bit(entry, i)
      invariant i <= 31 && ClearBelow(entry, i)
      decreases 31 - i
    {
      ClearStep(entry, i);
      if i == 31 {
        ClearAll(entry);
      }
      i := i + 1;
    }
    forall j: bv32 | j < i ensures !Bit(entry, j) {
      BitBelow(entry, i, j);
    }
    return i;
  }

  lemma NothingBelow(mask: bv32)
    ensures ClearBelow(mask, 0)
  {
  }

  class Contexts {
    var mask: bv32  // m_uiChildContexts

    ghost predicate Valid()
      reads this
    {
      !Bit(mask, 0)
    }

    ghost function Contents(): iset<bv32>
      reads this
    {
      Members(mask)
    }

    constructor ()
      ensures Valid() && Contents() == iset{}
    {
      mask := 0;
      new;
      Empty();
    }

    method AddChildContextID(id: bv32)
      requires Valid()
      modifies this
      ensures Valid() && Contents() == old(Contents()) + if 1 <= id <= 31 then iset{id} else iset{}
    {
      AddedRefines(mask, id);
      hide Bit, Members;
      if id == 0 || id > MAX_CID {
        assert Added(mask, id) == mask;
        return;
      }
      mask := mask | (1 << id);
    }

    method RemoveChildContextID(id: bv32)
      requires Valid()
      modifies this
      ensures Valid() && Contents() == old(Contents()) - iset{id}
    {
      if id == 0 || id > MAX_CID {
        return;
      }
      RemovedRefines(mask, id);
      hide Bit, Members;
      mask := mask & !(1 << id);
    }

    method ClearChildsContextID()
      requires Valid()
      modifies this
      ensures Valid() && Contents() == iset{}
    {
      mask := 0;
      Empty();
    }

    method HasChildContextID(id: bv32) returns (has: bool)
      requires Valid()
      ensures has <==> id in Contents()
    {
      if id == 0 || id > MAX_CID {
        return false;
      }
      return mask & (1 << id) != 0;
    }
  }

  lemma Empty()
    ensures Members(0) == iset{} && !Bit(0, 0)
  {
  }

  // ---------------------------------------------------------------------------
  // The mask and the set, over any sequence of calls.

  datatype Call = Add(id: bv32) | Remove(id: bv32) | Clear

  function OnMask(mask: bv32, calls: seq<Call>): bv32 {
    if calls == [] then mask
    else
      OneCall(OnMask(mask, calls[..|calls| - 1]), calls[|calls| - 1])
  }

  /** Was id added, in range, and neither removed nor cleared since? */
  predicate Kept(calls: seq<Call>, id: bv32) {
    && 1 <= id <= 31
    && (exists i :: 0 <= i < |calls| && calls[i] == Add(id)
                    && (forall j :: i < j < |calls| ==> calls[j] != Remove(id) && calls[j] != Clear))
  }

  /** After any calls the mask holds exactly the IDs added and not taken out since. */
  lemma {:induction false} MaskIsSet(calls: seq<Call>, id: bv32)
    ensures id in Members(OnMask(0, calls)) <==> Kept(calls, id)
    ensures !Bit(OnMask(0, calls), 0)
  {
    Empty();
    hide Bit, Members, Kept;
    if calls == [] {
      NothingKept(id);
    } else {
      var front := calls[..|calls| - 1];
      MaskIsSet(front, id);
      KeptStep(calls, id);
      MaskStep(OnMask(0, front), calls[|calls| - 1], id);
    }
  }

  function OneCall(mask: bv32, call: Call): bv32 {
    match call
    case Add(id) => Added(mask, id)
    case Remove(id) => Removed(mask, id)
    case Clear => 0
  }

  lemma NothingKept(id: bv32)
    ensures !Kept([], id)
  {
  }

  /** What one call does to the members. */
  lemma MaskStep(m: bv32, last: Call, id: bv32)
    ensures Bit(OneCall(m, last), 0) ==> Bit(m, 0)
    ensures id in Members(OneCall(m, last)) <==>
      (last == Add(id) && 1 <= id <= 31) || (last != Remove(id) && last != Clear && id in Members(m))
  {
    Empty();
    hide Bit, Members, Added, Removed;
    match last
    case Add(x) => AddedRefines(m, x);
    case Remove(x) => RemovedRefines(m, x);
    case Clear =>
  }

  lemma KeptStep(calls: seq<Call>, id: bv32)
    requires calls != []
    ensures var front, last := calls[..|calls| - 1], calls[|calls| - 1];
      Kept(calls, id) <==>
        (last == Add(id) && 1 <= id <= 31) || (last != Remove(id) && last != Clear && Kept(front, id))
  {
    var front, last := calls[..|calls| - 1], calls[|calls| - 1];
    if 1 <= id <= 31 && last == Add(id) {
      assert calls[|calls| - 1] == Add(id);
    } else if Kept(front, id) && last != Remove(id) && last != Clear {
      var i :| 0 <= i < |front| && front[i] == Add(id)
        && forall j :: i < j < |front| ==> front[j] != Remove(id) && front[j] != Clear;
      assert calls[i] == Add(id);
    }
    if Kept(calls, id) && last != Add(id) {
      var i :| 0 <= i < |calls| && calls[i] == Add(id)
        && forall j :: i < j < |calls| ==> calls[j] != Remove(id) && calls[j] != Clear;
      assert front[i] == Add(id);
    }
  }

  lemma {:induction false} SomeBit(mask: bv32, n: bv32) returns (i: bv32)
    requires n <= 31 && ClearBelow(mask, n) && mask != 0
    ensures i <= 31 && Bit(mask, i)
    decreases 31 - n
  {
    hide Bit, ClearBelow;
    if Bit(mask, n) {
      i := n;
    } else {
      ClearStep(mask, n);
      if n == 31 {
        ClearAll(mask);
      }
      i := SomeBit(mask, n + 1);
    }
  }

  lemma BitOfXor(a: bv32, b: bv32, i: bv32)
    requires i <= 31 && Bit(a ^ b, i)
    ensures Bit(a, i) != Bit(b, i)
  {
  }

  lemma XorZero(a: bv32, b: bv32)
    requires a ^ b == 0
    ensures a == b
  {
  }

  /** Two masks with bit 0 clear that stand for the same set are equal. */
  lemma SameSetSameMask(a: bv32, b: bv32)
    requires Members(a) == Members(b) && !Bit(a, 0) && !Bit(b, 0)
    ensures a == b
  {
    hide Bit, ClearBelow;
    if a ^ b == 0 {
      XorZero(a, b);
    } else {
      NothingBelow(a ^ b);
      var i := SomeBit(a ^ b, 0);
      assert i in Members(a) <==> i in Members(b);
      BitOfXor(a, b, i);
    }
  }
}
