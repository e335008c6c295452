// The allocator as the code has it: channel objects in a table, the shared slot array, and
// loops over both. Each method is proved to do what DataChannels says.
module HsiAllocator {
  import opened Options
  import opened DataChannels

  class Channel {
    var contextId: nat
    var hsiDirect: bool
    var hsiChannel: int
    var dataProfile: int

    ghost function Value(): Chan
      reads this
    {
      Chan(contextId, hsiDirect, hsiChannel, dataProfile)
    }
  }

  ghost function Seen(ch: Channel?): Option<Chan>
    reads if ch == null then {} else {ch}
  {
    if ch == null then None else Some(ch.Value())
  }

  ghost predicate Distinct(table: seq<Channel?>) {
    forall i, j :: 0 <= i < j < |table| && table[i] != null ==> table[i] != table[j]
  }

  /** Any scan that stops where FirstFree does has its result. */
  lemma FirstFreeIs(chans: seq<Option<Chan>>, limit: nat, k: nat)
    requires k <= limit <= |chans|
    requires forall i :: 0 <= i < k ==> !IsFree(chans[i])
    requires k < limit ==> IsFree(chans[k])
    ensures FirstFree(chans, limit) == k
  {
  }

  /** An assignment made with the mutex held once more leaves it held once more. */
  lemma AssignUnderLock(c: Config, p: Pool, k: nat, dataProfile: int)
    requires Sized(c, p) && k < NUM_DATA && p.chans[k].Some?
    ensures var under := Assign(c, p.(depth := p.depth + 1), k, dataProfile);
      under.depth > 0 && under.(depth := under.depth - 1) == Assign(c, p, k, dataProfile)
    ensures Assign(c, p, k, dataProfile).depth >= p.depth
  {
    hide ClassOf, Low, High;
  }

  lemma AcquireIs(c: Config, p: Pool, dataProfile: int, k: nat, q: Pool)
    requires Sized(c, p) && k == FirstFree(p.chans, c.limit)
    requires q == if k == c.limit then p else p.(chans := p.chans[k := Some(p.chans[k].value.(cid := k + 1))])
    ensures Acquire(c, p, dataProfile) ==
      if k == c.limit then (p, NUM_DATA, 0) else (Assign(c, q, k, dataProfile), k, k + 1)
  {
    hide Assign;
  }

  class Allocator {
    const config: Config
    const table: seq<Channel?>  // the data channels of g_pRilChannel, set up once
    const slots: array<nat>     // g_uiHSIChannel
    var depth: nat              // how often the accessor mutex is held

    ghost function Channels(): set<Channel> {
      set x: Channel | x in table
    }

    ghost predicate Valid() {
      && |table| == NUM_DATA && slots.Length == NUM_IPC
      && |config.paths| == NUM_PROFILES && config.limit <= NUM_DATA
      && Distinct(table)
    }

    ghost function Chans(): (v: seq<Option<Chan>>)
      reads Channels()
      ensures |v| == |table|
      ensures forall i :: 0 <= i < |v| ==> v[i] == Seen(table[i])
    {
      seq(|table|, i requires 0 <= i < |table| reads Channels() => Seen(table[i]))
    }

    ghost function Contents(): (p: Pool)
      reads `depth, slots, Channels()
      ensures Valid() ==> Sized(config, p)
    {
      Pool(Chans(), slots[..], depth)
    }

    constructor (config: Config, table: seq<Channel?>, slots: array<nat>)
      requires |table| == NUM_DATA && slots.Length == NUM_IPC
      requires |config.paths| == NUM_PROFILES && config.limit <= NUM_DATA
      requires Distinct(table)
      ensures Valid() && this.config == config && this.table == table && this.slots == slots
      ensures depth == 0
    {
      this.config, this.table, this.slots, depth := config, table, slots, 0;
    }

    method Lock()
      modifies `depth
      ensures depth == old(depth) + 1
    {
      depth := depth + 1;
    }

    method Unlock()
      requires depth > 0
      modifies `depth
      ensures depth == old(depth) - 1
    {
      depth := depth - 1;
    }

    /** A store to one channel changes one entry of the table's contents. */
    twostate lemma OneChannel(k: nat)
      requires Valid() && k < NUM_DATA && table[k] != null
      requires forall x :: x in Channels() && x != table[k] ==> unchanged(x)
      ensures Chans() == old(Chans())[k := Some(table[k].Value())]
    {
      forall i | 0 <= i < NUM_DATA
        ensures Chans()[i] == old(Chans())[k := Some(table[k].Value())][i]
      {
        if i != k && table[i] != null {
          assert table[i] in Channels() && table[i] != table[k];
        }
      }
    }

    method GetFreeChnl() returns (ch: Channel?, outCid: nat, ghost k: nat)
      requires Valid()
      modifies `depth, Channels()
      ensures depth == old(depth) && k == FirstFree(old(Chans()), config.limit)
      ensures k == config.limit ==> ch == null && outCid == 0 && Chans() == old(Chans())
      ensures k < config.limit ==>
        && ch == table[k] && ch != null && outCid == k + 1
        && Chans() == old(Chans())[k := Some(old(Chans())[k].value.(cid := k + 1))]
    {
      Lock();
      ch, outCid := null, 0;
      var i := 0;
      while i < config.limit
        invariant 0 <= i <= config.limit
        invariant forall j :: 0 <= j < i ==> !IsFree(old(Chans())[j])
      {
        var temp := table[i];
        if temp != null && temp.contextId == 0 {
          ch, outCid := temp, i + 1;
          break;
        }
        assert !IsFree(old(Chans())[i]);
        i := i + 1;
      }
      k := i;
      assert k < config.limit ==> IsFree(old(Chans())[k]);
      FirstFreeIs(old(Chans()), config.limit, k);
      if ch != null {
        ch.contextId := outCid;
        OneChannel(k);
      }
      Unlock();
    }

    /** FreeHSIChannel. */
    method FreeHSIChannel(cid: nat) returns (freed: bool)
      requires Valid()
      modifies `depth, slots
      ensures depth == old(depth)
      ensures slots[..] == FreeSlot(old(slots[..]), cid) && (freed <==> cid in old(slots[..]))
    {
      Lock();
      var i := 0;
      while i < NUM_IPC
        invariant 0 <= i <= NUM_IPC && slots[..] == old(slots[..])
        invariant forall j :: 0 <= j < i ==> slots[j] != cid
      {
        if slots[i] == cid {
          SlotOfIs(slots[..], cid, 0, i);
          slots[i] := 0;
          Unlock();
          return true;
        }
        i := i + 1;
      }
      SlotOfIs(slots[..], cid, 0, NUM_IPC);
      Unlock();
      return false;
    }

    /** GetFreeHSIChannel; on an index error the mutex stays held. */
    method GetFreeHSIChannel(cid: nat, s: int, e: int) returns (slot: int)
      requires Valid()
      modifies `depth, slots
      ensures Taken(Pool(Chans(), slots[..], depth), slot) == TakeSlot(old(Contents()), cid, s, e)
    {
      Lock();
      if s < 0 || e > NUM_IPC {
        return -1;
      }
      var i := s;
      while i < e
        invariant s <= i && (i <= e || i == s) && slots[..] == old(slots[..])
        invariant forall j :: s <= j < i ==> slots[j] != 0
      {
        if slots[i] == 0 {
          SlotOfIs(slots[..], 0, s, i);
          slots[i] := cid;
          Unlock();
          return i;
        }
        i := i + 1;
      }
      if s < e {
        SlotOfAbove(slots[..], 0, s, e);
      }
      Unlock();
      return -1;
    }

    /** The end of GetChnlsRilHsi: the channel is filled in. */
    method Fill(ch: Channel, slot: int, direct: bool, dataProfile: int, ghost k: nat)
      requires Valid() && k < NUM_DATA && table[k] == ch && depth > 0
      modifies `depth, ch
      ensures Contents() == old(Contents()).(
        chans := old(Chans())[k := Some(Chan(old(ch.contextId), direct, slot, dataProfile))], depth := old(depth) - 1)
    {
      assert ch in Channels();
      ch.hsiChannel, ch.hsiDirect, ch.dataProfile := slot, direct, dataProfile;
      OneChannel(k);
      Unlock();
    }

    /** Its error exit: the context ID is taken back. */
    method GiveUp(ch: Channel, ghost k: nat)
      requires Valid() && k < NUM_DATA && table[k] == ch && depth > 0
      modifies `depth, ch
      ensures Contents() == old(Contents()).(
        chans := old(Chans())[k := Some(old(ch.Value()).(cid := 0))], depth := old(depth) - 1)
    {
      assert ch in Channels();
      ch.contextId := 0;
      OneChannel(k);
      Unlock();
    }

    /** GetChnlsRilHsi, for the channel at k. */
    method GetChnlsRilHsi(ch: Channel, dataProfile: int, ghost k: nat)
      requires Valid() && k < NUM_DATA && table[k] == ch
      modifies `depth, slots, ch
      ensures Contents() == Assign(config, old(Contents()), k, dataProfile)
    {
      hide Distinct;
      Lock();
      assert ch in Channels();
      var slot, direct := -1, false;
      var cid, profile := ch.contextId, dataProfile % 0x400;
      if 0 <= profile < NUM_PROFILES {
        if config.paths[profile] == 1 {
          slot := GetFreeHSIChannel(cid, config.ipcMin, config.ipcMin + config.class1);
          if slot == -1 {
            GiveUp(ch, k);
            return;
          }
          direct := true;
        } else if config.paths[profile] == 2 {
          slot := GetFreeHSIChannel(cid, config.ipcMin + config.class1, config.ipcMin + config.direct);
          direct := slot != -1;
        }
      }
      Fill(ch, slot, direct, dataProfile, k);
    }

    /** GetFreeChnlsRilHsi. */
    method GetFreeChnlsRilHsi(dataProfile: int) returns (ch: Channel?, outCid: nat, ghost k: nat)
      requires Valid()
      modifies `depth, slots, Channels()
      ensures (Contents(), k, outCid) == Acquire(config, old(Contents()), dataProfile)
      ensures ch == if k < NUM_DATA then table[k] else null
    {
      hide Assign, FirstFree, IsFree, Distinct;
      ghost var p := Contents();
      Lock();
      ch, outCid, k := GetFreeChnl();
      ghost var q := if k == config.limit then p
                     else p.(chans := p.chans[k := Some(p.chans[k].value.(cid := k + 1))]);
      assert Contents() == q.(depth := q.depth + 1);
      AcquireIs(config, p, dataProfile, k, q);
      hide Acquire;
      if ch == null {
        outCid, k := 0, NUM_DATA;
      } else {
        AssignUnderLock(config, q, k, dataProfile);
        GetChnlsRilHsi(ch, dataProfile, k);
      }
      Unlock();
    }

    /** ResetDataCallInfo, for the channel at k. */
    method ResetDataCallInfo(ch: Channel, ghost k: nat)
      requires Valid() && k < NUM_DATA && table[k] == ch
      modifies `depth, slots, ch
      ensures Contents() == Reset(config, old(Contents()), k)
    {
      assert ch in Channels();
      if config.hsiModem {
        var _ := FreeHSIChannel(ch.contextId);
      }
      ch.contextId := 0;
      OneChannel(k);
    }
  }

  lemma SlotOfIs(hsi: seq<nat>, v: nat, start: nat, i: nat)
    requires start <= i <= |hsi|
    requires forall j :: start <= j < i ==> hsi[j] != v
    requires i < |hsi| ==> hsi[i] == v
    ensures SlotOf(hsi, v, start) == i
  {
  }

  lemma SlotOfAbove(hsi: seq<nat>, v: nat, start: nat, e: nat)
    requires start <= e <= |hsi|
    requires forall j :: start <= j < e ==> hsi[j] != v
    ensures SlotOf(hsi, v, start) >= e
  {
  }
}
