// Data channels and HSI slots as values: how GetFreeChnlsRilHsi pairs a context ID
// with a slot, and how ResetDataCallInfo takes both back.
module DataChannels {
  import opened Options

  const NUM_IPC := 5        // RIL_MAX_NUM_IPC_CHANNEL
  const NUM_DATA := 5       // RIL_CHANNEL_DATA1 .. RIL_CHANNEL_DATA5
  const NUM_PROFILES := 6   // NUMBER_OF_APN_PROFILE

  /** The fields of a data channel that the allocator uses. */
  datatype Chan = Chan(cid: nat, hsiDirect: bool, hsiChannel: int, profile: int)

  /** The modem configuration, fixed once read; limit is how many data channels are scanned. */
  datatype Config = Config(
    paths: seq<int>,       // m_dataProfilePathAssignation
    ipcMin: int, class1: int, direct: int,
    hsiModem: bool, limit: nat)

  /** The channels (None where the table holds no channel), g_uiHSIChannel, and how often
      the accessor mutex is held. */
  datatype Pool = Pool(chans: seq<Option<Chan>>, hsi: seq<nat>, depth: nat)

  predicate Sized(c: Config, p: Pool) {
    |p.chans| == NUM_DATA && |p.hsi| == NUM_IPC && |c.paths| == NUM_PROFILES && c.limit <= NUM_DATA
  }

  predicate IsFree(ch: Option<Chan>) {
    ch.Some? && ch.value.cid == 0
  }

  /** The scan of GetFreeChnl: the first free channel below the limit. */
  function FirstFree(chans: seq<Option<Chan>>, limit: nat): (k: nat)
    requires limit <= |chans|
    ensures k <= limit && (k < limit ==> IsFree(chans[k]))
    ensures forall i :: 0 <= i < k ==> !IsFree(chans[i])
  {
    if limit == 0 || IsFree(chans[0]) then 0 else 1 + FirstFree(chans[1..], limit - 1)
  }

  /** The first slot at or after start that holds v; |hsi| if none does. */
  function SlotOf(hsi: seq<nat>, v: nat, start: nat): (i: nat)
    requires start <= |hsi|
    ensures start <= i <= |hsi| && (i < |hsi| ==> hsi[i] == v)
    ensures forall j :: start <= j < i ==> hsi[j] != v
    decreases |hsi| - start
  {
    if start == |hsi| || hsi[start] == v then start else SlotOf(hsi, v, start + 1)
  }

  /** The guard of GetFreeHSIChannel. */
  predicate IndexError(s: int, e: int) {
    s < 0 || e > NUM_IPC
  }

  /** GetFreeHSIChannel: the slot, -1 if none; on an index error it returns with the mutex held. */
  function TakeSlot(p: Pool, cid: nat, s: int, e: int): (r: Taken)
    requires |p.hsi| == NUM_IPC
    ensures r.slot != -1 ==> 0 <= s <= r.slot < e <= NUM_IPC && p.hsi[r.slot] == 0
    ensures r.slot == -1 && !IndexError(s, e) ==> forall i :: s <= i < e ==> p.hsi[i] != 0
  {
    if IndexError(s, e) then Taken(p.(depth := p.depth + 1), -1)
    else if s >= e then Taken(p, -1)
    else
      var i := SlotOf(p.hsi, 0, s);
      if i < e then Taken(p.(hsi := p.hsi[i := cid]), i) else Taken(p, -1)
  }

  datatype Taken = Taken(pool: Pool, slot: int)

  /** FreeHSIChannel: the first slot that holds the context ID is emptied. */
  function FreeSlot(hsi: seq<nat>, cid: nat): seq<nat> {
    var i := SlotOf(hsi, cid, 0);
    if i < |hsi| then hsi[i := 0] else hsi
  }

  /** The class of a profile: 0 for one outside the table. */
  function ClassOf(c: Config, dataProfile: int): int
    requires |c.paths| == NUM_PROFILES
  {
    var profile := dataProfile % 0x400;  // dataProfile & DATA_PROFILE_AOSP_MASK
    if profile < NUM_PROFILES then c.paths[profile] else 0
  }

  /** The slots a class draws from. */
  function Low(c: Config, class': int): int {
    if class' == 1 then c.ipcMin else c.ipcMin + c.class1
  }

  function High(c: Config, class': int): int {
    if class' == 1 then c.ipcMin + c.class1 else c.ipcMin + c.direct
  }

  /** The switch of GetChnlsRilHsi: a slot for classes 1 and 2, none for the others. */
  function SlotFor(c: Config, p: Pool, cid: nat, class': int): Taken
    requires |p.hsi| == NUM_IPC
  {
    if class' == 1 || class' == 2 then TakeSlot(p, cid, Low(c, class'), High(c, class')) else Taken(p, -1)
  }

  /** GetChnlsRilHsi on channel k. */
  function Assign(c: Config, p: Pool, k: nat, dataProfile: int): Pool
    requires Sized(c, p) && k < NUM_DATA && p.chans[k].Some?
  {
    var ch := p.chans[k].value;
    var class' := ClassOf(c, dataProfile);
    var Taken(p1, slot) := SlotFor(c, p, ch.cid, class');
    if class' == 1 && slot == -1 then p1.(chans := p1.chans[k := Some(ch.(cid := 0))])
    else p1.(chans := p1.chans[k := Some(Chan(ch.cid, slot != -1, slot, dataProfile))])
  }

  /** GetFreeChnlsRilHsi: the pool after it, the channel returned (NUM_DATA for NULL) and outCID. */
  function Acquire(c: Config, p: Pool, dataProfile: int): (Pool, nat, nat)
    requires Sized(c, p)
  {
    var k := FirstFree(p.chans, c.limit);
    if k == c.limit then (p, NUM_DATA, 0)
    else
      var p1 := p.(chans := p.chans[k := Some(p.chans[k].value.(cid := k + 1))]);
      (Assign(c, p1, k, dataProfile), k, k + 1)
  }

  /** ResetDataCallInfo on channel k. */
  function Reset(c: Config, p: Pool, k: nat): Pool
    requires Sized(c, p) && k < NUM_DATA && p.chans[k].Some?
  {
    var ch := p.chans[k].value;
    p.(hsi := if c.hsiModem then FreeSlot(p.hsi, ch.cid) else p.hsi,
       chans := p.chans[k := Some(ch.(cid := 0))])
  }

  predicate Active(p: Pool, k: int) {
    0 <= k < |p.chans| && p.chans[k].Some? && p.chans[k].value.cid != 0
  }

  predicate Direct(p: Pool, k: int) {
    Active(p, k) && p.chans[k].value.hsiDirect
  }

  /** A context ID is the channel number, and an active direct channel points at a slot of
      its class that holds the ID. */
  predicate ChanOk(c: Config, p: Pool, k: nat)
    requires Sized(c, p) && k < NUM_DATA
  {
    Active(p, k) ==>
      var ch := p.chans[k].value;
      var class' := ClassOf(c, ch.profile);
      && ch.cid == k + 1
      && (ch.hsiDirect ==>
            && 0 <= ch.hsiChannel < NUM_IPC && p.hsi[ch.hsiChannel] == ch.cid
            && class' in {1, 2} && Low(c, class') <= ch.hsiChannel < High(c, class'))
      && (!ch.hsiDirect ==> ch.hsiChannel == -1 && class' != 1)
  }

  /** A slot in use holds the ID of the active channel that points at it. */
  predicate SlotOk(p: Pool, s: nat)
    requires s < |p.hsi|
  {
    p.hsi[s] != 0 ==> Direct(p, p.hsi[s] - 1) && p.chans[p.hsi[s] - 1].value.hsiChannel == s
  }

  predicate PoolOk(c: Config, p: Pool) {
    && Sized(c, p)
    && (forall k :: 0 <= k < NUM_DATA ==> ChanOk(c, p, k))
    && (forall s :: 0 <= s < NUM_IPC ==> SlotOk(p, s))
  }

  /** A free channel may change its idle fields. */
  lemma StaysFree(c: Config, p: Pool, k: nat, ch: Chan, depth: nat)
    requires PoolOk(c, p) && k < NUM_DATA && !Active(p, k) && ch.cid == 0
    ensures PoolOk(c, Pool(p.chans[k := Some(ch)], p.hsi, depth))
  {
    var p' := Pool(p.chans[k := Some(ch)], p.hsi, depth);
    forall s | 0 <= s < NUM_IPC ensures SlotOk(p', s) {
      assert SlotOk(p, s);
    }
    forall j | 0 <= j < NUM_DATA ensures ChanOk(c, p', j) {
      assert ChanOk(c, p, j);
    }
  }

  /** A free channel becomes active, with an empty slot of its class or without one. */
  lemma BecomesActive(c: Config, p: Pool, k: nat, slot: int, dataProfile: int, depth: nat)
    requires PoolOk(c, p) && k < NUM_DATA && !Active(p, k)
    requires slot == -1 ==> ClassOf(c, dataProfile) != 1
    requires slot != -1 ==>
      && 0 <= slot < NUM_IPC && p.hsi[slot] == 0 && ClassOf(c, dataProfile) in {1, 2}
      && Low(c, ClassOf(c, dataProfile)) <= slot < High(c, ClassOf(c, dataProfile))
    ensures PoolOk(c, Pool(p.chans[k := Some(Chan(k + 1, slot != -1, slot, dataProfile))],
                           if slot == -1 then p.hsi else p.hsi[slot := k + 1], depth))
  {
    hide ClassOf, Low, High;
    var p' := Pool(p.chans[k := Some(Chan(k + 1, slot != -1, slot, dataProfile))],
                   if slot == -1 then p.hsi else p.hsi[slot := k + 1], depth);
    forall s | 0 <= s < NUM_IPC ensures SlotOk(p', s) {
      assert SlotOk(p, s);
    }
    forall j | 0 <= j < NUM_DATA ensures ChanOk(c, p', j) {
      assert ChanOk(c, p, j);
    }
  }

  /** What an acquisition changes: channel k, and the slot if it got one. */
  lemma AcquireShape(c: Config, p: Pool, dataProfile: int)
    requires Sized(c, p) && FirstFree(p.chans, c.limit) < c.limit
    ensures var k := FirstFree(p.chans, c.limit);
      var class' := ClassOf(c, dataProfile);
      var (p', r, outCid) := Acquire(c, p, dataProfile);
      var slot := SlotFor(c, p, k + 1, class').slot;
      && r == k < NUM_DATA && outCid == k + 1
      && p'.chans == p.chans[k := Some(
           if class' == 1 && slot == -1 then p.chans[k].value.(cid := 0)
           else Chan(k + 1, slot != -1, slot, dataProfile))]
      && p'.hsi == if slot == -1 then p.hsi else p.hsi[slot := k + 1]
  {
    hide ClassOf, Low, High;
  }

  /** The slot found lies in the class's range and was empty; the search fails only if none is. */
  lemma SlotForFinds(c: Config, p: Pool, cid: nat, class': int)
    requires Sized(c, p)
    ensures var slot := SlotFor(c, p, cid, class').slot;
      && (slot == -1 <==> class' !in {1, 2} || NoSlot(c, p, class'))
      && (slot != -1 ==> class' in {1, 2} && 0 <= slot < NUM_IPC && p.hsi[slot] == 0
                         && Low(c, class') <= slot < High(c, class'))
  {
  }

  /** No slot of the class is left, or its range is not a range of slots. */
  predicate NoSlot(c: Config, p: Pool, class': int)
    requires Sized(c, p)
  {
    var s, e := Low(c, class'), High(c, class');
    IndexError(s, e) || forall i :: s <= i < e ==> p.hsi[i] != 0
  }

  lemma AcquireKeeps(c: Config, p: Pool, dataProfile: int)
    requires PoolOk(c, p)
    ensures PoolOk(c, Acquire(c, p, dataProfile).0)
  {
    assert Sized(c, p);
    hide PoolOk, Active, Acquire, SlotFor, ClassOf, NoSlot;
    var k := FirstFree(p.chans, c.limit);
    if k < c.limit {
      FreeNotActive(p, k);
      AcquireShape(c, p, dataProfile);
      var class' := ClassOf(c, dataProfile);
      SlotForFinds(c, p, k + 1, class');
      var slot, p' := SlotFor(c, p, k + 1, class').slot, Acquire(c, p, dataProfile).0;
      assert p' == Pool(p'.chans, p'.hsi, p'.depth);
      if class' == 1 && slot == -1 {
        StaysFree(c, p, k, p.chans[k].value.(cid := 0), p'.depth);
      } else {
        BecomesActive(c, p, k, slot, dataProfile, p'.depth);
      }
    } else {
      assert Acquire(c, p, dataProfile).0 == p by { assert k == c.limit; }
    }
  }

  lemma FreeNotActive(p: Pool, k: nat)
    requires k < |p.chans| && IsFree(p.chans[k])
    ensures !Active(p, k)
  {
  }

  /** FreeHSIChannel finds exactly the slot of an active channel, if it has one. */
  lemma FreeSlotIsExact(c: Config, p: Pool, k: nat)
    requires PoolOk(c, p) && k < NUM_DATA && p.chans[k].Some?
    ensures var ch := p.chans[k].value;
      if Direct(p, k) then
        0 <= ch.hsiChannel < NUM_IPC && FreeSlot(p.hsi, ch.cid) == p.hsi[ch.hsiChannel := 0]
      else FreeSlot(p.hsi, ch.cid) == p.hsi
  {
    hide ClassOf, Low, High;
    var ch := p.chans[k].value;
    var i := SlotOf(p.hsi, ch.cid, 0);
    assert ChanOk(c, p, k);
    if i < NUM_IPC {
      assert SlotOk(p, i);
    }
  }

  /** A reset keeps the pool in order exactly if the modem frees HSI slots or there was none. */
  lemma ResetKeeps(c: Config, p: Pool, k: nat)
    requires PoolOk(c, p) && k < NUM_DATA && p.chans[k].Some?
    ensures PoolOk(c, Reset(c, p, k)) <==> c.hsiModem || !Direct(p, k)
  {
    FreeSlotIsExact(c, p, k);
    hide FreeSlot, ClassOf, Low, High;
    var ch, p' := p.chans[k].value, Reset(c, p, k);
    assert ChanOk(c, p, k);
    if c.hsiModem || !Direct(p, k) {
      forall s | 0 <= s < NUM_IPC ensures SlotOk(p', s) {
        assert SlotOk(p, s);
      }
      forall j | 0 <= j < NUM_DATA ensures ChanOk(c, p', j) {
        assert ChanOk(c, p, j);
      }
    } else {
      assert !SlotOk(p', ch.hsiChannel);
    }
  }

  // ---------------------------------------------------------------------------
  // What callers see.

  /** The caller gets a channel exactly if one is free, and always with a context ID; but for
      a class-1 profile without a slot the channel stays free behind the caller's back. An
      acquisition fills at most one slot, which was empty and becomes the channel's. */
  lemma AcquireOutcome(c: Config, p: Pool, dataProfile: int)
    requires PoolOk(c, p)
    ensures var (p', k, outCid) := Acquire(c, p, dataProfile);
      && (k == NUM_DATA <==> forall i :: 0 <= i < c.limit ==> !IsFree(p.chans[i]))
      && (k == NUM_DATA ==> p' == p && outCid == 0)
      && (k != NUM_DATA ==>
            && k < NUM_DATA && IsFree(p.chans[k]) && outCid == k + 1
            && Sized(c, p') && p'.chans[k].Some?
            && (Active(p', k) <==> Path(c, dataProfile) != 1 || AnyEmpty(p.hsi, c.ipcMin, c.ipcMin + c.class1))
            && (forall j :: 0 <= j < NUM_DATA && j != k ==> p'.chans[j] == p.chans[j])
            && (if Direct(p', k) then
                  var s := p'.chans[k].value.hsiChannel;
                  0 <= s < NUM_IPC && p.hsi[s] == 0 && p'.hsi == p.hsi[s := k + 1]
                else p'.hsi == p.hsi))
  {
    assert Sized(c, p);
    hide PoolOk, SlotFor, ClassOf, NoSlot, Low, High;
    var k := FirstFree(p.chans, c.limit);
    if k < c.limit {
      AcquireShape(c, p, dataProfile);
      SlotForFinds(c, p, k + 1, ClassOf(c, dataProfile));
      AcquireInNumbers(c, p, dataProfile, k);
      hide Acquire, Path, FirstEmpty, AnyEmpty;
    }
  }

  /** What the profile's entry in the configuration says: 1 and 2 ask for a slot. */
  function Path(c: Config, dataProfile: int): int
    requires |c.paths| == 6
  {
    if dataProfile % 0x400 < 6 then c.paths[dataProfile % 0x400] else 0
  }

  /** Slot s is the first empty one from lo up to hi, which are bounds inside the table. */
  predicate FirstEmpty(hsi: seq<nat>, lo: int, hi: int, s: int)
    requires |hsi| == 5
  {
    0 <= lo <= s < hi <= 5 && hsi[s] == 0 && forall i :: lo <= i < s ==> hsi[i] != 0
  }

  /** Some slot from lo up to hi is empty, and the bounds lie inside the table. */
  predicate AnyEmpty(hsi: seq<nat>, lo: int, hi: int)
    requires |hsi| == 5
  {
    0 <= lo && hi <= 5 && exists s :: lo <= s < hi && hsi[s] == 0
  }

  /** The search of a slot in numbers. */
  lemma TakeSlotIs(p: Pool, cid: nat, lo: int, hi: int)
    requires |p.hsi| == 5
    ensures var slot := TakeSlot(p, cid, lo, hi).slot;
      if AnyEmpty(p.hsi, lo, hi) then FirstEmpty(p.hsi, lo, hi, slot) else slot == -1
  {
    if 0 <= lo <= hi <= 5 {
      var i := SlotOf(p.hsi, 0, lo);
      if s :| lo <= s < hi && p.hsi[s] == 0 {
        assert FirstEmpty(p.hsi, lo, hi, i);
      }
    }
  }

  /** An acquisition in the numbers of the configuration, for the first free channel k. A profile
      on path 1 gets the first empty slot from ipcMin up to ipcMin + class1, and without one the
      channel is free again; a profile on path 2 gets the first empty slot from ipcMin + class1 up
      to ipcMin + direct, and without one a channel that is not direct; every other profile gets
      such a channel. Bounds outside the table leave the mutex held and count as no slot. */
  lemma AcquireInNumbers(c: Config, p: Pool, dataProfile: int, k: nat)
    requires Sized(c, p) && k < c.limit && p.chans[k].Some? && p.chans[k].value.cid == 0
    requires forall i :: 0 <= i < k ==> p.chans[i].None? || p.chans[i].value.cid != 0
    ensures var (p', r, outCid) := Acquire(c, p, dataProfile);
      var path := Path(c, dataProfile);
      var lo := if path == 1 then c.ipcMin else c.ipcMin + c.class1;
      var hi := if path == 1 then c.ipcMin + c.class1 else c.ipcMin + c.direct;
      && r == k && outCid == k + 1 && |p'.chans| == 5 && p'.chans[k].Some?
      && p'.chans == p.chans[k := p'.chans[k]]
      && (var ch := p'.chans[k].value;
        if (path == 1 || path == 2) && AnyEmpty(p.hsi, lo, hi) then
          && ch == Chan(k + 1, true, ch.hsiChannel, dataProfile) && FirstEmpty(p.hsi, lo, hi, ch.hsiChannel)
          && p'.hsi == p.hsi[ch.hsiChannel := k + 1]
        else
          && p'.hsi == p.hsi
          && ch == if path == 1 then p.chans[k].value else Chan(k + 1, false, -1, dataProfile))
      && p'.depth == p.depth + if (path == 1 || path == 2) && (lo < 0 || hi > 5) then 1 else 0
  {
    assert FirstFree(p.chans, c.limit) == k;
    AcquireShape(c, p, dataProfile);
    var path := ClassOf(c, dataProfile);
    TakeSlotIs(p, k + 1, Low(c, path), High(c, path));
    SlotDepth(p, k + 1, Low(c, path), High(c, path));
    AcquireDepth(c, p, dataProfile);
    hide Acquire, TakeSlot, FirstEmpty, AnyEmpty;
  }

  lemma SlotDepth(p: Pool, cid: nat, lo: int, hi: int)
    requires |p.hsi| == 5
    ensures TakeSlot(p, cid, lo, hi).pool.depth == p.depth + if lo < 0 || hi > 5 then 1 else 0
  {
  }

  lemma AcquireDepth(c: Config, p: Pool, dataProfile: int)
    requires Sized(c, p)
    ensures var k := FirstFree(p.chans, c.limit);
      Acquire(c, p, dataProfile).0.depth ==
        if k == c.limit then p.depth else SlotFor(c, p, k + 1, ClassOf(c, dataProfile)).pool.depth
  {
    hide ClassOf, Low, High;
  }

  /** The accessor mutex is released exactly if the class's range is one of slots. */
  lemma MutexIsReleased(c: Config, p: Pool, dataProfile: int)
    requires Sized(c, p)
    ensures Acquire(c, p, dataProfile).0.depth == p.depth <==>
      || (forall i :: 0 <= i < c.limit ==> !IsFree(p.chans[i]))
      || ClassOf(c, dataProfile) !in {1, 2}
      || !IndexError(Low(c, ClassOf(c, dataProfile)), High(c, ClassOf(c, dataProfile)))
  {
    hide ClassOf;
  }

  function CountOnes(paths: seq<int>): nat {
    if paths == [] then 0 else CountOnes(paths[1..]) + if paths[0] == 1 then 1 else 0
  }

  /** What InitializeHSI computes and the two checks it makes, and only logs. The least channel
      number is read from the repository and not checked. */
  predicate PassesChecks(c: Config) {
    c.class1 == CountOnes(c.paths) && c.class1 <= c.direct && c.direct <= NUM_IPC - c.ipcMin
  }

  /** With a configuration that passes the checks a range never ends too high, so the mutex is
      released exactly if the range of the class does not begin below zero. */
  lemma CheckedConfigReleases(c: Config, p: Pool, dataProfile: int)
    requires Sized(c, p) && PassesChecks(c)
    ensures Acquire(c, p, dataProfile).0.depth == p.depth <==>
      || (forall i :: 0 <= i < c.limit ==> !IsFree(p.chans[i]))
      || ClassOf(c, dataProfile) !in {1, 2}
      || Low(c, ClassOf(c, dataProfile)) >= 0
  {
    MutexIsReleased(c, p, dataProfile);
    hide Acquire, ClassOf, CountOnes;
  }

  /** Such a configuration never leaves the mutex held, whatever the pool and the profile,
      exactly if no class in use begins below zero: a checked ipcMin >= 0 would do. */
  lemma CheckedConfigIsSafe(c: Config)
    requires |c.paths| == NUM_PROFILES && c.limit <= NUM_DATA && PassesChecks(c)
    ensures (forall p: Pool, dataProfile: int :: Sized(c, p) ==> Acquire(c, p, dataProfile).0.depth == p.depth)
      <==> (c.limit > 0 ==> forall i :: 0 <= i < NUM_PROFILES && c.paths[i] in {1, 2} ==> Low(c, c.paths[i]) >= 0)
    ensures c.ipcMin >= 0 ==> forall i :: 0 <= i < NUM_PROFILES && c.paths[i] in {1, 2} ==> Low(c, c.paths[i]) >= 0
  {
    hide Acquire, CountOnes;
    forall p: Pool, dataProfile: int
      | Sized(c, p)
        && (c.limit > 0 ==> forall i :: 0 <= i < NUM_PROFILES && c.paths[i] in {1, 2} ==> Low(c, c.paths[i]) >= 0)
      ensures Acquire(c, p, dataProfile).0.depth == p.depth
    {
      CheckedConfigReleases(c, p, dataProfile);
    }
    var free := Pool(seq(NUM_DATA, _ => Some(Chan(0, false, -1, 0))), seq(NUM_IPC, _ => 0), 0);
    if i :| 0 <= i < NUM_PROFILES && c.paths[i] in {1, 2} && Low(c, c.paths[i]) < 0 {
      CheckedConfigReleases(c, free, i);
      assert c.limit > 0 ==> IsFree(free.chans[0]);
    }
  }

  // ---------------------------------------------------------------------------
  // Inputs on which the code does not do what its comments promise.

  const FREE_CHANNEL := Some(Chan(0, false, -1, 0))

  /** A configuration that passes both checks and leaves the mutex held: one class-1 profile and
      a least channel number of -1. */
  lemma CheckedConfigHoldsMutex(p: Pool)
    requires |p.chans| == NUM_DATA && |p.hsi| == NUM_IPC && p.chans[0] == FREE_CHANNEL
    ensures var c := Config([1, 0, 0, 0, 0, 0], -1, 1, 2, true, NUM_DATA);
      && Sized(c, p) && PassesChecks(c)
      && Acquire(c, p, 0).0.depth == p.depth + 1
      && Acquire(c, p, 0).0.chans[0] == FREE_CHANNEL && Acquire(c, p, 0).1 == 0
  {
    var c := Config([1, 0, 0, 0, 0, 0], -1, 1, 2, true, NUM_DATA);
    var paths := c.paths;
    assert CountOnes(paths[1..]) == 0 by {
      NoOnes(paths[1..]);
    }
    assert FirstFree(p.chans, c.limit) == 0;
  }

  lemma {:induction false} NoOnes(paths: seq<int>)
    requires forall i :: 0 <= i < |paths| ==> paths[i] != 1
    ensures CountOnes(paths) == 0
  {
    if paths != [] {
      NoOnes(paths[1..]);
    }
  }

  /** A range that ends above the table: a class-2 profile, direct channels 3 to 6. */
  lemma BadRangeHoldsMutex(p: Pool)
    requires |p.chans| == NUM_DATA && |p.hsi| == NUM_IPC && p.chans[0] == FREE_CHANNEL
    ensures var c := Config([2, 0, 0, 0, 0, 0], 3, 0, 4, true, NUM_DATA);
      && Sized(c, p) && !PassesChecks(c)
      && Acquire(c, p, 0).0.depth == p.depth + 1
      && Active(Acquire(c, p, 0).0, 0) && !Direct(Acquire(c, p, 0).0, 0)
  {
    assert FirstFree(p.chans, NUM_DATA) == 0;
  }

  /** A class-1 profile when its one slot is taken: the caller gets channel 1 and context ID 2,
      and the channel is free. */
  lemma FullSlotsGiveFreeChannel()
    ensures var c := Config([1, 0, 0, 0, 0, 0], 0, 1, 1, true, 2);
      var p := Pool([Some(Chan(1, true, 0, 0)), FREE_CHANNEL, None, None, None], [1, 0, 0, 0, 0], 0);
      && PoolOk(c, p) && PassesChecks(c)
      && Acquire(c, p, 0).1 == 1 && Acquire(c, p, 0).2 == 2
      && Acquire(c, p, 0).0 == p && IsFree(Acquire(c, p, 0).0.chans[1])
  {
    var c := Config([1, 0, 0, 0, 0, 0], 0, 1, 1, true, 2);
    var p := Pool([Some(Chan(1, true, 0, 0)), FREE_CHANNEL, None, None, None], [1, 0, 0, 0, 0], 0);
    var paths := c.paths;
    NoOnes(paths[1..]);
    assert CountOnes(paths) == 1;
    assert PoolOk(c, p);
    var rest := p.chans[1..];
    assert FirstFree(rest, 1) == 0 && FirstFree(p.chans, 2) == 1;
    assert SlotFor(c, p, 2, 1).slot == -1 by {
      SlotForFinds(c, p, 2, 1);
    }
  }

  /** Acquiring a channel and resetting it gives every slot back and frees the channel. */
  lemma ResetUndoesAcquire(c: Config, p: Pool, dataProfile: int)
    requires PoolOk(c, p) && c.hsiModem
    ensures var (p', k, _) := Acquire(c, p, dataProfile);
      k != NUM_DATA ==>
        && k < NUM_DATA && p'.chans[k].Some?
        && Reset(c, p', k).hsi == p.hsi
        && forall j :: 0 <= j < NUM_DATA ==> Active(Reset(c, p', k), j) == Active(p, j)
  {
    var (p', k, _) := Acquire(c, p, dataProfile);
    AcquireKeeps(c, p, dataProfile);
    AcquireOutcome(c, p, dataProfile);
    if k != NUM_DATA {
      FreeSlotIsExact(c, p', k);
      hide PoolOk, Acquire, FreeSlot;
      assert forall j :: 0 <= j < NUM_DATA && j != k ==> Reset(c, p', k).chans[j] == p.chans[j];
    }
  }

  // ---------------------------------------------------------------------------
  // Runs.

  datatype Action = Setup(dataProfile: int) | Teardown(k: nat)

  /** All channels free and all slots empty; the other fields are whatever memory held. */
  predicate Fresh(c: Config, p: Pool) {
    && Sized(c, p)
    && (forall k :: 0 <= k < NUM_DATA && p.chans[k].Some? ==> p.chans[k].value.cid == 0)
    && (forall s :: 0 <= s < NUM_IPC ==> p.hsi[s] == 0)
  }

  function Step(c: Config, p: Pool, a: Action): Pool
    requires Sized(c, p)
  {
    match a
    case Setup(dataProfile) => Acquire(c, p, dataProfile).0
    case Teardown(k) => if k < NUM_DATA && p.chans[k].Some? then Reset(c, p, k) else p
  }

  function Run(c: Config, p: Pool, acts: seq<Action>): (p': Pool)
    requires Sized(c, p)
    ensures Sized(c, p')
    decreases |acts|
  {
    if acts == [] then p else Run(c, Step(c, p, acts[0]), acts[1..])
  }

  lemma {:induction false} RunKeeps(c: Config, p: Pool, acts: seq<Action>)
    requires PoolOk(c, p) && c.hsiModem
    ensures PoolOk(c, Run(c, p, acts))
    decreases |acts|
  {
    if acts != [] {
      match acts[0] {
        case Setup(dataProfile) => AcquireKeeps(c, p, dataProfile);
        case Teardown(k) => if k < NUM_DATA && p.chans[k].Some? { ResetKeeps(c, p, k); }
      }
      RunKeeps(c, Step(c, p, acts[0]), acts[1..]);
    }
  }

  lemma FreshOk(c: Config, p: Pool)
    requires Fresh(c, p)
    ensures PoolOk(c, p)
  {
    hide ClassOf;
  }

  /** What ChanOk says of channel k, without the class bounds. */
  lemma ActiveFacts(c: Config, p: Pool, k: nat)
    requires PoolOk(c, p) && k < NUM_DATA && Active(p, k)
    ensures var ch := p.chans[k].value;
      ch.cid == k + 1 && (ch.hsiDirect ==> 0 <= ch.hsiChannel < NUM_IPC && p.hsi[ch.hsiChannel] == k + 1)
  {
    hide ClassOf, Low, High;
    assert ChanOk(c, p, k);
  }

  /** A slot in use has its owner, and only a slot in use has one. */
  lemma SlotOwner(c: Config, p: Pool, s: nat)
    requires PoolOk(c, p) && s < NUM_IPC
    ensures p.hsi[s] != 0 <==>
      exists k :: 0 <= k < NUM_DATA && Direct(p, k) && p.chans[k].value.hsiChannel == s
  {
    if p.hsi[s] != 0 {
      assert SlotOk(p, s);
      assert Direct(p, p.hsi[s] - 1);
    }
    forall k | 0 <= k < NUM_DATA && Direct(p, k) && p.chans[k].value.hsiChannel == s
      ensures p.hsi[s] != 0
    {
      ActiveFacts(c, p, k);
    }
  }

  /** The bounds of a direct channel's slot, in the numbers of the configuration. */
  lemma SlotInBounds(c: Config, p: Pool, k: nat)
    requires PoolOk(c, p) && k < NUM_DATA && Active(p, k)
    ensures var ch := p.chans[k].value;
      var path := Path(c, ch.profile);
      if ch.hsiDirect then
        || (path == 1 && c.ipcMin <= ch.hsiChannel < c.ipcMin + c.class1)
        || (path == 2 && c.ipcMin + c.class1 <= ch.hsiChannel < c.ipcMin + c.direct)
      else path != 1 && ch.hsiChannel == -1
  {
    assert ChanOk(c, p, k);
  }

  /** Class-1 slots lie below class-2 slots. */
  lemma ClassesDisjoint(c: Config, p: Pool, j: nat, k: nat)
    requires PoolOk(c, p) && j < NUM_DATA && k < NUM_DATA && Direct(p, j) && Direct(p, k)
    requires Path(c, p.chans[j].value.profile) == 1 && Path(c, p.chans[k].value.profile) == 2
    ensures p.chans[j].value.hsiChannel < p.chans[k].value.hsiChannel
  {
    hide Path, PoolOk;
    SlotInBounds(c, p, j);
    SlotInBounds(c, p, k);
  }

  /** In every run on an HSI modem: active channels have distinct context IDs; a slot is in
      use exactly if an active direct channel points at it, and holds that channel's ID; no two
      channels share a slot; a direct channel's slot lies from ipcMin up to ipcMin + class1 if its
      profile is on path 1, and from there up to ipcMin + direct if it is on path 2, and no other
      profile and every active channel of path 1 is direct; so every class-1 slot lies below every
      class-2 slot. */
  lemma ChannelTheorem(c: Config, p: Pool, acts: seq<Action>)
    requires Fresh(c, p) && c.hsiModem
    ensures var q := Run(c, p, acts);
      && (forall j, k :: 0 <= j < k < NUM_DATA && Active(q, j) && Active(q, k) ==> (
            q.chans[j].value.cid != q.chans[k].value.cid))
      && (forall s :: 0 <= s < NUM_IPC ==> (
            q.hsi[s] != 0 <==>
              exists k :: 0 <= k < NUM_DATA && Direct(q, k) && q.chans[k].value.hsiChannel == s))
      && (forall k :: 0 <= k < NUM_DATA && Direct(q, k) ==> (
            var s := q.chans[k].value.hsiChannel;
            0 <= s < NUM_IPC && q.hsi[s] == q.chans[k].value.cid))
      && (forall j, k :: 0 <= j < k < NUM_DATA && Direct(q, j) && Direct(q, k) ==> (
            q.chans[j].value.hsiChannel != q.chans[k].value.hsiChannel))
      && (forall j, k | 0 <= j < NUM_DATA && 0 <= k < NUM_DATA && Direct(q, j) && Direct(q, k)
            && Path(c, q.chans[j].value.profile) == 1 && Path(c, q.chans[k].value.profile) == 2 ::
            q.chans[j].value.hsiChannel < q.chans[k].value.hsiChannel)
      && (forall k :: 0 <= k < NUM_DATA && Active(q, k) ==> (
            var ch := q.chans[k].value;
            var path := Path(c, ch.profile);
            if ch.hsiDirect then
              || (path == 1 && c.ipcMin <= ch.hsiChannel < c.ipcMin + c.class1)
              || (path == 2 && c.ipcMin + c.class1 <= ch.hsiChannel < c.ipcMin + c.direct)
            else path != 1 && ch.hsiChannel == -1))
  {
    FreshOk(c, p);
    RunKeeps(c, p, acts);
    var q := Run(c, p, acts);
    hide Run, PoolOk, Path;
    forall k | 0 <= k < NUM_DATA && Active(q, k)
      ensures var ch := q.chans[k].value;
        var path := Path(c, ch.profile);
        if ch.hsiDirect then
          || (path == 1 && c.ipcMin <= ch.hsiChannel < c.ipcMin + c.class1)
          || (path == 2 && c.ipcMin + c.class1 <= ch.hsiChannel < c.ipcMin + c.direct)
        else path != 1 && ch.hsiChannel == -1
    {
      SlotInBounds(c, q, k);
    }
    forall k | 0 <= k < NUM_DATA && Active(q, k)
      ensures var ch := q.chans[k].value;
        ch.cid == k + 1 && (ch.hsiDirect ==> 0 <= ch.hsiChannel < NUM_IPC && q.hsi[ch.hsiChannel] == k + 1)
    {
      ActiveFacts(c, q, k);
    }
    forall s | 0 <= s < NUM_IPC
      ensures q.hsi[s] != 0 <==>
        exists k :: 0 <= k < NUM_DATA && Direct(q, k) && q.chans[k].value.hsiChannel == s
    {
      SlotOwner(c, q, s);
    }
    forall j, k | 0 <= j < NUM_DATA && 0 <= k < NUM_DATA && Direct(q, j) && Direct(q, k)
            && Path(c, q.chans[j].value.profile) == 1 && Path(c, q.chans[k].value.profile) == 2
      ensures q.chans[j].value.hsiChannel < q.chans[k].value.hsiChannel
    {
      ClassesDisjoint(c, q, j, k);
    }
  }
}
