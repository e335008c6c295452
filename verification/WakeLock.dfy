// The counted wake lock of libril (version 13 and later release it by client
// acknowledgements, error paths and a cancellable 200 ms timer).
module WakeLock {
  import opened Options
  import opened TimerQueue
  import opened TimerRun

  const WAKE_TIMEOUT := 200000  // microseconds

  /** The globals: s_wakelock_count, whether the system wake lock is held,
      s_last_wake_timeout_info, and the outstanding wake timers with their
      cancellation mark (userParam != NULL).  Timers are named by address. */
  datatype Wake = Wake(version: int, count: nat, held: bool, last: Option<nat>, live: map<nat, bool>)

  function Cancel(w: Wake): Wake
    requires w.last.Some? ==> w.last.value in w.live
  {
    if w.last.Some? then w.(live := w.live[w.last.value := true]) else w
  }

  predicate NoDangling(w: Wake) {
    w.last.Some? ==> w.last.value in w.live
  }

  /** grabPartialWakeLock; info is the new timer, None when its allocation failed. */
  function Grab(w: Wake, info: Option<nat>): Wake
    requires NoDangling(w)
  {
    if w.version < 13 then w.(held := true)
    else if info.None? then w.(held := false)
    else
      var c := Cancel(w);
      c.(held := true, count := w.count + 1, last := info, live := c.live[info.value := false])
  }

  /** The end of RIL_onUnsolicitedResponse before version 13: a new timer takes the place of the
      last one, which is cancelled. */
  function Replace(w: Wake, info: nat): Wake
    requires NoDangling(w)
  {
    var c := Cancel(w);
    c.(last := Some(info), live := c.live[info := false])
  }

  /** releaseWakeLock */
  function Release(w: Wake): Wake
    requires NoDangling(w)
  {
    if w.version < 13 then w.(held := false)
    else if w.count > 1 then w.(count := w.count - 1)
    else Cancel(w).(count := 0, held := false)
  }

  /** wakeTimeoutCallback with the parameter read as given, then the tail of userTimerCallback. */
  function Callback(w: Wake, info: nat, cancelled: bool): Wake
    requires NoDangling(w)
  {
    var c :=
      if cancelled then w
      else if w.version < 13 then w.(held := false)
      else w.(count := 0, held := false);
    c.(last := if w.last == Some(info) then None else w.last, live := c.live - {info})
  }

  // ---------------------------------------------------------------------------
  // The globals as they are updated in place.

  class UserCallbackInfo {
    const addr: nat
    var cancelled: bool

    constructor (addr: nat)
      ensures this.addr == addr && !cancelled
    {
      this.addr, cancelled := addr, false;
    }
  }

  class RilWakeLock {
    const version: int
    var count: nat
    var held: bool
    var last: UserCallbackInfo?
    ghost var infos: map<nat, UserCallbackInfo>  // the allocated timers, by address

    ghost predicate Valid()
      reads this, infos.Values
    {
      && (forall a :: a in infos ==> infos[a].addr == a)
      && (last != null ==> last.addr in infos && infos[last.addr] == last)
    }

    /** The allocated timers and their marks. */
    ghost function Live(): map<nat, bool>
      reads `infos, infos.Values
    {
      map a | a in infos :: infos[a].cancelled
    }

    lemma LiveIs(m: map<nat, bool>)
      requires m.Keys == infos.Keys && forall a :: a in infos ==> m[a] == infos[a].cancelled
      ensures Live() == m
    {
    }

    ghost function Abs(): Wake
      requires Valid()
      reads this, infos.Values
    {
      Wake(version, count, held, if last == null then None else Some(last.addr), Live())
    }

    constructor (version: int)
      ensures Valid() && Abs() == Wake(version, 0, false, None, map[])
    {
      this.version, count, held, last, infos := version, 0, false, null, map[];
    }

    /** addr is what the allocator returns, None on failure; it never returns a live address. */
    method GrabPartialWakeLock(addr: Option<nat>)
      requires Valid() && (addr.Some? ==> addr.value !in infos)
      modifies this, infos.Values
      ensures Valid() && Abs() == Grab(old(Abs()), addr)
    {
      ghost var w := Abs();
      if version >= 13 {
        held := true;
        if addr.None? {
          held := false;
        } else {
          var info := new UserCallbackInfo(addr.value);
          count := count + 1;
          if last != null {
            last.cancelled := true;
          }
          last := info;
          infos := infos[addr.value := info];
        }
      } else {
        held := true;
      }
      LiveIs(Grab(w, addr).live);
    }

    method ReleaseWakeLock()
      requires Valid()
      modifies this, infos.Values
      ensures Valid() && Abs() == Release(old(Abs())) && infos == old(infos)
    {
      ghost var w := Abs();
      if version >= 13 {
        if count > 1 {
          count := count - 1;
        } else {
          count := 0;
          held := false;
          if last != null {
            last.cancelled := true;
          }
        }
      } else {
        held := false;
      }
      LiveIs(Release(w).live);
    }

    /** userTimerCallback: the parameter is read, the callback runs, the timer is freed. */
    method UserTimerCallback(info: UserCallbackInfo)
      requires Valid() && info.addr in infos && infos[info.addr] == info
      modifies this, infos.Values
      ensures Valid() && Abs() == Callback(old(Abs()), info.addr, old(info.cancelled))
      ensures info.addr !in infos
    {
      ghost var w := Abs();
      var param := info.cancelled;
      if version >= 13 {
        if !param {
          count := 0;
          held := false;
        }
      } else {
        if !param {
          ReleaseWakeLock();
        }
      }
      if last != null && last == info {
        last := null;
      }
      infos := infos - {info.addr};
      LiveIs(Callback(w, info.addr, param).live);
    }
  }

  // ---------------------------------------------------------------------------
  // What every step keeps.

  /** The count is positive exactly while the last timer is live and not cancelled, all
      other timers are cancelled, and the lock is never held on a zero count. */
  predicate Guarded(w: Wake) {
    && w.version >= 13 && NoDangling(w)
    && (forall a :: a in w.live && w.last != Some(a) ==> w.live[a])
    && (w.count > 0 <==> w.last.Some? && !w.live[w.last.value])
    && (w.held ==> w.count > 0)
  }

  lemma GrabGuarded(w: Wake, info: Option<nat>)
    requires Guarded(w) && (info.Some? ==> info.value !in w.live)
    ensures Guarded(Grab(w, info))
  {
  }

  lemma ReleaseGuarded(w: Wake)
    requires Guarded(w)
    ensures Guarded(Release(w))
  {
  }

  lemma CallbackGuarded(w: Wake, info: nat)
    requires Guarded(w) && info in w.live
    ensures Guarded(Callback(w, info, w.live[info]))
  {
  }

  /** The parameter is read before the mutex is taken.  When a callback acts on a
      parameter it read as uncancelled earlier, the guard survives exactly if no other
      timer has become the one that answers for the count. */
  lemma LateCallback(w: Wake, info: nat)
    requires Guarded(w) && info in w.live
    ensures Guarded(Callback(w, info, false)) <==> w.count == 0 || w.last == Some(info)
  {
    var c := Callback(w, info, false);
    if w.count > 0 && w.last != Some(info) {
      assert c.last == w.last && c.count == 0 && !c.live[c.last.value];
    }
  }

  /** A run where this goes wrong: a fresh grab loses its lock to the previous timer. */
  lemma LateCallbackLosesGrab()
    ensures var w := Wake(13, 0, false, None, map[]);
      var read := Grab(w, Some(1));                   // timer 1 expires; its parameter is read here
      var late := Grab(read, Some(2));                // another thread grabs
      var end := Callback(late, 1, read.live[1]);     // then the callback takes the mutex
      late.held && late.count == 2 && !end.held && end.count == 0 && !end.live[2]
  {
  }
}
