// Whole runs of the wake-lock protocol, with the wake timers kept in the event loop's timer
// list: counted from version 13 on, and before that a lock without a count.
module WakeRun {
  import opened Options
  import opened TimerQueue
  import opened TimerRun
  import opened WakeLock

  datatype WakeAction =
    | GrabLock(addr: nat, now: int)  // a successful grabPartialWakeLock
    | GrabStarved                    // its timer could not be allocated
    | GrabOld                        // grabPartialWakeLock before version 13
    | ScheduleOld(addr: nat, now: int)  // before version 13 an unsolicited response sets the timer
    | ReleaseLock                    // an acknowledgement or an error path
    | ScanTimers(now: int)           // processTimeouts
    | CallTimer                      // userTimerCallback for the first pending timer

  datatype System = System(
    w: Wake, timers: seq<Timer>, pending: seq<Timer>, clock: int,
    scanned: Option<int>,       // clock of the last scan
    lastGrab: int,              // clock of the last successful grab
    starved: bool,              // a grab failed after the last successful one
    grabs: nat, releases: nat,
    overAcked: bool,            // a release once outnumbered the grabs
    timedOut: bool,             // a timer that was not cancelled was called
    raised: bool)               // the last call that touched the lock was a grab

  function Boot(version: int, clock: int): System {
    System(Wake(version, 0, false, None, map[]), [], [], clock, None, clock, false, 0, 0, false, false, false)
  }

  predicate CanDo(s: System, a: WakeAction) {
    match a
    case GrabLock(addr, now) => s.w.version >= 13 && s.clock <= now && addr !in s.w.live && NoDangling(s.w)
    case GrabStarved => s.w.version >= 13 && NoDangling(s.w)
    case GrabOld => s.w.version < 13 && NoDangling(s.w)
    case ScheduleOld(addr, now) => s.w.version < 13 && s.clock <= now && addr !in s.w.live && NoDangling(s.w)
    case ReleaseLock => NoDangling(s.w)
    case ScanTimers(now) => s.clock <= now && s.pending == []
    case CallTimer => s.pending != [] && s.pending[0].id in s.w.live && NoDangling(s.w)
  }

  function Do(s: System, a: WakeAction): System
    requires CanDo(s, a)
  {
    match a
    case GrabLock(addr, now) =>
      s.(w := Grab(s.w, Some(addr)), timers := Insert(s.timers, Timer(addr, now + WAKE_TIMEOUT)),
         clock := now, lastGrab := now, starved := false, grabs := s.grabs + 1)
    case GrabStarved => s.(w := Grab(s.w, None), starved := true)
    case GrabOld => s.(w := Grab(s.w, None), raised := true)
    case ScheduleOld(addr, now) =>
      s.(w := Replace(s.w, addr), timers := Insert(s.timers, Timer(addr, now + WAKE_TIMEOUT)),
         clock := now, lastGrab := now)
    case ReleaseLock =>
      s.(w := Release(s.w), releases := s.releases + 1, raised := false,
         overAcked := s.overAcked || s.releases >= s.grabs)
    case ScanTimers(now) =>
      s.(timers := Live(s.timers, now), pending := Expired(s.timers, now),
         clock := now, scanned := Some(now))
    case CallTimer =>
      var addr := s.pending[0].id;
      s.(w := Callback(s.w, addr, s.w.live[addr]), pending := s.pending[1..],
         timedOut := s.timedOut || !s.w.live[addr], raised := s.raised && s.w.live[addr])
  }

  predicate CanRun(s: System, acts: seq<WakeAction>)
    decreases |acts|
  {
    acts == [] || (CanDo(s, acts[0]) && CanRun(Do(s, acts[0]), acts[1..]))
  }

  function RunAll(s: System, acts: seq<WakeAction>): System
    requires CanRun(s, acts)
    decreases |acts|
  {
    if acts == [] then s else RunAll(Do(s, acts[0]), acts[1..])
  }

  /** The outstanding timers are those in the event loop, each once. */
  predicate Backed(s: System) {
    multiset(Ids(s.timers)) + multiset(Ids(s.pending)) == multiset(s.w.live.Keys)
  }

  /** The last timer runs out 200 ms after the last grab, and no scan has passed it by. */
  predicate Dated(s: System) {
    && s.lastGrab <= s.clock && (s.scanned.Some? ==> s.scanned.value <= s.clock)
    && (forall t :: t in s.timers && s.scanned.Some? ==> s.scanned.value <= t.due)
    && (forall t :: t in s.timers && s.w.last == Some(t.id) ==> t.due == s.lastGrab + WAKE_TIMEOUT)
    && (forall t :: t in s.pending && s.w.last == Some(t.id) ==> t.due == s.lastGrab + WAKE_TIMEOUT)
  }

  predicate Counted(s: System) {
    && (s.w.held <==> s.w.count > 0 && !s.starved)
    && (!s.overAcked ==> s.w.count + s.releases <= s.grabs)
    && (!s.overAcked && !s.timedOut ==> s.w.count + s.releases == s.grabs)
  }

  predicate WakeInv(s: System) {
    Guarded(s.w) && Backed(s) && Dated(s) && Counted(s)
  }

  lemma LiveIds(s: System)
    requires Backed(s)
    ensures forall t :: t in s.timers || t in s.pending ==> t.id in s.w.live
    ensures forall a :: a in s.w.live ==> a in Ids(s.timers) || a in Ids(s.pending)
  {
    forall t | t in s.timers || t in s.pending ensures t.id in s.w.live {
      assert t.id in Ids(s.timers) || t.id in Ids(s.pending) by {
        if t in s.timers {
          var i :| 0 <= i < |s.timers| && s.timers[i] == t;
          assert Ids(s.timers)[i] == t.id;
        } else {
          var i :| 0 <= i < |s.pending| && s.pending[i] == t;
          assert Ids(s.pending)[i] == t.id;
        }
      }
      assert t.id in multiset(Ids(s.timers)) + multiset(Ids(s.pending));
    }
    forall a | a in s.w.live ensures a in Ids(s.timers) || a in Ids(s.pending) {
      assert a in multiset(s.w.live.Keys);
    }
  }

  lemma GrabKeeps(s: System, a: WakeAction)
    requires a.GrabLock? && CanDo(s, a) && WakeInv(s)
    ensures WakeInv(Do(s, a))
  {
    hide Insert;
    var s' := Do(s, a);
    var t := Timer(a.addr, a.now + WAKE_TIMEOUT);
    GrabGuarded(s.w, Some(a.addr));
    InsertMembers(s.timers, t);
    LiveIds(s);
    NewTimerBacked(s, s', t);
    hide Backed;
  }

  lemma NewTimerBacked(s: System, s': System, t: Timer)
    requires Backed(s) && t.id !in s.w.live && s'.w.live.Keys == s.w.live.Keys + {t.id}
    requires s'.timers == Insert(s.timers, t) && s'.pending == s.pending
    ensures Backed(s')
  {
    hide Insert;
    IdsOfInsert(s.timers, t);
    assert multiset(s'.w.live.Keys) == multiset(s.w.live.Keys) + multiset{t.id};
  }

  lemma ReleaseKeeps(s: System, a: WakeAction)
    requires (a.ReleaseLock? || a.GrabStarved?) && CanDo(s, a) && WakeInv(s)
    ensures WakeInv(Do(s, a))
  {
    var s' := Do(s, a);
    ReleaseGuarded(s.w);
    GrabGuarded(s.w, None);
    assert s'.w.live.Keys == s.w.live.Keys;
  }

  lemma ScanKeeps(s: System, a: WakeAction)
    requires a.ScanTimers? && CanDo(s, a) && WakeInv(s)
    ensures WakeInv(Do(s, a))
  {
    hide Expired, Live;
    ExpirySplits(s.timers, a.now);
    IdsOfExpiry(s.timers, a.now);
    assert Ids(s.pending) == [];
  }

  lemma CallKeeps(s: System, a: WakeAction)
    requires a.CallTimer? && CanDo(s, a) && WakeInv(s)
    ensures WakeInv(Do(s, a))
  {
    CallbackGuarded(s.w, s.pending[0].id);
    CallKeepsBacked(s, a);
    hide Backed;
  }

  lemma CallKeepsBacked(s: System, a: WakeAction)
    requires a.CallTimer? && CanDo(s, a) && Backed(s)
    ensures Backed(Do(s, a))
  {
    var s' := Do(s, a);
    var addr := s.pending[0].id;
    assert s.pending == [s.pending[0]] + s'.pending;
    IdsJoin([s.pending[0]], s'.pending);
    assert Ids([s.pending[0]]) == [addr];
    assert s'.w.live.Keys == s.w.live.Keys - {addr};
    assert multiset(s'.w.live.Keys) == multiset(s.w.live.Keys) - multiset{addr};
    assert multiset(Ids(s'.pending)) == multiset(Ids(s.pending)) - multiset{addr};
  }

  lemma {:induction false} RunAllKeeps(s: System, acts: seq<WakeAction>)
    requires WakeInv(s) && CanRun(s, acts)
    ensures WakeInv(RunAll(s, acts))
    decreases |acts|
  {
    hide Backed, Dated, Counted, Do;
    if acts != [] {
      var a := acts[0];
      if a.GrabLock? {
        GrabKeeps(s, a);
      } else if a.GrabStarved? || a.ReleaseLock? {
        ReleaseKeeps(s, a);
      } else if a.ScanTimers? {
        ScanKeeps(s, a);
      } else {
        CallKeeps(s, a);
      }
      RunAllKeeps(Do(s, a), acts[1..]);
    }
  }

  /** In every run: the lock is held exactly while the count is positive and no grab has
      been starved of its timer since the last good one; the count is positive exactly
      while the last timer is outstanding and not cancelled; every other outstanding timer
      is cancelled; and while nobody over-acknowledges, the count is at most grabs minus
      releases.  While besides no timer has run out uncancelled, the count is exactly that, so
      the lock is held exactly while grabs outnumber releases and no starved grab came since. */
  lemma LockTheorem(version: int, clock: int, acts: seq<WakeAction>)
    requires version >= 13 && CanRun(Boot(version, clock), acts)
    ensures var s := RunAll(Boot(version, clock), acts);
      && (s.w.held <==> s.w.count > 0 && !s.starved)
      && (s.w.count > 0 <==>
            s.w.last.Some? && s.w.last.value in s.w.live && !s.w.live[s.w.last.value])
      && (forall a :: a in s.w.live && s.w.last != Some(a) ==> s.w.live[a])
      && (!s.overAcked ==> s.w.count <= s.grabs - s.releases)
      && (!s.overAcked && !s.timedOut ==>
            s.w.count == s.grabs - s.releases && (s.w.held <==> s.grabs > s.releases && !s.starved))
  {
    assert Backed(Boot(version, clock)) by { NoIds(); }
    RunAllKeeps(Boot(version, clock), acts);
  }

  /** The lock never outlives the last grab by more than the timeout and one turn of the
      loop: once a scan past that moment has been drained, it is not held. */
  lemma LockIsBounded(version: int, clock: int, acts: seq<WakeAction>)
    requires version >= 13 && CanRun(Boot(version, clock), acts)
    ensures var s := RunAll(Boot(version, clock), acts);
      s.pending == [] && s.scanned.Some? && s.lastGrab + 200000 < s.scanned.value ==> !s.w.held
  {
    assert Backed(Boot(version, clock)) by { NoIds(); }
    RunAllKeeps(Boot(version, clock), acts);
    var s := RunAll(Boot(version, clock), acts);
    if s.pending == [] && s.w.held {
      LiveIds(s);
      assert Ids(s.pending) == [];
      var i :| 0 <= i < |s.timers| && s.timers[i].id == s.w.last.value;
      assert s.timers[i] in s.timers;
    }
  }

  /** Every callback the loop makes finds its timer outstanding: nothing is freed twice. */
  lemma PendingTimersAreLive(version: int, clock: int, acts: seq<WakeAction>)
    requires version >= 13 && CanRun(Boot(version, clock), acts)
    ensures var s := RunAll(Boot(version, clock), acts);
      && NoDangling(s.w)
      && (forall t :: t in s.pending ==> t.id in s.w.live)
      && (forall i, j :: 0 <= i < j < |s.pending| ==> s.pending[i].id != s.pending[j].id)
  {
    assert Backed(Boot(version, clock)) by { NoIds(); }
    RunAllKeeps(Boot(version, clock), acts);
    var s := RunAll(Boot(version, clock), acts);
    LiveIds(s);
    NoRepeats(Ids(s.pending), s.w.live.Keys);
    forall i, j | 0 <= i < j < |s.pending| ensures s.pending[i].id != s.pending[j].id {
      assert Ids(s.pending)[i] != Ids(s.pending)[j];
    }
  }

  // ---------------------------------------------------------------------------
  // From any moment on.

  function Grabs(acts: seq<WakeAction>): nat {
    if acts == [] then 0 else (if acts[0].GrabLock? then 1 else 0) + Grabs(acts[1..])
  }

  function Releases(acts: seq<WakeAction>): nat {
    if acts == [] then 0 else (if acts[0].ReleaseLock? then 1 else 0) + Releases(acts[1..])
  }

  /** No timer runs out uncancelled, and a release always finds a positive balance. */
  predicate Calm(s: System, acts: seq<WakeAction>, balance: int)
    requires CanRun(s, acts)
    decreases |acts|
  {
    acts == [] ||
    match acts[0]
    case ReleaseLock => balance > 0 && Calm(Do(s, acts[0]), acts[1..], balance - 1)
    case GrabLock(_, _) => Calm(Do(s, acts[0]), acts[1..], balance + 1)
    case CallTimer => s.w.live[s.pending[0].id] && Calm(Do(s, acts[0]), acts[1..], balance)
    case _ => Calm(Do(s, acts[0]), acts[1..], balance)
  }

  lemma {:induction false} CalmCount(s: System, acts: seq<WakeAction>)
    requires s.w.version >= 13 && CanRun(s, acts) && Calm(s, acts, s.w.count)
    ensures RunAll(s, acts).w.count == s.w.count + Grabs(acts) - Releases(acts)
    decreases |acts|
  {
    if acts != [] {
      CountMoves(s, acts[0]);
      hide Do, CanDo;
      CalmCount(Do(s, acts[0]), acts[1..]);
    }
  }

  lemma CountMoves(s: System, a: WakeAction)
    requires s.w.version >= 13 && CanDo(s, a) && (a.ReleaseLock? ==> s.w.count > 0)
    requires a.CallTimer? ==> s.w.live[s.pending[0].id]
    ensures Do(s, a).w.version == s.w.version
    ensures Do(s, a).w.count == s.w.count + (if a.GrabLock? then 1 else if a.ReleaseLock? then -1 else 0)
  {
    hide Insert, Live, Expired;
  }

  /** From any moment of any run, as long as it goes on calmly, the count moves by the grabs
      and releases made, one each. */
  lemma BalanceTheorem(version: int, clock: int, before: seq<WakeAction>, acts: seq<WakeAction>)
    requires version >= 13 && CanRun(Boot(version, clock), before)
    requires var s := RunAll(Boot(version, clock), before); CanRun(s, acts) && Calm(s, acts, s.w.count)
    ensures var s := RunAll(Boot(version, clock), before);
      var s' := RunAll(s, acts);
      && s'.w.count == s.w.count + Grabs(acts) - Releases(acts)
      && (s'.w.held <==> s'.w.count > 0 && !s'.starved)
  {
    assert Backed(Boot(version, clock)) by { NoIds(); }
    RunAllKeeps(Boot(version, clock), before);
    var s := RunAll(Boot(version, clock), before);
    CalmCount(s, acts);
    RunAllKeeps(s, acts);
  }

  /** What ends the calm leaves no count: a timer that runs out, and a release that finds none. */
  lemma CountEnds(s: System, a: WakeAction)
    requires CanDo(s, a) && s.w.version >= 13
    requires (a.CallTimer? && !s.w.live[s.pending[0].id]) || (a.ReleaseLock? && s.w.count == 0)
    ensures Do(s, a).w.count == 0 && !Do(s, a).w.held
  {
  }

  // ---------------------------------------------------------------------------
  // Before version 13.

  predicate OldInv(s: System) {
    && s.w.version < 13 && NoDangling(s.w) && Backed(s) && Dated(s)
    && (forall a :: a in s.w.live && s.w.last != Some(a) ==> s.w.live[a])
    && (s.w.held <==> s.raised) && s.w.count == 0
  }

  lemma ScheduleKeeps(s: System, a: WakeAction)
    requires a.ScheduleOld? && CanDo(s, a) && OldInv(s)
    ensures OldInv(Do(s, a))
  {
    hide Insert;
    var s' := Do(s, a);
    var t := Timer(a.addr, a.now + WAKE_TIMEOUT);
    InsertMembers(s.timers, t);
    LiveIds(s);
    NewTimerBacked(s, s', t);
    hide Backed;
  }

  lemma OldScanKeeps(s: System, a: WakeAction)
    requires a.ScanTimers? && CanDo(s, a) && OldInv(s)
    ensures OldInv(Do(s, a))
  {
    hide Expired, Live;
    ExpirySplits(s.timers, a.now);
    IdsOfExpiry(s.timers, a.now);
    assert Ids(s.pending) == [];
  }

  lemma OldCallKeeps(s: System, a: WakeAction)
    requires a.CallTimer? && CanDo(s, a) && OldInv(s)
    ensures OldInv(Do(s, a))
  {
    CallKeepsBacked(s, a);
    hide Backed;
  }

  lemma {:induction false} OldRunKeeps(s: System, acts: seq<WakeAction>)
    requires OldInv(s) && CanRun(s, acts)
    ensures OldInv(RunAll(s, acts))
    decreases |acts|
  {
    if acts != [] {
      var a := acts[0];
      match a {
        case ScheduleOld(_, _) => ScheduleKeeps(s, a);
        case ScanTimers(_) => OldScanKeeps(s, a);
        case CallTimer => OldCallKeeps(s, a);
        case _ =>
      }
      hide OldInv;
      OldRunKeeps(Do(s, a), acts[1..]);
    }
  }

  /** Before version 13 the lock is held exactly if the last of the grabs, the releases and the
      timers that ran out uncancelled was a grab; only the timer set last is not cancelled; and
      once a scan more than 200 ms after it was set is drained it has run out. */
  lemma OldLockTheorem(version: int, clock: int, acts: seq<WakeAction>)
    requires version < 13 && CanRun(Boot(version, clock), acts)
    ensures var s := RunAll(Boot(version, clock), acts);
      && (s.w.held <==> s.raised)
      && (forall a :: a in s.w.live && s.w.last != Some(a) ==> s.w.live[a])
      && (s.pending == [] && s.scanned.Some? && s.lastGrab + 200000 < s.scanned.value ==> s.w.last.None?)
  {
    assert Backed(Boot(version, clock)) by { NoIds(); }
    OldRunKeeps(Boot(version, clock), acts);
    var s := RunAll(Boot(version, clock), acts);
    if s.pending == [] && s.w.last.Some? {
      LiveIds(s);
      assert Ids(s.pending) == [];
      var i :| 0 <= i < |s.timers| && s.timers[i].id == s.w.last.value;
      assert s.timers[i] in s.timers;
    }
  }
}
