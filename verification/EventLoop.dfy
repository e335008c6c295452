// ril_event.cpp: the timer list, the pending list, the watch table with its
// cached fd set and nfds, and one turn of the loop over them.
module EventLoop {
  import opened Options
  import opened TimeVal
  import opened TimerQueue
  import opened EventLists

  const MAX_FD_EVENTS := 8

  function Max(a: int, b: int): int {
    if a < b then b else a
  }

  /** v lists the timers that the events of q stand for. */
  ghost predicate Shows(q: seq<Event>, v: seq<Timer>)
    reads q`timeout
  {
    && |q| == |v|
    && (forall i {:trigger v[i]} {:trigger q[i]} :: 0 <= i < |q| ==>
          Normal(q[i].timeout) && v[i] == Timer(q[i].param, Micros(q[i].timeout)))
  }

  lemma ShowsInserted(q: seq<Event>, v: seq<Timer>, e: Event, k: nat)
    requires Shows(q, v) && Normal(e.timeout) && k == Slot(v, Micros(e.timeout))
    ensures Shows(q[..k] + [e] + q[k..], Insert(v, Timer(e.param, Micros(e.timeout))))
  {
  }

  lemma WithoutFirst(q: seq<Event>)
    requires q != []
    ensures q[..0] + q[0 + 1..] == q[1..]
    ensures forall i :: 0 <= i < |q[1..]| ==> q[1..][i] in q
  {
  }

  lemma StillKnown(q: seq<Event>, e: Event, k: nat, events: set<Event>)
    requires k <= |q| && e in events && forall i :: 0 <= i < |q| ==> q[i] in events
    ensures var r := q[..k] + [e] + q[k..]; forall i :: 0 <= i < |r| ==> r[i] in events
  {
  }

  lemma PrefixShows(q: seq<Event>, v: seq<Timer>, k: nat)
    requires Shows(q, v) && k <= |q|
    ensures k <= |v| && Shows(q[..k], v[..k])
  {
  }

  /** The scan meets the next slot. */
  lemma ReadyStep(table: seq<Event?>, fds: seq<int>, rfds: set<int>, i: nat)
    requires |table| == |fds| && i < |table|
    ensures Ready(table[..i + 1], fds[..i + 1], rfds) ==
      Ready(table[..i], fds[..i], rfds) + if IsReady(table[i], fds[i], rfds) then [table[i]] else []
  {
    assert table[..i + 1][..i] == table[..i] && fds[..i + 1][..i] == fds[..i];
  }

  /** What the scan has found when it stops: all it was asked for, or all there is. */
  lemma ReadyAtEnd(table: seq<Event?>, fds: seq<int>, rfds: set<int>, i: nat, n0: int)
    requires |table| == |fds| && i <= |table|
    requires var found := |Ready(table[..i], fds[..i], rfds)|;
      (n0 <= 0 ==> i == 0) && (n0 > 0 ==> found <= n0 && (found == n0 || i == |table|))
    ensures Ready(table[..i], fds[..i], rfds) == FirstN(Ready(table, fds, rfds), n0)
    ensures |Ready(table, fds, rfds)| <= n0 ==> forall j :: i <= j < |table| ==> !IsReady(table[j], fds[j], rfds)
    ensures |Ready([], [], rfds)| == 0
  {
    hide IsReady;
    ReadyPrefix(table, fds, rfds, i);
    assert i == |table| ==> table[..i] == table && fds[..i] == fds;
    FirstOf(Ready(table[..i], fds[..i], rfds), Ready(table, fds, rfds), n0);
  }

  lemma TailShows(q: seq<Event>, v: seq<Timer>)
    requires Shows(q, v) && Sorted(v) && q != []
    ensures |q| == |v| && Shows(q[1..], v[1..]) && Sorted(v[1..])
  {
    SortedRest(v);
  }

  /** The select arguments describe the watched fds: fds[i] is the fd in slot i, -1 if empty. */
  ghost predicate CacheOk(fds: seq<int>, readFds: set<int>, nfds: int) {
    && |fds| == MAX_FD_EVENTS
    && (forall i :: 0 <= i < |fds| ==> fds[i] == -1 || (0 <= fds[i] < nfds && fds[i] in readFds))
    && (forall i, j :: 0 <= i < j < |fds| && fds[i] == fds[j] ==> fds[i] == -1)
    && (forall f :: f in readFds ==> 0 <= f && f in fds)
    && (if readFds == {} then 0 <= nfds <= 1 else nfds - 1 in readFds)
  }

  /** An added watch keeps the select arguments right exactly if its fd was not watched. */
  lemma CacheAdd(fds: seq<int>, readFds: set<int>, nfds: int, i: nat, fd: int)
    requires CacheOk(fds, readFds, nfds) && i < |fds| && fds[i] == -1 && 0 <= fd
    ensures CacheOk(fds[i := fd], readFds + {fd}, if fd >= nfds then fd + 1 else nfds) <==> fd !in fds
  {
    var r := fds[i := fd];
    assert r[i] == fd;
    if k: nat :| k < |fds| && fds[k] == fd {
      assert r[k] == r[i];
    } else {
      NewFd(fds, readFds, nfds, i, fd);
    }
  }

  lemma NewFd(fds: seq<int>, readFds: set<int>, nfds: int, i: nat, fd: int)
    requires CacheOk(fds, readFds, nfds) && i < |fds| && fds[i] == -1 && 0 <= fd && fd !in fds
    ensures CacheOk(fds[i := fd], readFds + {fd}, if fd >= nfds then fd + 1 else nfds)
  {
    var r := fds[i := fd];
    assert forall j :: 0 <= j < |fds| ==> fds[j] in fds;
    assert forall j :: 0 <= j < |r| && j != i ==> r[j] == fds[j] != fd;
    assert r[i] == fd;
    forall f | f in readFds ensures f in r {
      var j :| 0 <= j < |fds| && fds[j] == f;
      assert r[j] == f;
    }
  }

  /** With two watches of one fd, deleting one stops select from seeing the other. */
  lemma SecondWatchIsLost(fds: seq<int>, readFds: set<int>, nfds: int, i: nat, k: nat)
    requires i < |fds| && k < |fds| && i != k && fds[i] == fds[k] != -1
    ensures fds[i := -1][k] == fds[i] && fds[i] !in readFds - {fds[i]}
    ensures !CacheOk(fds[i := -1], readFds - {fds[i]}, nfds)
  {
    assert fds[i := -1][k] == fds[i];
  }

  /** n is the nfds that the scan of removeWatch leaves behind. */
  ghost predicate Highest(fds: seq<int>, n: int) {
    0 <= n && (n == 0 || n in fds) && forall i :: 0 <= i < |fds| ==> fds[i] <= n
  }

  /** Without slot i the table and the fd set still describe each other. */
  lemma SlotRemoved(fds: seq<int>, readFds: set<int>, nfds: int, i: nat)
    requires CacheOk(fds, readFds, nfds) && i < |fds| && fds[i] != -1
    ensures nfds - 1 in readFds
    ensures var r, rest := fds[i := -1], readFds - {fds[i]};
      && (forall j :: 0 <= j < |r| ==> r[j] == -1 || (0 <= r[j] < nfds && r[j] in rest))
      && (forall j, k :: 0 <= j < k < |r| && r[j] == r[k] ==> r[j] == -1)
      && (forall f :: f in rest ==> 0 <= f && f in r)
  {
    var r, fd := fds[i := -1], fds[i];
    assert fd in readFds;
    assert forall j :: 0 <= j < |r| && j != i ==> r[j] == fds[j];
    forall f | f in readFds - {fd} ensures f in r {
      var j :| 0 <= j < |fds| && fds[j] == f;
      assert r[j] == f;
    }
  }

  lemma SomeMember<T>(s: set<T>) returns (f: T)
    requires s != {}
    ensures f in s
  {
    f :| f in s;
  }

  /** The largest fd left, if any is left. */
  lemma HighestIsLast(r: seq<int>, rest: set<int>, m: int)
    requires Highest(r, m)
    requires forall j :: 0 <= j < |r| ==> r[j] == -1 || (0 <= r[j] && r[j] in rest)
    requires forall f :: f in rest ==> 0 <= f && f in r
    ensures if rest == {} then m == 0 else m in rest
  {
    if m > 0 {
      var j :| 0 <= j < |r| && r[j] == m;
    } else if rest != {} {
      var f := SomeMember(rest);
      var j :| 0 <= j < |r| && r[j] == f;
      assert f == m;
    }
  }

  lemma CacheRemove(fds: seq<int>, readFds: set<int>, nfds: int, i: nat, nfds': int)
    requires CacheOk(fds, readFds, nfds) && i < |fds| && fds[i] != -1
    requires if fds[i] + 1 == nfds then Highest(fds[i := -1], nfds' - 1) else nfds' == nfds
    ensures CacheOk(fds[i := -1], readFds - {fds[i]}, nfds')
  {
    SlotRemoved(fds, readFds, nfds, i);
    assert |fds| == MAX_FD_EVENTS;
    if fds[i] + 1 == nfds {
      HighestIsLast(fds[i := -1], readFds - {fds[i]}, nfds' - 1);
    }
  }

  /** The watched events whose fd is ready, in slot order. */
  ghost function Ready(table: seq<Event?>, fds: seq<int>, rfds: set<int>): seq<Event>
    requires |table| == |fds|
  {
    if table == [] then []
    else
      var n := |table| - 1;
      var r := Ready(table[..n], fds[..n], rfds);
      if IsReady(table[n], fds[n], rfds) then r + [table[n]] else r
  }

  predicate IsReady(e: Event?, fd: int, rfds: set<int>) {
    e != null && fd in rfds
  }

  function FirstN<T>(q: seq<T>, n: int): seq<T> {
    if n <= 0 then [] else if n < |q| then q[..n] else q
  }

  lemma FirstOf<T>(a: seq<T>, b: seq<T>, n: int)
    requires a <= b && (|a| == Max(n, 0) || (a == b && |a| <= n))
    ensures FirstN(b, n) == a
  {
  }

  /** Scanning further only appends. */
  lemma {:induction false} ReadyPrefix(table: seq<Event?>, fds: seq<int>, rfds: set<int>, m: nat)
    requires |table| == |fds| && m <= |table|
    ensures Ready(table[..m], fds[..m], rfds) <= Ready(table, fds, rfds)
    ensures |Ready(table[..m], fds[..m], rfds)| == |Ready(table, fds, rfds)| ==>
      forall j :: m <= j < |table| ==> !IsReady(table[j], fds[j], rfds)
  {
    if m == |table| {
      assert table[..m] == table && fds[..m] == fds;
    } else {
      var n := |table| - 1;
      ReadyPrefix(table[..n], fds[..n], rfds, m);
      assert table[..n][..m] == table[..m] && fds[..n][..m] == fds[..m];
      assert forall j :: m <= j < n ==> table[..n][j] == table[j] && fds[..n][j] == fds[j];
    }
  }

  /** What select reports is what the scan can find: with one event per fd, the
      number of ready fds is the number of events to queue. */
  lemma {:induction false} ReadyCount(table: seq<Event?>, fds: seq<int>, rfds: set<int>)
    requires |table| == |fds|
    requires forall i :: 0 <= i < |fds| ==> (table[i] == null <==> fds[i] == -1)
    requires forall i, j :: 0 <= i < j < |fds| && fds[i] == fds[j] ==> fds[i] == -1
    requires forall f :: f in rfds ==> f in fds && f != -1
    ensures |Ready(table, fds, rfds)| == |rfds|
  {
    if table == [] {
      assert forall f :: f in rfds <==> f in {};
    } else {
      var n := |table| - 1;
      var rest := rfds - {fds[n]};
      assert fds == fds[..n] + [fds[n]];
      ReadySame(table[..n], fds[..n], rfds, rest);
      ReadyCount(table[..n], fds[..n], rest);
    }
  }

  lemma {:induction false} ReadySame(table: seq<Event?>, fds: seq<int>, a: set<int>, b: set<int>)
    requires |table| == |fds|
    requires forall i :: 0 <= i < |fds| && table[i] != null ==> (fds[i] in a <==> fds[i] in b)
    ensures Ready(table, fds, a) == Ready(table, fds, b)
  {
    if table != [] {
      ReadySame(table[..|table| - 1], fds[..|table| - 1], a, b);
    }
  }

  /** A timer that a callback asks for: the clock reading of ril_timer_add, the
      interval, and the new timer's own callback. */
  datatype Request = Request(clock: Timeval, interval: Timeval, param: nat)

  /** The timers after the requests were added one after the other. */
  function AddAll(v: seq<Timer>, rs: seq<Request>): seq<Timer> {
    if rs == [] then v
    else
      var r := rs[|rs| - 1];
      Insert(AddAll(v, rs[..|rs| - 1]), Timer(r.param, Micros(r.clock) + Micros(r.interval)))
  }

  function Flat<T>(cs: seq<seq<T>>): seq<T> {
    if cs == [] then [] else Flat(cs[..|cs| - 1]) + cs[|cs| - 1]
  }

  predicate WellTimed(rs: seq<Request>) {
    forall i :: 0 <= i < |rs| ==> Normal(rs[i].clock) && Normal(rs[i].interval)
  }

  lemma {:induction false} AddAllInTurn(v: seq<Timer>, a: seq<Request>, b: seq<Request>)
    ensures AddAll(v, []) == v && AddAll(AddAll(v, a), b) == AddAll(v, a + b)
  {
    hide Insert;
    if b == [] {
      assert a + b == a;
    } else {
      AddAllInTurn(v, a, b[..|b| - 1]);
      assert (a + b)[..|a + b| - 1] == a + b[..|b| - 1];
    }
  }

  // ---------------------------------------------------------------------------
  // What a callback does to the loop.

  /** A callback asks for a new timer, or adds or deletes a watch.  An event is added under the
      descriptor it has, or set to another one first. */
  datatype Deed =
    | AskTimer(timer: Request)
    | AddWatch(ev: Event, fd: int)
    | DeleteWatch(ev: Event)

  /** The watch table: the events in their slots and their fds, -1 for an empty slot. */
  datatype Watches = Watches(table: seq<Event?>, fds: seq<int>)

  ghost predicate Matched(w: Watches) {
    |w.table| == |w.fds|
  }

  /** The first slot that holds x. */
  function PlaceOf<T(==)>(q: seq<T>, x: T): (k: nat)
    ensures k <= |q| && (k < |q| ==> q[k] == x)
    ensures forall i :: 0 <= i < k ==> q[i] != x
  {
    if q == [] || q[0] == x then 0 else 1 + PlaceOf(q[1..], x)
  }

  lemma PlaceIs<T>(q: seq<T>, x: T, k: nat)
    requires k <= |q| && (forall i :: 0 <= i < k ==> q[i] != x) && (k < |q| ==> q[k] == x)
    ensures PlaceOf(q, x) == k
  {
  }

  ghost function Cleared(w: Watches, k: nat): (w': Watches)
    requires Matched(w) && k < |w.table|
    ensures Matched(w') && |w'.table| == |w.table|
  {
    Watches(w.table[k := null], w.fds[k := -1])
  }

  /** An added event takes the first empty slot, if there is one; a deleted event leaves its
      slot, if it has one. */
  ghost function Done(w: Watches, d: Deed): (w': Watches)
    requires Matched(w)
    ensures Matched(w') && |w'.table| == |w.table|
  {
    match d
    case AskTimer(_) => w
    case AddWatch(ev, fd) =>
      var k := PlaceOf(w.fds, -1);
      if k < |w.fds| then Watches(w.table[k := ev], w.fds[k := fd]) else w
    case DeleteWatch(ev) =>
      var k := PlaceOf(w.table, ev);
      if k < |w.table| then Cleared(w, k) else w
  }

  ghost function AllDone(w: Watches, ds: seq<Deed>): (w': Watches)
    requires Matched(w)
    ensures Matched(w') && |w'.table| == |w.table|
  {
    if ds == [] then w else Done(AllDone(w, ds[..|ds| - 1]), ds[|ds| - 1])
  }

  /** No event is watched twice, and no fd. */
  ghost predicate Allowed(w: Watches, d: Deed) {
    d.AddWatch? ==> d.ev !in w.table && d.fd !in w.fds
  }

  ghost predicate AllAllowed(w: Watches, ds: seq<Deed>)
    requires Matched(w)
  {
    ds == [] ||
    (AllAllowed(w, ds[..|ds| - 1]) && Allowed(AllDone(w, ds[..|ds| - 1]), ds[|ds| - 1]))
  }

  lemma {:induction false} DeedsJoin(w: Watches, a: seq<Deed>, b: seq<Deed>)
    requires Matched(w)
    ensures AllDone(w, a + b) == AllDone(AllDone(w, a), b)
    ensures AllAllowed(w, a + b) <==> AllAllowed(w, a) && AllAllowed(AllDone(w, a), b)
  {
    if b == [] {
      assert a + b == a;
    } else {
      DeedsJoin(w, a, b[..|b| - 1]);
      assert (a + b)[..|a + b| - 1] == a + b[..|b| - 1];
    }
  }

  /** An event that is ready, and so is queued, is not set to another descriptor. */
  ghost predicate KeepsFds(w: Watches, rfds: set<int>, ds: seq<Deed>)
    requires Matched(w)
  {
    forall i, j :: 0 <= i < |ds| && 0 <= j < |w.table| && ds[i].AddWatch? && ds[i].ev == w.table[j] ==>
      (IsReady(w.table[j], w.fds[j], rfds) ==> ds[i].fd == w.fds[j])
  }

  lemma {:induction false} ReadyStands(table: seq<Event?>, fds: seq<int>, rfds: set<int>, e: Event) returns (j: nat)
    requires |table| == |fds| && e in Ready(table, fds, rfds)
    ensures j < |table| && table[j] == e && IsReady(table[j], fds[j], rfds)
  {
    var n := |table| - 1;
    if IsReady(table[n], fds[n], rfds) && table[n] == e {
      j := n;
    } else {
      j := ReadyStands(table[..n], fds[..n], rfds, e);
    }
  }

  /** The timers that deeds ask for. */
  function TimersOf(ds: seq<Deed>): seq<Request> {
    if ds == [] then []
    else
      var last := ds[|ds| - 1];
      TimersOf(ds[..|ds| - 1]) + if last.AskTimer? then [last.timer] else []
  }

  lemma {:induction false} TimersJoin(a: seq<Deed>, b: seq<Deed>)
    ensures TimersOf(a + b) == TimersOf(a) + TimersOf(b)
  {
    if b == [] {
      assert a + b == a;
    } else {
      TimersJoin(a, b[..|b| - 1]);
      assert (a + b)[..|a + b| - 1] == a + b[..|b| - 1];
    }
  }

  /** The table after the ready events that are not persistent were unwatched. */
  ghost function AfterReady(w: Watches, rfds: set<int>): (w': Watches)
    requires Matched(w)
    ensures Matched(w') && |w'.table| == |w.table|
    ensures forall i :: 0 <= i < |w.table| ==>
      if IsReady(w.table[i], w.fds[i], rfds) && !w.table[i].persist then w'.table[i] == null && w'.fds[i] == -1
      else w'.table[i] == w.table[i] && w'.fds[i] == w.fds[i]
    decreases |w.table|
  {
    if w.table == [] then w
    else
      var n := |w.table| - 1;
      var rest := AfterReady(Watches(w.table[..n], w.fds[..n]), rfds);
      if IsReady(w.table[n], w.fds[n], rfds) && !w.table[n].persist then
        Watches(rest.table + [null], rest.fds + [-1])
      else Watches(rest.table + [w.table[n]], rest.fds + [w.fds[n]])
  }

  /** The callbacks of a list of events. */
  function Params(q: seq<Event>): seq<nat> {
    seq(|q|, i requires 0 <= i < |q| => q[i].param)
  }

  lemma ParamsOfShown(q: seq<Event>, v: seq<Timer>, r: seq<Event>)
    requires Shows(q, v)
    ensures Params(q + r) == Ids(v) + Params(r)
  {
    forall i | 0 <= i < |q| ensures Params(q + r)[i] == Ids(v)[i] {
      assert v[i] == Timer(q[i].param, Micros(q[i].timeout));
    }
  }

  /** The deeds of one callback stand between those before it and those after it. */
  lemma {:induction false} FlatAt<T>(cs: seq<seq<T>>, k: nat)
    requires k < |cs|
    ensures Flat(cs) == Flat(cs[..k]) + cs[k] + Flat(cs[k + 1..])
    ensures Flat(cs[..k + 1]) == Flat(cs[..k]) + cs[k]
  {
    assert cs[..k + 1][..k] == cs[..k];
    if k + 1 == |cs| {
      assert cs[..k + 1] == cs && cs[k + 1..] == [];
    } else {
      var front := cs[..|cs| - 1];
      FlatAt(front, k);
      assert front[..k] == cs[..k] && front[k + 1..] == cs[k + 1..][..|cs| - k - 2];
    }
  }

  lemma PartIn<T>(a: seq<T>, b: seq<T>, c: seq<T>)
    ensures forall i :: 0 <= i < |b| ==> (a + b + c)[|a| + i] == b[i]
  {
  }

  lemma PartsAmong(a: seq<Deed>, b: seq<Deed>, c: seq<Deed>)
    ensures forall i :: 0 <= i < |a| ==> a[i] in a + (b + c)
    ensures forall i :: 0 <= i < |b + c| ==> (b + c)[i] in a + (b + c)
    ensures forall i :: 0 <= i < |b| ==> b[i] in b + c
    ensures forall i :: 0 <= i < |c| ==> c[i] in b + c
  {
    forall i | 0 <= i < |c| ensures c[i] in b + c {
      assert (b + c)[|b| + i] == c[i];
    }
    forall i | 0 <= i < |b| ensures b[i] in b + c {
      assert (b + c)[i] == b[i];
    }
  }

  lemma PartOfFlat(callbacks: seq<seq<Deed>>, k: nat)
    requires k < |callbacks|
    ensures forall i :: 0 <= i < |callbacks[k]| ==> callbacks[k][i] in Flat(callbacks)
  {
    FlatAt(callbacks, k);
    hide Flat;
    var a, b, c := Flat(callbacks[..k]), callbacks[k], Flat(callbacks[k + 1..]);
    forall i | 0 <= i < |b| ensures b[i] in a + b + c {
      PartIn(a, b, c);
      assert (a + b + c)[|a| + i] == b[i];
    }
  }

  lemma AllowedPart(w: Watches, a: seq<Deed>, b: seq<Deed>, c: seq<Deed>)
    requires Matched(w) && AllAllowed(w, a + b + c)
    ensures AllAllowed(AllDone(w, a), b) && AllDone(w, a + b) == AllDone(AllDone(w, a), b)
  {
    DeedsJoin(w, a + b, c);
    DeedsJoin(w, a, b);
  }

  lemma LastDeed(w: Watches, front: seq<Deed>, d: Deed)
    requires Matched(w)
    ensures AllDone(w, front + [d]) == Done(AllDone(w, front), d)
    ensures AllAllowed(w, front + [d]) ==> Allowed(AllDone(w, front), d)
  {
    assert (front + [d])[..|front|] == front;
  }

  lemma AllowedAt(w: Watches, ds: seq<Deed>, k: nat)
    requires Matched(w) && AllAllowed(w, ds) && k < |ds|
    ensures Allowed(AllDone(w, ds[..k]), ds[k])
    ensures AllDone(w, ds[..k + 1]) == Done(AllDone(w, ds[..k]), ds[k])
  {
    hide Done, AllDone, Allowed, AllAllowed;
    assert ds == ds[..k + 1] + ds[k + 1..] && ds[..k + 1] == ds[..k] + [ds[k]];
    DeedsJoin(w, ds[..k + 1], ds[k + 1..]);
    LastDeed(w, ds[..k], ds[k]);
  }

  lemma TimersStep(v: seq<Timer>, a: seq<Deed>, b: seq<Deed>)
    ensures AddAll(v, TimersOf(a + b)) == AddAll(AddAll(v, TimersOf(a)), TimersOf(b))
  {
    TimersJoin(a, b);
    AddAllInTurn(v, TimersOf(a), TimersOf(b));
  }

  lemma NoRequests(v: seq<Timer>)
    ensures AddAll(v, []) == v
  {
  }

  lemma NothingDone(v: seq<Timer>, w: Watches)
    requires Matched(w)
    ensures AddAll(v, TimersOf([])) == v && AllDone(w, []) == w
  {
  }

  /** The next deed of a callback. */
  lemma OneMoreDeed(w: Watches, v: seq<Timer>, ds: seq<Deed>, k: nat)
    requires Matched(w) && AllAllowed(w, ds) && k < |ds|
    ensures Allowed(AllDone(w, ds[..k]), ds[k])
    ensures Matched(AllDone(w, ds[..k])) && AllDone(w, ds[..k + 1]) == Done(AllDone(w, ds[..k]), ds[k])
    ensures AddAll(v, TimersOf(ds[..k + 1])) == AddAll(AddAll(v, TimersOf(ds[..k])), TimersOf([ds[k]]))
  {
    AllowedAt(w, ds, k);
    assert ds[..k + 1] == ds[..k] + [ds[k]];
    TimersStep(v, ds[..k], [ds[k]]);
  }

  lemma NothingYet(v: seq<Timer>, w: Watches, callbacks: seq<seq<Deed>>)
    requires Matched(w)
    ensures callbacks[..0] == []
    ensures AddAll(v, TimersOf(Flat(callbacks[..0]))) == v && AllDone(w, Flat(callbacks[..0])) == w
  {
    NothingDone(v, w);
  }

  /** The next callback of a turn. */
  lemma OneMoreCallback(w: Watches, v: seq<Timer>, callbacks: seq<seq<Deed>>, k: nat)
    requires Matched(w) && AllAllowed(w, Flat(callbacks)) && k < |callbacks|
    ensures Matched(AllDone(w, Flat(callbacks[..k])))
    ensures AllAllowed(AllDone(w, Flat(callbacks[..k])), callbacks[k])
    ensures AllDone(w, Flat(callbacks[..k + 1])) == AllDone(AllDone(w, Flat(callbacks[..k])), callbacks[k])
    ensures AddAll(v, TimersOf(Flat(callbacks[..k + 1])))
      == AddAll(AddAll(v, TimersOf(Flat(callbacks[..k]))), TimersOf(callbacks[k]))
  {
    hide Flat, AllDone, AllAllowed, AddAll, TimersOf;
    FlatAt(callbacks, k);
    AllowedPart(w, Flat(callbacks[..k]), callbacks[k], Flat(callbacks[k + 1..]));
    TimersStep(v, Flat(callbacks[..k]), callbacks[k]);
  }

  class Loop {
    const timerList: Event
    const pendingList: Event
    const watchTable: array<Event?>
    var readFds: set<int>
    var nfds: int

    var calls: seq<nat>  // the callbacks made so far

    ghost var timers: seq<Event>
    ghost var pending: seq<Event>
    ghost var timerView: seq<Timer>  // the timers that timers stands for
    ghost var fds: seq<int>          // the fds that watchTable stands for
    ghost var events: set<Event>     // every event that went through ril_event_set

    ghost predicate ListsValid()
      reads this`timers, this`pending, this`timerView, this`events
      reads timerList`next, timerList`prev, timerList`ring, timers`next, timers`prev, timers`ring
      reads pendingList`next, pendingList`prev, pendingList`ring
      reads pending`next, pending`prev, pending`ring, timers`timeout
    {
      && timerList !in events && pendingList !in events
      && (forall i :: 0 <= i < |timers| ==> timers[i] in events)
      && (forall i :: 0 <= i < |pending| ==> pending[i] in events)
      && timerList != pendingList && Ring(timerList, timers) && Ring(pendingList, pending)
      && Shows(timers, timerView)
      && Sorted(timerView)
    }

    /** fds lists what the table watches, and slot i holds an event iff its index is i. */
    ghost predicate WatchTableShown()
      reads this`events, this`fds, watchTable, events`index, events`fd
    {
      && watchTable.Length == MAX_FD_EVENTS == |fds|
      && (forall i :: 0 <= i < MAX_FD_EVENTS ==>
            (watchTable[i] == null <==> fds[i] == -1))
      && (forall i :: 0 <= i < MAX_FD_EVENTS && watchTable[i] != null ==>
            watchTable[i] in events && watchTable[i].index == i && watchTable[i].fd == fds[i])
      && (forall e :: e in events ==>
            e.index == -1 || (0 <= e.index < MAX_FD_EVENTS && watchTable[e.index] == e))
    }

    ghost predicate WatchValid()
      reads this`events, this`fds, this`readFds, this`nfds
      reads watchTable, events`index, events`fd
    {
      CacheOk(fds, readFds, nfds) && WatchTableShown()
    }

    ghost function InTable(): set<Event>
      reads watchTable
    {
      set e: Event | e in watchTable[..]
    }

    ghost function WatchView(): Watches
      reads this`fds, watchTable
    {
      Watches(watchTable[..], fds)
    }

    /** No watched event is linked: what a turn of the loop starts and ends with. */
    ghost predicate WatchedUnlinked()
      reads watchTable, InTable()`ring
    {
      forall i :: 0 <= i < watchTable.Length && watchTable[i] != null ==> watchTable[i].ring == null
    }

    /** A watched event that is linked is about to be fired. */
    ghost predicate WatchedFires()
      reads this`pending, watchTable, InTable()`ring
    {
      forall i :: 0 <= i < watchTable.Length && watchTable[i] != null ==>
        watchTable[i].ring == null || watchTable[i] in pending
    }

    ghost predicate Valid()
      reads this`timers, this`pending, this`timerView, this`events, this`fds, this`readFds, this`nfds
      reads timerList, pendingList, timers, pending, watchTable, events
    {
      ListsValid() && WatchValid()
    }

    /** What every turn of the loop starts and ends with. */
    ghost predicate Idle()
      reads this`timers, this`pending, this`timerView, this`events, this`fds, this`readFds, this`nfds
      reads timerList, pendingList, timers, pending, watchTable, events, InTable()`ring
    {
      Valid() && WatchedUnlinked() && pending == []
    }

    /** ril_event_init */
    constructor ()
      ensures Valid() && timers == [] && pending == [] && events == {} && calls == []
      ensures watchTable.Length == 8 && forall i :: 0 <= i < 8 ==> watchTable[i] == null
      ensures fresh(timerList) && fresh(pendingList) && fresh(watchTable)
    {
      timerList := new Event.Sentinel();
      pendingList := new Event.Sentinel();
      watchTable := new Event?[MAX_FD_EVENTS](_ => null);
      readFds, nfds, calls := {}, 0, [];
      timers, pending, events, timerView := [], [], {}, [];
      fds := seq(MAX_FD_EVENTS, _ => -1);
    }

    /** The scan of ril_timer_add: the first timer that is not earlier than ev. */
    method FindSlot(ev: Event) returns (list: Event, ghost k: nat)
      requires ListsValid() && Normal(ev.timeout) && ev.ring == null
      ensures k <= |timers|
      ensures k == Slot(timerView, Micros(ev.timeout)) && list == Node(timerList, timers, k)
    {
      hide Ring;
      Neighbours(timerList, timers, 0);
      list := timerList.next;
      k := 0;
      while Before(list.timeout, ev.timeout) && list != timerList
        invariant k <= |timers| && list == Node(timerList, timers, k)
        invariant forall i :: 0 <= i < k ==> timerView[i].due < Micros(ev.timeout)
        decreases |timers| - k
      {
        BeforeIsMicros(timers[k].timeout, ev.timeout);
        Neighbours(timerList, timers, k);
        list := list.next;
        k := k + 1;
      }
      if k < |timers| { BeforeIsMicros(timers[k].timeout, ev.timeout); }
      SlotIsUnique(timerView, Micros(ev.timeout), k);
    }

    method InsertTimer(ev: Event)
      requires ListsValid() && ev in events && ev.ring == null
      requires Normal(ev.timeout)
      modifies this`timers, this`timerView
      modifies timerList`next, timerList`prev, events`next, events`prev, ev`ring
      ensures ListsValid() && ev.ring == timerList
      ensures timerView == Insert(old(timerView), Timer(ev.param, Micros(ev.timeout)))
      ensures var k := Slot(old(timerView), Micros(ev.timeout));
        timers == old(timers)[..k] + [ev] + old(timers)[k..]
    {
      hide Ring, Shows, Sorted, Slot, Insert;
      ghost var t := Timer(ev.param, Micros(ev.timeout));
      ghost var k;
      var list;
      list, k := FindSlot(ev);
      Neighbours(timerList, timers, k);
      Owners(pendingList, pending);
      assert forall i :: 0 <= i < |pending| ==> pending[i] !in {ev, list, list.prev};
      AddToList(ev, list, timerList, timers, k);
      ShowsInserted(timers, timerView, ev, k);
      InsertKeepsOrder(timerView, t);
      StillKnown(timers, ev, k, events);
      timers := timers[..k] + [ev] + timers[k..];
      timerView := Insert(timerView, t);
    }

    /** An unlinked, unwatched event joins the known events with its new deadline. */
    method Stamp(ev: Event, due: Timeval)
      requires Valid() && ev.index == -1 && ev.ring == null
      modifies ev`fd, ev`timeout, this`events
      ensures Valid() && events == old(events) + {ev} && ev.fd == -1 && ev.timeout == due
    {
      hide Ring, Shows, Sorted, CacheOk;
      Owners(timerList, timers);
      Owners(pendingList, pending);
      assert ev !in timers;
      events := events + {ev};
      ev.fd := -1;
      ev.timeout := due;
    }

    method TimerAdd(ev: Event, tv: Option<Timeval>, now: Timeval)
      requires Valid() && Normal(now) && (tv.Some? ==> Normal(tv.value))
      requires ev.index == -1 && ev.ring == null
      modifies this`timers, this`timerView, this`events, ev`fd, ev`timeout, ev`next, ev`prev, ev`ring
      modifies timerList`next, timerList`prev, events`next, events`prev
      ensures Valid()
      ensures tv.None? ==>
        timers == old(timers) && timerView == old(timerView) && events == old(events)
      ensures tv.Some? ==>
        var due := Micros(now) + Micros(tv.value);
        var k := Slot(old(timerView), due);
        && timers == old(timers)[..k] + [ev] + old(timers)[k..]
        && timerView == Insert(old(timerView), Timer(ev.param, due))
        && ev.fd == -1 && ev.ring == timerList && events == old(events) + {ev}
    {
      hide Ring, Shows, Sorted, CacheOk, Insert, Slot;
      if tv.Some? {
        AddIsExact(now, tv.value);
        Stamp(ev, Add(now, tv.value));
        InsertTimer(ev);
      }
    }

    /** removeFromList on the first timer */
    method UnlinkFirst(tev: Event)
      requires ListsValid() && timers != [] && tev == timers[0]
      modifies this`timers, this`timerView, timerList`next, timerList`prev
      modifies events`next, events`prev, tev`ring
      ensures ListsValid() && tev in events && tev.ring == null
      ensures timers == old(timers)[1..] && timerView == old(timerView)[1..]
    {
      hide Ring, Shows, Sorted;
      ghost var q := timers[1..];
      WithoutFirst(timers);
      Neighbours(timerList, timers, 0);
      Owners(timerList, timers);
      Owners(pendingList, pending);
      TailShows(timers, timerView);
      assert forall i :: 0 <= i < |pending| ==> pending[i] !in {tev, tev.next, tev.prev};
      RemoveFromList(tev, timerList, timers, 0);
      timers, timerView := q, timerView[1..];
    }

    /** addToList(ev, &pending_list) */
    method AppendPending(ev: Event)
      requires ListsValid() && ev in events && ev.ring == null
      modifies this`pending, pendingList`next, pendingList`prev
      modifies events`next, events`prev, ev`ring
      ensures ListsValid() && ev.ring == pendingList
      ensures pending == old(pending) + [ev]
    {
      hide Ring, Shows, Sorted;
      ghost var p := pending + [ev];
      assert pending[..|pending|] + [ev] + pending[|pending|..] == p;
      Neighbours(pendingList, pending, |pending|);
      Owners(timerList, timers);
      Owners(pendingList, pending);
      AddToList(ev, pendingList, pendingList, pending, |pending|);
      pending := p;
    }

    /** removeFromList on the first pending event */
    method UnlinkPending(ev: Event)
      requires ListsValid() && pending != [] && ev == pending[0]
      modifies this`pending, pendingList`next, pendingList`prev
      modifies events`next, events`prev, ev`ring
      ensures ListsValid() && ev in events && ev.ring == null
      ensures pending == old(pending)[1..]
    {
      hide Ring, Shows, Sorted;
      ghost var p := pending[1..];
      WithoutFirst(pending);
      Neighbours(pendingList, pending, 0);
      Owners(timerList, timers);
      Owners(pendingList, pending);
      RemoveFromList(ev, pendingList, pending, 0);
      pending := p;
    }

    /** Moves the timers that are due, stopping at the first that is not: exactly
        the timers a filter over the whole list would pick, in deadline order. */
    method ProcessTimeouts(now: Timeval)
      requires Valid() && Normal(now)
      modifies this`timers, this`timerView, this`pending, timerList`next, timerList`prev
      modifies pendingList`next, pendingList`prev, events`next, events`prev, events`ring
      ensures Valid()
      ensures timerView == Live(old(timerView), Micros(now))
      ensures exists k | 0 <= k <= |old(timers)| ::
        && timers == old(timers)[k..] && pending == old(pending) + old(timers)[..k]
        && Shows(old(timers)[..k], Expired(old(timerView), Micros(now)))
      ensures forall e :: e in events && old(e.ring) == null ==> e.ring == null
    {
      hide Valid, Ring, Sorted, Shows, Live, Expired, Slot;
      ghost var q, v, p := timers, timerView, pending;
      TimerHead();
      var tev := timerList.next;
      ghost var k := 0;
      while tev != timerList && Before(tev.timeout, now)
        invariant Valid() && k <= |q| == |v| && timers == q[k..] && timerView == v[k..]
        invariant pending == p + q[..k] && tev == Node(timerList, timers, 0)
        invariant forall i :: 0 <= i < k ==> v[i].due < Micros(now)
        invariant forall e :: e in events && old(e.ring) == null ==> e.ring == null
        decreases |q| - k
      {
        TimerHead();
        BeforeIsMicros(tev.timeout, now);
        tev := MoveFirst(tev);
        assert q[..k + 1] == q[..k] + [q[k]];
        k := k + 1;
      }
      TimerHead();
      if k < |q| { BeforeIsMicros(tev.timeout, now); }
      ExpiredIsPrefix(v, Micros(now), k);
      PrefixShows(q, v, k);
    }

    /** The first timer, which the scan of processTimeouts looks at. */
    lemma TimerHead()
      requires Valid()
      ensures |timers| == |timerView| && timerList.next == Node(timerList, timers, 0) && Sorted(timerView)
      ensures Shows(timers, timerView) && timerList !in timers
      ensures timers != [] ==>
        timers[0] in events && Normal(timers[0].timeout) && timerView[0].due == Micros(timers[0].timeout)
    {
      hide Ring, WatchValid;
      Neighbours(timerList, timers, 0);
      Owners(timerList, timers);
    }

    /** An expired timer moves to the end of the pending list. */
    method MoveFirst(tev: Event) returns (next: Event)
      requires Valid() && timers != [] && tev == timers[0]
      modifies this`timers, this`timerView, this`pending, timerList`next, timerList`prev
      modifies pendingList`next, pendingList`prev, events`next, events`prev, tev`ring
      ensures Valid() && next == Node(timerList, timers, 0)
      ensures timers == old(timers)[1..] && timerView == old(timerView)[1..] && pending == old(pending) + [tev]
      ensures forall e :: e in events && old(e.ring) == null ==> e.ring == null
    {
      hide Ring, Shows, Sorted, WatchValid;
      Neighbours(timerList, timers, 0);
      assert timers[1..] != [] ==> timers[1] == timers[1..][0];
      next := tev.next;
      assert tev.ring != null;
      UnlinkFirst(tev);
      AppendPending(tev);
    }

    /** The time select may sleep: nothing without timers, else what is left until
        the earliest deadline, never negative. */
    method CalcNextTimeout(now: Timeval) returns (tv: Option<Timeval>)
      requires Valid() && Normal(now)
      ensures tv.None? <==> timers == []
      ensures tv.Some? ==> (exists i | 0 <= i < |timerView| ::
        && Normal(tv.value) && Micros(tv.value) == Max(0, timerView[i].due - Micros(now))
        && forall j :: 0 <= j < |timerView| ==> timerView[i].due <= timerView[j].due)
    {
      hide Ring, WatchValid;
      Neighbours(timerList, timers, 0);
      var tev := timerList.next;
      if tev == timerList {
        return None;
      }
      BeforeIsMicros(now, tev.timeout);
      SubIsExact(tev.timeout, now);
      assert timerView[0].due == Micros(tev.timeout);
      return Some(if Before(now, tev.timeout) then Sub(tev.timeout, now) else Timeval(0, 0));
    }

    ghost method Register(ev: Event)
      requires Valid() && ev != timerList && ev != pendingList && ev.index == -1
      modifies this`events
      ensures Valid() && events == old(events) + {ev}
    {
      hide Ring, Shows, Sorted, CacheOk;
      events := events + {ev};
    }

    /** Slot i is free and now holds ev. */
    method Occupy(ev: Event, i: int)
      requires WatchTableShown() && ev in events && ev.index == -1 && ev.fd != -1
      requires 0 <= i < MAX_FD_EVENTS && watchTable[i] == null
      modifies watchTable, ev`index, this`fds
      ensures WatchTableShown() && ev.index == i
      ensures watchTable[..] == old(watchTable[..])[i := ev] && fds == old(fds)[i := ev.fd]
    {
      watchTable[i] := ev;
      ev.index := i;
      fds := fds[i := ev.fd];
    }

    method Vacate(ev: Event, index: int)
      requires WatchTableShown() && 0 <= index < MAX_FD_EVENTS && watchTable[index] == ev
      modifies watchTable, ev`index, this`fds
      ensures WatchTableShown() && ev.index == -1
      ensures |old(fds)| == MAX_FD_EVENTS && old(fds)[index] == ev.fd && ev.fd != -1
      ensures watchTable[..] == old(watchTable[..])[index := null] && fds == old(fds)[index := -1]
    {
      watchTable[index] := null;
      ev.index := -1;
      fds := fds[index := -1];
    }

    /** Slot i starts to watch ev and the select arguments follow. */
    method Watch(ev: Event, i: int)
      requires Valid() && ev in events && ev.index == -1 && 0 <= ev.fd && ev.fd !in fds
      requires 0 <= i < MAX_FD_EVENTS && watchTable[i] == null
      modifies watchTable, ev`index, this`readFds, this`nfds, this`fds
      ensures Valid() && ev.index == i
      ensures watchTable[..] == old(watchTable[..])[i := ev]
      ensures fds == old(fds)[i := ev.fd] && readFds == old(readFds) + {ev.fd}
    {
      hide ListsValid, CacheOk;
      CacheAdd(fds, readFds, nfds, i, ev.fd);
      Occupy(ev, i);
      readFds := readFds + {ev.fd};
      if ev.fd >= nfds { nfds := ev.fd + 1; }
    }

    /** Takes the first free slot; a full table ignores the event. */
    method EventAdd(ev: Event)
      requires Valid() && ev != timerList && ev != pendingList
      requires ev.index == -1 && 0 <= ev.fd && ev.fd !in fds
      modifies watchTable, ev`index, this`readFds, this`nfds, this`fds, this`events
      ensures Valid()
      ensures -1 !in old(fds) ==>
        && watchTable[..] == old(watchTable[..]) && ev.index == -1
        && readFds == old(readFds) && nfds == old(nfds) && events == old(events)
      ensures -1 in old(fds) ==> exists i | 0 <= i < MAX_FD_EVENTS ::
        && old(fds)[i] == -1 && (forall j :: 0 <= j < i ==> old(fds)[j] != -1)
        && watchTable[..] == old(watchTable[..])[i := ev] && ev.index == i
        && fds == old(fds)[i := ev.fd] && events == old(events) + {ev}
        && readFds == old(readFds) + {ev.fd}
      ensures Matched(old(WatchView())) && WatchView() == Done(old(WatchView()), AddWatch(ev, ev.fd))
    {
      hide ListsValid, CacheOk, Highest;
      var i := 0;
      while i < MAX_FD_EVENTS
        invariant 0 <= i <= MAX_FD_EVENTS
        invariant forall j :: 0 <= j < i ==> fds[j] != -1
      {
        if watchTable[i] == null {
          PlaceIs(fds, -1, i);
          Register(ev);
          Watch(ev, i);
          return;
        }
        i := i + 1;
      }
      PlaceIs(fds, -1, MAX_FD_EVENTS);
    }

    /** The rescan of removeWatch. */
    method HighestFd() returns (n: int)
      requires WatchTableShown()
      ensures Highest(fds, n)
    {
      n := 0;
      for i := 0 to MAX_FD_EVENTS
        invariant Highest(fds[..i], n)
      {
        assert fds[..i + 1] == fds[..i] + [fds[i]];
        var rev := watchTable[i];
        if rev != null && rev.fd > n {
          n := rev.fd;
        }
      }
      assert fds[..MAX_FD_EVENTS] == fds;
    }

    /** FD_CLR, and the rescan if the highest fd went; f is what the table watched before. */
    method Unselect(fd: int, ghost f: seq<int>, ghost index: nat)
      requires WatchTableShown() && CacheOk(f, readFds, nfds)
      requires index < |f| && f[index] == fd != -1 && fds == f[index := -1]
      modifies `readFds, `nfds
      ensures CacheOk(fds, readFds, nfds) && readFds == old(readFds) - {fd}
    {
      hide CacheOk, WatchTableShown, Highest;
      readFds := readFds - {fd};
      if fd + 1 == nfds {
        var n := HighestFd();
        nfds := n + 1;
      }
      CacheRemove(f, old(readFds), old(nfds), index, nfds);
    }

    method RemoveWatch(ev: Event, index: int)
      requires Valid() && 0 <= index < MAX_FD_EVENTS && watchTable[index] == ev
      modifies watchTable, ev`index, this`readFds, this`nfds, this`fds
      ensures Valid() && ev.index == -1
      ensures watchTable[..] == old(watchTable[..])[index := null]
      ensures fds == old(fds)[index := -1] && readFds == old(readFds) - {ev.fd}
    {
      hide ListsValid, WatchTableShown, CacheOk;
      ghost var f := fds;
      Vacate(ev, index);
      Unselect(ev.fd, f, index);
    }

    method EventDel(ev: Event)
      requires Valid() && ev in events
      modifies watchTable, ev`index, this`readFds, this`nfds, this`fds
      ensures Valid() && ev.index == -1
      ensures watchTable[..] ==
        var i := old(ev.index);
        if i == -1 then old(watchTable[..]) else old(watchTable[..])[i := null]
      ensures readFds == if old(ev.index) == -1 then old(readFds) else old(readFds) - {ev.fd}
      ensures Matched(old(WatchView())) && WatchView() == Done(old(WatchView()), DeleteWatch(ev))
    {
      hide ListsValid, CacheOk, Highest;
      EventPlace(ev);
      if ev.index < 0 || ev.index >= MAX_FD_EVENTS {
        return;
      }
      RemoveWatch(ev, ev.index);
    }

    /** An event's index is its place in the table, if it has one. */
    lemma EventPlace(ev: Event)
      requires WatchTableShown() && ev in events
      ensures PlaceOf(watchTable[..], ev) == if ev.index == -1 then MAX_FD_EVENTS else ev.index
    {
      var t := watchTable[..];
      forall i | 0 <= i < MAX_FD_EVENTS && t[i] == ev ensures ev.index == i {
        assert watchTable[i] != null;
      }
      PlaceIs(t, ev, if ev.index == -1 then MAX_FD_EVENTS else ev.index);
    }

    /** select's return value covers the events there are to queue: it counts them exactly if all
        the ready fds are still watched. */
    lemma SelectCounts(rfds: set<int>)
      requires WatchValid()
      ensures watchTable.Length == |fds| && |Ready(watchTable[..], fds, rfds)| <= |rfds|
      ensures |Ready(watchTable[..], fds, rfds)| == |rfds| <==> rfds <= readFds
    {
      var still := rfds * readFds;
      assert forall i :: 0 <= i < |fds| && fds[i] != -1 ==> fds[i] in readFds;
      ReadySame(watchTable[..], fds, rfds, still);
      ReadyCount(watchTable[..], fds, still);
      assert rfds == still + (rfds - readFds);
    }

    /** A ready event is queued, and stays watched only if it is persistent. */
    method QueueReady(rev: Event, i: int)
      requires Valid() && WatchedFires()
      requires 0 <= i < MAX_FD_EVENTS && watchTable[i] == rev && rev.ring == null
      modifies this`pending, pendingList`next, pendingList`prev, events`next, events`prev, rev`ring
      modifies watchTable, rev`index, this`readFds, this`nfds, this`fds
      ensures Valid() && WatchedFires() && pending == old(pending) + [rev]
      ensures watchTable[..] ==
        if rev.persist then old(watchTable[..]) else old(watchTable[..])[i := null]
      ensures fds == if rev.persist then old(fds) else old(fds)[i := -1]
    {
      hide ListsValid, CacheOk;
      AppendPending(rev);
      assert WatchedFires();
      if !rev.persist {
        RemoveWatch(rev, i);
      }
    }

    /** A scan over the table that was w has done its part below slot i. */
    ghost predicate Scanned(w: Watches, rfds: set<int>, i: nat)
      reads this`fds, watchTable
    {
      && i <= MAX_FD_EVENTS == |w.table| == |w.fds| == watchTable.Length == |fds|
      && (forall j :: 0 <= j < i ==>
            if IsReady(w.table[j], w.fds[j], rfds) && !w.table[j].persist then watchTable[j] == null && fds[j] == -1
            else watchTable[j] == w.table[j] && fds[j] == w.fds[j])
      && (forall j :: i <= j < MAX_FD_EVENTS ==> watchTable[j] == w.table[j] && fds[j] == w.fds[j])
    }

    /** From slot i on no watched event is linked. */
    ghost predicate UnlinkedFrom(i: nat)
      reads watchTable, InTable()`ring
    {
      forall j :: i <= j < watchTable.Length && watchTable[j] != null ==> watchTable[j].ring == null
    }

    lemma ScanStarts(rfds: set<int>)
      requires Valid() && WatchedUnlinked()
      ensures |watchTable[..]| == |fds| == MAX_FD_EVENTS
      ensures WatchedFires() && Scanned(WatchView(), rfds, 0) && UnlinkedFrom(0)
      ensures Ready(watchTable[..][..0], fds[..0], rfds) == []
    {
    }

    lemma ScanDone(w: Watches, rfds: set<int>)
      requires Scanned(w, rfds, MAX_FD_EVENTS)
      ensures WatchView() == AfterReady(w, rfds)
    {
    }

    /** With no ready event from slot i on, the rest of the scan would do nothing. */
    lemma ScanMayStop(w: Watches, rfds: set<int>, i: nat)
      requires Scanned(w, rfds, i)
      requires forall j :: i <= j < |w.table| ==> !IsReady(w.table[j], w.fds[j], rfds)
      ensures Scanned(w, rfds, MAX_FD_EVENTS)
    {
    }

    /** One slot of the scan. */
    method Visit(rfds: set<int>, i: nat, ghost w: Watches) returns (queued: bool)
      requires Valid() && WatchedFires() && i < MAX_FD_EVENTS && Scanned(w, rfds, i) && UnlinkedFrom(i)
      modifies this`pending, pendingList`next, pendingList`prev, events`next, events`prev, events`ring
      modifies watchTable, events`index, this`readFds, this`nfds, this`fds
      ensures Valid() && WatchedFires() && Scanned(w, rfds, i + 1) && UnlinkedFrom(i + 1)
      ensures queued <==> IsReady(w.table[i], w.fds[i], rfds)
      ensures pending == old(pending) + if queued then [w.table[i]] else []
      ensures forall e :: e in events && (old(e.ring) == null || e in old(pending)) ==> e.ring == null || e in pending
    {
      hide ListsValid, CacheOk;
      var rev := watchTable[i];
      queued := rev != null && rev.fd in rfds;
      if queued {
        SlotsDiffer(i);
        QueueReady(rev, i);
      }
    }

    /** An event stands in one slot only. */
    lemma SlotsDiffer(i: nat)
      requires WatchTableShown() && i < MAX_FD_EVENTS && watchTable[i] != null
      ensures forall j :: 0 <= j < MAX_FD_EVENTS && j != i ==> watchTable[j] != watchTable[i]
    {
    }

    /** Queues the ready events, giving up after n of them, and stops watching the
        queued ones that are not persistent.  When n covers all ready events,
        as select's return value does, the early exit skips none. */
    method ProcessReadReadies(rfds: set<int>, n0: int)
      requires Valid() && WatchedUnlinked()
      modifies this`pending, pendingList`next, pendingList`prev, events`next, events`prev, events`ring
      modifies watchTable, events`index, this`readFds, this`nfds, this`fds
      ensures Valid() && WatchedFires()
      ensures var r := Ready(old(watchTable[..]), old(fds), rfds);
        && pending == old(pending) + FirstN(r, n0)
        && (|r| <= n0 ==> WatchView() == AfterReady(old(WatchView()), rfds))
      ensures forall e :: e in events && old(e.ring) == null ==> e.ring == null || e in pending
    {
      hide Valid, WatchedUnlinked, WatchedFires, FirstN, AfterReady, Scanned, UnlinkedFrom, Ready, IsReady;
      ghost var w, p := WatchView(), pending;
      ScanStarts(rfds);
      var n := n0;
      var i := 0;
      while i < MAX_FD_EVENTS && n > 0
        invariant Valid() && WatchedFires() && 0 <= i <= MAX_FD_EVENTS == |w.table| == |w.fds|
        invariant Scanned(w, rfds, i) && UnlinkedFrom(i)
        invariant pending == p + Ready(w.table[..i], w.fds[..i], rfds)
        invariant n == n0 - |Ready(w.table[..i], w.fds[..i], rfds)| && (n0 > 0 ==> n >= 0) && (n0 <= 0 ==> i == 0)
        invariant forall e :: e in events && old(e.ring) == null ==> e.ring == null || e in pending
      {
        ReadyStep(w.table, w.fds, rfds, i);
        var queued := Visit(rfds, i, w);
        if queued {
          n := n - 1;
        }
        i := i + 1;
      }
      ReadyAtEnd(w.table, w.fds, rfds, i, n0);
      if |Ready(w.table, w.fds, rfds)| <= n0 {
        ScanMayStop(w, rfds, i);
        ScanDone(w, rfds);
      }
    }

    lemma TableSizes()
      requires WatchTableShown()
      ensures watchTable.Length == |fds| == MAX_FD_EVENTS && Matched(WatchView())
    {
    }

    /** Other threads, or a callback, ask for timers, each a new event. */
    method AddTimers(rs: seq<Request>)
      requires Valid() && WellTimed(rs)
      modifies this`timers, this`timerView, this`events
      modifies timerList`next, timerList`prev, events`next, events`prev
      ensures Valid() && events >= old(events) && fresh(events - old(events))
      ensures timerView == AddAll(old(timerView), rs)
    {
      hide ListsValid, WatchValid, Insert;
      for k := 0 to |rs|
        invariant Valid() && events >= old(events) && fresh(events - old(events))
        invariant timerView == AddAll(old(timerView), rs[..k])
      {
        var r := rs[k];
        assert rs[..k + 1][..k] == rs[..k];
        var ev := new Event(-1, false, r.param);
        TimerAdd(ev, Some(r.interval), r.clock);
      }
      assert rs[..|rs|] == rs;
    }

    /** The events that deeds name went through ril_event_set before.  One that is added is not a
        timer; if it is linked it is about to be fired and keeps its descriptor. */
    ghost predicate Known(ds: seq<Deed>, known: set<Event>)
      reads this`pending, known`fd, known`ring
    {
      forall i :: 0 <= i < |ds| ==> KnownDeed(ds[i], known)
    }

    ghost predicate KnownDeed(d: Deed, known: set<Event>)
      reads this`pending, known`fd, known`ring
    {
      match d
      case AskTimer(r) => Normal(r.clock) && Normal(r.interval)
      case AddWatch(ev, fd) => ev in known && fd >= 0 && (ev.ring == null || (ev in pending && ev.fd == fd))
      case DeleteWatch(ev) => ev in known
    }

    /** One deed of a callback; what is known of all deeds stays. */
    method Perform(d: Deed, ghost all: seq<Deed>, ghost known: set<Event>)
      requires Valid() && WatchedFires() && known <= events && KnownDeed(d, known) && Allowed(WatchView(), d)
      requires Known(all, known)
      modifies this`timers, this`timerView, this`events
      modifies timerList`next, timerList`prev, events`next, events`prev
      modifies watchTable, events`index, events`fd, this`readFds, this`nfds, this`fds
      ensures Valid() && WatchedFires() && events >= old(events) && fresh(events - old(events))
      ensures Known(all, known)
      ensures timerView == AddAll(old(timerView), TimersOf([d]))
      ensures Matched(old(WatchView())) && WatchView() == Done(old(WatchView()), d)
    {
      hide Valid, AddAll, TimersOf, Done, Matched, Known;
      OneTimer(d);
      match d {
        case AskTimer(r) =>
          WatchesMatch();
          AddTimers([r]);
          DoneTimer(WatchView(), d);
        case AddWatch(ev, fd) =>
          NoRequests(timerView);
          WatchAdded(ev, fd, all, known);
        case DeleteWatch(ev) =>
          NoRequests(timerView);
          WatchDeleted(ev);
      }
    }

    lemma WatchesMatch()
      requires Valid()
      ensures Matched(WatchView())
    {
      TableSizes();
    }

    /** ril_event_set for another descriptor, on an event that is neither watched nor linked. */
    method Reset(ev: Event, fd: int, ghost all: seq<Deed>, ghost known: set<Event>)
      requires Valid() && ev in events && ev.index == -1 && ev.ring == null && Known(all, known)
      modifies ev`fd
      ensures Valid() && ev.fd == fd && Known(all, known)
    {
      hide ListsValid, CacheOk;
      ev.fd := fd;
      forall i | 0 <= i < |all| ensures KnownDeed(all[i], known) {
        assert old(KnownDeed(all[i], known));
      }
    }

    /** ril_event_add from a callback, after ril_event_set if the descriptor is new. */
    method WatchAdded(ev: Event, fd: int, ghost all: seq<Deed>, ghost known: set<Event>)
      requires Valid() && WatchedFires() && known <= events && KnownDeed(AddWatch(ev, fd), known)
      requires Allowed(WatchView(), AddWatch(ev, fd)) && Known(all, known)
      modifies watchTable, ev`index, ev`fd, this`readFds, this`nfds, this`fds, this`events
      ensures Valid() && WatchedFires() && events == old(events) && Known(all, known)
      ensures Matched(old(WatchView())) && WatchView() == Done(old(WatchView()), AddWatch(ev, fd))
    {
      hide ListsValid, CacheOk, PlaceOf, Done, Known;
      TableSizes();
      ghost var w := WatchView();
      SentinelsApart(ev);
      if ev.fd != fd {
        Reset(ev, fd, all, known);
      }
      EventAdd(ev);
      StillFires(w, AddWatch(ev, fd));
    }

    /** ril_event_del from a callback. */
    method WatchDeleted(ev: Event)
      requires Valid() && WatchedFires() && ev in events
      modifies watchTable, ev`index, this`readFds, this`nfds, this`fds
      ensures Valid() && WatchedFires()
      ensures Matched(old(WatchView())) && WatchView() == Done(old(WatchView()), DeleteWatch(ev))
    {
      hide ListsValid, CacheOk, PlaceOf, Done;
      TableSizes();
      ghost var w := WatchView();
      EventDel(ev);
      StillFires(w, DeleteWatch(ev));
    }

    lemma OneTimer(d: Deed)
      ensures TimersOf([d]) == if d.AskTimer? then [d.timer] else []
    {
      assert [d][..0] == [];
    }

    /** A known event is no sentinel, and has index -1 if it is not in the table. */
    lemma SentinelsApart(ev: Event)
      requires Valid() && ev in events
      ensures ev != timerList && ev != pendingList
      ensures ev !in watchTable[..] ==> ev.index == -1
    {
    }

    lemma DoneTimer(w: Watches, d: Deed)
      requires Matched(w) && d.AskTimer?
      ensures Done(w, d) == w
    {
    }

    /** What is watched after a deed was watched before, or is the event added. */
    lemma StillFires(w: Watches, d: Deed)
      requires Matched(w) && WatchView() == Done(w, d)
      requires forall i :: 0 <= i < |w.table| && w.table[i] != null ==>
        w.table[i].ring == null || w.table[i] in pending
      requires d.AddWatch? ==> d.ev.ring == null || d.ev in pending
      ensures WatchedFires()
    {
      hide PlaceOf;
      var t := watchTable[..];
      forall i | 0 <= i < watchTable.Length && watchTable[i] != null
        ensures watchTable[i].ring == null || watchTable[i] in pending
      {
        assert watchTable[i] == t[i];
      }
    }

    /** A callback does its deeds, which are among all, one after the other. */
    method Callback(ds: seq<Deed>, ghost all: seq<Deed>, ghost known: set<Event>)
      requires Valid() && WatchedFires() && known <= events && Known(all, known)
      requires forall i :: 0 <= i < |ds| ==> ds[i] in all
      requires Matched(WatchView()) && AllAllowed(WatchView(), ds)
      modifies this`timers, this`timerView, this`events
      modifies timerList`next, timerList`prev, events`next, events`prev
      modifies watchTable, events`index, events`fd, this`readFds, this`nfds, this`fds
      ensures Valid() && WatchedFires() && events >= old(events) && fresh(events - old(events))
      ensures Known(all, known)
      ensures timerView == AddAll(old(timerView), TimersOf(ds))
      ensures Matched(WatchView()) && WatchView() == AllDone(old(WatchView()), ds)
    {
      hide Valid, WatchedFires, AddAll, Done, AllDone, AllAllowed, Allowed, TimersOf, Matched, KnownDeed;
      ghost var w, v := WatchView(), timerView;
      NothingDone(v, w);
      for k := 0 to |ds|
        invariant Valid() && WatchedFires() && events >= old(events) && fresh(events - old(events))
        invariant Known(all, known)
        invariant timerView == AddAll(v, TimersOf(ds[..k]))
        invariant Matched(WatchView()) && WatchView() == AllDone(w, ds[..k])
      {
        OneMoreDeed(w, v, ds, k);
        Perform(ds[k], all, known);
      }
      assert ds[..|ds|] == ds;
    }

    /** The first pending event, which the walk over the list starts at. */
    lemma PendingHead()
      requires Valid()
      ensures pendingList.next == Node(pendingList, pending, 0) && pendingList !in pending
      ensures forall i :: 0 <= i < |pending| ==> pending[i] in events
      ensures pending != [] ==> pending[0] in events && pending[0].next == Node(pendingList, pending[1..], 0)
    {
      hide Ring, Shows, Sorted, WatchValid;
      Neighbours(pendingList, pending, 0);
      assert pending != [] && pending[1..] != [] ==> Node(pendingList, pending, 1) == pending[1..][0];
      Owners(pendingList, pending);
    }

    /** Every event of free is free, or still to be fired. */
    ghost predicate Loosened(free: set<Event>)
      reads this`pending, free`ring
    {
      forall e :: e in free ==> e.ring == null || e in pending
    }

    /** An event taken off the pending list is unlinked, so what is watched still fires and
        known deeds stay known. */
    method TakeFirst(ev: Event, ghost ds: seq<Deed>, ghost known: set<Event>, ghost free: set<Event>)
      requires Valid() && WatchedFires() && pending != [] && ev == pending[0]
      requires Known(ds, known) && Loosened(free)
      modifies this`pending, pendingList`next, pendingList`prev, events`next, events`prev, ev`ring
      ensures Valid() && WatchedFires() && ev in events && ev.ring == null && pending == old(pending)[1..]
      ensures Known(ds, known) && Loosened(free)
    {
      hide Ring, Shows, Sorted, CacheOk;
      assert forall e :: e in pending ==> e == ev || e in pending[1..];
      UnlinkPending(ev);
      forall i | 0 <= i < |ds| ensures KnownDeed(ds[i], known) {
        assert old(KnownDeed(ds[i], known));
      }
    }

    /** One round of firePending: the first pending event is unlinked, then called. */
    method FireFirst(ev: Event, callbacks: seq<seq<Deed>>, k: nat, ghost known: set<Event>, ghost free: set<Event>)
      returns (next: Event)
      requires Valid() && WatchedFires() && known <= events && k < |callbacks|
      requires Known(Flat(callbacks), known) && Loosened(free) && free <= events
      requires Matched(WatchView()) && AllAllowed(WatchView(), callbacks[k])
      requires pending != [] && ev == pending[0]
      modifies this`pending, pendingList`next, pendingList`prev, this`calls
      modifies this`timers, this`timerView, this`events
      modifies timerList`next, timerList`prev, events`next, events`prev, ev`ring
      modifies watchTable, events`index, events`fd, this`readFds, this`nfds, this`fds
      ensures Valid() && WatchedFires() && events >= old(events) && fresh(events - old(events))
      ensures pending == old(pending)[1..] && next == Node(pendingList, pending, 0)
      ensures Known(Flat(callbacks), known) && Loosened(free)
      ensures calls == old(calls) + [ev.param] && timerView == AddAll(old(timerView), TimersOf(callbacks[k]))
      ensures Matched(WatchView()) && WatchView() == AllDone(old(WatchView()), callbacks[k])
    {
      hide Valid, WatchedFires, AddAll, AllDone, AllAllowed, TimersOf, Known, Matched, Flat, Loosened;
      PendingHead();
      next := ev.next;
      TakeFirst(ev, Flat(callbacks), known, free);
      PartOfFlat(callbacks, k);
      calls := calls + [ev.param];
      Callback(callbacks[k], Flat(callbacks), known);
    }

    /** Makes the callbacks of the pending events in order; the k-th one does callbacks[k]. An
        event that is pending is called even if a callback deletes its watch before. */
    method FirePending(callbacks: seq<seq<Deed>>)
      requires Valid() && WatchedFires() && |callbacks| == |pending| && Known(Flat(callbacks), events)
      requires Matched(WatchView()) && AllAllowed(WatchView(), Flat(callbacks))
      modifies this`pending, pendingList`next, pendingList`prev, this`calls
      modifies this`timers, this`timerView, this`events
      modifies timerList`next, timerList`prev, events`next, events`prev, events`ring
      modifies watchTable, events`index, events`fd, this`readFds, this`nfds, this`fds
      ensures Valid() && WatchedUnlinked() && pending == []
      ensures events >= old(events) && fresh(events - old(events))
      ensures calls == old(calls) + Params(old(pending))
      ensures timerView == AddAll(old(timerView), TimersOf(Flat(callbacks)))
      ensures Matched(WatchView()) && WatchView() == AllDone(old(WatchView()), Flat(callbacks))
      ensures forall e :: e in old(events) && (old(e.ring) == null || e in old(pending)) ==> e.ring == null
    {
      hide Valid, AddAll, AllDone, AllAllowed, TimersOf, Known, Matched, Flat, WatchedFires, Loosened;
      ghost var p, c, v, w, known := pending, calls, timerView, WatchView(), events;
      ghost var free := set e | e in events && (e.ring == null || e in pending);
      assert Loosened(free) by { LoosenedAtFirst(free); }
      var k := 0;
      NothingYet(v, w, callbacks);
      PendingHead();
      var ev := pendingList.next;
      while ev != pendingList
        invariant Valid() && WatchedFires() && Known(Flat(callbacks), known) && Loosened(free)
        invariant k <= |p| && pending == p[k..] && ev == Node(pendingList, pending, 0)
        invariant events >= known && fresh(events - known)
        invariant calls == c + Params(p[..k])
        invariant timerView == AddAll(v, TimersOf(Flat(callbacks[..k])))
        invariant Matched(WatchView()) && WatchView() == AllDone(w, Flat(callbacks[..k]))
        decreases |p| - k
      {
        OneMoreCallback(w, v, callbacks, k);
        ev := FireFirst(ev, callbacks, k, known, free);
        assert p[..k + 1] == p[..k] + [p[k]];
        k := k + 1;
      }
      PendingHead();
      assert p[..k] == p && callbacks[..k] == callbacks;
      AllFired(free);
    }

    lemma LoosenedAtFirst(free: set<Event>)
      requires forall e :: e in free ==> e.ring == null || e in pending
      ensures Loosened(free)
    {
    }

    lemma AllFired(free: set<Event>)
      requires WatchedFires() && Loosened(free) && pending == []
      ensures WatchedUnlinked() && forall e :: e in free ==> e.ring == null
    {
    }

    /** What other threads do while select sleeps, with their deeds among all. */
    method Sleep(before: seq<Deed>, ghost all: seq<Deed>, ghost known: set<Event>)
      requires Idle() && known <= events && Known(all, known) && forall i :: 0 <= i < |before| ==> before[i] in all
      requires Matched(WatchView()) && AllAllowed(WatchView(), before)
      modifies this`timers, this`timerView, this`events
      modifies timerList`next, timerList`prev, events`next, events`prev
      modifies watchTable, events`index, events`fd, this`readFds, this`nfds, this`fds
      ensures Idle() && events >= old(events) && fresh(events - old(events)) && Known(all, known)
      ensures timerView == AddAll(old(timerView), TimersOf(before))
      ensures Matched(WatchView()) && WatchView() == AllDone(old(WatchView()), before)
    {
      hide Valid, Known, AddAll, AllDone, AllAllowed, TimersOf, Matched;
      Callback(before, all, known);
    }

    /** One turn of ril_event_loop.  select reports the ready fds, or fails; EINTR only
        retries.  What other threads do while it sleeps, and between the scans and the
        callbacks, are deeds too.  The result tells whether the loop goes on. */
    method Turn(calcClock: Timeval, before: seq<Deed>, selected: Option<set<int>>, interrupted: bool,
                clock: Timeval, between: seq<Deed>, callbacks: seq<seq<Deed>>) returns (goOn: bool)
      requires Idle() && Normal(calcClock) && Normal(clock) && Matched(WatchView())
      requires Known(before + (between + Flat(callbacks)), events) && AllAllowed(WatchView(), before)
      requires selected.Some? ==>
        var w := AllDone(WatchView(), before);
        && |callbacks| == |Expired(AddAll(timerView, TimersOf(before)), Micros(clock))|
                        + |Ready(w.table, w.fds, selected.value)|
        && AllAllowed(AfterReady(w, selected.value), between + Flat(callbacks))
        && KeepsFds(w, selected.value, between + Flat(callbacks))
      modifies this, watchTable, timerList, pendingList, events
      ensures Idle() && Matched(WatchView()) && Matched(old(WatchView()))
      ensures events >= old(events) && fresh(events - old(events))
      ensures forall e :: e in old(events) && old(e.ring) == null ==> e.ring == null
      ensures goOn <==> selected.Some? || interrupted
      ensures var v, w := AddAll(old(timerView), TimersOf(before)), AllDone(old(WatchView()), before);
        match selected
        case None => calls == old(calls) && timerView == v && WatchView() == w
        case Some(rfds) =>
          && calls == old(calls) + Ids(Expired(v, Micros(clock))) + Params(Ready(w.table, w.fds, rfds))
          && timerView == AddAll(Live(v, Micros(clock)), TimersOf(between + Flat(callbacks)))
          && WatchView() == AllDone(AfterReady(w, rfds), between + Flat(callbacks))
    {
      hide Valid, WatchedFires, AddAll, Expired, Live, Shows, AllDone, AllAllowed, AfterReady, TimersOf, Known,
           Matched, Flat, Ready, KeepsFds;
      ghost var known, rest := events, between + Flat(callbacks);
      var tv := CalcNextTimeout(calcClock);
      PartsAmong(before, between, Flat(callbacks));
      Sleep(before, before + rest, known);
      if selected.None? {
        return interrupted;
      }
      KnownAmong(rest, before + rest, known);
      Scan(clock, selected.value, rest, known);
      FireBetween(between, callbacks, known);
      return true;
    }

    /** Other threads come in between the scans and the callbacks. */
    method FireBetween(between: seq<Deed>, callbacks: seq<seq<Deed>>, ghost known: set<Event>)
      requires Valid() && WatchedFires() && known <= events && Known(between + Flat(callbacks), known)
      requires |callbacks| == |pending|
      requires Matched(WatchView()) && AllAllowed(WatchView(), between + Flat(callbacks))
      modifies this`pending, pendingList`next, pendingList`prev, this`calls
      modifies this`timers, this`timerView, this`events
      modifies timerList`next, timerList`prev, events`next, events`prev, events`ring
      modifies watchTable, events`index, events`fd, this`readFds, this`nfds, this`fds
      ensures Valid() && WatchedUnlinked() && pending == []
      ensures events >= old(events) && fresh(events - old(events))
      ensures calls == old(calls) + Params(old(pending))
      ensures timerView == AddAll(old(timerView), TimersOf(between + Flat(callbacks)))
      ensures Matched(WatchView()) && WatchView() == AllDone(old(WatchView()), between + Flat(callbacks))
      ensures forall e :: e in old(events) && (old(e.ring) == null || e in old(pending)) ==> e.ring == null
    {
      hide Valid, WatchedFires, AddAll, AllDone, AllAllowed, TimersOf, Known, Matched, Flat, Params;
      ghost var rest, w, v := between + Flat(callbacks), WatchView(), timerView;
      PartsAmong([], between, Flat(callbacks));
      DeedsJoin(w, between, Flat(callbacks));
      Callback(between, rest, known);
      KnownAmong(Flat(callbacks), rest, known);
      KnownGrows(Flat(callbacks), known);
      FirePending(callbacks);
      TimersStep(v, between, Flat(callbacks));
    }

    lemma KnownAmong(ds: seq<Deed>, all: seq<Deed>, known: set<Event>)
      requires Known(all, known) && forall i :: 0 <= i < |ds| ==> ds[i] in all
      ensures Known(ds, known)
    {
      forall i | 0 <= i < |ds| ensures KnownDeed(ds[i], known) {
        var j :| 0 <= j < |all| && all[j] == ds[i];
        assert KnownDeed(all[j], known);
      }
    }

    /** processReadReadies with select's return value queues every ready event. */
    method ScanReady(rfds: set<int>)
      requires Valid() && WatchedUnlinked()
      modifies this`pending, pendingList`next, pendingList`prev, events`next, events`prev, events`ring
      modifies watchTable, events`index, this`readFds, this`nfds, this`fds
      ensures Valid() && WatchedFires() && Matched(old(WatchView()))
      ensures pending == old(pending) + Ready(old(watchTable[..]), old(fds), rfds)
      ensures WatchView() == AfterReady(old(WatchView()), rfds)
      ensures forall e :: e in events && old(e.ring) == null ==> e.ring == null || e in pending
    {
      hide ListsValid, WatchTableShown, CacheOk, WatchedUnlinked, WatchedFires, AfterReady, Ready;
      TableSizes();
      SelectCounts(rfds);
      ProcessReadReadies(rfds, |rfds|);
    }

    /** processTimeouts, then processReadReadies. */
    method ScanBoth(clock: Timeval, rfds: set<int>)
      requires Idle() && Normal(clock)
      modifies this`timers, this`timerView, this`pending, timerList`next, timerList`prev
      modifies pendingList`next, pendingList`prev, events`next, events`prev, events`ring
      modifies watchTable, events`index, this`readFds, this`nfds, this`fds
      ensures Valid() && WatchedFires() && Matched(old(WatchView()))
      ensures Params(pending) == Ids(Expired(old(timerView), Micros(clock)))
        + Params(Ready(old(watchTable[..]), old(fds), rfds))
      ensures timerView == Live(old(timerView), Micros(clock))
      ensures WatchView() == AfterReady(old(WatchView()), rfds)
      ensures forall e :: e in events && old(e.ring) == null ==> e.ring == null || e in pending
      ensures forall e :: e in pending && old(e.ring) == null ==> e in Ready(old(watchTable[..]), old(fds), rfds)
    {
      hide Valid, WatchedFires, WatchedUnlinked, Expired, Live, Shows, AfterReady, Ready, Params, Ids;
      ghost var v, w := timerView, WatchView();
      WatchesMatch();
      ghost var moved := MoveExpired(clock);
      ScanReady(rfds);
      ParamsOfShown(moved, Expired(v, Micros(clock)), Ready(w.table, w.fds, rfds));
    }

    /** processTimeouts in a turn: what is pending then are timers, which were linked. */
    method MoveExpired(clock: Timeval) returns (ghost moved: seq<Event>)
      requires Idle() && Normal(clock)
      modifies this`timers, this`timerView, this`pending, timerList`next, timerList`prev
      modifies pendingList`next, pendingList`prev, events`next, events`prev, events`ring
      ensures Valid() && WatchedUnlinked() && pending == moved
      ensures timerView == Live(old(timerView), Micros(clock))
      ensures Shows(moved, Expired(old(timerView), Micros(clock)))
      ensures forall e :: e in moved ==> old(e.ring) != null
      ensures forall e :: e in events && old(e.ring) == null ==> e.ring == null
    {
      hide Valid, Expired, Live, Shows;
      ghost var q, v := timers, timerView;
      TimersLinked();
      assert forall e :: e in q ==> e.ring != null;
      ProcessTimeouts(clock);
      ghost var k :| 0 <= k <= |q| && timers == q[k..] && pending == q[..k]
        && Shows(q[..k], Expired(v, Micros(clock)));
      moved := q[..k];
    }

    lemma TimersLinked()
      requires Valid()
      ensures forall i :: 0 <= i < |timers| ==> timers[i].ring != null
    {
      Owners(timerList, timers);
    }

    lemma QueuedKeepFds(rfds: set<int>, ds: seq<Deed>)
      requires Valid() && Matched(WatchView()) && KeepsFds(WatchView(), rfds, ds)
      ensures forall i :: 0 <= i < |ds| && ds[i].AddWatch? && ds[i].ev in Ready(watchTable[..], fds, rfds) ==>
        ds[i].ev.fd == ds[i].fd
    {
      hide ListsValid, CacheOk, Ready;
      forall i | 0 <= i < |ds| && ds[i].AddWatch? && ds[i].ev in Ready(watchTable[..], fds, rfds)
        ensures ds[i].ev.fd == ds[i].fd
      {
        var j := ReadyStands(watchTable[..], fds, rfds, ds[i].ev);
        assert watchTable[j] == ds[i].ev;
      }
    }

    /** What deeds name is known after the scans as before. */
    method Scan(clock: Timeval, rfds: set<int>, ghost ds: seq<Deed>, ghost known: set<Event>)
      requires Idle() && Normal(clock)
      requires Known(ds, known) && known <= events && Matched(WatchView()) && KeepsFds(WatchView(), rfds, ds)
      modifies this`timers, this`timerView, this`pending, timerList`next, timerList`prev
      modifies pendingList`next, pendingList`prev, events`next, events`prev, events`ring
      modifies watchTable, events`index, this`readFds, this`nfds, this`fds
      ensures Valid() && WatchedFires() && Known(ds, known) && Matched(old(WatchView()))
      ensures Params(pending) == Ids(Expired(old(timerView), Micros(clock)))
        + Params(Ready(old(watchTable[..]), old(fds), rfds))
      ensures timerView == Live(old(timerView), Micros(clock))
      ensures WatchView() == AfterReady(old(WatchView()), rfds)
      ensures forall e :: e in events && old(e.ring) == null ==> e.ring == null || e in pending
    {
      hide Valid, WatchedUnlinked, WatchedFires, Matched, Expired, Live, AfterReady, Ready, Params, Ids;
      QueuedKeepFds(rfds, ds);
      ScanBoth(clock, rfds);
      forall i | 0 <= i < |ds| ensures KnownDeed(ds[i], known) {
        assert old(KnownDeed(ds[i], known));
      }
    }

    /** More events than those named are no harm. */
    lemma KnownGrows(ds: seq<Deed>, known: set<Event>)
      requires Known(ds, known) && known <= events
      ensures Known(ds, events)
    {
      forall i | 0 <= i < |ds| ensures KnownDeed(ds[i], events) {
        assert KnownDeed(ds[i], known);
      }
    }
  }
}
