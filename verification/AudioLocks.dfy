// The locking of the audio wrapper: two stream-table mutexes, one mutex per wrapped
// stream and the HAL mutex, taken by any number of threads.  in_use is never set, so
// WAIT_FOR_FREE only takes the mutex.
module AudioLocks {
  import opened Options
  import opened Sequences

  datatype Dir = Out | In

  datatype Lock = TableLock(d: Dir) | StreamLock(d: Dir, id: nat) | HalLock

  /** A row of out_streams or in_streams: the wrapper handed out, the vendor stream behind
      it, and the name of its mutex. */
  datatype Entry = Entry(handle: nat, vendor: nat, id: nat)

  /** Where a thread is.  Names ending in Wait block on a mutex. */
  datatype Thread =
    // a wrapped stream call
    | CallTableWait(d: Dir, h: nat) | CallLookup(d: Dir, h: nat) | CallStreamWait(d: Dir, e: Entry)
    | CallVendor(d: Dir, e: Entry) | CallLeave(d: Dir)
    // a locked HAL call, or wrapper_close
    | HalOutWait(close: bool) | HalInWait(close: bool) | HalWait(close: bool)
    | HalVendor(close: bool) | HalLeaveIn | HalLeaveOut
    // wrapper_open_*_stream
    | OpenTableWait(d: Dir) | OpenHalWait(d: Dir) | OpenVendor(d: Dir)
    | OpenAppend(d: Dir, v: Option<nat>) | OpenLeave(d: Dir)
    // wrapper_close_*_stream
    | CloseTableWait(d: Dir, h: nat) | CloseLookup(d: Dir, h: nat) | CloseStreamWait(d: Dir, e: Entry)
    | CloseStreamHeld(d: Dir, e: Entry) | CloseRemove(d: Dir, e: Entry) | CloseHalWait(d: Dir, e: Entry)
    | CloseVendor(d: Dir, e: Entry) | CloseLeave(d: Dir)
    | Finished

  function Held(t: Thread): set<Lock> {
    match t
    case CallTableWait(_, _) | HalOutWait(_) | OpenTableWait(_) | CloseTableWait(_, _) | Finished => {}
    case CallLookup(d, _) => {TableLock(d)}
    case CallStreamWait(d, _) => {TableLock(d)}
    case CallVendor(d, e) => {TableLock(d), StreamLock(d, e.id)}
    case CallLeave(d) => {TableLock(d)}
    case HalInWait(_) | HalLeaveOut => {TableLock(Out)}
    case HalWait(_) | HalLeaveIn => {TableLock(Out), TableLock(In)}
    case HalVendor(_) => {TableLock(Out), TableLock(In), HalLock}
    case OpenHalWait(d) => {TableLock(d)}
    case OpenVendor(d) => {TableLock(d), HalLock}
    case OpenAppend(d, _) => {TableLock(d)}
    case OpenLeave(d) => {TableLock(d)}
    case CloseLookup(d, _) => {TableLock(d)}
    case CloseStreamWait(d, _) => {TableLock(d)}
    case CloseStreamHeld(d, e) => {TableLock(d), StreamLock(d, e.id)}
    case CloseRemove(d, _) => {TableLock(d)}
    case CloseHalWait(d, _) => {TableLock(d)}
    case CloseVendor(d, _) => {TableLock(d), HalLock}
    case CloseLeave(d) => {TableLock(d)}
  }

  function Wants(t: Thread): Option<Lock> {
    match t
    case CallTableWait(d, _) => Some(TableLock(d))
    case CallStreamWait(d, e) => Some(StreamLock(d, e.id))
    case HalOutWait(_) => Some(TableLock(Out))
    case HalInWait(_) => Some(TableLock(In))
    case HalWait(_) => Some(HalLock)
    case OpenTableWait(d) => Some(TableLock(d))
    case OpenHalWait(_) => Some(HalLock)
    case CloseTableWait(d, _) => Some(TableLock(d))
    case CloseStreamWait(d, e) => Some(StreamLock(d, e.id))
    case CloseHalWait(_, _) => Some(HalLock)
    case _ => None
  }

  /** What the allocator and the vendor library decide: a vendor call's result, and the
      wrapper address, None when memory is short. */
  datatype Choice = Choice(vendor: Option<nat>, handle: Option<nat>)

  /** What is remembered of the calls, by thread: what it was called for, the first row with its
      handle when it searched, the row it used, whether it has searched its table, and whether it
      has called the vendor. */
  datatype Memo = Memo(
    begun: map<nat, Thread>, found: map<nat, Entry>, served: map<nat, Entry>,
    looked: set<nat>, called: set<nat>)

  datatype State = State(
    threads: map<nat, Thread>,
    outs: seq<Entry>, ins: seq<Entry>,
    vendors: set<nat>,   // vendor streams opened and not closed
    nextId: nat,
    lost: set<nat>,      // vendor streams whose opening failed for want of memory
    memo: Memo)

  datatype Action =
    | Begin(tid: nat, t: Thread)
    | Advance(tid: nat, c: Choice)

  const START := State(map[], [], [], {}, 0, {}, Memo(map[], map[], map[], {}, {}))

  function Table(s: State, d: Dir): seq<Entry> {
    if d == Out then s.outs else s.ins
  }

  function SetTable(s: State, d: Dir, q: seq<Entry>): State {
    if d == Out then s.(outs := q) else s.(ins := q)
  }

  predicate Free(s: State, l: Lock) {
    forall u :: u in s.threads ==> l !in Held(s.threads[u])
  }

  predicate IsBegin(t: Thread) {
    t.CallTableWait? || t.HalOutWait? || t.OpenTableWait? || t.CloseTableWait?
  }

  predicate Enabled(s: State, a: Action) {
    match a
    case Begin(tid, t) => tid !in s.threads && IsBegin(t)
    case Advance(tid, c) =>
      && tid in s.threads && s.threads[tid] != Finished
      && (Wants(s.threads[tid]).Some? ==> Free(s, Wants(s.threads[tid]).value))
      && (s.threads[tid].OpenVendor? && c.vendor.Some? ==> c.vendor.value !in s.vendors)
  }

  function FindHandle(q: seq<Entry>, h: nat): (k: nat)
    ensures k <= |q| && (k < |q| ==> q[k].handle == h)
    ensures forall i :: 0 <= i < k ==> q[i].handle != h
  {
    if q == [] || q[0].handle == h then 0 else 1 + FindHandle(q[1..], h)
  }

  /** The thread's next place; tables and vendor streams change in Effect. */
  function Next(s: State, t: Thread, c: Choice): Thread
    requires t != Finished
  {
    match t
    case CallTableWait(d, h) => CallLookup(d, h)
    case CallLookup(d, h) =>
      var k := FindHandle(Table(s, d), h);
      if k < |Table(s, d)| then CallStreamWait(d, Table(s, d)[k]) else CallLeave(d)
    case CallStreamWait(d, e) => CallVendor(d, e)
    case CallVendor(d, _) => CallLeave(d)
    case CallLeave(_) => Finished
    case HalOutWait(b) => HalInWait(b)
    case HalInWait(b) => HalWait(b)
    case HalWait(b) => HalVendor(b)
    case HalVendor(_) => HalLeaveIn
    case HalLeaveIn => HalLeaveOut
    case HalLeaveOut => Finished
    case OpenTableWait(d) => OpenHalWait(d)
    case OpenHalWait(d) => OpenVendor(d)
    case OpenVendor(d) => OpenAppend(d, c.vendor)
    case OpenAppend(d, _) => OpenLeave(d)
    case OpenLeave(_) => Finished
    case CloseTableWait(d, h) => CloseLookup(d, h)
    case CloseLookup(d, h) =>
      var k := FindHandle(Table(s, d), h);
      if k < |Table(s, d)| then CloseStreamWait(d, Table(s, d)[k]) else CloseLeave(d)
    case CloseStreamWait(d, e) => CloseStreamHeld(d, e)
    case CloseStreamHeld(d, e) => CloseRemove(d, e)
    case CloseRemove(d, e) => CloseHalWait(d, e)
    case CloseHalWait(d, e) => CloseVendor(d, e)
    case CloseVendor(d, _) => CloseLeave(d)
    case CloseLeave(_) => Finished
  }

  function Effect(s: State, t: Thread, c: Choice): State {
    match t
    case OpenVendor(_) =>
      if c.vendor.Some? then s.(vendors := s.vendors + {c.vendor.value}) else s
    case OpenAppend(d, v) =>
      if v.None? then s
      else if c.handle.None? then s.(lost := s.lost + {v.value})
      else SetTable(s, d, Table(s, d) + [Entry(c.handle.value, v.value, s.nextId)]).(nextId := s.nextId + 1)
    case CloseRemove(d, e) => SetTable(s, d, RemoveFirst(Table(s, d), e))
    case CloseVendor(_, e) => s.(vendors := s.vendors - {e.vendor})
    case HalVendor(close) => if close then s.(outs := [], ins := [], vendors := {}, lost := {}) else s
    case _ => s
  }

  /** What is remembered of a call when it leaves the place t, with q the table of its stream. */
  function Remembered(m: Memo, tid: nat, t: Thread, q: seq<Entry>): Memo {
    if t.CallLookup? || t.CloseLookup? then
      var k := FindHandle(q, t.h);
      m.(looked := m.looked + {tid}, found := if k < |q| then m.found[tid := q[k]] else m.found)
    else if t.CallVendor? || t.CloseVendor? then
      m.(called := m.called + {tid}, served := m.served[tid := t.e])
    else if t.HalVendor? || t.OpenVendor? then m.(called := m.called + {tid})
    else m
  }

  /** The table a call searches. */
  function Searched(s: State, t: Thread): seq<Entry> {
    if t.CallLookup? || t.CloseLookup? then Table(s, t.d) else []
  }

  function Step(s: State, a: Action): State
    requires Enabled(s, a)
  {
    match a
    case Begin(tid, t) => s.(threads := s.threads[tid := t], memo := s.memo.(begun := s.memo.begun[tid := t]))
    case Advance(tid, c) =>
      var t := s.threads[tid];
      Effect(s, t, c).(threads := s.threads[tid := Next(s, t, c)],
                       memo := Remembered(s.memo, tid, t, Searched(s, t)))
  }

  predicate ValidRun(s: State, acts: seq<Action>)
    decreases |acts|
  {
    acts == [] || (Enabled(s, acts[0]) && ValidRun(Step(s, acts[0]), acts[1..]))
  }

  function Run(s: State, acts: seq<Action>): State
    requires ValidRun(s, acts)
    decreases |acts|
  {
    if acts == [] then s else Run(Step(s, acts[0]), acts[1..])
  }

  // ---------------------------------------------------------------------------
  // Deadlock freedom.

  /** Out-streams before in-streams before any stream before the HAL. */
  function Rank(l: Lock): nat {
    match l
    case TableLock(d) => if d == Out then 0 else 1
    case StreamLock(_, _) => 2
    case HalLock => 3
  }

  lemma LockOrder(t: Thread)
    ensures Wants(t).Some? ==> forall l :: l in Held(t) ==> Rank(l) < Rank(Wants(t).value)
  {
  }

  /** From any blocked thread, following owners leads up the lock order to a thread that can move. */
  lemma {:induction false} Unblocked(s: State, tid: nat) returns (u: nat)
    requires tid in s.threads && s.threads[tid] != Finished
    ensures u in s.threads && Enabled(s, Advance(u, Choice(None, None)))
    decreases if Wants(s.threads[tid]).Some? then 4 - Rank(Wants(s.threads[tid]).value) else 0
  {
    u := tid;
    if Wants(s.threads[tid]).Some? && !Free(s, Wants(s.threads[tid]).value) {
      var l := Wants(s.threads[tid]).value;
      var v :| v in s.threads && l in Held(s.threads[v]);
      LockOrder(s.threads[v]);
      u := Unblocked(s, v);
    }
  }

  /** The steps a thread still has to take. */
  function Remaining(t: Thread): nat {
    match t
    case CallTableWait(_, _) => 5 case CallLookup(_, _) => 4 case CallStreamWait(_, _) => 3
    case CallVendor(_, _) => 2 case CallLeave(_) => 1
    case HalOutWait(_) => 6 case HalInWait(_) => 5 case HalWait(_) => 4 case HalVendor(_) => 3
    case HalLeaveIn => 2 case HalLeaveOut => 1
    case OpenTableWait(_) => 5 case OpenHalWait(_) => 4 case OpenVendor(_) => 3
    case OpenAppend(_, _) => 2 case OpenLeave(_) => 1
    case CloseTableWait(_, _) => 8 case CloseLookup(_, _) => 7 case CloseStreamWait(_, _) => 6
    case CloseStreamHeld(_, _) => 5 case CloseRemove(_, _) => 4 case CloseHalWait(_, _) => 3
    case CloseVendor(_, _) => 2 case CloseLeave(_) => 1
    case Finished => 0
  }

  function Total(threads: map<nat, Thread>, ids: set<nat>): nat
    requires ids <= threads.Keys
  {
    if ids == {} then 0
    else var m := Least(ids); Remaining(threads[m]) + Total(threads, ids - {m})
  }

  predicate IsLeast(m: nat, ids: set<nat>) {
    m in ids && forall k :: k in ids ==> m <= k
  }

  /** A fixed choice of an element, so that Total is a function. */
  function Least(ids: set<nat>): (m: nat)
    requires ids != {}
    ensures IsLeast(m, ids)
  {
    LeastExists(ids);
    var m :| IsLeast(m, ids);
    m
  }

  lemma {:induction false} LeastExists(ids: set<nat>)
    requires ids != {}
    ensures exists m :: IsLeast(m, ids)
  {
    var x :| x in ids;
    if ids == {x} {
      assert IsLeast(x, ids);
    } else {
      LeastExists(ids - {x});
      var m :| IsLeast(m, ids - {x});
      LeastOfTwo(ids, x, m);
    }
  }

  lemma LeastOfTwo(ids: set<nat>, x: nat, m: nat)
    requires x in ids && IsLeast(m, ids - {x})
    ensures IsLeast(if x < m then x else m, ids)
  {
    assert forall k :: k in ids ==> k == x || k in ids - {x};
  }

  lemma {:induction false} TotalDrops(a: map<nat, Thread>, b: map<nat, Thread>, ids: set<nat>, tid: nat)
    requires ids <= a.Keys && ids <= b.Keys
    requires forall u :: u in ids && u != tid ==> a[u] == b[u]
    requires tid in ids ==> Remaining(b[tid]) < Remaining(a[tid])
    ensures if tid in ids then Total(b, ids) < Total(a, ids) else Total(b, ids) == Total(a, ids)
  {
    if ids != {} {
      var m := Least(ids);
      TotalDrops(a, b, ids - {m}, tid);
    }
  }

  lemma NextDrops(s: State, t: Thread, c: Choice)
    requires t != Finished
    ensures Remaining(Next(s, t, c)) < Remaining(t)
  {
    hide Table, FindHandle;
  }

  /** Every step of a thread brings its call closer to the end. */
  lemma AdvanceDrops(s: State, a: Action)
    requires a.Advance? && Enabled(s, a)
    ensures Total(Step(s, a).threads, s.threads.Keys) < Total(s.threads, s.threads.Keys)
  {
    NextDrops(s, s.threads[a.tid], a.c);
    hide Next, Remaining, Total, Effect, Remembered, Searched, Held, Wants;
    TotalDrops(s.threads, Step(s, a).threads, s.threads.Keys, a.tid);
  }

  /** No state is deadlocked, and from every state the calls in progress can all be finished. */
  lemma {:induction false} EveryCallCanFinish(s: State) returns (acts: seq<Action>)
    ensures ValidRun(s, acts) && (forall i :: 0 <= i < |acts| ==> acts[i].Advance?)
    ensures forall u :: u in s.threads ==> u in Run(s, acts).threads && Run(s, acts).threads[u] == Finished
    decreases Total(s.threads, s.threads.Keys)
  {
    if tid :| tid in s.threads && s.threads[tid] != Finished {
      var u := Unblocked(s, tid);
      var a := Advance(u, Choice(None, None));
      AdvanceDrops(s, a);
      assert Step(s, a).threads.Keys == s.threads.Keys;
      var rest := EveryCallCanFinish(Step(s, a));
      acts := [a] + rest;
      assert acts[1..] == rest;
    } else {
      acts := [];
    }
  }
}
