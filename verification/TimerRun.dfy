// Whole runs of the timer side of the event loop: timers are added at any
// moment, by callbacks or by other threads, while the loop expires and fires.
module TimerRun {
  import opened TimerQueue

  datatype Action =
    | Add(id: nat, now: int, interval: nat)  // ril_timer_add, reading the clock under the mutex
    | Expire(now: int)                       // processTimeouts
    | Fire                                   // one round of firePending

  /** What is known of a timer from the moment it is added: its deadline and the
      number of expiry scans that ran before. */
  datatype Birth = Birth(due: int, round: nat)

  datatype State = State(
    timers: seq<Timer>, pending: seq<Timer>,
    fired: seq<Timer>, rounds: seq<nat>,  // the callbacks made, and the scan that released each
    scans: seq<int>,                      // the clock of every scan so far
    born: map<nat, Birth>, clock: int)

  function Start(clock: int): State {
    State([], [], [], [], [], map[], clock)
  }

  /** The clock never goes back, a new timer has a new name, and the loop scans
      again only after it has fired what it moved. */
  predicate Enabled(s: State, a: Action) {
    match a
    case Add(id, now, _) => s.clock <= now && id !in s.born
    case Expire(now) => s.clock <= now && s.pending == []
    case Fire => s.pending != []
  }

  function Step(s: State, a: Action): State
    requires Enabled(s, a)
  {
    match a
    case Add(id, now, interval) =>
      s.(timers := Insert(s.timers, Timer(id, now + interval)),
         born := s.born[id := Birth(now + interval, |s.scans|)], clock := now)
    case Expire(now) =>
      s.(timers := Live(s.timers, now), pending := Expired(s.timers, now),
         scans := s.scans + [now], clock := now)
    case Fire =>
      s.(pending := s.pending[1..], fired := s.fired + [s.pending[0]],
         rounds := s.rounds + [if s.scans == [] then 0 else |s.scans| - 1])
  }

  predicate ValidRun(s: State, acts: seq<Action>)
    decreases |acts|
  {
    acts == [] || (Enabled(s, acts[0]) && ValidRun(Step(s, acts[0]), acts[1..]))
  }

  function Run(s: State, acts: seq<Action>): State
    requires ValidRun(s, acts)
    decreases |acts|
  {
    if acts == [] then s else Run(Step(s, acts[0]), acts[1..])
  }

  /** Scan r is the first one since the timer's birth whose clock is strictly past its deadline. */
  predicate FirstPast(scans: seq<int>, b: Birth, r: nat) {
    b.round <= r < |scans| && b.due < scans[r] && forall j :: b.round <= j < r ==> scans[j] <= b.due
  }

  predicate NotYetPast(scans: seq<int>, b: Birth) {
    forall j :: b.round <= j < |scans| ==> scans[j] <= b.due
  }

  predicate Known(s: State, t: Timer) {
    t.id in s.born && s.born[t.id].due == t.due && s.born[t.id].round <= |s.scans|
  }

  predicate Ordered(s: State) {
    && Sorted(s.timers) && Sorted(s.fired + s.pending)
    && (forall i :: 0 <= i < |s.scans| ==> s.scans[i] <= s.clock)
    && (forall t :: t in s.timers && s.scans != [] ==> s.scans[|s.scans| - 1] <= t.due)
    && (forall t :: t in s.fired + s.pending ==> s.scans != [] && t.due < s.scans[|s.scans| - 1])
  }

  predicate Timely(s: State) {
    && |s.rounds| == |s.fired|
    && (forall t :: t in s.timers ==> Known(s, t) && NotYetPast(s.scans, s.born[t.id]))
    && (forall t :: t in s.pending ==>
          Known(s, t) && s.scans != [] && FirstPast(s.scans, s.born[t.id], |s.scans| - 1))
    && (forall i :: 0 <= i < |s.fired| ==>
          Known(s, s.fired[i]) && FirstPast(s.scans, s.born[s.fired[i].id], s.rounds[i]))
  }

  /** Every timer ever added is in exactly one place, once. */
  predicate Conserved(s: State) {
    multiset(Ids(s.timers)) + multiset(Ids(s.pending)) + multiset(Ids(s.fired)) == multiset(s.born.Keys)
  }

  predicate Inv(s: State) {
    Ordered(s) && Timely(s) && Conserved(s)
  }

  lemma NoIds()
    ensures Ids([]) == []
  {
  }

  lemma IdsJoin(a: seq<Timer>, b: seq<Timer>)
    ensures Ids(a + b) == Ids(a) + Ids(b)
    ensures multiset(Ids(a + b)) == multiset(Ids(a)) + multiset(Ids(b))
  {
    assert Ids(a + b) == Ids(a) + Ids(b);
  }

  lemma {:induction false} IdsOfExpiry(q: seq<Timer>, now: int)
    ensures multiset(Ids(q)) == multiset(Ids(Expired(q, now))) + multiset(Ids(Live(q, now)))
  {
    hide Ids;
    if q != [] {
      var head, rest := [q[0]], q[1..];
      IdsOfExpiry(rest, now);
      assert q == head + rest;
      IdsJoin(head, rest);
      IdsJoin(head, Expired(rest, now));
      IdsJoin(head, Live(rest, now));
    } else {
      NoIds();
    }
  }

  lemma IdsOfInsert(q: seq<Timer>, t: Timer)
    ensures multiset(Ids(Insert(q, t))) == multiset(Ids(q)) + multiset{t.id}
  {
    var k := Slot(q, t.due);
    assert q == q[..k] + q[k..];
    IdsJoin(q[..k], q[k..]);
    IdsJoin(q[..k], [t]);
    IdsJoin(q[..k] + [t], q[k..]);
    assert Ids([t]) == [t.id];
  }

  lemma InsertMembers(q: seq<Timer>, t: Timer)
    ensures forall u :: u in Insert(q, t) <==> u == t || u in q
  {
    InsertKeepsTimers(q, t);
    hide Insert;
    assert forall u :: u in Insert(q, t) <==> u in multiset(Insert(q, t));
  }

  lemma AddKeepsOrdered(s: State, a: Action)
    requires a.Add? && Enabled(s, a) && Ordered(s)
    ensures Ordered(Step(s, a))
  {
    hide Sorted, Insert;
    var t := Timer(a.id, a.now + a.interval);
    InsertKeepsOrder(s.timers, t);
    InsertMembers(s.timers, t);
  }

  lemma AddKeepsTimely(s: State, a: Action)
    requires a.Add? && Enabled(s, a) && Timely(s)
    ensures Timely(Step(s, a))
  {
    hide Insert;
    InsertMembers(s.timers, Timer(a.id, a.now + a.interval));
  }

  lemma AddKeepsConserved(s: State, a: Action)
    requires a.Add? && Enabled(s, a) && Conserved(s)
    ensures Conserved(Step(s, a))
  {
    hide Insert;
    var s' := Step(s, a);
    IdsOfInsert(s.timers, Timer(a.id, a.now + a.interval));
    assert s'.born.Keys == s.born.Keys + {a.id};
    assert multiset(s'.born.Keys) == multiset(s.born.Keys) + multiset{a.id};
  }

  lemma ExpireKeepsOrdered(s: State, a: Action)
    requires a.Expire? && Enabled(s, a) && Ordered(s)
    ensures Ordered(Step(s, a))
  {
    hide Sorted, Expired, Live;
    var s' := Step(s, a);
    ExpiryKeepsOrder(s.timers, a.now);
    ExpirySplits(s.timers, a.now);
    assert s.fired + s.pending == s.fired;
    if s.fired == [] {
      assert s'.fired + s'.pending == s'.pending;
    } else {
      assert s.fired[0] in s.fired + s.pending;
      OrderedJoin(s.fired, s'.pending, s.scans[|s.scans| - 1]);
    }
  }

  lemma ExpireKeepsTimely(s: State, a: Action)
    requires a.Expire? && Enabled(s, a) && Timely(s)
    ensures Timely(Step(s, a))
  {
    hide Expired, Live;
    ExpirySplits(s.timers, a.now);
  }

  lemma ExpireKeepsConserved(s: State, a: Action)
    requires a.Expire? && Enabled(s, a) && Conserved(s)
    ensures Conserved(Step(s, a))
  {
    hide Expired, Live;
    IdsOfExpiry(s.timers, a.now);
    assert Ids(s.pending) == [];
  }

  lemma OrderedJoin(a: seq<Timer>, b: seq<Timer>, cut: int)
    requires Sorted(a) && Sorted(b)
    requires forall t :: t in a ==> t.due <= cut
    requires forall t :: t in b && a != [] ==> cut <= t.due
    ensures Sorted(a + b)
  {
    forall i, j | 0 <= i < j < |a + b| ensures (a + b)[i].due <= (a + b)[j].due {
      if i < |a| <= j {
        assert a[i].due <= cut <= b[j - |a|].due;
      }
    }
  }

  lemma FireKeepsOrdered(s: State, a: Action)
    requires a.Fire? && Enabled(s, a) && Ordered(s)
    ensures Ordered(Step(s, a))
  {
    hide Sorted;
    assert Step(s, a).fired + Step(s, a).pending == s.fired + s.pending;
  }

  lemma FireKeepsTimely(s: State, a: Action)
    requires a.Fire? && Enabled(s, a) && Timely(s)
    ensures Timely(Step(s, a))
  {
    hide FirstPast, NotYetPast;
    assert s.pending[0] in s.pending;
    assert forall t :: t in s.pending[1..] ==> t in s.pending;
  }

  lemma FireKeepsConserved(s: State, a: Action)
    requires a.Fire? && Enabled(s, a) && Conserved(s)
    ensures Conserved(Step(s, a))
  {
    hide Ids;
    assert s.pending == [s.pending[0]] + s.pending[1..];
    IdsJoin([s.pending[0]], s.pending[1..]);
    IdsJoin(s.fired, [s.pending[0]]);
  }

  lemma {:induction false} RunKeeps(s: State, acts: seq<Action>)
    requires Inv(s) && ValidRun(s, acts)
    ensures Inv(Run(s, acts))
    decreases |acts|
  {
    hide Ordered, Timely, Conserved;
    if acts != [] {
      match acts[0]
      case Add(_, _, _) =>
        AddKeepsOrdered(s, acts[0]);
        AddKeepsTimely(s, acts[0]);
        AddKeepsConserved(s, acts[0]);
        RunKeeps(Step(s, acts[0]), acts[1..]);
      case Expire(_) =>
        ExpireKeepsOrdered(s, acts[0]);
        ExpireKeepsTimely(s, acts[0]);
        ExpireKeepsConserved(s, acts[0]);
        RunKeeps(Step(s, acts[0]), acts[1..]);
      case Fire =>
        FireKeepsOrdered(s, acts[0]);
        FireKeepsTimely(s, acts[0]);
        FireKeepsConserved(s, acts[0]);
        RunKeeps(Step(s, acts[0]), acts[1..]);
    }
  }

  /** A sequence whose multiset is part of a set's has no repetitions. */
  lemma NoRepeats(q: seq<nat>, keys: set<nat>)
    requires multiset(q) <= multiset(keys)
    ensures forall i, j :: 0 <= i < j < |q| ==> q[i] != q[j]
    ensures forall i :: 0 <= i < |q| ==> q[i] in keys
  {
    forall i | 0 <= i < |q| ensures q[i] in keys {
      assert q[i] in multiset(q);
    }
    forall i, j | 0 <= i < j < |q| ensures q[i] != q[j] {
      assert multiset(q)[q[i]] <= 1;
      assert q == q[..j] + q[j..];
      assert q[i] in q[..j] && q[j] in q[j..];
    }
  }

  /** The callbacks are made in deadline order, each timer's at most once, and the scan
      that released a timer is the first whose clock was strictly past its deadline. */
  predicate FiredWell(s: State) {
    && Sorted(s.fired)
    && (forall i, j :: 0 <= i < j < |s.fired| ==> s.fired[i].id != s.fired[j].id)
    && |s.rounds| == |s.fired|
    && (forall i :: 0 <= i < |s.fired| ==>
          && Known(s, s.fired[i])
          && FirstPast(s.scans, s.born[s.fired[i].id], s.rounds[i]))
  }

  lemma InvMeans(s: State)
    requires Inv(s)
    ensures FiredWell(s)
  {
    hide FirstPast, Known;
    NoRepeats(Ids(s.fired), s.born.Keys);
    forall i, j | 0 <= i < j < |s.fired|
      ensures s.fired[i].id != s.fired[j].id && s.fired[i].due <= s.fired[j].due
    {
      assert Ids(s.fired)[i] != Ids(s.fired)[j];
      assert (s.fired + s.pending)[i].due <= (s.fired + s.pending)[j].due;
    }
  }

  lemma StartIsSafe(clock: int)
    ensures Inv(Start(clock))
  {
    NoIds();
  }

  /** Every run of the loop fires well, whatever callbacks and other threads add. */
  lemma FiringTheorem(clock: int, acts: seq<Action>)
    requires ValidRun(Start(clock), acts)
    ensures FiredWell(Run(Start(clock), acts))
  {
    StartIsSafe(clock);
    RunKeeps(Start(clock), acts);
    InvMeans(Run(Start(clock), acts));
  }

  lemma InSomePlace(s: State, id: nat)
    requires Conserved(s) && id in s.born
    ensures id in Ids(s.timers) || id in Ids(s.pending) || id in Ids(s.fired)
  {
    assert id in multiset(s.born.Keys);
    assert id in multiset(Ids(s.timers)) + multiset(Ids(s.pending)) + multiset(Ids(s.fired));
  }

  /** A timer has been fired exactly if some scan since its birth found its deadline past. */
  predicate Accounted(s: State, id: nat)
    requires id in s.born
  {
    id in Ids(s.fired) <==>
      exists r :: s.born[id].round <= r < |s.scans| && s.born[id].due < s.scans[r]
  }

  lemma DrainedAccount(s: State, id: nat)
    requires Inv(s) && s.pending == [] && id in s.born
    ensures Accounted(s, id)
  {
    hide Ordered, Conserved;
    InSomePlace(s, id);
    if id in Ids(s.fired) {
      var i :| 0 <= i < |s.fired| && s.fired[i].id == id;
      assert FirstPast(s.scans, s.born[id], s.rounds[i]);
    } else {
      var k :| 0 <= k < |s.timers| && s.timers[k].id == id;
      assert s.timers[k] in s.timers;
    }
  }

  lemma AllAccounted(s: State)
    requires Inv(s) && s.pending == []
    ensures forall id :: id in s.born ==> Accounted(s, id)
  {
    hide Accounted, Inv;
    forall id | id in s.born ensures Accounted(s, id) {
      DrainedAccount(s, id);
    }
  }

  /** Nothing is lost once the loop has drained its pending list. */
  lemma NoTimerIsMissed(clock: int, acts: seq<Action>, id: nat)
    requires ValidRun(Start(clock), acts)
    requires var s := Run(Start(clock), acts); s.pending == [] && id in s.born
    ensures Accounted(Run(Start(clock), acts), id)
  {
    StartIsSafe(clock);
    RunKeeps(Start(clock), acts);
    DrainedAccount(Run(Start(clock), acts), id);
  }
}
