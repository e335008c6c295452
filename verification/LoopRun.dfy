// Any number of turns of the heap-based loop are a TimerRun: what Loop.Turn does to
// the timers and to the callbacks is what Add, Expire and Fire do one by one.
module LoopRun {
  import opened Options
  import opened TimeVal
  import opened TimerQueue
  import opened EventLists
  import opened EventLoop
  import opened TimerRun

  predicate Later(rs: seq<Request>) {
    forall i :: 0 <= i < |rs| ==> 0 <= Micros(rs[i].interval)
  }

  predicate AllLater(cs: seq<seq<Deed>>) {
    forall i :: 0 <= i < |cs| ==> Later(TimersOf(cs[i]))
  }

  function Asks(rs: seq<Request>): seq<Action>
    requires Later(rs)
  {
    if rs == [] then []
    else [Action.Add(rs[0].param, Micros(rs[0].clock), Micros(rs[0].interval))] + Asks(rs[1..])
  }

  /** The callbacks of a turn: the first n belong to expired timers, the others to ready fds. */
  function Calls(n: nat, cs: seq<seq<Deed>>): seq<Action>
    requires AllLater(cs)
  {
    if cs == [] then []
    else OneCalls(n > 0, cs[0]) + Calls(if n > 0 then n - 1 else 0, cs[1..])
  }

  function OneCalls(fires: bool, ds: seq<Deed>): seq<Action>
    requires Later(TimersOf(ds))
  {
    (if fires then [Fire] else []) + Asks(TimersOf(ds))
  }

  lemma {:induction false} RunJoin(s: State, a: seq<Action>, b: seq<Action>)
    requires ValidRun(s, a + b)
    ensures ValidRun(s, a) && ValidRun(Run(s, a), b) && Run(s, a + b) == Run(Run(s, a), b)
    decreases |a|
  {
    hide Enabled, Step;
    if a == [] {
      assert a + b == b;
    } else {
      assert (a + b)[1..] == a[1..] + b;
      RunJoin(Step(s, a[0]), a[1..], b);
    }
  }

  lemma {:induction false} AddAllFirst(v: seq<Timer>, r: Request, rs: seq<Request>)
    ensures AddAll(v, [r] + rs) ==
            AddAll(Insert(v, Timer(r.param, Micros(r.clock) + Micros(r.interval))), rs)
  {
    hide Insert;
    AddAllInTurn(v, [r], rs);
    AddAllInTurn(v, [], []);
    assert [r][..0] == [];
  }

  /** What was moved and what was fired is the same in both. */
  predicate OnlyAdds(s: State, s': State) {
    s'.pending == s.pending && s'.fired == s.fired
  }

  lemma {:induction false} AsksAdd(s: State, rs: seq<Request>)
    requires Later(rs) && ValidRun(s, Asks(rs))
    ensures var s' := Run(s, Asks(rs)); s'.timers == AddAll(s.timers, rs) && OnlyAdds(s, s')
    decreases |rs|
  {
    hide Insert;
    if rs == [] {
      AddAllInTurn(s.timers, [], []);
    } else {
      var acts := Asks(rs);
      assert acts[1..] == Asks(rs[1..]);
      AsksAdd(Step(s, acts[0]), rs[1..]);
      AddAllFirst(s.timers, rs[0], rs[1..]);
      assert [rs[0]] + rs[1..] == rs;
    }
  }

  lemma FlatNone()
    ensures Flat<Deed>([]) == [] && TimersOf([]) == []
  {
  }

  lemma {:induction false} FlatFirst<T>(c: seq<T>, cs: seq<seq<T>>)
    ensures Flat([c] + cs) == c + Flat(cs)
  {
    var all := [c] + cs;
    if cs == [] {
      assert all[..0] == [];
    } else {
      var front, last := cs[..|cs| - 1], cs[|cs| - 1];
      FlatFirst(c, front);
      assert all[..|all| - 1] == [c] + front && all[|all| - 1] == last;
      assert (c + Flat(front)) + last == c + (Flat(front) + last);
    }
  }

  lemma FireStep(s: State, acts: seq<Action>)
    requires s.pending != [] && ValidRun(s, [Fire] + acts)
    ensures ValidRun(Step(s, Fire), acts) && Run(s, [Fire] + acts) == Run(Step(s, Fire), acts)
  {
    assert ([Fire] + acts)[1..] == acts;
  }

  /** One callback: the event, if it is a timer, is fired, then its requests are added. */
  lemma OneCall(s: State, ds: seq<Deed>)
    requires Later(TimersOf(ds)) && ValidRun(s, OneCalls(s.pending != [], ds))
    ensures var s' := Run(s, OneCalls(s.pending != [], ds));
      && s'.timers == AddAll(s.timers, TimersOf(ds))
      && if s.pending == [] then s'.pending == [] && s'.fired == s.fired
         else s'.pending == s.pending[1..] && s'.fired == s.fired + [s.pending[0]]
  {
    hide AddAll, Asks, TimersOf, ValidRun, Run, Later;
    var asks := Asks(TimersOf(ds));
    if s.pending == [] {
      assert [] + asks == asks;
      AsksAdd(s, TimersOf(ds));
    } else {
      FireStep(s, asks);
      AsksAdd(Step(s, Fire), TimersOf(ds));
    }
  }

  lemma {:induction false} CallsRun(s: State, cs: seq<seq<Deed>>)
    requires AllLater(cs) && |s.pending| <= |cs| && ValidRun(s, Calls(|s.pending|, cs))
    ensures var s' := Run(s, Calls(|s.pending|, cs));
      && s'.timers == AddAll(s.timers, TimersOf(Flat(cs)))
      && s'.pending == [] && s'.fired == s.fired + s.pending
    decreases |cs|
  {
    hide AddAll, Flat, TimersOf, OneCalls, ValidRun, Run, Later;
    if cs == [] {
      FlatNone();
      NoActs(s);
    } else {
      var first := OneCalls(s.pending != [], cs[0]);
      RunJoin(s, first, Calls(if |s.pending| > 0 then |s.pending| - 1 else 0, cs[1..]));
      OneCall(s, cs[0]);
      CallsRun(Run(s, first), cs[1..]);
      TimersStep(s.timers, cs[0], Flat(cs[1..]));
      FlatFirst(cs[0], cs[1..]);
      assert [cs[0]] + cs[1..] == cs;
    }
  }

  lemma NoActs(s: State)
    ensures ValidRun(s, []) && Run(s, []) == s && AddAll(s.timers, []) == s.timers
  {
  }

  /** What one turn meets: the clocks it reads, what select reports, what other threads do, and
      what the callbacks do. */
  datatype Input = Input(
    calcClock: Timeval, before: seq<Deed>, selected: Option<set<int>>, interrupted: bool,
    clock: Timeval, between: seq<Deed>, callbacks: seq<seq<Deed>>)

  datatype View = View(timers: seq<Timer>, watches: Watches)

  /** The callbacks of one turn. */
  datatype Round = Round(expired: seq<Timer>, ready: seq<nat>)

  predicate GoesOn(i: Input) {
    i.selected.Some? || i.interrupted
  }

  /** When select returns. */
  ghost function Waited(x: View, i: Input): (x': View)
    requires Matched(x.watches)
    ensures Matched(x'.watches)
  {
    View(AddAll(x.timers, TimersOf(i.before)), AllDone(x.watches, i.before))
  }

  ghost function Turned(x: View, i: Input): (x': View)
    requires Matched(x.watches)
    ensures Matched(x'.watches)
  {
    var x1 := Waited(x, i);
    if i.selected.None? then x1
    else
      var late := i.between + Flat(i.callbacks);
      View(AddAll(Live(x1.timers, Micros(i.clock)), TimersOf(late)),
           AllDone(AfterReady(x1.watches, i.selected.value), late))
  }

  ghost function RoundOf(x: View, i: Input): Round
    requires Matched(x.watches)
  {
    var x1 := Waited(x, i);
    if i.selected.None? then Round([], [])
    else
      Round(Expired(x1.timers, Micros(i.clock)),
            Params(Ready(x1.watches.table, x1.watches.fds, i.selected.value)))
  }

  /** There is one list of deeds for each callback, and nobody watches an event or an fd twice or
      sets a queued event to another fd. */
  ghost predicate Accepted(x: View, i: Input)
    requires Matched(x.watches)
  {
    && Normal(i.calcClock) && Normal(i.clock)
    && Later(TimersOf(i.before)) && Later(TimersOf(i.between)) && AllLater(i.callbacks)
    && AllAllowed(x.watches, i.before)
    && (i.selected.Some? ==>
          && |i.callbacks| == |RoundOf(x, i).expired| + |RoundOf(x, i).ready|
          && AllAllowed(AfterReady(Waited(x, i).watches, i.selected.value), i.between + Flat(i.callbacks))
          && KeepsFds(Waited(x, i).watches, i.selected.value, i.between + Flat(i.callbacks)))
  }

  /** The actions of a turn: the requests while select sleeps, one scan, the requests made
      between the scans and the callbacks, the callbacks. */
  ghost function ActsOf(x: View, i: Input): seq<Action>
    requires Matched(x.watches) && Accepted(x, i)
  {
    Asks(TimersOf(i.before)) +
    if i.selected.None? then []
    else [Expire(Micros(i.clock))] + (Asks(TimersOf(i.between)) + Calls(|RoundOf(x, i).expired|, i.callbacks))
  }

  /** The timers and callbacks that Loop.Turn promises are those of the run that scans
      once and then makes the callbacks, so every theorem about runs speaks about the loop. */
  lemma TurnIsRun(s: State, x: View, i: Input)
    requires Matched(x.watches) && Accepted(x, i) && s.timers == x.timers && s.pending == []
    requires ValidRun(s, ActsOf(x, i))
    ensures var s' := Run(s, ActsOf(x, i));
      s'.timers == Turned(x, i).timers && s'.pending == [] && s'.fired == s.fired + RoundOf(x, i).expired
  {
    hide AddAll, Asks, Calls, ValidRun, Run, Later, AllLater, Flat, AllAllowed, Expired, Live, AfterReady,
         TimersOf, AllDone, Ready, Matched, KeepsFds;
    var before, between := TimersOf(i.before), TimersOf(i.between);
    if i.selected.None? {
      assert Asks(before) + [] == Asks(before);
      AsksAdd(s, before);
    } else {
      var now, calls := Micros(i.clock), Calls(|RoundOf(x, i).expired|, i.callbacks);
      var rest := Asks(between) + calls;
      RunJoin(s, Asks(before), [Expire(now)] + rest);
      AsksAdd(s, before);
      var s1 := Run(s, Asks(before));
      ScanStep(s1, now, rest);
      var s2 := Step(s1, Expire(now));
      RunJoin(s2, Asks(between), calls);
      AsksAdd(s2, between);
      CallsRun(Run(s2, Asks(between)), i.callbacks);
      TimersStep(s2.timers, i.between, Flat(i.callbacks));
    }
  }

  lemma ScanStep(s: State, now: int, acts: seq<Action>)
    requires ValidRun(s, [Expire(now)] + acts)
    ensures Enabled(s, Expire(now)) && ValidRun(Step(s, Expire(now)), acts)
    ensures Run(s, [Expire(now)] + acts) == Run(Step(s, Expire(now)), acts)
  {
    assert ([Expire(now)] + acts)[1..] == acts;
  }

  // ---------------------------------------------------------------------------
  // Many turns.

  ghost function AllTurned(x: View, inputs: seq<Input>): (x': View)
    requires Matched(x.watches)
    ensures Matched(x'.watches)
  {
    if inputs == [] then x else Turned(AllTurned(x, inputs[..|inputs| - 1]), inputs[|inputs| - 1])
  }

  ghost predicate AllAccepted(x: View, inputs: seq<Input>)
    requires Matched(x.watches)
  {
    inputs == [] ||
    (var front := inputs[..|inputs| - 1];
     AllAccepted(x, front) && Accepted(AllTurned(x, front), inputs[|inputs| - 1]))
  }

  ghost function Rounds(x: View, inputs: seq<Input>): seq<Round>
    requires Matched(x.watches)
  {
    if inputs == [] then []
    else
      var front := inputs[..|inputs| - 1];
      Rounds(x, front) + [RoundOf(AllTurned(x, front), inputs[|inputs| - 1])]
  }

  ghost function AllActs(x: View, inputs: seq<Input>): seq<Action>
    requires Matched(x.watches) && AllAccepted(x, inputs)
  {
    if inputs == [] then []
    else
      var front := inputs[..|inputs| - 1];
      AllActs(x, front) + ActsOf(AllTurned(x, front), inputs[|inputs| - 1])
  }

  function FiredIn(rs: seq<Round>): seq<Timer> {
    if rs == [] then [] else FiredIn(rs[..|rs| - 1]) + rs[|rs| - 1].expired
  }

  /** In every turn the timers are called first, then the events of ready fds. */
  function CalledIn(rs: seq<Round>): seq<nat> {
    if rs == [] then []
    else CalledIn(rs[..|rs| - 1]) + Ids(rs[|rs| - 1].expired) + rs[|rs| - 1].ready
  }

  /** The last turn apart. */
  lemma LastTurn(x: View, inputs: seq<Input>)
    requires Matched(x.watches) && AllAccepted(x, inputs) && inputs != []
    ensures var front, last := inputs[..|inputs| - 1], inputs[|inputs| - 1];
      var x1 := AllTurned(x, front);
      && AllAccepted(x, front) && Accepted(x1, last)
      && AllActs(x, inputs) == AllActs(x, front) + ActsOf(x1, last)
      && AllTurned(x, inputs) == Turned(x1, last)
      && FiredIn(Rounds(x, inputs)) == FiredIn(Rounds(x, front)) + RoundOf(x1, last).expired
  {
    hide Turned, RoundOf, ActsOf, Accepted, Matched;
    var front, last := inputs[..|inputs| - 1], inputs[|inputs| - 1];
    CallsJoin(Rounds(x, front), RoundOf(AllTurned(x, front), last));
  }

  /** Turns one after the other are one run. */
  lemma {:induction false} TurnsAreRun(s: State, x: View, inputs: seq<Input>)
    requires Matched(x.watches) && AllAccepted(x, inputs) && s.timers == x.timers && s.pending == []
    requires ValidRun(s, AllActs(x, inputs))
    ensures var s' := Run(s, AllActs(x, inputs));
      && s'.timers == AllTurned(x, inputs).timers && s'.pending == []
      && s'.fired == s.fired + FiredIn(Rounds(x, inputs))
  {
    hide ValidRun, Run, Turned, RoundOf, ActsOf, Accepted, Matched;
    if inputs == [] {
      NoActs(s);
    } else {
      LastTurn(x, inputs);
      hide AllActs, AllTurned, AllAccepted, Rounds, FiredIn;
      var front, last := inputs[..|inputs| - 1], inputs[|inputs| - 1];
      RunJoin(s, AllActs(x, front), ActsOf(AllTurned(x, front), last));
      TurnsAreRun(s, x, front);
      TurnIsRun(Run(s, AllActs(x, front)), AllTurned(x, front), last);
    }
  }

  lemma RoundsJoin(x: View, front: seq<Input>, last: Input)
    requires Matched(x.watches)
    ensures AllTurned(x, front + [last]) == Turned(AllTurned(x, front), last)
    ensures Rounds(x, front + [last]) == Rounds(x, front) + [RoundOf(AllTurned(x, front), last)]
  {
    assert (front + [last])[..|front|] == front;
  }

  lemma CallsJoin(rs: seq<Round>, r: Round)
    ensures FiredIn(rs + [r]) == FiredIn(rs) + r.expired
    ensures CalledIn(rs + [r]) == CalledIn(rs) + Ids(r.expired) + r.ready
  {
    assert (rs + [r])[..|rs|] == rs;
  }

  lemma {:induction false} AcceptedAt(x: View, inputs: seq<Input>, k: nat)
    requires Matched(x.watches) && AllAccepted(x, inputs) && k < |inputs|
    ensures Accepted(AllTurned(x, inputs[..k]), inputs[k])
  {
    hide Turned, Accepted, Matched;
    var front := inputs[..|inputs| - 1];
    if k < |front| {
      AcceptedAt(x, front, k);
      assert front[..k] == inputs[..k];
    }
  }

  // ---------------------------------------------------------------------------
  // The loop itself.

  ghost function ViewOf(loop: Loop): View
    reads loop`timerView, loop`fds, loop.watchTable
  {
    View(loop.timerView, loop.WatchView())
  }

  /** All that is done in a turn. */
  function Deeds(i: Input): seq<Deed> {
    i.before + (i.between + Flat(i.callbacks))
  }

  /** The events that deeds name are known. */
  ghost predicate NamesKnown(loop: Loop, inputs: seq<Input>, known: set<Event>)
    reads loop`pending, known`fd, known`ring
  {
    forall i :: 0 <= i < |inputs| ==> loop.Known(Deeds(inputs[i]), known)
  }

  /** One turn with the input it accepts. */
  method OneTurn(loop: Loop, i: Input, ghost inputs: seq<Input>, ghost known: set<Event>) returns (goOn: bool)
    requires loop.Idle() && Matched(loop.WatchView()) && Accepted(ViewOf(loop), i)
    requires i in inputs && NamesKnown(loop, inputs, known) && known <= loop.events
    modifies loop, loop.watchTable, loop.timerList, loop.pendingList, loop.events
    ensures loop.Idle() && Matched(loop.WatchView()) && NamesKnown(loop, inputs, known)
    ensures loop.events >= old(loop.events) && fresh(loop.events - old(loop.events))
    ensures goOn <==> GoesOn(i)
    ensures ViewOf(loop) == Turned(old(ViewOf(loop)), i)
    ensures var r := RoundOf(old(ViewOf(loop)), i);
      loop.calls == old(loop.calls) + Ids(r.expired) + r.ready
  {
    hide Loop.Valid, Loop.WatchedUnlinked, AddAll, Expired, Live, Ready, AfterReady, AllDone, AllAllowed,
         TimersOf, Flat, Later, AllLater, KeepsFds;
    NoIds();
    assert loop.Known(Deeds(i), known);
    loop.KnownGrows(Deeds(i), known);
    goOn := loop.Turn(i.calcClock, i.before, i.selected, i.interrupted, i.clock, i.between, i.callbacks);
    forall j | 0 <= j < |inputs| ensures loop.Known(Deeds(inputs[j]), known) {
      assert old(loop.Known(Deeds(inputs[j]), known));
    }
  }

  lemma InputStep(x: View, inputs: seq<Input>, k: nat)
    requires Matched(x.watches) && AllAccepted(x, inputs) && k < |inputs|
    ensures Accepted(AllTurned(x, inputs[..k]), inputs[k])
    ensures AllTurned(x, inputs[..k + 1]) == Turned(AllTurned(x, inputs[..k]), inputs[k])
    ensures CalledIn(Rounds(x, inputs[..k + 1])) ==
      CalledIn(Rounds(x, inputs[..k]))
      + (var r := RoundOf(AllTurned(x, inputs[..k]), inputs[k]); Ids(r.expired) + r.ready)
  {
    hide Accepted, AllAccepted, Turned, AllTurned, RoundOf, Rounds, CalledIn, Ids;
    AcceptedAt(x, inputs, k);
    RoundsJoin(x, inputs[..k], inputs[k]);
    CallsJoin(Rounds(x, inputs[..k]), RoundOf(AllTurned(x, inputs[..k]), inputs[k]));
    assert inputs[..k + 1] == inputs[..k] + [inputs[k]];
  }

  lemma NoInputs(x: View)
    requires Matched(x.watches)
    ensures AllTurned(x, []) == x && CalledIn(Rounds(x, [])) == []
  {
  }

  /** ril_event_loop for as many turns as there are inputs; select fails for good in the last
      one at most. */
  method Turns(loop: Loop, inputs: seq<Input>) returns (goOn: bool)
    requires loop.Idle() && Matched(loop.WatchView()) && NamesKnown(loop, inputs, loop.events)
    requires AllAccepted(ViewOf(loop), inputs)
    requires forall i :: 0 <= i < |inputs| - 1 ==> GoesOn(inputs[i])
    modifies loop, loop.watchTable, loop.timerList, loop.pendingList, loop.events
    ensures loop.Idle()
    ensures goOn <==> inputs == [] || GoesOn(inputs[|inputs| - 1])
    ensures Matched(old(ViewOf(loop)).watches) && ViewOf(loop) == AllTurned(old(ViewOf(loop)), inputs)
    ensures loop.calls == old(loop.calls) + CalledIn(Rounds(old(ViewOf(loop)), inputs))
  {
    hide Loop.Idle, Matched, NamesKnown, Accepted, AllAccepted, Turned, AllTurned, RoundOf, Rounds, CalledIn, Ids;
    ghost var x, c, known := ViewOf(loop), loop.calls, loop.events;
    goOn := true;
    var k := 0;
    NoInputs(x);
    while goOn && k < |inputs|
      invariant 0 <= k <= |inputs| && (goOn <==> k == 0 || GoesOn(inputs[k - 1]))
      invariant loop.Idle() && Matched(loop.WatchView()) && NamesKnown(loop, inputs, known)
      invariant known <= loop.events && fresh(loop.events - known)
      invariant ViewOf(loop) == AllTurned(x, inputs[..k])
      invariant loop.calls == c + CalledIn(Rounds(x, inputs[..k]))
      decreases |inputs| - k
    {
      InputStep(x, inputs, k);
      goOn := OneTurn(loop, inputs[k], inputs, known);
      k := k + 1;
    }
    assert inputs[..k] == inputs;
  }

  /** However many turns the loop makes, and whatever callbacks and other threads do, its timers
      are those of the run s of requests, scans and callbacks; its timer callbacks are those
      of s, in the same order; s fires well and misses no timer. */
  method RunTurns(loop: Loop, inputs: seq<Input>, ghost s0: State) returns (goOn: bool, ghost s: State)
    requires loop.Idle() && Matched(loop.WatchView()) && NamesKnown(loop, inputs, loop.events)
    requires Inv(s0) && s0.timers == loop.timerView && s0.pending == []
    requires AllAccepted(ViewOf(loop), inputs) && ValidRun(s0, AllActs(ViewOf(loop), inputs))
    requires forall i :: 0 <= i < |inputs| - 1 ==> GoesOn(inputs[i])
    modifies loop, loop.watchTable, loop.timerList, loop.pendingList, loop.events
    ensures loop.Idle() && (goOn <==> inputs == [] || GoesOn(inputs[|inputs| - 1]))
    ensures Matched(old(ViewOf(loop)).watches) && ViewOf(loop) == AllTurned(old(ViewOf(loop)), inputs)
    ensures s == Run(s0, AllActs(old(ViewOf(loop)), inputs)) && Inv(s) && FiredWell(s)
    ensures forall id :: id in s.born ==> Accounted(s, id)
    ensures s.timers == loop.timerView && s.pending == []
    ensures var rounds := Rounds(old(ViewOf(loop)), inputs);
      loop.calls == old(loop.calls) + CalledIn(rounds) && s.fired == s0.fired + FiredIn(rounds)
  {
    hide Loop.Idle, Matched, NamesKnown, AllAccepted, AllTurned, Rounds, CalledIn, FiredIn, AllActs, ValidRun, Run,
         Inv, FiredWell, Accounted;
    ghost var x := ViewOf(loop);
    goOn := Turns(loop, inputs);
    TurnsAreRun(s0, x, inputs);
    s := Run(s0, AllActs(x, inputs));
    RunKeeps(s0, AllActs(x, inputs));
    InvMeans(s);
    AllAccounted(s);
  }
}
