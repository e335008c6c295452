// What the audio wrapper's calls do: each one works with the stream it was called for, and no
// vendor stream is forgotten.
module AudioCalls {
  import opened Options
  import opened Sequences
  import opened AudioLocks
  import opened AudioSafety

  /** e is in q, and no row before it has its handle. */
  predicate First(q: seq<Entry>, e: Entry) {
    exists k :: 0 <= k < |q| && q[k] == e && forall i :: 0 <= i < k ==> q[i].handle != e.handle
  }

  lemma FirstFound(q: seq<Entry>, h: nat)
    ensures FindHandle(q, h) < |q| <==> exists e :: e in q && e.handle == h
    ensures FindHandle(q, h) < |q| ==> First(q, q[FindHandle(q, h)]) && q[FindHandle(q, h)].handle == h
  {
    var k := FindHandle(q, h);
    if k < |q| {
      assert q[k] in q && q[k].handle == h;
    }
  }

  /** Before the lookup, on the way with the row found there, or done with it. */
  datatype Stage = Early | Working(e: Entry) | Over

  function StageOf(t: Thread): Stage {
    match t
    case CallStreamWait(_, e) => Working(e)
    case CallVendor(_, e) => Working(e)
    case CloseStreamWait(_, e) => Working(e)
    case CloseStreamHeld(_, e) => Working(e)
    case CloseRemove(_, e) => Working(e)
    case CloseHalWait(_, e) => Working(e)
    case CloseVendor(_, e) => Working(e)
    case CallLeave(_) | CloseLeave(_) | Finished => Over
    case _ => Early
  }

  /** What thread u has found and used. */
  predicate StageOk(m: Memo, u: nat, stage: Stage) {
    match stage
    case Early => u !in m.found && u !in m.served
    case Working(e) => u in m.found && m.found[u] == e && u !in m.served
    case Over => (u in m.served <==> u in m.found) && (u in m.served ==> m.served[u] == m.found[u])
  }

  /** The place t belongs to a call that began as b: the same kind of call, in the same direction,
      and with the handle of the row it works with. */
  predicate Serves(b: Thread, t: Thread) {
    match t
    case CallTableWait(_, _) | HalOutWait(_) | OpenTableWait(_) | CloseTableWait(_, _) => b == t
    case CallLookup(d, h) => b == CallTableWait(d, h)
    case CallStreamWait(d, e) => b == CallTableWait(d, e.handle)
    case CallVendor(d, e) => b == CallTableWait(d, e.handle)
    case CallLeave(d) => b.CallTableWait? && b.d == d
    case HalInWait(c) => b == HalOutWait(c)
    case HalWait(c) => b == HalOutWait(c)
    case HalVendor(c) => b == HalOutWait(c)
    case HalLeaveIn | HalLeaveOut => b.HalOutWait?
    case OpenHalWait(d) => b == OpenTableWait(d)
    case OpenVendor(d) => b == OpenTableWait(d)
    case OpenAppend(d, _) => b == OpenTableWait(d)
    case OpenLeave(d) => b == OpenTableWait(d)
    case CloseLookup(d, h) => b == CloseTableWait(d, h)
    case CloseStreamWait(d, e) => b == CloseTableWait(d, e.handle)
    case CloseStreamHeld(d, e) => b == CloseTableWait(d, e.handle)
    case CloseRemove(d, e) => b == CloseTableWait(d, e.handle)
    case CloseHalWait(d, e) => b == CloseTableWait(d, e.handle)
    case CloseVendor(d, e) => b == CloseTableWait(d, e.handle)
    case CloseLeave(d) => b.CloseTableWait? && b.d == d
    case Finished => IsBegin(b)
  }

  /** Whether thread u at place t has searched its table, and whether it has called the vendor. */
  predicate MarksOk(m: Memo, u: nat, t: Thread)
    requires u in m.begun
  {
    match t
    case CallTableWait(_, _) | CallLookup(_, _) | CloseTableWait(_, _) | CloseLookup(_, _) =>
      u !in m.looked && u !in m.called
    case CallLeave(_) | CloseLeave(_) => u in m.looked && (u in m.called <==> u in m.found)
    case HalLeaveIn | HalLeaveOut | OpenAppend(_, _) | OpenLeave(_) => u in m.called
    case Finished =>
      if m.begun[u].HalOutWait? || m.begun[u].OpenTableWait? then u in m.called
      else u in m.looked && (u in m.called <==> u in m.found)
    case _ => u !in m.called && (StageOf(t).Working? ==> u in m.looked)
  }

  predicate IsStreamCall(b: Thread) {
    b.CallTableWait? || b.CloseTableWait?
  }

  predicate PlaceOk(s: State, u: nat)
    requires u in s.threads && u in s.memo.begun
  {
    var t, m := s.threads[u], s.memo;
    && Serves(m.begun[u], t) && StageOk(m, u, StageOf(t)) && MarksOk(m, u, t)
    && (Row(t).Some? ==> First(Table(s, Row(t).value.0), Row(t).value.1))
    && (u in m.found ==> IsStreamCall(m.begun[u]) && m.found[u].handle == m.begun[u].h)
  }

  ghost predicate CallsOk(s: State) {
    var m := s.memo;
    && (forall u :: u in s.threads ==> u in m.begun && PlaceOk(s, u))
    && (forall u :: u in m.found || u in m.served || u in m.looked || u in m.called ==> u in s.threads)
  }

  lemma BeginKeepsCalls(s: State, a: Action)
    requires CallsOk(s) && a.Begin? && Enabled(s, a)
    ensures CallsOk(Step(s, a))
  {
    hide First;
    var s' := Step(s, a);
    forall u | u in s'.threads ensures u in s'.memo.begun && PlaceOk(s', u) {
      if u != a.tid { assert PlaceOk(s, u); }
    }
  }

  lemma NextServes(s: State, b: Thread, t: Thread, c: Choice)
    requires t != Finished && Serves(b, t)
    ensures Serves(b, Next(s, t, c))
  {
  }

  /** The thread that moves finds, keeps or loses its row. */
  lemma NextRow(s: State, t: Thread, c: Choice)
    requires t != Finished && (Row(t).Some? ==> First(Table(s, Row(t).value.0), Row(t).value.1))
    ensures var t' := Next(s, t, c);
      Row(t').Some? ==> First(Table(Effect(s, t, c), Row(t').value.0), Row(t').value.1)
  {
    hide First;
    if t.CallLookup? || t.CloseLookup? {
      FirstFound(Table(s, t.d), t.h);
    }
  }

  /** The stages of a call, in the order of the places, with q the table it searches. */
  predicate Follows(t: Thread, q: seq<Entry>, next: Stage) {
    if t.CallLookup? || t.CloseLookup? then
      var k := FindHandle(q, t.h);
      StageOf(t) == Early && next == if k < |q| then Working(q[k]) else Over
    else if t.CallVendor? || t.CloseVendor? then StageOf(t) == Working(t.e) && next == Over
    else if StageOf(t) == Early then next == Early || next == Over
    else next == StageOf(t)
  }

  lemma NextFollows(s: State, t: Thread, c: Choice)
    requires t != Finished
    ensures Follows(t, Searched(s, t), StageOf(Next(s, t, c)))
  {
    hide Table;
  }

  lemma NextStage(m: Memo, u: nat, t: Thread, q: seq<Entry>, next: Stage)
    requires StageOk(m, u, StageOf(t)) && Follows(t, q, next)
    ensures StageOk(Remembered(m, u, t, q), u, next)
  {
    hide StageOf;
  }

  /** What is remembered of another call stays. */
  lemma Remembers(m: Memo, tid: nat, t: Thread, q: seq<Entry>)
    ensures var m' := Remembered(m, tid, t, q);
      && m'.begun == m.begun
      && (forall u :: u != tid ==> (u in m'.found <==> u in m.found) && (u in m'.served <==> u in m.served))
      && (forall u :: u != tid && u in m.found ==> m'.found[u] == m.found[u])
      && (forall u :: u != tid && u in m.served ==> m'.served[u] == m.served[u])
      && (forall u :: u != tid ==> (u in m'.looked <==> u in m.looked) && (u in m'.called <==> u in m.called))
  {
  }

  /** What a step leaves alone. */
  lemma StepRemembers(s: State, a: Action)
    requires a.Advance? && Enabled(s, a)
    ensures var s', t := Step(s, a), s.threads[a.tid];
      && s'.memo == Remembered(s.memo, a.tid, t, Searched(s, t)) && s'.memo.begun == s.memo.begun
      && s'.threads.Keys == s.threads.Keys && s'.threads[a.tid] == Next(s, t, a.c)
      && (forall u :: u != a.tid && u in s.threads ==> s'.threads[u] == s.threads[u])
  {
    hide Next, Searched;
  }

  lemma LookupMarks(s: State, tid: nat, t: Thread, c: Choice)
    requires (t.CallLookup? || t.CloseLookup?) && tid in s.memo.begun && Serves(s.memo.begun[tid], t)
    requires StageOk(s.memo, tid, Early) && MarksOk(s.memo, tid, t)
    ensures MarksOk(Remembered(s.memo, tid, t, Searched(s, t)), tid, Next(s, t, c))
  {
    hide Table, Serves;
  }

  lemma OtherMarks(s: State, tid: nat, t: Thread, c: Choice)
    requires t != Finished && !t.CallLookup? && !t.CloseLookup?
    requires tid in s.memo.begun && Serves(s.memo.begun[tid], t)
    requires StageOk(s.memo, tid, StageOf(t)) && MarksOk(s.memo, tid, t)
    ensures MarksOk(Remembered(s.memo, tid, t, []), tid, Next(s, t, c))
  {
    hide Table, FindHandle;
  }

  /** Searched or not, called or not: what holds at a place leads to what holds at the next. */
  lemma NextMarks(s: State, tid: nat, t: Thread, c: Choice)
    requires t != Finished && tid in s.memo.begun && Serves(s.memo.begun[tid], t)
    requires StageOk(s.memo, tid, StageOf(t)) && MarksOk(s.memo, tid, t)
    ensures MarksOk(Remembered(s.memo, tid, t, Searched(s, t)), tid, Next(s, t, c))
  {
    hide Serves, MarksOk, Remembered, Next;
    if t.CallLookup? || t.CloseLookup? {
      LookupMarks(s, tid, t, c);
    } else {
      OtherMarks(s, tid, t, c);
    }
  }

  lemma OwnPlace(s: State, a: Action)
    requires CallsOk(s) && a.Advance? && Enabled(s, a)
    ensures a.tid in Step(s, a).memo.begun && PlaceOk(Step(s, a), a.tid)
  {
    hide First, Effect, Next, StageOk, StageOf, Wants, Held, MarksOk, Serves, Follows;
    var t := s.threads[a.tid];
    var q := Searched(s, t);
    assert PlaceOk(s, a.tid);
    StepRemembers(s, a);
    NextServes(s, s.memo.begun[a.tid], t, a.c);
    NextRow(s, t, a.c);
    NextFollows(s, t, a.c);
    NextStage(s.memo, a.tid, t, q, StageOf(Next(s, t, a.c)));
    NextMarks(s, a.tid, t, a.c);
    TableKept(s, a);
    OwnFound(s.memo, a.tid, t, q);
  }

  /** The row a call finds has the handle it was called with. */
  lemma OwnFound(m: Memo, tid: nat, t: Thread, q: seq<Entry>)
    requires tid in m.begun && Serves(m.begun[tid], t)
    requires tid in m.found ==> IsStreamCall(m.begun[tid]) && m.found[tid].handle == m.begun[tid].h
    ensures var m' := Remembered(m, tid, t, q);
      tid in m'.found ==> IsStreamCall(m.begun[tid]) && m'.found[tid].handle == m.begun[tid].h
  {
  }

  lemma TableKept(s: State, a: Action)
    requires a.Advance? && Enabled(s, a)
    ensures forall d :: Table(Step(s, a), d) == Table(Effect(s, s.threads[a.tid], a.c), d)
  {
    hide Next, Searched, Remembered;
  }

  /** The table of a row that another thread works with cannot change. */
  lemma RowStays(s: State, a: Action, u: nat)
    requires Exclusive(s) && a.Advance? && Enabled(s, a) && u in s.threads && u != a.tid
    requires Row(s.threads[u]).Some?
    ensures var d := Row(s.threads[u]).value.0; Table(Step(s, a), d) == Table(s, d)
  {
    TableKept(s, a);
    hide Effect, Held, Next, Wants, Moves, Row, Step, Table;
    var t := s.threads[a.tid];
    RowUnderLock(s.threads[u]);
    ChangeUnderLock(s, t, a.c, Row(s.threads[u]).value.0);
    assert Held(s.threads[u]) !! Held(t);
  }

  lemma PlaceKept(s: State, s': State, u: nat)
    requires u in s.threads && u in s.memo.begun && PlaceOk(s, u)
    requires u in s'.threads && u in s'.memo.begun
    requires s'.threads[u] == s.threads[u] && s'.memo.begun[u] == s.memo.begun[u]
    requires (u in s'.memo.found <==> u in s.memo.found) && (u in s'.memo.served <==> u in s.memo.served)
    requires (u in s'.memo.looked <==> u in s.memo.looked) && (u in s'.memo.called <==> u in s.memo.called)
    requires u in s.memo.found ==> s'.memo.found[u] == s.memo.found[u]
    requires u in s.memo.served ==> s'.memo.served[u] == s.memo.served[u]
    requires Row(s.threads[u]).Some? ==>
      var d := Row(s.threads[u]).value.0; Table(s', d) == Table(s, d)
    ensures PlaceOk(s', u)
  {
    hide First, Serves, StageOf, Row, Table;
  }

  lemma OtherPlace(s: State, a: Action, u: nat)
    requires CallsOk(s) && Exclusive(s) && a.Advance? && Enabled(s, a) && u in s.threads && u != a.tid
    ensures u in Step(s, a).memo.begun && PlaceOk(Step(s, a), u)
  {
    var t := s.threads[a.tid];
    assert PlaceOk(s, u);
    hide PlaceOk, Exclusive, Enabled, Step, Remembered, Searched, Next, Row, Table;
    StepRemembers(s, a);
    Remembers(s.memo, a.tid, t, Searched(s, t));
    if Row(s.threads[u]).Some? { RowStays(s, a, u); }
    PlaceKept(s, Step(s, a), u);
  }

  lemma AdvanceKeepsCalls(s: State, a: Action)
    requires CallsOk(s) && Exclusive(s) && a.Advance? && Enabled(s, a)
    ensures CallsOk(Step(s, a))
  {
    var s' := Step(s, a);
    StepRemembers(s, a);
    Remembers(s.memo, a.tid, s.threads[a.tid], Searched(s, s.threads[a.tid]));
    hide PlaceOk, Exclusive, Step, Remembered, Searched, Next;
    OwnPlace(s, a);
    forall u | u in s'.threads ensures u in s'.memo.begun && PlaceOk(s', u) {
      if u != a.tid { OtherPlace(s, a, u); }
    }
  }

  // ---------------------------------------------------------------------------
  // No vendor stream is forgotten.

  predicate HasRow(q: seq<Entry>, v: nat) {
    exists e :: e in q && e.vendor == v
  }

  predicate Carried(s: State, v: nat) {
    exists u :: u in s.threads && Loose(s.threads[u]) == Some(v)
  }

  /** An open vendor stream stands in a table, is on its way into or out of one, or was lost
      when its opening found no memory. */
  predicate Placed(s: State, v: nat) {
    HasRow(s.outs, v) || HasRow(s.ins, v) || Carried(s, v) || v in s.lost
  }

  ghost predicate AllPlaced(s: State) {
    (forall v :: v in s.vendors ==> Placed(s, v)) && s.lost <= s.vendors
    && (forall v :: v in s.lost ==> !HasRow(s.outs, v) && !HasRow(s.ins, v) && !Carried(s, v))
  }

  lemma NothingPlaced()
    ensures AllPlaced(START)
  {
  }

  lemma BeginKeepsPlaced(s: State, a: Action)
    requires AllPlaced(s) && a.Begin? && Enabled(s, a)
    ensures AllPlaced(Step(s, a))
  {
    var s' := Step(s, a);
    hide HasRow;
    forall v: nat ensures Carried(s', v) <==> Carried(s, v) {
      if Carried(s, v) {
        var u :| u in s.threads && Loose(s.threads[u]) == Some(v);
        assert Loose(s'.threads[u]) == Some(v);
      }
      if Carried(s', v) {
        var u :| u in s'.threads && Loose(s'.threads[u]) == Some(v);
        assert u != a.tid && Loose(s.threads[u]) == Some(v);
      }
    }
  }

  /** Somebody else carries v. */
  predicate Others(s: State, tid: nat, v: nat) {
    exists u :: u in s.threads && u != tid && Loose(s.threads[u]) == Some(v)
  }

  lemma CarriedBy(s: State, tid: nat, v: nat)
    requires tid in s.threads
    ensures Carried(s, v) <==> Loose(s.threads[tid]) == Some(v) || Others(s, tid, v)
  {
    hide Loose;
    if Others(s, tid, v) {
      var u :| u in s.threads && u != tid && Loose(s.threads[u]) == Some(v);
    }
  }

  /** What the others carry is as before. */
  lemma OthersNext(s: State, a: Action, v: nat)
    requires a.Advance? && Enabled(s, a)
    ensures Others(Step(s, a), a.tid, v) <==> Others(s, a.tid, v)
  {
    StepRemembers(s, a);
    hide Step, Loose, Enabled;
    var s' := Step(s, a);
    if Others(s', a.tid, v) {
      var u :| u in s'.threads && u != a.tid && Loose(s'.threads[u]) == Some(v);
      assert u in s.threads && Loose(s.threads[u]) == Some(v);
    }
    if Others(s, a.tid, v) {
      var u :| u in s.threads && u != a.tid && Loose(s.threads[u]) == Some(v);
      assert u in s'.threads && Loose(s'.threads[u]) == Some(v);
    }
  }

  /** The same, with what the moving thread carries apart. */
  ghost predicate Account(s: State, tid: nat, own: Option<nat>) {
    && (forall v :: v in s.vendors ==>
          HasRow(s.outs, v) || HasRow(s.ins, v) || own == Some(v) || Others(s, tid, v) || v in s.lost)
    && s.lost <= s.vendors
    && (forall v :: v in s.lost ==>
          !HasRow(s.outs, v) && !HasRow(s.ins, v) && own != Some(v) && !Others(s, tid, v))
  }

  lemma AccountIs(s: State, tid: nat)
    requires tid in s.threads
    ensures AllPlaced(s) <==> Account(s, tid, Loose(s.threads[tid]))
  {
    hide HasRow, Others, Loose, Carried;
    forall v: nat ensures Carried(s, v) <==> Loose(s.threads[tid]) == Some(v) || Others(s, tid, v) {
      CarriedBy(s, tid, v);
    }
  }

  /** What the thread that moves holds loose is nobody else's, and is in no table. */
  lemma OwnIsApart(s: State, tid: nat)
    requires Inv(s) && tid in s.threads && Loose(s.threads[tid]).Some?
    ensures var v := Loose(s.threads[tid]).value;
      v in s.vendors && !HasRow(s.outs, v) && !HasRow(s.ins, v) && !Others(s, tid, v)
  {
    var v := Loose(s.threads[tid]).value;
    hide Exclusive, TablesOk, RowsOk, Held, Loose;
    assert LooseOk(s);
  }

  lemma RowsAreOpen(s: State, v: nat)
    requires Inv(s) && (HasRow(s.outs, v) || HasRow(s.ins, v) || Carried(s, v))
    ensures v in s.vendors
  {
    hide Exclusive, RowsOk, Held;
  }

  lemma SameOthers(s: State, s': State, tid: nat)
    requires s'.threads == s.threads
    ensures forall v :: Others(s', tid, v) == Others(s, tid, v)
  {
  }

  lemma RowsAppended(q: seq<Entry>, e: Entry)
    ensures forall v :: HasRow(q + [e], v) <==> HasRow(q, v) || v == e.vendor
  {
    forall v: nat ensures HasRow(q + [e], v) <==> HasRow(q, v) || v == e.vendor {
      if v == e.vendor { assert e in q + [e]; }
      if HasRow(q, v) {
        var f :| f in q && f.vendor == v;
        assert f in q + [e];
      }
    }
  }

  lemma RowsRemoved(q: seq<Entry>, e: Entry)
    requires Distinct(q) && e in q
    ensures HasRow(q, e.vendor)
    ensures forall v :: HasRow(RemoveFirst(q, e), v) <==> HasRow(q, v) && v != e.vendor
  {
    RemovalKeeps(q, e);
    hide RemoveFirst, Distinct;
    forall v: nat ensures HasRow(RemoveFirst(q, e), v) <==> HasRow(q, v) && v != e.vendor {
      if HasRow(q, v) && v != e.vendor {
        var f :| f in q && f.vendor == v;
        assert f in RemoveFirst(q, e);
      }
    }
  }

  /** No row of one table is another's vendor stream. */
  lemma RowIsApart(s: State, d: Dir, e: Entry)
    requires Inv(s) && e in Table(s, d)
    ensures Distinct(Table(s, d)) && !HasRow(Table(s, if d == Out then In else Out), e.vendor)
  {
    hide Exclusive, RowsOk, LooseOk, Held, Distinct;
  }

  lemma OpensAccount(s: State, tid: nat, v: nat)
    requires Inv(s) && Account(s, tid, None) && v !in s.vendors && tid in s.threads
    ensures Account(s.(vendors := s.vendors + {v}), tid, Some(v))
  {
    var s' := s.(vendors := s.vendors + {v});
    SameOthers(s, s', tid);
    if Others(s, tid, v) { CarriedBy(s, tid, v); }
    if HasRow(s.outs, v) || HasRow(s.ins, v) || Carried(s, v) { RowsAreOpen(s, v); }
    hide HasRow, Others, Carried, Inv;
  }

  lemma LosesAccount(s: State, tid: nat, v: nat)
    requires Account(s, tid, Some(v)) && v in s.vendors
    requires !HasRow(s.outs, v) && !HasRow(s.ins, v) && !Others(s, tid, v)
    ensures Account(s.(lost := s.lost + {v}), tid, None)
  {
    SameOthers(s, s.(lost := s.lost + {v}), tid);
    hide HasRow, Others;
  }

  lemma AppendsAccount(s: State, tid: nat, d: Dir, e: Entry)
    requires Account(s, tid, Some(e.vendor))
    ensures Account(SetTable(s, d, Table(s, d) + [e]).(nextId := s.nextId + 1), tid, None)
  {
    SameOthers(s, SetTable(s, d, Table(s, d) + [e]).(nextId := s.nextId + 1), tid);
    RowsAppended(Table(s, d), e);
    hide HasRow, Others;
  }

  lemma RemovesAccount(s: State, tid: nat, d: Dir, e: Entry)
    requires Inv(s) && Account(s, tid, None) && e in Table(s, d)
    ensures Account(SetTable(s, d, RemoveFirst(Table(s, d), e)), tid, Some(e.vendor))
  {
    SameOthers(s, SetTable(s, d, RemoveFirst(Table(s, d), e)), tid);
    RowIsApart(s, d, e);
    RowsRemoved(Table(s, d), e);
    hide HasRow, Others, RemoveFirst, Inv, Distinct;
  }

  lemma ClosesAccount(s: State, tid: nat, v: nat)
    requires Account(s, tid, Some(v))
    requires !HasRow(s.outs, v) && !HasRow(s.ins, v) && !Others(s, tid, v)
    ensures Account(s.(vendors := s.vendors - {v}), tid, None)
  {
    SameOthers(s, s.(vendors := s.vendors - {v}), tid);
    hide HasRow, Others;
  }

  lemma EmptiesAccount(s: State, tid: nat)
    ensures Account(s.(outs := [], ins := [], vendors := {}, lost := {}), tid, None)
  {
  }

  /** The places where tables and vendor streams change. */
  predicate Changes(t: Thread) {
    t.OpenVendor? || t.OpenAppend? || t.CloseRemove? || t.CloseVendor? || (t.HalVendor? && t.close)
  }

  lemma NothingChanges(s: State, t: Thread, c: Choice)
    requires t != Finished && !Changes(t)
    ensures Effect(s, t, c) == s && Loose(Next(s, t, c)) == Loose(t)
  {
  }

  lemma OpenAccount(s: State, tid: nat, t: Thread, c: Choice)
    requires Inv(s) && tid in s.threads && s.threads[tid] == t && (t.OpenVendor? || t.OpenAppend?)
    requires Account(s, tid, Loose(t)) && (t.OpenVendor? && c.vendor.Some? ==> c.vendor.value !in s.vendors)
    ensures Account(Effect(s, t, c), tid, Loose(Next(s, t, c)))
  {
    if Loose(t).Some? { OwnIsApart(s, tid); }
    hide Account, HasRow, Others, Inv;
    if t.OpenVendor? {
      if c.vendor.Some? { OpensAccount(s, tid, c.vendor.value); }
    } else if t.v.Some? {
      if c.handle.Some? {
        AppendsAccount(s, tid, t.d, Entry(c.handle.value, t.v.value, s.nextId));
      } else {
        LosesAccount(s, tid, t.v.value);
      }
    }
  }

  lemma RowIsThere(s: State, tid: nat)
    requires Inv(s) && tid in s.threads && s.threads[tid].CloseRemove?
    ensures s.threads[tid].e in Table(s, s.threads[tid].d)
  {
    hide Exclusive, TablesOk, LooseOk, Held;
    assert Row(s.threads[tid]) == Some((s.threads[tid].d, s.threads[tid].e));
  }

  lemma RemoveAccount(s: State, tid: nat, d: Dir, e: Entry, c: Choice)
    requires Inv(s) && tid in s.threads && s.threads[tid] == CloseRemove(d, e) && Account(s, tid, None)
    ensures Account(Effect(s, CloseRemove(d, e), c), tid, Loose(Next(s, CloseRemove(d, e), c)))
  {
    hide Account, Inv, RemoveFirst, Table, SetTable;
    RowIsThere(s, tid);
    RemovesAccount(s, tid, d, e);
  }

  lemma CloseAccount(s: State, tid: nat, t: Thread, c: Choice)
    requires Inv(s) && tid in s.threads && s.threads[tid] == t
    requires t.CloseVendor? || (t.HalVendor? && t.close)
    requires Account(s, tid, Loose(t))
    ensures Account(Effect(s, t, c), tid, Loose(Next(s, t, c)))
  {
    hide Account, HasRow, Others, Inv;
    if t.CloseVendor? {
      OwnIsApart(s, tid);
      ClosesAccount(s, tid, t.e.vendor);
    } else {
      EmptiesAccount(s, tid);
    }
  }

  /** A step in the thread's own terms: what happens to the tables, the vendor streams and what
      it carries. */
  lemma EffectAccount(s: State, tid: nat, t: Thread, c: Choice)
    requires Inv(s) && tid in s.threads && s.threads[tid] == t && t != Finished && Account(s, tid, Loose(t))
    requires t.OpenVendor? && c.vendor.Some? ==> c.vendor.value !in s.vendors
    ensures Account(Effect(s, t, c), tid, Loose(Next(s, t, c)))
  {
    assert t.CloseRemove? ==> Loose(t) == None;
    hide Account, Inv, Effect, Next, Loose;
    if !Changes(t) {
      NothingChanges(s, t, c);
    } else if t.CloseRemove? {
      RemoveAccount(s, tid, t.d, t.e, c);
    } else if t.OpenVendor? || t.OpenAppend? {
      OpenAccount(s, tid, t, c);
    } else {
      CloseAccount(s, tid, t, c);
    }
  }

  lemma AccountMoves(s: State, s': State, tid: nat, own: Option<nat>)
    requires Account(s, tid, own) && s'.outs == s.outs && s'.ins == s.ins
    requires s'.vendors == s.vendors && s'.lost == s.lost
    requires forall v :: Others(s', tid, v) == Others(s, tid, v)
    ensures Account(s', tid, own)
  {
    hide Others, HasRow;
  }

  lemma StepIs(s: State, a: Action)
    requires a.Advance? && Enabled(s, a)
    ensures var t, s' := s.threads[a.tid], Step(s, a);
      var e := Effect(s, t, a.c);
      && e.threads == s.threads && a.tid in s'.threads && s'.threads[a.tid] == Next(s, t, a.c)
      && s'.outs == e.outs && s'.ins == e.ins && s'.vendors == e.vendors && s'.lost == e.lost
  {
    hide Next;
  }

  lemma AdvanceKeepsPlaced(s: State, a: Action)
    requires Inv(s) && AllPlaced(s) && a.Advance? && Enabled(s, a)
    ensures AllPlaced(Step(s, a))
  {
    hide Account, AllPlaced, Inv, Others, Effect, Next, Step, Loose, Wants, Held;
    var s', t := Step(s, a), s.threads[a.tid];
    var e := Effect(s, t, a.c);
    StepIs(s, a);
    AccountIs(s, a.tid);
    EffectAccount(s, a.tid, t, a.c);
    SameOthers(s, e, a.tid);
    forall v: nat ensures Others(s', a.tid, v) == Others(e, a.tid, v) {
      OthersNext(s, a, v);
    }
    AccountMoves(e, s', a.tid, Loose(Next(s, t, a.c)));
    AccountIs(s', a.tid);
  }

  // ---------------------------------------------------------------------------
  // Each row has a mutex of its own.

  predicate IdsApart(q: seq<Entry>) {
    forall i, j :: 0 <= i < j < |q| ==> q[i].id != q[j].id
  }

  predicate MutexesOk(s: State) {
    && IdsApart(s.outs) && IdsApart(s.ins)
    && (forall e :: e in s.outs ==> e.id < s.nextId)
    && (forall e :: e in s.ins ==> e.id < s.nextId)
    && (forall e, f :: e in s.outs && f in s.ins ==> e.id != f.id)
  }

  lemma {:induction false} RemovalKeepsIds(q: seq<Entry>, e: Entry)
    requires IdsApart(q)
    ensures IdsApart(RemoveFirst(q, e))
    ensures forall f :: f in RemoveFirst(q, e) ==> f in q
  {
    if q != [] && q[0] != e {
      RemovalKeepsIds(q[1..], e);
      var w := RemoveFirst(q[1..], e);
      forall j | 0 <= j < |w| ensures w[j].id != q[0].id {
        assert w[j] in w;
        var k :| 0 <= k < |q[1..]| && q[1..][k] == w[j];
        assert q[k + 1] == w[j];
      }
    }
  }

  lemma AppendKeepsIds(s: State, d: Dir, e: Entry)
    requires MutexesOk(s) && e.id == s.nextId
    ensures MutexesOk(SetTable(s, d, Table(s, d) + [e]).(nextId := s.nextId + 1))
  {
    assert forall f :: f in Table(s, d) + [e] <==> f in Table(s, d) || f == e;
  }

  lemma EffectKeepsMutexes(s: State, t: Thread, c: Choice)
    requires MutexesOk(s)
    ensures MutexesOk(Effect(s, t, c))
  {
    match t
    case OpenAppend(d, v) =>
      if v.Some? && c.handle.Some? {
        AppendKeepsIds(s, d, Entry(c.handle.value, v.value, s.nextId));
        hide MutexesOk;
      }
    case CloseRemove(d, e) =>
      RemovalKeepsIds(Table(s, d), e);
      hide RemoveFirst, IdsApart;
    case _ =>
  }

  lemma StepKeepsMutexes(s: State, a: Action)
    requires MutexesOk(s) && Enabled(s, a)
    ensures MutexesOk(Step(s, a))
  {
    if a.Advance? {
      EffectKeepsMutexes(s, s.threads[a.tid], a.c);
      hide Effect, Next, Remembered, Searched, IdsApart, Held, Wants;
    }
  }

  lemma {:induction false} RunKeepsMutexes(s: State, acts: seq<Action>)
    requires MutexesOk(s) && ValidRun(s, acts)
    ensures MutexesOk(Run(s, acts))
    decreases |acts|
  {
    hide MutexesOk, Step, Enabled;
    if acts != [] {
      StepKeepsMutexes(s, acts[0]);
      RunKeepsMutexes(Step(s, acts[0]), acts[1..]);
    }
  }

  /** In every run no two rows of the two tables share a mutex. */
  lemma MutexTheorem(acts: seq<Action>)
    requires ValidRun(START, acts)
    ensures var s := Run(START, acts);
      var q := s.outs + s.ins;
      forall i, j :: 0 <= i < j < |q| ==> q[i].id != q[j].id
  {
    RunKeepsMutexes(START, acts);
    var s := Run(START, acts);
    hide Run;
    var q := s.outs + s.ins;
    forall i, j | 0 <= i < j < |q| ensures q[i].id != q[j].id {
      if j < |s.outs| {
        assert q[i] == s.outs[i] && q[j] == s.outs[j];
      } else if i >= |s.outs| {
        assert q[i] == s.ins[i - |s.outs|] && q[j] == s.ins[j - |s.outs|];
      } else {
        assert s.outs[i] in s.outs && s.ins[j - |s.outs|] in s.ins;
      }
    }
  }

  // ---------------------------------------------------------------------------
  // Over every run.

  ghost predicate AllOk(s: State) {
    Inv(s) && CallsOk(s) && AllPlaced(s)
  }

  lemma StepInv(s: State, a: Action)
    requires Inv(s) && Enabled(s, a)
    ensures Inv(Step(s, a)) && Exclusive(s)
  {
    assert ValidRun(s, [a]) && Run(s, [a]) == Step(s, a) by { assert [a][1..] == []; }
    hide Step, Enabled, ValidRun, Run;
    RunKeeps(s, [a]);
  }

  lemma {:induction false} RunIsOk(s: State, acts: seq<Action>)
    requires AllOk(s) && ValidRun(s, acts)
    ensures AllOk(Run(s, acts))
    decreases |acts|
  {
    hide Inv, CallsOk, AllPlaced, Exclusive, Enabled, Step;
    if acts != [] {
      var a := acts[0];
      StepInv(s, a);
      if a.Begin? {
        BeginKeepsCalls(s, a);
        BeginKeepsPlaced(s, a);
      } else {
        AdvanceKeepsCalls(s, a);
        AdvanceKeepsPlaced(s, a);
      }
      RunIsOk(Step(s, a), acts[1..]);
    }
  }

  lemma StartIsOk()
    ensures AllOk(START)
  {
    NothingPlaced();
  }

  /** What a call b of thread u has done when it is over. */
  predicate Done(m: Memo, u: nat, b: Thread) {
    if IsStreamCall(b) then
      && u in m.looked && (u in m.called <==> u in m.found) && (u in m.served <==> u in m.found)
      && (u in m.served ==> m.served[u] == m.found[u] && m.served[u].handle == b.h)
    else u in m.called
  }

  lemma HandleKept(s: State, u: nat)
    requires CallsOk(s) && u in s.threads
    ensures var t, m := s.threads[u], s.memo;
      && u in m.begun && IsBegin(m.begun[u])
      && (t.CallVendor? ==> m.begun[u] == CallTableWait(t.d, t.e.handle) && First(Table(s, t.d), t.e))
      && (t.CloseRemove? ==> m.begun[u] == CloseTableWait(t.d, t.e.handle) && First(Table(s, t.d), t.e))
      && (t.CloseVendor? ==> m.begun[u] == CloseTableWait(t.d, t.e.handle))
      && (t == Finished ==> Done(m, u, m.begun[u]))
  {
    hide First;
    assert PlaceOk(s, u);
  }

  /** In every run a thread inside a stream's vendor function, or on the way to close a stream,
      works with the first row that has the handle its call was made with, in the table of its
      call; a call that is over has searched its table and has used the row it found, if it found
      one, and a HAL call or an opening that is over has called the vendor. */
  lemma HandleTheorem(acts: seq<Action>, u: nat)
    requires ValidRun(START, acts) && u in Run(START, acts).threads
    ensures var s := Run(START, acts);
      var t, m := s.threads[u], s.memo;
      && u in m.begun && IsBegin(m.begun[u])
      && (t.CallVendor? ==> m.begun[u] == CallTableWait(t.d, t.e.handle) && First(Table(s, t.d), t.e))
      && (t.CloseRemove? ==> m.begun[u] == CloseTableWait(t.d, t.e.handle) && First(Table(s, t.d), t.e))
      && (t.CloseVendor? ==> m.begun[u] == CloseTableWait(t.d, t.e.handle))
      && (t == Finished ==> Done(m, u, m.begun[u]))
  {
    StartIsOk();
    RunIsOk(START, acts);
    hide Run, Inv, AllPlaced, CallsOk, First, Serves, Done;
    HandleKept(Run(START, acts), u);
  }

  /** What a lookup finds: the first row with the handle, and with it the call goes on; without
      one it leaves. From the row the way leads to the vendor function, or to the close. */
  lemma LookupGoesOn(s: State, a: Action)
    requires a.Advance? && Enabled(s, a) && (s.threads[a.tid].CallLookup? || s.threads[a.tid].CloseLookup?)
    ensures var t, s' := s.threads[a.tid], Step(s, a);
      if exists e :: e in Table(s, t.d) && e.handle == t.h then
        && a.tid in s'.memo.found && s'.memo.found[a.tid].handle == t.h && First(Table(s, t.d), s'.memo.found[a.tid])
        && s'.threads[a.tid] == if t.CallLookup? then CallStreamWait(t.d, s'.memo.found[a.tid])
                                else CloseStreamWait(t.d, s'.memo.found[a.tid])
      else
        && s'.memo.found == s.memo.found
        && s'.threads[a.tid] == if t.CallLookup? then CallLeave(t.d) else CloseLeave(t.d)
  {
    hide First, Held, Wants, Effect, Table;
    FirstFound(Table(s, s.threads[a.tid].d), s.threads[a.tid].h);
  }

  /** An opening whose memory is there leaves a row for its vendor stream at the end of the table;
      one without memory loses the stream; and a closing that is over has closed its stream. */
  lemma OpenAndClose(s: State, a: Action)
    requires a.Advance? && Enabled(s, a)
    ensures var t, s' := s.threads[a.tid], Step(s, a);
      && (t.OpenVendor? ==> s'.threads[a.tid] == OpenAppend(t.d, a.c.vendor)
                            && s'.vendors == s.vendors + if a.c.vendor.Some? then {a.c.vendor.value} else {})
      && (t.OpenAppend? && t.v.Some? && a.c.handle.Some? ==>
            Table(s', t.d) == Table(s, t.d) + [Entry(a.c.handle.value, t.v.value, s.nextId)])
      && (t.OpenAppend? && t.v.Some? && a.c.handle.None? ==>
            Table(s', t.d) == Table(s, t.d) && s'.lost == s.lost + {t.v.value})
      && (t.CloseVendor? ==> s'.vendors == s.vendors - {t.e.vendor})
  {
  }

  /** In every run each open vendor stream has a row, is being opened or closed by a thread, or
      was lost by an opening without memory; so with no call in progress the open streams are
      those of the rows and the lost ones. */
  lemma NothingForgotten(acts: seq<Action>, v: nat)
    requires ValidRun(START, acts)
    ensures var s := Run(START, acts);
      && (v in s.vendors <==> Placed(s, v))
      && (v in s.lost ==> !HasRow(s.outs, v) && !HasRow(s.ins, v))
      && ((forall u :: u in s.threads ==> s.threads[u] == Finished) ==>
            (v in s.vendors <==> HasRow(s.outs, v) || HasRow(s.ins, v) || v in s.lost))
  {
    StartIsOk();
    RunIsOk(START, acts);
    var s := Run(START, acts);
    hide Run, CallsOk;
    if HasRow(s.outs, v) || HasRow(s.ins, v) || Carried(s, v) {
      RowsAreOpen(s, v);
    }
  }
}
