// What the audio wrapper's locks protect: who may be inside the vendor library at the
// same time, and that a vendor stream is never used after it was closed.
module AudioSafety {
  import opened Options
  import opened Sequences
  import opened AudioLocks

  /** No mutex is held twice. */
  predicate Exclusive(s: State) {
    forall u, v :: u in s.threads && v in s.threads && u != v ==>
      Held(s.threads[u]) !! Held(s.threads[v])
  }

  /** The table row a thread works with, while it is still in the table. */
  function Row(t: Thread): Option<(Dir, Entry)> {
    match t
    case CallStreamWait(d, e) => Some((d, e))
    case CallVendor(d, e) => Some((d, e))
    case CloseStreamWait(d, e) => Some((d, e))
    case CloseStreamHeld(d, e) => Some((d, e))
    case CloseRemove(d, e) => Some((d, e))
    case _ => None
  }

  /** The vendor stream a thread has taken out of the table, or not yet put into it. */
  function Loose(t: Thread): Option<nat> {
    match t
    case CloseHalWait(_, e) => Some(e.vendor)
    case CloseVendor(_, e) => Some(e.vendor)
    case OpenAppend(_, v) => v
    case _ => None
  }

  predicate Distinct(q: seq<Entry>) {
    forall i, j :: 0 <= i < j < |q| ==> q[i].vendor != q[j].vendor
  }

  /** Every row stands for an open vendor stream of its own. */
  predicate TablesOk(s: State) {
    && Distinct(s.outs) && Distinct(s.ins)
    && (forall e :: e in s.outs ==> e.vendor in s.vendors)
    && (forall e :: e in s.ins ==> e.vendor in s.vendors)
    && (forall e, f :: e in s.outs && f in s.ins ==> e.vendor != f.vendor)
  }

  predicate RowsOk(s: State) {
    forall u :: u in s.threads && Row(s.threads[u]).Some? ==>
      Row(s.threads[u]).value.1 in Table(s, Row(s.threads[u]).value.0)
  }

  predicate LooseOk(s: State) {
    && (forall u :: u in s.threads && Loose(s.threads[u]).Some? ==>
          var v := Loose(s.threads[u]).value;
          && v in s.vendors
          && (forall e :: e in s.outs ==> e.vendor != v)
          && (forall e :: e in s.ins ==> e.vendor != v))
    && (forall u, w ::
          (u in s.threads && w in s.threads && u != w && Loose(s.threads[u]).Some?) ==>
            Loose(s.threads[u]) != Loose(s.threads[w]))
  }

  predicate Inv(s: State) {
    Exclusive(s) && TablesOk(s) && RowsOk(s) && LooseOk(s)
  }

  /** A thread that begins holds nothing, and works with nothing. */
  lemma BeginsWithNothing(s: State, a: Action)
    requires a.Begin? && Enabled(s, a)
    ensures Held(a.t) == {} && Row(a.t) == None && Loose(a.t) == None
    ensures var s' := Step(s, a);
      && s'.outs == s.outs && s'.ins == s.ins && s'.vendors == s.vendors
      && a.tid !in s.threads && s'.threads == s.threads[a.tid := a.t]
  {
  }

  lemma BeginKeeps(s: State, a: Action)
    requires a.Begin? && Enabled(s, a) && Inv(s)
    ensures Inv(Step(s, a))
  {
    var s' := Step(s, a);
    BeginsWithNothing(s, a);
    hide Held, Row, Loose, Step, Enabled, Distinct;
    assert TablesOk(s') by { hide RowsOk, LooseOk, Exclusive; }
    hide TablesOk;
    assert Exclusive(s') by { hide RowsOk, LooseOk; }
    assert RowsOk(s') by { hide Exclusive, LooseOk; }
    assert LooseOk(s') by { hide Exclusive, RowsOk; }
  }

  /** A thread that was waiting for a mutex adds it, and nothing else is ever added. */
  lemma TakesWhatItWants(s: State, t: Thread, c: Choice)
    requires t != Finished
    ensures Held(Next(s, t, c)) <= Held(t) + (if Wants(t).Some? then {Wants(t).value} else {})
    ensures Wants(t).Some? ==> Held(Next(s, t, c)) == Held(t) + {Wants(t).value}
  {
  }

  lemma AdvanceKeepsExclusive(s: State, a: Action)
    requires a.Advance? && Enabled(s, a) && Exclusive(s)
    ensures Exclusive(Step(s, a))
  {
    hide Held, Next, Wants, Effect;
    var s' := Step(s, a);
    TakesWhatItWants(s, s.threads[a.tid], a.c);
    forall u, v | u in s'.threads && v in s'.threads && u != v
      ensures Held(s'.threads[u]) !! Held(s'.threads[v])
    {
      assert Held(s.threads[u]) !! Held(s.threads[v]);
    }
  }

  /** Whoever works with a row or a loose stream of a table holds that table's mutex. */
  lemma RowUnderLock(t: Thread)
    ensures Row(t).Some? ==> TableLock(Row(t).value.0) in Held(t)
    ensures Loose(t).Some? ==> exists d: Dir :: TableLock(d) in Held(t)
  {
    match t
    case CloseHalWait(d, _) => assert TableLock(d) in Held(t);
    case CloseVendor(d, _) => assert TableLock(d) in Held(t);
    case OpenAppend(d, _) => assert TableLock(d) in Held(t);
    case _ =>
  }

  /** The steps that move or free the rows of a table in memory: realloc in an opening, even if
      the opening then fails, memmove and realloc in a closing, and the closing of the device. */
  predicate Moves(t: Thread, d: Dir) {
    match t
    case OpenAppend(d', v) => d' == d && v.Some?
    case CloseRemove(d', _) => d' == d
    case HalVendor(close) => close
    case _ => false
  }

  /** Rows are moved only under their table's mutex, and tables change only by such moves. */
  lemma ChangeUnderLock(s: State, t: Thread, c: Choice, d: Dir)
    ensures Table(Effect(s, t, c), d) != Table(s, d) ==> Moves(t, d)
    ensures Moves(t, d) ==> TableLock(d) in Held(t)
  {
  }

  lemma {:induction false} RemovalKeeps(q: seq<Entry>, e: Entry)
    requires Distinct(q) && e in q
    ensures Distinct(RemoveFirst(q, e))
    ensures forall f :: f in RemoveFirst(q, e) <==> f in q && f != e
    ensures forall f :: f in RemoveFirst(q, e) ==> f.vendor != e.vendor
  {
    var k :| 0 <= k < |q| && q[k] == e;
    var rest := q[1..];
    assert q == [q[0]] + rest;
    forall f | f in rest ensures f.vendor != q[0].vendor {
      var i :| 0 <= i < |rest| && rest[i] == f;
      assert q[i + 1] == f;
    }
    assert Distinct(rest) by {
      forall i, j | 0 <= i < j < |rest| ensures rest[i].vendor != rest[j].vendor {
        assert rest[i] == q[i + 1] && rest[j] == q[j + 1];
      }
    }
    if q[0] == e {
      assert RemoveFirst(q, e) == rest;
    } else {
      assert rest[k - 1] == e;
      RemovalKeeps(rest, e);
      var w := RemoveFirst(rest, e);
      assert RemoveFirst(q, e) == [q[0]] + w;
      assert forall j :: 0 <= j < |w| ==> w[j] in w;
      forall f | f in RemoveFirst(q, e) ensures f.vendor != e.vendor {
        if f == q[0] { assert q[0].vendor != q[k].vendor; }
      }
    }
  }

  lemma AppendKeeps(q: seq<Entry>, e: Entry)
    requires Distinct(q) && forall f :: f in q ==> f.vendor != e.vendor
    ensures Distinct(q + [e]) && forall f :: f in q + [e] <==> f in q || f == e
  {
  }

  lemma NoneDistinct()
    ensures Distinct([])
  {
  }

  lemma AdvanceKeepsTables(s: State, a: Action)
    requires a.Advance? && Enabled(s, a) && Inv(s)
    ensures TablesOk(Step(s, a))
  {
    hide Exclusive, Wants, Next, Held, Distinct;
    var t := s.threads[a.tid];
    var s' := Step(s, a);
    match t
    case CloseRemove(d, e) =>
      assert Row(t) == Some((d, e));
      RemovalKeeps(Table(s, d), e);
      hide RemoveFirst, LooseOk;
    case OpenAppend(d, v) =>
      assert Loose(t) == v;
      if v.Some? && a.c.handle.Some? {
        AppendKeeps(Table(s, d), Entry(a.c.handle.value, v.value, s.nextId));
      }
    case CloseVendor(d, e) =>
      assert Loose(t) == Some(e.vendor);
    case HalVendor(close) =>
      NoneDistinct();
    case _ =>
  }

  /** A thread finds a row, keeps it, or loses it. */
  lemma OwnRow(s: State, a: Action)
    requires a.Advance? && Enabled(s, a) && RowsOk(s) && Row(Step(s, a).threads[a.tid]).Some?
    ensures var r := Row(Step(s, a).threads[a.tid]).value; r.1 in Table(Step(s, a), r.0)
  {
    hide Held, Wants, Loose;
    assert Row(s.threads[a.tid]).Some? ==>
      Row(s.threads[a.tid]).value.1 in Table(s, Row(s.threads[a.tid]).value.0);
  }

  /** Another thread's row stays, as its table cannot change. */
  lemma OtherRow(s: State, a: Action, u: nat)
    requires a.Advance? && Enabled(s, a) && RowsOk(s) && Exclusive(s)
    requires u in s.threads && u != a.tid && Row(s.threads[u]).Some?
    ensures var r := Row(s.threads[u]).value; r.1 in Table(Step(s, a), r.0)
  {
    hide Wants, Loose, Next, Effect, Moves, Row, Held;
    RowUnderLock(s.threads[u]);
    ChangeUnderLock(s, s.threads[a.tid], a.c, Row(s.threads[u]).value.0);
    assert Held(s.threads[u]) !! Held(s.threads[a.tid]);
  }

  lemma AdvanceKeepsRows(s: State, a: Action)
    requires a.Advance? && Enabled(s, a) && RowsOk(s) && Exclusive(s)
    ensures RowsOk(Step(s, a))
  {
    hide Exclusive, Held, Wants, Next, Effect, Row, Table;
    var s' := Step(s, a);
    forall u | u in s'.threads && Row(s'.threads[u]).Some?
      ensures Row(s'.threads[u]).value.1 in Table(s', Row(s'.threads[u]).value.0)
    {
      if u == a.tid {
        OwnRow(s, a);
      } else {
        OtherRow(s, a, u);
      }
    }
  }

  /** The vendor stream a thread holds loose next is fresh from the vendor, or comes out of
      the row it removes, or is the one it held before. */
  lemma LooseNext(s: State, t: Thread, c: Choice)
    requires t != Finished && Loose(Next(s, t, c)).Some?
    ensures var v := Loose(Next(s, t, c)).value;
      || (t.OpenVendor? && c.vendor == Some(v))
      || (t.CloseRemove? && v == t.e.vendor)
      || Loose(t) == Some(v)
  {
  }

  /** A closing HAL call excludes every other thread that works with a stream. */
  lemma HalExcludesTables(s: State, u: nat, w: nat)
    requires Exclusive(s) && u in s.threads && w in s.threads && u != w
    requires s.threads[u].HalVendor?
    ensures Row(s.threads[w]) == None && Loose(s.threads[w]) == None
    ensures !s.threads[w].CallVendor? && !s.threads[w].OpenVendor? && !s.threads[w].CloseVendor?
  {
    assert Held(s.threads[u]) !! Held(s.threads[w]);
    var t := s.threads[w];
    assert TableLock(Out) !in Held(t) && TableLock(In) !in Held(t);
    RowUnderLock(t);
    if Row(t).Some? {
      match Row(t).value.0 case Out => case In =>
    }
    if Loose(t).Some? {
      var d: Dir :| TableLock(d) in Held(t);
      match d case Out => case In =>
    }
  }

  lemma AdvanceKeepsLoose(s: State, a: Action)
    requires a.Advance? && Enabled(s, a) && Inv(s)
    ensures LooseOk(Step(s, a))
  {
    var t := s.threads[a.tid];
    var s' := Step(s, a);
    forall u | u in s'.threads && Loose(s'.threads[u]).Some?
      ensures LooseIsOpen(s', Loose(s'.threads[u]).value)
    {
      if u == a.tid {
        OwnLoose(s, a);
      } else {
        OtherLoose(s, a, u);
      }
    }
    forall u, w | u in s'.threads && w in s'.threads && u != w && Loose(s'.threads[u]).Some?
      ensures Loose(s'.threads[u]) != Loose(s'.threads[w])
    {
      if u == a.tid && Loose(s'.threads[w]).Some? {
        LooseApart(s, a, w);
      } else if w == a.tid && Loose(s'.threads[w]).Some? {
        LooseApart(s, a, u);
      }
    }
  }

  predicate LooseIsOpen(s: State, v: nat) {
    && v in s.vendors
    && (forall e :: e in s.outs ==> e.vendor != v)
    && (forall e :: e in s.ins ==> e.vendor != v)
  }

  lemma OwnLoose(s: State, a: Action)
    requires a.Advance? && Enabled(s, a) && Inv(s)
    requires Loose(Step(s, a).threads[a.tid]).Some?
    ensures LooseIsOpen(Step(s, a), Loose(Step(s, a).threads[a.tid]).value)
  {
    hide Exclusive, Held, Wants;
    var t := s.threads[a.tid];
    LooseNext(s, t, a.c);
    if t.CloseRemove? {
      assert Row(t) == Some((t.d, t.e));
      RemovalKeeps(Table(s, t.d), t.e);
    }
  }

  lemma OtherLoose(s: State, a: Action, u: nat)
    requires a.Advance? && Enabled(s, a) && Inv(s)
    requires u in s.threads && u != a.tid && Loose(s.threads[u]).Some?
    ensures LooseIsOpen(Step(s, a), Loose(s.threads[u]).value)
  {
    hide Held, Wants, Next, Exclusive;
    var t := s.threads[a.tid];
    if t.HalVendor? {
      HalExcludesTables(s, a.tid, u);
    } else if t.CloseRemove? {
      assert Row(t) == Some((t.d, t.e));
      RemovalKeeps(Table(s, t.d), t.e);
      hide RemoveFirst, Distinct;
    } else if t.CloseVendor? {
      assert Loose(t) == Some(t.e.vendor);
    } else if t.OpenAppend? {
      assert Loose(t) == t.v;
    }
  }

  lemma LooseApart(s: State, a: Action, w: nat)
    requires a.Advance? && Enabled(s, a) && Inv(s)
    requires w in s.threads && w != a.tid && Loose(s.threads[w]).Some?
    ensures Loose(Step(s, a).threads[a.tid]) != Loose(s.threads[w])
  {
    hide Exclusive, Held, Wants;
    var t := s.threads[a.tid];
    if Loose(Step(s, a).threads[a.tid]).Some? {
      LooseNext(s, t, a.c);
      if t.CloseRemove? {
        assert Row(t) == Some((t.d, t.e));
      }
    }
  }

  lemma {:induction false} RunKeeps(s: State, acts: seq<Action>)
    requires Inv(s) && ValidRun(s, acts)
    ensures Inv(Run(s, acts))
    decreases |acts|
  {
    hide Exclusive, TablesOk, RowsOk, LooseOk;
    if acts != [] {
      if acts[0].Begin? {
        BeginKeeps(s, acts[0]);
      } else {
        AdvanceKeepsExclusive(s, acts[0]);
        AdvanceKeepsTables(s, acts[0]);
        AdvanceKeepsRows(s, acts[0]);
        AdvanceKeepsLoose(s, acts[0]);
      }
      RunKeeps(Step(s, acts[0]), acts[1..]);
    }
  }

  lemma InsideHolds(t: Thread)
    ensures t.CallVendor? ==> {TableLock(t.d), StreamLock(t.d, t.e.id)} <= Held(t)
    ensures t.OpenVendor? || t.CloseVendor? ==> {TableLock(t.d), HalLock} <= Held(t)
    ensures t.HalVendor? ==> {TableLock(Out), TableLock(In), HalLock} <= Held(t)
  {
  }

  lemma RowIsOpen(s: State, t: Thread)
    requires TablesOk(s)
    ensures t.CallVendor? && t.e in Table(s, t.d) ==> t.e.vendor in s.vendors
  {
  }

  /** Two threads' vendor calls exclude each other as their mutexes do. */
  lemma CallsApart(s: State, u: nat, w: nat)
    requires Exclusive(s) && u in s.threads && w in s.threads && u != w
    ensures var t := s.threads[u];
      && (t.CallVendor? || t.OpenVendor? || t.CloseVendor? ==> !s.threads[w].HalVendor?)
      && (t.CallVendor? && s.threads[w].CallVendor? ==> s.threads[w].d != t.d)
  {
    assert Held(s.threads[u]) !! Held(s.threads[w]);
    if s.threads[w].HalVendor? {
      HalExcludesTables(s, w, u);
    }
  }

  /** In every run of any number of threads: no two mutexes are held twice; a thread inside
      a stream's vendor function uses a row of the table whose vendor stream is open; a
      vendor stream is open when it is closed; and a locked HAL call or the closing of the
      device excludes every vendor call on a stream. */
  lemma VendorTheorem(acts: seq<Action>, u: nat)
    requires ValidRun(START, acts) && u in Run(START, acts).threads
    ensures var s := Run(START, acts);
      var t := s.threads[u];
      && (forall w :: w in s.threads && w != u ==> Held(t) !! Held(s.threads[w]))
      && (t.CallVendor? ==> t.e in Table(s, t.d) && t.e.vendor in s.vendors)
      && (t.CloseVendor? ==> t.e.vendor in s.vendors)
      && (t.CallVendor? ==> {TableLock(t.d), StreamLock(t.d, t.e.id)} <= Held(t))
      && (t.OpenVendor? || t.CloseVendor? ==> {TableLock(t.d), HalLock} <= Held(t))
      && (t.HalVendor? ==> {TableLock(Out), TableLock(In), HalLock} <= Held(t))
      && (t.CallVendor? || t.OpenVendor? || t.CloseVendor? ==>
            forall w :: w in s.threads && w != u ==> !s.threads[w].HalVendor?)
      && (t.CallVendor? ==>
            forall w :: w in s.threads && w != u && s.threads[w].CallVendor? ==> s.threads[w].d != t.d)
  {
    RunKeeps(START, acts);
    var s := Run(START, acts);
    var t := s.threads[u];
    hide Run, Table;
    InsideHolds(t);
    hide Held;
    assert t.CallVendor? ==> Row(t) == Some((t.d, t.e)) && t.e in Table(s, t.d);
    assert t.CloseVendor? ==> Loose(t) == Some(t.e.vendor);
    assert t.CallVendor? ==> t.e.vendor in s.vendors by { RowIsOpen(s, t); }
    hide RowsOk, LooseOk, TablesOk;
    forall w | w in s.threads && w != u
      ensures t.CallVendor? || t.OpenVendor? || t.CloseVendor? ==> !s.threads[w].HalVendor?
      ensures t.CallVendor? && s.threads[w].CallVendor? ==> s.threads[w].d != t.d
    {
      CallsApart(s, u, w);
    }
  }

  lemma StreamUnderTable(t: Thread, d: Dir, id: nat)
    ensures StreamLock(d, id) in Held(t) || Wants(t) == Some(StreamLock(d, id)) ==> TableLock(d) in Held(t)
  {
  }

  /** The rows, and the mutexes inside them, are moved or freed in memory only while no other
      thread holds or waits for a stream mutex of that table. */
  lemma RelocationTheorem(acts: seq<Action>, u: nat, w: nat, d: Dir)
    requires ValidRun(START, acts)
    requires var s := Run(START, acts); u in s.threads && w in s.threads && u != w && Moves(s.threads[u], d)
    ensures var t := Run(START, acts).threads[w];
      forall id :: StreamLock(d, id) !in Held(t) && Wants(t) != Some(StreamLock(d, id))
  {
    RunKeeps(START, acts);
    hide Effect, TablesOk, RowsOk, LooseOk, Held, Wants, Moves;
    var s := Run(START, acts);
    var t := s.threads[w];
    ChangeUnderLock(s, s.threads[u], Choice(None, None), d);
    assert Held(s.threads[u]) !! Held(t);
    forall id ensures StreamLock(d, id) !in Held(t) && Wants(t) != Some(StreamLock(d, id)) {
      StreamUnderTable(t, d, id);
    }
  }
}
