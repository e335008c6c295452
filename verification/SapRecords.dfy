// Who owns the records of a SAP socket: the memory that its functions allocate and free, and
// the two queues, as a value. R and H are the addresses of requests and of headers. A step
// that would touch freed memory has no result.
module SapRecords {
  import opened Options
  import opened Sequences

  datatype Header = Header(id: int, token: int)

  /** SapSocketRequest; here tells whether its socketId is one the socket list knows. */
  datatype Request<H> = Request(token: int, curr: H, here: bool)

  /** The live memory and the queues, front first. */
  datatype State<R, H> = State(requests: map<R, Request<H>>, headers: map<H, Header>,
                               dispatch: seq<R>, pending: seq<R>)

  datatype Scan = Fault | Absent | Found(at: nat)

  /** The loop of checkAndDequeue: the header is read only when the token matches. */
  ghost function FirstMatch<R, H>(s: State<R, H>, q: seq<R>, id: int, token: int): (r: Scan)
    ensures r.Found? ==> r.at < |q|
  {
    if q == [] then Absent
    else if q[0] !in s.requests then Fault
    else if s.requests[q[0]].token == token && s.requests[q[0]].curr !in s.headers then Fault
    else if s.requests[q[0]].token == token && s.headers[s.requests[q[0]].curr].id == id then Found(0)
    else
      match FirstMatch(s, q[1..], id, token)
      case Fault => Fault
      case Absent => Absent
      case Found(i) => Found(i + 1)
  }

  /** checkAndDequeue on the pending queue: the first match leaves it and is freed. */
  ghost function CheckAndDequeue<R, H>(s: State<R, H>, id: int, token: int): Option<State<R, H>> {
    match FirstMatch(s, s.pending, id, token)
    case Fault => None
    case Absent => Some(s)
    case Found(i) => Some(s.(pending := RemoveAt(s.pending, i), requests := s.requests - {s.pending[i]}))
  }

  /** The pairs that tell requests apart. */
  ghost predicate SamePair<R, H>(s: State<R, H>, r: R, r': R) {
    && r in s.requests && r' in s.requests
    && s.requests[r].curr in s.headers && s.requests[r'].curr in s.headers
    && s.requests[r].token == s.requests[r'].token
    && s.headers[s.requests[r].curr].id == s.headers[s.requests[r'].curr].id
  }

  // ---------------------------------------------------------------------------
  // The steps. An allocation that fails gives None.

  /** pushRecord: malloc of the header, decoding, malloc of the request. */
  ghost function Push<R, H>(s: State<R, H>, h: Option<H>, decoded: Option<Header>, r: Option<R>): Option<State<R, H>> {
    if h.Some? && decoded.Some? && r.Some? then
      Some(s.(headers := s.headers[h.value := decoded.value],
              requests := s.requests[r.value := Request(decoded.value.token, h.value, true)],
              dispatch := [r.value] + s.dispatch))
    else Some(s)
  }

  /** One round of processRequestsLoop, with dispatchRequest. */
  ghost function Dispatch<R, H>(s: State<R, H>, r: Option<R>): Option<State<R, H>>
    requires s.dispatch != []
  {
    var req := s.dispatch[0];
    if req !in s.requests then None
    else
      var hdr := s.requests[req].curr;
      var s1 := s.(dispatch := s.dispatch[1..]);
      match r
      case None =>
        if hdr !in s.headers then None
        else Some(s1.(headers := s.headers - {hdr}, requests := s.requests - {req}))
      case Some(n) =>
        if hdr !in s.headers then None
        else Some(s1.(requests := s.requests[n := Request(s.headers[hdr].token, hdr, true)] - {req},
                      pending := [n] + s.pending))
  }

  /** sendDisconnect and dispatchDisconnect: a request that no queue holds. The token of its
      header is whatever memory held. */
  ghost function Disconnect<R, H>(s: State<R, H>, h: Option<H>, hdr: Header, r: Option<R>): Option<State<R, H>> {
    if h.Some? && r.Some? then
      Some(s.(headers := s.headers[h.value := hdr], requests := s.requests[r.value := Request(-1, h.value, false)]))
    else Some(s)
  }

  /** sOnRequestComplete. */
  ghost function Complete<R, H>(s: State<R, H>, r: R): Option<State<R, H>> {
    if r !in s.requests || s.requests[r].curr !in s.headers then None
    else
      var hdr := s.requests[r].curr;
      if !s.requests[r].here then Some(s.(headers := s.headers - {hdr}, requests := s.requests - {r}))
      else
        match CheckAndDequeue(s, s.headers[hdr].id, s.headers[hdr].token)
        case None => None
        case Some(s1) => Some(s1.(headers := s1.headers - {hdr}))
  }

  // ---------------------------------------------------------------------------
  // The discipline.

  ghost predicate Distinct<T>(q: seq<T>) {
    forall i, j :: 0 <= i < j < |q| ==> q[i] != q[j]
  }

  /** Every live request is in exactly one place: one of the queues, or only with the vendor. */
  ghost predicate Placed<R, H>(s: State<R, H>) {
    && Distinct(s.dispatch) && Distinct(s.pending)
    && (forall r :: r in s.dispatch ==> r !in s.pending && r in s.requests && s.requests[r].here)
    && (forall r :: r in s.pending ==> r in s.requests && s.requests[r].here)
    && (forall r :: r in s.requests && s.requests[r].here ==> r in s.dispatch || r in s.pending)
  }

  /** Every live request has a live header of its own, and no header is without one. */
  ghost predicate Headed<R, H>(s: State<R, H>) {
    && (forall r :: r in s.requests ==> s.requests[r].curr in s.headers)
    && (forall r, r' :: r in s.requests && r' in s.requests && r != r' ==>
          s.requests[r].curr != s.requests[r'].curr)
    && (forall h :: h in s.headers ==> exists r :: r in s.requests && s.requests[r].curr == h)
    && (forall r :: r in s.requests && s.requests[r].here ==>
          s.headers[s.requests[r].curr].token == s.requests[r].token)
  }

  ghost predicate Owned<R, H>(s: State<R, H>) {
    Placed(s) && Headed(s)
  }

  /** No two pending requests have the same id and token. */
  ghost predicate PairsDistinct<R, H>(s: State<R, H>) {
    forall r, r' :: r in s.pending && r' in s.pending && r != r' ==> !SamePair(s, r, r')
  }

  /** r is with the vendor: dispatched and not completed. */
  ghost predicate Outstanding<R, H>(s: State<R, H>, r: R) {
    r in s.requests && r !in s.dispatch
  }

  /** The state after r and its header are freed, and r has left its queue, and nothing else. */
  ghost function Released<R, H>(s: State<R, H>, r: R): State<R, H>
    requires r in s.requests
  {
    s.(requests := s.requests - {r}, headers := s.headers - {s.requests[r].curr},
       pending := RemoveFirst(s.pending, r), dispatch := RemoveFirst(s.dispatch, r))
  }

  // ---------------------------------------------------------------------------
  // A completion.

  ghost predicate IsHit<R, H>(s: State<R, H>, r: R, id: int, token: int)
    requires r in s.requests && s.requests[r].curr in s.headers
  {
    s.requests[r].token == token && s.headers[s.requests[r].curr].id == id
  }

  /** On live records the scan stops at the first hit. */
  lemma {:induction false} FirstMatchIs<R, H>(s: State<R, H>, q: seq<R>, id: int, token: int, i: nat)
    requires i <= |q| && forall j :: 0 <= j < |q| ==> q[j] in s.requests && s.requests[q[j]].curr in s.headers
    requires forall j :: 0 <= j < i ==> !IsHit(s, q[j], id, token)
    requires i < |q| ==> IsHit(s, q[i], id, token)
    ensures FirstMatch(s, q, id, token) == if i < |q| then Found(i) else Absent
  {
    if i > 0 {
      assert !IsHit(s, q[0], id, token);
      forall j | 0 <= j < i - 1 ensures !IsHit(s, q[1..][j], id, token) {
        assert q[1..][j] == q[j + 1];
      }
      FirstMatchIs(s, q[1..], id, token, i - 1);
    }
  }

  /** The least place of r's pair. */
  lemma {:induction false} LeastMatch<R, H>(s: State<R, H>, r: R, i: nat) returns (m: nat)
    requires i < |s.pending| && SamePair(s, s.pending[i], r)
    ensures m <= i && SamePair(s, s.pending[m], r) && forall j :: 0 <= j < m ==> !SamePair(s, s.pending[j], r)
    decreases i
  {
    if j :| 0 <= j < i && SamePair(s, s.pending[j], r) {
      m := LeastMatch(s, r, j);
    } else {
      m := i;
    }
  }

  /** A completed request that is pending is released, it and no other, exactly if no request
      before it in the queue has its id and token. Otherwise the other one is freed, and r
      stays in the queue with its header gone. */
  lemma CompletePending<R, H>(s: State<R, H>, i: nat)
    requires Owned(s) && i < |s.pending|
    ensures var r := s.pending[i];
      && Complete(s, r).Some?
      && (Complete(s, r).value == Released(s, r) <==> forall j :: 0 <= j < i ==> !SamePair(s, s.pending[j], r))
      && (Owned(Complete(s, r).value) <==> forall j :: 0 <= j < i ==> !SamePair(s, s.pending[j], r))
  {
    var r := s.pending[i];
    assert SamePair(s, r, r);
    var m := LeastMatch(s, r, i);
    forall j | 0 <= j < m ensures !IsHit(s, s.pending[j], s.headers[s.requests[r].curr].id, s.requests[r].token) {
      assert !SamePair(s, s.pending[j], r);
    }
    FirstMatchIs(s, s.pending, s.headers[s.requests[r].curr].id, s.requests[r].token, m);
    var s' := Complete(s, r).value;
    assert s'.requests == s.requests - {s.pending[m]};
    if m == i {
      ReleasedIs(s, i);
      ReleasedKeeps(s, r);
    } else {
      assert SamePair(s, s.pending[m], r);
      assert s.pending[m] != r;
      assert r in s'.requests && s'.requests[r].curr !in s'.headers;
      assert r !in Released(s, r).requests;
    }
  }

  lemma ReleasedIs<R, H>(s: State<R, H>, i: nat)
    requires Owned(s) && i < |s.pending|
    ensures var r := s.pending[i];
      Released(s, r) == s.(pending := RemoveAt(s.pending, i), requests := s.requests - {r},
                           headers := s.headers - {s.requests[r].curr})
  {
    FirstIsAt(s.pending, i);
    assert s.pending[i] !in s.dispatch;
    NothingToRemove(s.dispatch, s.pending[i]);
  }

  /** A request that no queue holds is released outright. */
  lemma CompleteElsewhere<R, H>(s: State<R, H>, r: R)
    requires Owned(s) && r in s.requests && !s.requests[r].here
    ensures Complete(s, r) == Some(Released(s, r)) && Owned(Released(s, r))
  {
    assert r !in s.pending && r !in s.dispatch;
    NothingToRemove(s.pending, r);
    NothingToRemove(s.dispatch, r);
    ReleasedKeeps(s, r);
  }

  lemma {:induction false} RemovalFacts<T>(q: seq<T>, x: T)
    requires Distinct(q)
    ensures Distinct(RemoveFirst(q, x)) && x !in RemoveFirst(q, x)
    ensures forall y :: y in q && y != x ==> y in RemoveFirst(q, x)
    ensures forall y :: y in RemoveFirst(q, x) ==> y in q
  {
    if q != [] {
      var rest := q[1..];
      assert forall j :: 0 <= j < |rest| ==> rest[j] == q[j + 1];
      assert q[0] !in rest;
      RemovalFacts(rest, x);
      if q[0] != x {
        assert q[0] !in RemoveFirst(rest, x);
      }
    }
  }

  lemma ReleasedPlaced<R, H>(s: State<R, H>, r: R)
    requires Placed(s) && r in s.requests
    ensures Placed(Released(s, r))
    ensures forall x :: x in Released(s, r).pending ==> x in s.pending && x != r
  {
    RemovalFacts(s.pending, r);
    RemovalFacts(s.dispatch, r);
    hide RemoveFirst, Distinct;
  }

  lemma ReleasedHeaded<R, H>(s: State<R, H>, r: R)
    requires Headed(s) && r in s.requests
    ensures Headed(Released(s, r))
  {
    hide RemoveFirst;
    var s' := Released(s, r);
    forall h | h in s'.headers ensures exists x :: x in s'.requests && s'.requests[x].curr == h {
      var x :| x in s.requests && s.requests[x].curr == h;
      assert x in s'.requests;
    }
  }

  lemma ReleasedKeeps<R, H>(s: State<R, H>, r: R)
    requires Owned(s) && r in s.requests
    ensures Owned(Released(s, r))
    ensures PairsDistinct(s) ==> PairsDistinct(Released(s, r))
  {
    hide RemoveFirst, Distinct;
    ReleasedPlaced(s, r);
    ReleasedHeaded(s, r);
    var s' := Released(s, r);
    assert forall x, y :: SamePair(s', x, y) ==> SamePair(s, x, y) by { hide Placed, Headed; }
  }

  // ---------------------------------------------------------------------------
  // The other steps.

  lemma PushKeeps<R, H>(s: State<R, H>, h: Option<H>, decoded: Option<Header>, r: Option<R>)
    requires Owned(s) && (h.Some? ==> h.value !in s.headers) && (r.Some? ==> r.value !in s.requests)
    ensures Push(s, h, decoded, r).Some? && Owned(Push(s, h, decoded, r).value)
    ensures PairsDistinct(s) ==> PairsDistinct(Push(s, h, decoded, r).value)
  {
    if h.Some? && decoded.Some? && r.Some? {
      var s' := Push(s, h, decoded, r).value;
      assert Placed(s');
      assert Headed(s') by {
        Attached(s, s', h.value, r.value);
      }
      SamePairsKept(s, s');
    }
  }

  lemma DisconnectKeeps<R, H>(s: State<R, H>, h: Option<H>, hdr: Header, r: Option<R>)
    requires Owned(s) && (h.Some? ==> h.value !in s.headers) && (r.Some? ==> r.value !in s.requests)
    ensures Disconnect(s, h, hdr, r).Some? && Owned(Disconnect(s, h, hdr, r).value)
    ensures PairsDistinct(s) ==> PairsDistinct(Disconnect(s, h, hdr, r).value)
  {
    if h.Some? && r.Some? {
      var s' := Disconnect(s, h, hdr, r).value;
      assert Placed(s');
      assert Headed(s') by {
        Attached(s, s', h.value, r.value);
      }
      SamePairsKept(s, s');
    }
  }

  /** A new request with a new header. */
  lemma Attached<R, H>(s: State<R, H>, s': State<R, H>, h: H, r: R)
    requires Headed(s) && h !in s.headers && r !in s.requests && r in s'.requests && h in s'.headers
    requires s'.headers == s.headers[h := s'.headers[h]] && s'.requests == s.requests[r := s'.requests[r]]
    requires s'.requests[r].curr == h && (s'.requests[r].here ==> s'.requests[r].token == s'.headers[h].token)
    ensures Headed(s')
  {
    forall x | x in s'.headers ensures exists y :: y in s'.requests && s'.requests[y].curr == x {
      if x == h {
        assert r in s'.requests;
      } else {
        var y :| y in s.requests && s.requests[y].curr == x;
        assert y in s'.requests;
      }
    }
  }

  lemma SamePairsKept<R, H>(s: State<R, H>, s': State<R, H>)
    requires Owned(s) && s'.pending == s.pending
    requires forall x :: x in s.requests ==> x in s'.requests && s'.requests[x] == s.requests[x]
    requires forall x :: x in s.headers ==> x in s'.headers && s'.headers[x] == s.headers[x]
    ensures PairsDistinct(s) ==> PairsDistinct(s')
  {
    if PairsDistinct(s) {
      forall x, y | x in s'.pending && y in s'.pending && x != y ensures !SamePair(s', x, y) {
        assert !SamePair(s, x, y);
      }
    }
  }

  /** The front request's pair is not pending yet. */
  ghost predicate NewPair<R, H>(s: State<R, H>)
    requires s.dispatch != []
  {
    forall x :: x in s.pending ==> !SamePair(s, s.dispatch[0], x)
  }

  lemma DispatchKeeps<R, H>(s: State<R, H>, r: Option<R>)
    requires Owned(s) && s.dispatch != [] && (r.Some? ==> r.value !in s.requests)
    ensures Dispatch(s, r).Some? && Owned(Dispatch(s, r).value)
    ensures PairsDistinct(s) && (r.Some? ==> NewPair(s)) ==> PairsDistinct(Dispatch(s, r).value)
  {
    var req := s.dispatch[0];
    assert req in s.dispatch;
    var s' := Dispatch(s, r).value;
    match r
    case None =>
      assert RemoveFirst(s.dispatch, req) == s.dispatch[1..];
      NothingToRemove(s.pending, req);
      assert s' == Released(s, req);
      ReleasedKeeps(s, req);
    case Some(n) =>
      MovedKeeps(s, n);
      if PairsDistinct(s) && NewPair(s) {
        MovedPairs(s, n);
      }
  }

  lemma MovedHeaded<R, H>(s: State<R, H>, n: R)
    requires Owned(s) && s.dispatch != [] && n !in s.requests && Dispatch(s, Some(n)).Some?
    ensures Headed(Dispatch(s, Some(n)).value)
  {
    var req := s.dispatch[0];
    var s' := Dispatch(s, Some(n)).value;
    assert req in s.dispatch;
    hide Placed;
    forall h | h in s'.headers ensures exists x :: x in s'.requests && s'.requests[x].curr == h {
      var x :| x in s.requests && s.requests[x].curr == h;
      if x == req {
        assert n in s'.requests;
      } else {
        assert x in s'.requests;
      }
    }
  }

  lemma MovedKeeps<R, H>(s: State<R, H>, n: R)
    requires Owned(s) && s.dispatch != [] && n !in s.requests
    ensures Dispatch(s, Some(n)).Some? && Owned(Dispatch(s, Some(n)).value)
  {
    assert s.dispatch[0] in s.dispatch;
    MovedHeaded(s, n);
    var s' := Dispatch(s, Some(n)).value;
    assert Placed(s') by { hide Headed; }
  }

  lemma MovedPairs<R, H>(s: State<R, H>, n: R)
    requires Owned(s) && s.dispatch != [] && n !in s.requests && PairsDistinct(s) && NewPair(s)
    ensures Dispatch(s, Some(n)).Some? && PairsDistinct(Dispatch(s, Some(n)).value)
  {
    var req := s.dispatch[0];
    assert req in s.dispatch;
    var s' := Dispatch(s, Some(n)).value;
    forall x, y | x in s'.pending && y in s'.pending && x != y ensures !SamePair(s', x, y) {
      if x == n {
        assert !SamePair(s, req, y);
      } else if y == n {
        assert !SamePair(s, req, x);
      } else {
        assert !SamePair(s, x, y);
      }
    }
  }

  // ---------------------------------------------------------------------------
  // Runs.

  datatype Action<R, H> =
    | DoPush(h: Option<H>, decoded: Option<Header>, r: Option<R>)
    | DoDispatch(r: Option<R>)
    | DoDisconnect(h: Option<H>, hdr: Header, r: Option<R>)
    | DoComplete(done: R)

  /** malloc gives unused memory; the vendor completes what it was given, once; and clients
      give the requests in flight different ids or tokens. */
  ghost predicate Allowed<R, H>(s: State<R, H>, a: Action<R, H>) {
    match a
    case DoPush(h, _, r) => (h.Some? ==> h.value !in s.headers) && (r.Some? ==> r.value !in s.requests)
    case DoDispatch(r) => s.dispatch != [] && (r.Some? ==> r.value !in s.requests && NewPair(s))
    case DoDisconnect(h, _, r) => (h.Some? ==> h.value !in s.headers) && (r.Some? ==> r.value !in s.requests)
    case DoComplete(r) => Outstanding(s, r)
  }

  ghost function Step<R, H>(s: State<R, H>, a: Action<R, H>): Option<State<R, H>>
    requires a.DoDispatch? ==> s.dispatch != []
  {
    match a
    case DoPush(h, decoded, r) => Push(s, h, decoded, r)
    case DoDispatch(r) => Dispatch(s, r)
    case DoDisconnect(h, hdr, r) => Disconnect(s, h, hdr, r)
    case DoComplete(r) => Complete(s, r)
  }

  ghost predicate Safe<R, H>(s: State<R, H>) {
    Owned(s) && PairsDistinct(s)
  }

  /** An allowed step touches no freed memory and keeps the ownership; a completion releases
      the very request it was given. */
  lemma StepKeeps<R, H>(s: State<R, H>, a: Action<R, H>)
    requires Safe(s) && Allowed(s, a)
    ensures Step(s, a).Some? && Safe(Step(s, a).value)
    ensures a.DoComplete? ==> Step(s, a).value == Released(s, a.done)
  {
    hide Owned, PairsDistinct, Push, Dispatch, Disconnect, Complete, Released;
    match a
    case DoPush(h, decoded, r) => PushKeeps(s, h, decoded, r);
    case DoDispatch(r) => DispatchKeeps(s, r);
    case DoDisconnect(h, hdr, r) => DisconnectKeeps(s, h, hdr, r);
    case DoComplete(r) => CompleteKeeps(s, r);
  }

  lemma CompleteKeeps<R, H>(s: State<R, H>, r: R)
    requires Safe(s) && Outstanding(s, r)
    ensures Complete(s, r) == Some(Released(s, r)) && Safe(Released(s, r))
  {
    ReleasedKeeps(s, r);
    if s.requests[r].here {
      assert r in s.pending;
      var i :| 0 <= i < |s.pending| && s.pending[i] == r;
      forall j | 0 <= j < i ensures !SamePair(s, s.pending[j], r) {
        assert s.pending[j] != r;
      }
      hide Complete, Released;
      CompletePending(s, i);
    } else {
      CompleteElsewhere(s, r);
    }
  }

  /** Completing a request a second time touches freed memory. */
  lemma CompleteTwice<R, H>(s: State<R, H>, r: R)
    requires Safe(s) && Outstanding(s, r)
    ensures Complete(s, r).Some? && Complete(Complete(s, r).value, r).None?
  {
    CompleteKeeps(s, r);
  }

  ghost predicate AllAllowed<R, H>(s: State<R, H>, acts: seq<Action<R, H>>)
    decreases |acts|
  {
    acts == [] || (Allowed(s, acts[0])
                   && (Step(s, acts[0]).Some? ==> AllAllowed(Step(s, acts[0]).value, acts[1..])))
  }

  ghost function Run<R, H>(s: State<R, H>, acts: seq<Action<R, H>>): Option<State<R, H>>
    requires AllAllowed(s, acts)
    decreases |acts|
  {
    if acts == [] then Some(s)
    else
      match Step(s, acts[0])
      case None => None
      case Some(s1) => Run(s1, acts[1..])
  }

  lemma {:induction false} RunIsSafe<R, H>(s: State<R, H>, acts: seq<Action<R, H>>)
    requires Safe(s) && AllAllowed(s, acts)
    ensures Run(s, acts).Some? && Safe(Run(s, acts).value)
    decreases |acts|
  {
    if acts != [] {
      StepKeeps(s, acts[0]);
      hide Safe, Allowed, Step;
      RunIsSafe(Step(s, acts[0]).value, acts[1..]);
    }
  }

  /** A socket starts with nothing. */
  ghost function Nothing<R, H>(): State<R, H> {
    State(map[], map[], [], [])
  }

  lemma EmptyIsSafe<R, H>()
    ensures Safe<R, H>(Nothing())
  {
  }

  /** Nothing is queued and the vendor holds nothing. */
  ghost predicate Drained<R, H>(s: State<R, H>) {
    s.dispatch == [] && forall r :: r in s.requests ==> !Outstanding(s, r)
  }

  lemma FirstIsMember<T>(q: seq<T>)
    ensures q == [] || q[0] in q
  {
  }

  lemma NothingLeaks<R, H>(s: State<R, H>)
    requires Owned(s) && Drained(s)
    ensures s == Nothing()
  {
    FirstIsMember(s.pending);
    assert forall r :: r in s.requests ==> Outstanding(s, r);
    assert s.requests.Keys == {};
    assert s.headers.Keys == {};
  }

  /** No run of a socket touches freed memory or frees anything twice; what is live at its end
      is exactly what the queues and the vendor still hold, and once they hold nothing, nothing
      is left allocated. */
  lemma OwnershipTheorem<R, H>(acts: seq<Action<R, H>>)
    requires AllAllowed(Nothing(), acts)
    ensures Run(Nothing(), acts).Some? && Safe(Run(Nothing(), acts).value)
    ensures Drained(Run(Nothing(), acts).value) ==> Run(Nothing(), acts).value == Nothing()
  {
    EmptyIsSafe<R, H>();
    RunIsSafe<R, H>(Nothing(), acts);
    if Drained(Run(Nothing(), acts).value) {
      NothingLeaks<R, H>(Run(Nothing(), acts).value);
    }
  }

  // ---------------------------------------------------------------------------
  // Without the discipline.

  function TwoAlike(): State<nat, nat> {
    State(map[1 := Request(7, 11, true), 2 := Request(7, 12, true)],
          map[11 := Header(5, 7), 12 := Header(5, 7)], [], [2, 1])
  }

  lemma AlikeOwned()
    ensures Owned(TwoAlike()) && !PairsDistinct(TwoAlike())
  {
    var s := TwoAlike();
    assert SamePair(s, 2, 1) && s.pending == [2, 1];
    assert 1 in s.pending && 2 in s.pending;
    assert forall h :: h in s.headers ==> h == s.requests[1].curr || h == s.requests[2].curr;
  }

  /** Two pending requests of one id and token: completing the older one frees the newer one
      and the header of the older, which stays in the queue. */
  lemma WrongRequestIsFreed()
    ensures var s := TwoAlike();
      && Owned(s) && !PairsDistinct(s)
      && Complete(s, 1).Some?
      && 2 !in Complete(s, 1).value.requests && Complete(s, 1).value.pending == [1]
      && 1 in Complete(s, 1).value.requests && 11 !in Complete(s, 1).value.headers
      && !Owned(Complete(s, 1).value)
  {
    var s := TwoAlike();
    AlikeOwned();
    hide Owned, PairsDistinct;
    assert s.pending[1] == 1 && s.pending[0] == 2;
    FirstMatchIs(s, s.pending, 5, 7, 0);
    CompletePending(s, 1);
    assert RemoveAt(s.pending, 0) == [1];
  }
}
