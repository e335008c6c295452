// Request timeouts: what a lookup computes, the write-once cache, and threads that race to it.
module TimeoutCache {
  import opened Options

  const WORD := 0x1_0000_0000
  const WAIT_FOREVER := 0xFFFF_FFFF
  const INTERNAL_START := 500       // INTERNAL_REQ_ID_START
  const DATA_CALL_EXTRA := 50000
  const NETWORK_EXTRA := 10000

  type UInt32 = x: int | 0 <= x < WORD

  /** The repository and the modem: timeouts by request id, the default, the number of request
      ids of both kinds, and which ids the switch lists in its two groups. */
  datatype Config = Config(timeouts: map<int, int>, internalTimeouts: map<int, int>, fallback: UInt32,
                           total: nat, internalTotal: nat, multiSim: bool,
                           dataCalls: set<int>, networks: set<int>)

  predicate Formed(c: Config) {
    c.total <= INTERNAL_START
  }

  /** A request id that is cached. */
  predicate IsRil(c: Config, id: int) {
    0 <= id < c.total
  }

  /** The timeout as configured, before it is extended. */
  function Configured(c: Config, id: int): UInt32 {
    if id in c.timeouts then c.timeouts[id] % WORD else c.fallback
  }

  /** What the switch adds to the doubled timeout; None if it does not list the id. */
  function Extra(c: Config, id: int): Option<nat> {
    if !c.multiSim then None
    else if id in c.dataCalls then Some(DATA_CALL_EXTRA)
    else if id in c.networks then Some(NETWORK_EXTRA)
    else None
  }

  /** What a miss computes, in 32-bit arithmetic. */
  function Computed(c: Config, id: int): UInt32 {
    var t := Configured(c, id);
    if t == 0 then WAIT_FOREVER
    else
      match Extra(c, id)
      case Some(k) => (2 * t % WORD + k) % WORD
      case None => t
  }

  /** What a lookup that uses no cache answers. */
  function Uncached(c: Config, id: int): UInt32
    requires !IsRil(c, id)
  {
    if id >= INTERNAL_START && id - INTERNAL_START < c.internalTotal && id - INTERNAL_START in c.internalTimeouts
    then c.internalTimeouts[id - INTERNAL_START] % WORD
    else c.fallback
  }

  /** v is the timeout of a request id in the numbers of the configuration: for ids below the
      total, the configured or the default timeout t, or 2^32 - 1 if that is 0, and on multi-SIM
      modems 2t + 50000 or 2t + 10000 modulo 2^32; for ids from 500 on the internal timeout; and
      the default for every other id. */
  predicate Answers(c: Config, id: int, v: int) {
    if 0 <= id < c.total then
      var t := if id in c.timeouts then c.timeouts[id] % 0x1_0000_0000 else c.fallback;
      if t == 0 then v == 0xFFFF_FFFF
      else if c.multiSim && id in c.dataCalls then v == (2 * t + 50000) % 0x1_0000_0000
      else if c.multiSim && id in c.networks then v == (2 * t + 10000) % 0x1_0000_0000
      else v == t
    else if id >= 500 && id - 500 < c.internalTotal && id - 500 in c.internalTimeouts then
      v == c.internalTimeouts[id - 500] % 0x1_0000_0000
    else v == c.fallback
  }

  /** Doubling and adding in 32 bits one after the other is the sum modulo 2^32. */
  lemma WrapOnce(t: int, k: int)
    ensures (2 * t % WORD + k) % WORD == (2 * t + k) % WORD
  {
  }

  lemma AnswersAre(c: Config, id: int)
    ensures Answers(c, id, if IsRil(c, id) then Computed(c, id) else Uncached(c, id))
  {
    if IsRil(c, id) && Extra(c, id).Some? {
      WrapOnce(Configured(c, id), Extra(c, id).value);
    }
  }

  /** An extended timeout is what it should be exactly if it fits into 32 bits, which it does
      for configured timeouts up to (2^32 - 1 - extra) / 2. */
  lemma ExactIffFits(c: Config, id: int)
    requires Configured(c, id) != 0 && Extra(c, id).Some?
    ensures var t, k := Configured(c, id), Extra(c, id).value;
      && (Computed(c, id) == 2 * t + k <==> t <= (WORD - 1 - k) / 2)
      && (Computed(c, id) == 0 <==> 2 * t + k == WORD || 2 * t + k == 2 * WORD)
  {
    var t, k := Configured(c, id), Extra(c, id).value;
    if 2 * t < WORD {
      assert 2 * t % WORD == 2 * t;
    } else {
      assert 2 * t % WORD == 2 * t - WORD;
    }
  }

  /** Whatever the id, a configured timeout up to (2^32 - 1 - 50000) / 2 gives a timeout that is
      not zero and not below the configured one. */
  lemma SmallTimeoutsAreSafe(c: Config, id: int)
    requires Configured(c, id) <= (WORD - 1 - DATA_CALL_EXTRA) / 2
    ensures Computed(c, id) != 0 && Computed(c, id) >= Configured(c, id)
    ensures Configured(c, id) != 0 && Extra(c, id).Some? ==>
      Computed(c, id) == 2 * Configured(c, id) + Extra(c, id).value
  {
    if Configured(c, id) != 0 && Extra(c, id).Some? {
      ExactIffFits(c, id);
    }
  }

  /** The smallest configured timeout whose extension is zero: such requests time out at once. */
  lemma ExtensionCanBeZero(c: Config, id: int)
    requires c.multiSim && id in c.dataCalls && id in c.timeouts && c.timeouts[id] == 2147458648
    ensures Computed(c, id) == 0
  {
  }

  // ---------------------------------------------------------------------------
  // Threads.

  /** Where a thread stands in GetRequestInfo. */
  datatype Phase =
    | Outside
    | Missed(id: int)                      // found the cache empty
    | Ready(id: int, value: UInt32)        // has computed its value
    | Locked(id: int, value: UInt32)       // holds the cache lock
    | Checked(id: int, value: UInt32)      // holds it and has rechecked and stored
    | Answered(id: int, value: UInt32)

  datatype State = State(cache: map<int, UInt32>, threads: seq<Phase>)

  datatype Action =
    | Call(th: nat, id: int)
    | Compute(th: nat, c: Config)  // the configuration read at that moment
    | Acquire(th: nat)
    | Store(th: nat, hasMemory: bool)
    | Release(th: nat)
    | Return(th: nat)

  predicate Holds(p: Phase) {
    p.Locked? || p.Checked?
  }

  predicate LockFree(s: State) {
    forall i :: 0 <= i < |s.threads| ==> !Holds(s.threads[i])
  }

  /** One step; c is the configuration a call sees when it does not use the cache. */
  function Step(c: Config, s: State, a: Action): (s': State)
    ensures |s'.threads| == |s.threads|
  {
    if a.th >= |s.threads| then s
    else
      var p := s.threads[a.th];
      match a
      case Call(th, id) =>
        if !p.Outside? then s
        else if !IsRil(c, id) then s.(threads := s.threads[th := Answered(id, Uncached(c, id))])
        else if id in s.cache then s.(threads := s.threads[th := Answered(id, s.cache[id])])
        else s.(threads := s.threads[th := Missed(id)])
      case Compute(th, now) =>
        if p.Missed? then s.(threads := s.threads[th := Ready(p.id, Computed(now, p.id))]) else s
      case Acquire(th) =>
        if p.Ready? && LockFree(s) then s.(threads := s.threads[th := Locked(p.id, p.value)]) else s
      case Store(th, hasMemory) =>
        if !p.Locked? then s
        else
          State(if p.id !in s.cache && hasMemory then s.cache[p.id := p.value] else s.cache,
                s.threads[th := Checked(p.id, p.value)])
      case Release(th) =>
        if p.Checked? then s.(threads := s.threads[th := Answered(p.id, p.value)]) else s
      case Return(th) =>
        if p.Answered? then s.(threads := s.threads[th := Outside]) else s
  }

  /** At most one thread holds the lock. */
  predicate Exclusive(s: State) {
    forall i, j :: 0 <= i < j < |s.threads| ==> !(Holds(s.threads[i]) && Holds(s.threads[j]))
  }

  /** Whatever the repository says from moment to moment, a cached entry is never overwritten
      or removed, and the lock excludes. */
  lemma CacheIsWriteOnce(c: Config, s: State, a: Action, id: int)
    requires Exclusive(s)
    ensures Exclusive(Step(c, s, a))
    ensures id in s.cache ==> id in Step(c, s, a).cache && Step(c, s, a).cache[id] == s.cache[id]
  {
  }

  /** With one configuration: cached values, values in hand and answers are all what a miss
      computes, or what a lookup without cache answers. */
  ghost predicate Consistent(c: Config, s: State) {
    && (forall id :: id in s.cache ==> IsRil(c, id) && s.cache[id] == Computed(c, id))
    && (forall i :: 0 <= i < |s.threads| ==> PhaseOk(c, s.threads[i]))
  }

  ghost predicate PhaseOk(c: Config, p: Phase) {
    match p
    case Outside => true
    case Missed(id) => IsRil(c, id)
    case Ready(id, v) => IsRil(c, id) && v == Computed(c, id)
    case Locked(id, v) => IsRil(c, id) && v == Computed(c, id)
    case Checked(id, v) => IsRil(c, id) && v == Computed(c, id)
    case Answered(id, v) => v == if IsRil(c, id) then Computed(c, id) else Uncached(c, id)
  }

  lemma StepKeeps(c: Config, s: State, a: Action)
    requires Consistent(c, s) && (a.Compute? ==> a.c == c)
    ensures Consistent(c, Step(c, s, a))
  {
    hide Computed, Uncached, LockFree;
  }

  function Run(c: Config, s: State, acts: seq<Action>): (s': State)
    ensures |s'.threads| == |s.threads|
    decreases |acts|
  {
    if acts == [] then s else Run(c, Step(c, s, acts[0]), acts[1..])
  }

  lemma {:induction false} RunKeeps(c: Config, s: State, acts: seq<Action>)
    requires Consistent(c, s) && forall a :: a in acts && a.Compute? ==> a.c == c
    ensures Consistent(c, Run(c, s, acts))
    decreases |acts|
  {
    if acts != [] {
      StepKeeps(c, s, acts[0]);
      hide Step, Consistent;
      RunKeeps(c, Step(c, s, acts[0]), acts[1..]);
    }
  }

  lemma {:induction false} RunIsWriteOnce(c: Config, s: State, acts: seq<Action>, id: int)
    requires Exclusive(s)
    ensures Exclusive(Run(c, s, acts))
    ensures id in s.cache ==> id in Run(c, s, acts).cache && Run(c, s, acts).cache[id] == s.cache[id]
    decreases |acts|
  {
    if acts != [] {
      CacheIsWriteOnce(c, s, acts[0], id);
      hide Step, Exclusive;
      RunIsWriteOnce(c, Step(c, s, acts[0]), acts[1..], id);
    }
  }

  /** In every interleaving from an empty cache every answer is the timeout of its id, so any two
      answers for the same id agree, be they misses or hits. */
  lemma AnswersAgree(c: Config, n: nat, acts: seq<Action>, i: nat, j: nat)
    requires i < n && j < n && forall a :: a in acts && a.Compute? ==> a.c == c
    ensures var s := Run(c, State(map[], seq(n, _ => Outside)), acts);
      && (s.threads[i].Answered? ==> Answers(c, s.threads[i].id, s.threads[i].value))
      && (s.threads[i].Answered? && s.threads[j].Answered? && s.threads[i].id == s.threads[j].id ==>
            s.threads[i].value == s.threads[j].value)
  {
    var s0 := State(map[], seq(n, _ => Outside));
    assert Consistent(c, s0);
    RunKeeps(c, s0, acts);
    hide Computed, Uncached, Run, Answers;
    var s := Run(c, s0, acts);
    if s.threads[i].Answered? { AnswersAre(c, s.threads[i].id); }
    assert PhaseOk(c, s.threads[i]) && PhaseOk(c, s.threads[j]);
  }

  // ---------------------------------------------------------------------------
  // The function and its table.

  class ReqInfo {
    const timeout: UInt32

    constructor (timeout: UInt32)
      ensures this.timeout == timeout
    {
      this.timeout := timeout;
    }
  }

  class RequestInfoTable {
    const infos: array?<ReqInfo?>  // m_rgpRequestInfos, null if it could not be allocated
    const config: Config

    ghost predicate Valid()
      reads infos
    {
      && Formed(config)
      && (infos != null ==>
            && infos.Length == config.total
            && forall id :: 0 <= id < infos.Length && infos[id] != null ==>
                 infos[id].timeout == Computed(config, id))
    }

    constructor (config: Config, hasTable: bool)
      requires Formed(config)
      ensures Valid() && this.config == config && (infos != null <==> hasTable)
      ensures infos != null ==> fresh(infos) && forall id :: 0 <= id < infos.Length ==> infos[id] == null
    {
      this.config := config;
      if hasTable {
        infos := new ReqInfo?[config.total](_ => null);
      } else {
        infos := null;
      }
    }

    /** GetRequestInfo without interference; hasMemory tells whether new succeeds. Without a
        table every id gets the default. */
    method GetRequestInfo(id: int, hasMemory: bool) returns (timeout: UInt32)
      requires Valid()
      modifies infos
      ensures Valid()
      ensures if infos == null then timeout == config.fallback else Answers(config, id, timeout)
      ensures infos != null ==>
        && (forall k :: 0 <= k < infos.Length && (k != id || old(infos[k]) != null) ==> infos[k] == old(infos[k]))
        && (IsRil(config, id) && hasMemory ==> infos[id] != null)
    {
      AnswersAre(config, id);
      hide Computed;
      timeout := config.fallback;
      if infos == null || id == -1 || config.total <= id < INTERNAL_START || id < 0 {
        return;
      }
      if id >= INTERNAL_START {
        var index := id - INTERNAL_START;
        if index < config.internalTotal && index in config.internalTimeouts {
          timeout := config.internalTimeouts[index] % WORD;
        }
      } else if infos[id] == null {
        timeout := ReadTimeout(id);
        if infos[id] == null && hasMemory {
          infos[id] := new ReqInfo(timeout);
        }
      } else {
        timeout := infos[id].timeout;
      }
    }

    /** The timeout from the repository, with the special cases. */
    method ReadTimeout(id: int) returns (timeout: UInt32)
      ensures timeout == Computed(config, id)
    {
      if id in config.timeouts {
        timeout := config.timeouts[id] % WORD;
      } else {
        timeout := config.fallback;
      }
      if timeout == 0 {
        timeout := WAIT_FOREVER;
      } else if config.multiSim {
        if id in config.dataCalls {
          timeout := 2 * timeout % WORD;
          timeout := (timeout + DATA_CALL_EXTRA) % WORD;
        } else if id in config.networks {
          timeout := 2 * timeout % WORD;
          timeout := (timeout + NETWORK_EXTRA) % WORD;
        }
      }
    }
  }
}
