// The timer list as a value: where ril_timer_add puts a timer, and which
// timers are due.  Deadlines are microsecond counts.
module TimerQueue {
  datatype Timer = Timer(id: nat, due: int)

  function Ids(v: seq<Timer>): seq<nat> {
    seq(|v|, i requires 0 <= i < |v| => v[i].id)
  }

  predicate Sorted(q: seq<Timer>) {
    forall i, j :: 0 <= i < j < |q| ==> q[i].due <= q[j].due
  }

  /** Position of the first timer that is not earlier than the deadline. */
  function Slot(q: seq<Timer>, due: int): (k: nat)
    ensures k <= |q|
    ensures forall i :: 0 <= i < k ==> q[i].due < due
    ensures k < |q| ==> due <= q[k].due
  {
    if q == [] || due <= q[0].due then 0 else 1 + Slot(q[1..], due)
  }

  function Insert(q: seq<Timer>, t: Timer): seq<Timer> {
    var k := Slot(q, t.due);
    q[..k] + [t] + q[k..]
  }

  /** The naive filters that the early exit of processTimeouts must agree with. */
  function Expired(q: seq<Timer>, now: int): seq<Timer> {
    if q == [] then []
    else if q[0].due < now then [q[0]] + Expired(q[1..], now)
    else Expired(q[1..], now)
  }

  function Live(q: seq<Timer>, now: int): seq<Timer> {
    if q == [] then []
    else if q[0].due < now then Live(q[1..], now)
    else [q[0]] + Live(q[1..], now)
  }

  /** The slot is the only cut that keeps earlier timers before and all others after. */
  lemma SlotIsUnique(q: seq<Timer>, due: int, k: nat)
    requires k <= |q|
    requires forall i :: 0 <= i < k ==> q[i].due < due
    requires k < |q| ==> due <= q[k].due
    ensures k == Slot(q, due)
  {
  }

  lemma InsertKeepsTimers(q: seq<Timer>, t: Timer)
    ensures multiset(Insert(q, t)) == multiset(q) + multiset{t}
  {
    var k := Slot(q, t.due);
    assert q == q[..k] + q[k..];
  }

  /** Inserting keeps the list sorted and puts the newcomer before every timer
      of equal deadline and after every earlier one. */
  lemma InsertKeepsOrder(q: seq<Timer>, t: Timer)
    requires Sorted(q)
    ensures Sorted(Insert(q, t))
    ensures forall i :: 0 <= i < |q| ==> (q[i].due < t.due <==> i < Slot(q, t.due))
  {
    var k := Slot(q, t.due);
    hide Slot;
    forall i | k <= i < |q| ensures t.due <= q[i].due {
      if i > k { assert q[k].due <= q[i].due; }
    }
    BetweenSorted(q, t, k);
  }

  lemma BetweenSorted(q: seq<Timer>, t: Timer, k: nat)
    requires Sorted(q) && k <= |q|
    requires forall i :: 0 <= i < |q| ==> if i < k then q[i].due <= t.due else t.due <= q[i].due
    ensures Sorted(q[..k] + [t] + q[k..])
  {
    var r := q[..k] + [t] + q[k..];
    assert forall i :: 0 <= i < |r| ==> r[i] == if i < k then q[i] else if i == k then t else q[i - 1];
    hide Sorted;
    forall i, j | 0 <= i < j < |r| ensures r[i].due <= r[j].due {
      SortedAt(q, if i < k then i else i - 1, if j <= k then j else j - 1);
    }
  }

  lemma SortedAt(q: seq<Timer>, i: int, j: int)
    requires Sorted(q)
    ensures 0 <= i <= j < |q| ==> q[i].due <= q[j].due
  {
  }

  lemma SortedRest(q: seq<Timer>)
    requires Sorted(q) && q != []
    ensures Sorted(q[1..])
  {
    forall i, j | 0 <= i < j < |q[1..]| ensures q[1..][i].due <= q[1..][j].due {
      assert q[i + 1].due <= q[j + 1].due;
    }
  }

  /** On a sorted list, stopping at the first live timer misses nothing: the
      expired timers are a prefix and the live ones the rest. */
  lemma {:induction false} ExpiredIsPrefix(q: seq<Timer>, now: int, k: nat)
    requires Sorted(q) && k <= |q|
    requires forall i :: 0 <= i < k ==> q[i].due < now
    requires k < |q| ==> now <= q[k].due
    ensures Expired(q, now) == q[..k] && Live(q, now) == q[k..]
  {
    if q != [] {
      var rest := q[1..];
      SortedRest(q);
      SortedAt(q, 0, 1);
      hide Sorted;
      if k == 0 {
        ExpiredIsPrefix(rest, now, 0);
      } else {
        ExpiredIsPrefix(rest, now, k - 1);
        assert q[..k] == [q[0]] + rest[..k - 1] && q[k..] == rest[k - 1..];
      }
    }
  }

  /** Expiry splits a list without losing, inventing or reordering timers. */
  lemma {:induction false} ExpirySplits(q: seq<Timer>, now: int)
    ensures multiset(q) == multiset(Expired(q, now)) + multiset(Live(q, now))
    ensures forall t :: t in Expired(q, now) <==> t in q && t.due < now
    ensures forall t :: t in Live(q, now) <==> t in q && now <= t.due
  {
    if q != [] {
      ExpirySplits(q[1..], now);
      assert q == [q[0]] + q[1..];
      assert forall t :: t in q <==> t == q[0] || t in q[1..];
    }
  }

  lemma ExpiryKeepsOrder(q: seq<Timer>, now: int)
    requires Sorted(q)
    ensures Sorted(Expired(q, now)) && Sorted(Live(q, now))
  {
    ExpiredIsPrefix(q, now, Slot(q, now));
  }
}
