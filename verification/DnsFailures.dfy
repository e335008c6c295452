// The data call list and its DNS counter: an active call without a usable DNS address is
// reported as failed, and every third such failure in a row asks for a modem restart.
module DnsFailures {
  import opened Options

  const MAX_DNS_FAILURES := 3
  const REGULAR_DEACTIVATION := 0x24             // PDP_FAIL_REGULAR_DEACTIVATION
  const ACTIVATION_REJECT_UNSPECIFIED := 0x1F    // PDP_FAIL_ACTIVATION_REJECT_UNSPECIFIED

  /** RIL_Data_Call_Response_v6; None is a null string. */
  datatype Call = Call(status: int, retry: int, cid: int, active: int, kind: Option<string>,
                       ifname: Option<string>, addresses: Option<string>, dnses: Option<string>,
                       gateways: Option<string>)

  /** is_valid_addr */
  predicate ValidAddr(addr: Option<string>) {
    addr.Some? && addr.value != "0.0.0.0" && addr.value != "::"
  }

  /** The status as a short, promoted back to an int. */
  function ShortOf(status: int): int {
    var low := status % 0x1_0000;
    if low < 0x8000 then low else low - 0x1_0000
  }

  /** ShortOf undoes a short that was copied into the low bytes of an int. */
  lemma ShortComesBack(short: int, junk: int)
    requires -0x8000 <= short < 0x8000
    ensures ShortOf(short % 0x1_0000 + junk * 0x1_0000) == short
  {
  }

  /** An entry that counts as a failure, and one that ends a row of failures. */
  predicate Fails(c: Call) {
    ShortOf(c.status) == 0 && !ValidAddr(c.dnses)
  }

  predicate Recovers(c: Call) {
    ShortOf(c.status) == 0 && ValidAddr(c.dnses)
  }

  /** An entry with status 0 in its low 16 bits is a failure if it has no DNS address, or the
      IPv4 or the IPv6 address of nothing, and a recovery if it has any other; no other entry is
      either. */
  lemma FailsIs(c: Call)
    ensures var none := c.dnses == None || c.dnses == Some("0.0.0.0") || c.dnses == Some("::");
      (Fails(c) <==> c.status % 0x1_0000 == 0 && none) && (Recovers(c) <==> c.status % 0x1_0000 == 0 && !none)
  {
    if c.dnses.Some? {
      var d := c.dnses.value;
      assert c.dnses == Some("0.0.0.0") <==> d == "0.0.0.0";
      assert c.dnses == Some("::") <==> d == "::";
    }
  }

  /** One entry: the counter after it and the status it reports. */
  function Report(n: nat, c: Call): (r: (nat, int)) {
    if Fails(c) then
      if n + 1 >= MAX_DNS_FAILURES then (0, REGULAR_DEACTIVATION) else (n + 1, ACTIVATION_REJECT_UNSPECIFIED)
    else if Recovers(c) then (0, 0)
    else (n, ShortOf(c.status))
  }

  function Counter(n: nat, calls: seq<Call>): nat {
    if calls == [] then n else Report(Counter(n, calls[..|calls| - 1]), calls[|calls| - 1]).0
  }

  function Statuses(n: nat, calls: seq<Call>): (s: seq<int>)
    ensures |s| == |calls|
  {
    if calls == [] then []
    else
      Statuses(n, calls[..|calls| - 1]) + [Report(Counter(n, calls[..|calls| - 1]), calls[|calls| - 1]).1]
  }

  // ---------------------------------------------------------------------------
  // What the counter counts.

  /** The failures since the last recovery. */
  function FailuresInRow(calls: seq<Call>): nat {
    if calls == [] then 0
    else
      var front, last := calls[..|calls| - 1], calls[|calls| - 1];
      if Recovers(last) then 0 else FailuresInRow(front) + if Fails(last) then 1 else 0
  }

  /** The counter is the number of failures in the row modulo three, so always 0, 1 or 2. */
  lemma {:induction false} CounterIsRow(calls: seq<Call>)
    ensures Counter(0, calls) == FailuresInRow(calls) % MAX_DNS_FAILURES
    ensures Counter(0, calls) <= 2
  {
    if calls != [] {
      CounterIsRow(calls[..|calls| - 1]);
    }
  }

  lemma {:induction false} StatusAt(calls: seq<Call>, i: nat)
    requires i < |calls|
    ensures Statuses(0, calls)[i] == Report(Counter(0, calls[..i]), calls[i]).1
    decreases |calls|
  {
    var front := calls[..|calls| - 1];
    if i < |front| {
      StatusAt(front, i);
      assert front[..i] == calls[..i];
    }
  }

  /** Entry i is reported as REGULAR_DEACTIVATION (36) exactly if it is the 3rd, 6th, ... failure
      of its row; the other failures are reported as ACTIVATION_REJECT_UNSPECIFIED (31); any other
      entry keeps the low 16 bits of its status, sign-extended. */
  lemma EveryThirdFailure(calls: seq<Call>, i: nat)
    requires i < |calls|
    ensures var s := Statuses(0, calls)[i];
      if Fails(calls[i]) then
        s == if FailuresInRow(calls[..i + 1]) % 3 == 0 then 36 else 31
      else s == ShortOf(calls[i].status)
  {
    hide Report, Fails, Recovers, ShortOf, FailuresInRow, Counter, Statuses;
    StatusAt(calls, i);
    CounterIsRow(calls[..i]);
    RowStep(calls, i);
    ReportIs(FailuresInRow(calls[..i]), calls[i]);
  }

  lemma ReportIs(row: nat, c: Call)
    ensures var s := Report(row % MAX_DNS_FAILURES, c).1;
      if Fails(c) then
        !Recovers(c) && s == if (row + 1) % 3 == 0 then REGULAR_DEACTIVATION else ACTIVATION_REJECT_UNSPECIFIED
      else s == ShortOf(c.status)
  {
    hide ShortOf, ValidAddr;
  }

  lemma RowStep(calls: seq<Call>, i: nat)
    requires i < |calls|
    ensures FailuresInRow(calls[..i + 1]) ==
      if Recovers(calls[i]) then 0 else FailuresInRow(calls[..i]) + if Fails(calls[i]) then 1 else 0
  {
    hide Recovers, Fails;
    assert calls[..i + 1][..i] == calls[..i];
  }

  /** Entries with a non-zero status neither count nor reset. */
  lemma {:induction false} OthersDoNotCount(calls: seq<Call>, others: seq<Call>)
    requires forall c :: c in others ==> ShortOf(c.status) != 0
    ensures FailuresInRow(calls + others) == FailuresInRow(calls)
  {
    if others == [] {
      assert calls + others == calls;
    } else {
      var front, last := others[..|others| - 1], others[|others| - 1];
      OthersDoNotCount(calls, front);
      assert (calls + others)[..|calls + others| - 1] == calls + front;
      assert last in others;
    }
  }

  lemma {:induction false} CounterContinues(n: nat, a: seq<Call>, b: seq<Call>)
    ensures Counter(n, a + b) == Counter(Counter(n, a), b)
  {
    hide Report;
    if b == [] {
      assert a + b == a;
    } else {
      var front := b[..|b| - 1];
      CounterContinues(n, a, front);
      assert (a + b)[..|a + b| - 1] == a + front;
    }
  }

  lemma LastStatus(n: nat, calls: seq<Call>)
    requires calls != []
    ensures var front := calls[..|calls| - 1];
      Statuses(n, calls) == Statuses(n, front) + [Report(Counter(n, front), calls[|calls| - 1]).1]
  {
  }

  /** The counter outlives a call: two lists report what their concatenation would. */
  lemma {:induction false} ListsContinue(n: nat, a: seq<Call>, b: seq<Call>)
    ensures Statuses(n, a + b) == Statuses(n, a) + Statuses(Counter(n, a), b)
  {
    hide Report, Counter;
    if b == [] {
      assert a + b == a;
    } else {
      var front := b[..|b| - 1];
      ListsContinue(n, a, front);
      CounterContinues(n, a, front);
      assert (a + b)[..|a + b| - 1] == a + front && (a + b)[|a + b| - 1] == b[|b| - 1];
      LastStatus(n, a + b);
      LastStatus(Counter(n, a), b);
    }
  }

  // ---------------------------------------------------------------------------
  // The function with its static counter.

  datatype Item = Int(n: int) | Str(s: Option<string>)

  /** What is written for one entry. */
  function Entry(c: Call, status: int): seq<Item> {
    [Int(status), Int(c.retry), Int(c.cid), Int(c.active), Str(c.kind), Str(c.ifname), Str(c.addresses),
     Str(c.dnses), Str(c.gateways)]
  }

  function Entries(calls: seq<Call>, statuses: seq<int>): seq<Item>
    requires |calls| == |statuses|
  {
    if calls == [] then []
    else
      Entries(calls[..|calls| - 1], statuses[..|calls| - 1]) + Entry(calls[|calls| - 1], statuses[|calls| - 1])
  }

  /** One more entry. */
  lemma OneMore(n: nat, calls: seq<Call>, i: nat)
    requires i < |calls|
    ensures var (n', status) := Report(Counter(n, calls[..i]), calls[i]);
      && Counter(n, calls[..i + 1]) == n'
      && Entries(calls[..i + 1], Statuses(n, calls[..i + 1]))
        == Entries(calls[..i], Statuses(n, calls[..i])) + Entry(calls[i], status)
  {
    hide Report, Entry;
    assert calls[..i + 1][..i] == calls[..i];
    var ss := Statuses(n, calls[..i + 1]);
    assert ss[..i] == Statuses(n, calls[..i]);
  }

  lemma NoEntries(n: nat)
    ensures Counter(n, []) == n && Entries([], Statuses(n, [])) == []
  {
  }

  /** The words of entry i: nine from place 9i on. */
  predicate EntryAt(data: seq<Item>, at: nat, c: Call, status: int) {
    && at + 9 <= |data|
    && data[at] == Int(status) && data[at + 1] == Int(c.retry) && data[at + 2] == Int(c.cid)
    && data[at + 3] == Int(c.active) && data[at + 4] == Str(c.kind) && data[at + 5] == Str(c.ifname)
    && data[at + 6] == Str(c.addresses) && data[at + 7] == Str(c.dnses) && data[at + 8] == Str(c.gateways)
  }

  /** A written entry stays where it is. */
  lemma EntryStays(data: seq<Item>, more: seq<Item>, at: nat, c: Call, status: int)
    requires EntryAt(data, at, c, status)
    ensures EntryAt(data + more, at, c, status)
  {
  }

  lemma EntryWritten(data: seq<Item>, c: Call, status: int)
    ensures EntryAt(data + Entry(c, status), |data|, c, status) && |Entry(c, status)| == 9
  {
  }

  lemma {:induction false} EntriesAre(calls: seq<Call>, statuses: seq<int>)
    requires |calls| == |statuses|
    ensures |Entries(calls, statuses)| == 9 * |calls|
    ensures forall i :: 0 <= i < |calls| ==> EntryAt(Entries(calls, statuses), 9 * i, calls[i], statuses[i])
  {
    hide EntryAt, Entry;
    if calls != [] {
      var n := |calls| - 1;
      var front := Entries(calls[..n], statuses[..n]);
      EntriesAre(calls[..n], statuses[..n]);
      EntryWritten(front, calls[n], statuses[n]);
      forall i | 0 <= i < n ensures EntryAt(Entries(calls, statuses), 9 * i, calls[i], statuses[i]) {
        assert EntryAt(front, 9 * i, calls[..n][i], statuses[..n][i]);
        EntryStays(front, Entry(calls[n], statuses[n]), 9 * i, calls[i], statuses[i]);
      }
    }
  }

  class Responder {
    var failures: nat  // n_dns_failures

    constructor ()
      ensures failures == 0
    {
      failures := 0;
    }

    /** The status of one entry. */
    method ReportOne(c: Call) returns (status: int)
      modifies this
      ensures (failures, status) == Report(old(failures), c)
    {
      hide ShortOf, ValidAddr;
      status := ShortOf(c.status);
      if status == 0 && !ValidAddr(c.dnses) {
        failures := failures + 1;
        if failures >= MAX_DNS_FAILURES {
          status := REGULAR_DEACTIVATION;
          failures := 0;
        } else {
          status := ACTIVATION_REJECT_UNSPECIFIED;
        }
      } else if status == 0 {
        failures := 0;
      }
    }

    /** responseDataCallListV6: null tells whether the pointer is, and tail how many bytes
        follow the last whole entry. */
    method ResponseDataCallListV6(null': bool, calls: seq<Call>, tail: nat) returns (ok: bool, data: seq<Item>)
      modifies this
      ensures ok <==> tail == 0 && (null' ==> calls == [])
      ensures !ok ==> data == [] && failures == old(failures)
      ensures ok ==>
        && failures == Counter(old(failures), calls)
        && |data| == 2 + 9 * |calls| && data[0] == Int(6) && data[1] == Int(|calls|)
        && forall i :: 0 <= i < |calls| ==>
             EntryAt(data[2..], 9 * i, calls[i], Statuses(old(failures), calls)[i])
    {
      NoEntries(failures);
      hide Counter, Statuses, Entries, Entry, Report, EntryAt;
      assert calls[..0] == [];
      data := [];
      if null' && (calls != [] || tail != 0) {
        return false, data;
      }
      if tail != 0 {
        return false, data;
      }
      data := data + [Int(6)];
      data := data + [Int(|calls|)];
      var i := 0;
      while i < |calls|
        invariant 0 <= i <= |calls| && failures == Counter(old(failures), calls[..i])
        invariant data == [Int(6), Int(|calls|)] + Entries(calls[..i], Statuses(old(failures), calls[..i]))
      {
        OneMore(old(failures), calls, i);
        var status := ReportOne(calls[i]);
        data := data + Entry(calls[i], status);
        i := i + 1;
      }
      assert calls[..|calls|] == calls;
      EntriesAre(calls, Statuses(old(failures), calls));
      assert data[2..] == Entries(calls, Statuses(old(failures), calls));
      ok := true;
    }
  }
}
