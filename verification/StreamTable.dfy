// out_streams and in_streams as they are kept in memory: an array grown by realloc and
// closed up by memmove.  The caller holds the table's mutex.
module StreamTable {
  import opened Options
  import opened Sequences
  import opened AudioLocks

  class StreamRows {
    var rows: array<Entry>
    var n: nat  // rows in use; a failed opening leaves one more allocated

    ghost predicate Valid()
      reads this
    {
      n <= rows.Length
    }

    ghost function Rows(): seq<Entry>
      requires Valid()
      reads this, rows
    {
      rows[..n]
    }

    constructor ()
      ensures Valid() && Rows() == []
    {
      rows, n := new Entry[0], 0;
    }

    /** The search loop of every wrapped call and of the closing functions. */
    method Find(h: nat) returns (i: nat)
      requires Valid()
      ensures i == FindHandle(Rows(), h)
    {
      i := 0;
      while i < n && rows[i].handle != h
        invariant i <= n && forall j :: 0 <= j < i ==> rows[j].handle != h
      {
        i := i + 1;
      }
      FindStopsAt(Rows(), h, i);
    }

    /** realloc to a new size, keeping what fits */
    method Realloc(size: nat, e: Entry)
      modifies this`rows
      ensures fresh(rows) && rows.Length == size
      ensures forall i :: 0 <= i < size && i < old(rows.Length) ==> rows[i] == old(rows[i])
      ensures forall i :: old(rows.Length) <= i < size ==> rows[i] == e
    {
      var q := new Entry[size](_ => e);
      var i := 0;
      while i < size && i < rows.Length
        invariant 0 <= i <= size && i <= rows.Length && q.Length == size
        invariant forall j :: 0 <= j < i ==> q[j] == rows[j]
        invariant forall j :: i <= j < size ==> q[j] == e
        invariant fresh(q) && rows == old(rows) && rows[..] == old(rows[..])
      {
        q[i] := rows[i];
        i := i + 1;
      }
      rows := q;
    }

    /** The tail of wrapper_open_*_stream once the vendor stream is open. grown tells whether
        realloc succeeds and handle is what malloc returns for the wrapper; without either the
        table keeps its rows, though realloc may have moved them. */
    method Append(vendor: nat, id: nat, grown: bool, handle: Option<nat>) returns (ok: bool)
      requires Valid()
      modifies this
      ensures Valid() && (ok <==> grown && handle.Some?)
      ensures Rows() == old(Rows()) + if ok then [Entry(handle.value, vendor, id)] else []
      ensures if grown then fresh(rows) else rows == old(rows)
    {
      if !grown {
        return false;
      }
      Realloc(n + 1, Entry(0, vendor, id));
      if handle.None? {
        return false;
      }
      rows[n] := Entry(handle.value, vendor, id);
      n := n + 1;
      ok := true;
    }

    /** The loop of wrapper_close_*_stream: the row is taken out and the rest moved up. */
    method Remove(h: nat) returns (e: Option<Entry>)
      requires Valid()
      modifies this, rows
      ensures Valid()
      ensures var k := FindHandle(old(Rows()), h);
        if k == |old(Rows())| then e == None && Rows() == old(Rows())
        else e == Some(old(Rows())[k]) && Rows() == RemoveFirst(old(Rows()), old(Rows())[k])
    {
      var i := Find(h);
      if i == n {
        return None;
      }
      ghost var q := Rows();
      e := Some(rows[i]);
      n := n - 1;
      // memmove(rows + i, rows + i + 1, n - i)
      var j := i;
      while j < n
        invariant i <= j <= n == |q| - 1 && rows == old(rows) && |q| <= rows.Length
        invariant forall k :: 0 <= k < i || j < k < |q| ==> rows[k] == q[k]
        invariant forall k :: i <= k < j ==> rows[k] == q[k + 1]
      {
        rows[j] := rows[j + 1];
        j := j + 1;
      }
      ElementsLeft(q, i);
      Realloc(n, e.value);
      assert Rows() == RemoveAt(q, i);
      FirstIsAt(q, i);
    }
  }

  lemma {:induction false} FindStopsAt(q: seq<Entry>, h: nat, i: nat)
    requires i <= |q| && (forall j :: 0 <= j < i ==> q[j].handle != h) && (i < |q| ==> q[i].handle == h)
    ensures FindHandle(q, h) == i
  {
    if i > 0 {
      FindStopsAt(q[1..], h, i - 1);
    }
  }
}
