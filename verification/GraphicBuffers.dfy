// Flattening a GraphicBuffer into words and file descriptors, and back.
module GraphicBuffers {
  import opened Options

  const WORD := 0x1_0000_0000
  const MAGIC := 0x47424652    // 'GBFR'
  const MAX_NUMBER := 4096
  const WORD_SIZE := 4         // sizeof(int)

  newtype Int32 = x: int | -0x8000_0000 <= x < 0x8000_0000

  /** What a native handle holds. */
  datatype Handle = Handle(fds: seq<Int32>, ints: seq<Int32>)

  datatype Fields = Fields(width: Int32, height: Int32, stride: Int32, format: Int32, usage: Int32)

  const ZERO := Fields(0, 0, 0, 0, 0)

  datatype Buffer = Buffer(fields: Fields, id: nat, handle: Option<Handle>)

  datatype Status = NoError | NoMemory | BadType | BadValue | MapperError(code: int)

  // ---------------------------------------------------------------------------
  // Machine integers.

  /** static_cast<int32_t> of an unsigned number. */
  function ToInt32(x: nat): (r: Int32)
    ensures (r as int - x) % WORD == 0
  {
    var low := x % WORD;
    if low < 0x8000_0000 then low as Int32 else (low - WORD) as Int32
  }

  /** static_cast<size_t> or static_cast<uint64_t> of a signed word. */
  function ToUInt64(x: Int32): nat {
    x as int % (WORD * WORD)
  }

  /** static_cast<uint32_t> of a signed word. */
  function ToUInt32(x: Int32): nat {
    x as int % WORD
  }

  /** The id from its two words; the shifted word leaves the low half free for the other. */
  function JoinId(high: Int32, low: Int32): nat {
    ToUInt64(high) * WORD % (WORD * WORD) + ToUInt32(low)
  }

  /** Both halves of an id survive, sign extension and all. */
  lemma IdSurvives(id: nat)
    requires id < WORD * WORD
    ensures JoinId(ToInt32(id / WORD), ToInt32(id % WORD)) == id
  {
    var h, l := id / WORD, id % WORD;
    assert ToInt32(h) as int == h || ToInt32(h) as int == h - WORD;
    assert ToUInt64(ToInt32(h)) == h || ToUInt64(ToInt32(h)) == h - WORD + WORD * WORD;
    ShiftDropsExtension(h);
    assert ToUInt32(ToInt32(l)) == l;
  }

  lemma ShiftDropsExtension(h: nat)
    requires h < WORD
    ensures h * WORD % (WORD * WORD) == h * WORD
    ensures (h - WORD + WORD * WORD) * WORD % (WORD * WORD) == h * WORD
  {
    assert (h - WORD + WORD * WORD) * WORD == h * WORD + (WORD - 1) * (WORD * WORD);
  }

  // ---------------------------------------------------------------------------
  // The two directions.

  function Fds(b: Buffer): seq<Int32> {
    if b.handle.Some? then b.handle.value.fds else []
  }

  function Ints(b: Buffer): seq<Int32> {
    if b.handle.Some? then b.handle.value.ints else []
  }

  /** Counts are C ints and the id a 64-bit number. */
  predicate Fits(b: Buffer) {
    |Fds(b)| < 0x8000_0000 && |Ints(b)| < 0x8000_0000 && b.id < WORD * WORD
  }

  /** The words flatten writes. */
  function Flat(b: Buffer): (w: seq<Int32>)
    requires Fits(b)
    ensures |w| == 10 + |Ints(b)|
  {
    [MAGIC as Int32, b.fields.width, b.fields.height, b.fields.stride, b.fields.format, b.fields.usage,
     ToInt32(b.id / WORD), ToInt32(b.id % WORD), |Fds(b)| as Int32, |Ints(b)| as Int32] + Ints(b)
  }

  /** getFlattenedSize */
  function FlattenedSize(b: Buffer): nat {
    (10 + |Ints(b)|) * WORD_SIZE
  }

  datatype Unflattened = Unflattened(buffer: Buffer, status: Status, size: nat, count: nat)

  /** The fields a set of words stands for. */
  function FieldsOf(words: seq<Int32>): Fields
    requires |words| >= 10
  {
    Fields(words[1], words[2], words[3], words[4], words[5])
  }

  /** The memory behind the buffer: size bytes of it, and ten words when the magic word makes
      unflatten read the two counts. */
  predicate Backed(words: seq<Int32>, size: nat) {
    && size <= |words| * WORD_SIZE
    && (size >= 8 * WORD_SIZE && words[0] as int == MAGIC ==> |words| >= 10)
  }

  /** unflatten; created and mapped are what native_handle_create and registerBuffer say. */
  function Unflatten(b: Buffer, words: seq<Int32>, size: nat, fds: seq<Int32>, count: nat,
                     created: bool, mapped: Status): Unflattened
    requires Backed(words, size) && count <= |fds|
  {
    if size < 8 * WORD_SIZE then Unflattened(b, NoMemory, size, count)
    else if words[0] as int != MAGIC then Unflattened(b, BadType, size, count)
    else
      var numFds, numInts := ToUInt64(words[8]), ToUInt64(words[9]);
      var needed := (10 + numInts) * WORD_SIZE;
      if numFds >= MAX_NUMBER || numInts >= MAX_NUMBER - 10 then
        Unflattened(Buffer(ZERO, b.id, None), BadValue, size, count)
      else if size < needed || count < numFds then Unflattened(b, NoMemory, size, count)
      else
        var some := numFds > 0 || numInts > 0;
        if some && !created then Unflattened(Buffer(ZERO, b.id, None), NoMemory, size, count)
        else
          var id := JoinId(words[6], words[7]);
          if some && mapped != NoError then Unflattened(Buffer(ZERO, id, None), mapped, size, count)
          else
            var b' := if some then
                        Buffer(FieldsOf(words), id, Some(Handle(fds[..numFds], words[10..10 + numInts])))
                      else Buffer(ZERO, id, None);
            Unflattened(b', NoError, size - needed, count - numFds)
  }

  /** How many words unflatten reads, from the first on. */
  function WordsRead(words: seq<Int32>, size: nat, count: nat, created: bool): nat
    requires Backed(words, size)
  {
    if size < 8 * WORD_SIZE then 0
    else if words[0] as int != MAGIC then 1
    else
      var numFds, numInts := ToUInt64(words[8]), ToUInt64(words[9]);
      if numFds >= MAX_NUMBER || numInts >= MAX_NUMBER - 10 then 10
      else if size < (10 + numInts) * WORD_SIZE || count < numFds then 10
      else if created then 10 + numInts
      else 10
  }

  /** The guard is for eight words: unflatten reads inside the size it was given exactly if
      that size is below the guard, or has the magic word wrong, or holds ten words. */
  lemma ReadsInside(words: seq<Int32>, size: nat, count: nat, created: bool)
    requires Backed(words, size)
    ensures WordsRead(words, size, count, created) * WORD_SIZE <= size
      <==> size < 8 * WORD_SIZE || words[0] as int != MAGIC || size >= 10 * WORD_SIZE
  {
    hide ToUInt64;
  }

  /** A size of 36 with the right magic word: the tenth word lies beyond it. */
  lemma ReadsBeyond(count: nat, created: bool)
    ensures var words := [MAGIC as Int32, 0, 0, 0, 0, 0, 0, 0, 0, 0];
      Backed(words, 36) && WordsRead(words, 36, count, created) * WORD_SIZE == 40
  {
    var words := [MAGIC as Int32, 0, 0, 0, 0, 0, 0, 0, 0, 0];
    assert words[0] as int == MAGIC && words[8] == 0 && words[9] == 0;
  }

  predicate HasContent(b: Buffer) {
    Fds(b) != [] || Ints(b) != []
  }

  /** What flatten writes, word by word: the magic word GBFR, the five fields, the id in two
      halves, the two counts and the ints; in bytes it takes four for each word. */
  lemma FlatIs(b: Buffer)
    requires Fits(b)
    ensures var w := Flat(b);
      && w[0] == 0x4742_4652
      && w[1] == b.fields.width && w[2] == b.fields.height && w[3] == b.fields.stride
      && w[4] == b.fields.format && w[5] == b.fields.usage
      && (w[6] as int - b.id / 0x1_0000_0000) % 0x1_0000_0000 == 0
      && (w[7] as int - b.id) % 0x1_0000_0000 == 0
      && w[8] as int == |Fds(b)| && w[9] as int == |Ints(b)| && w[10..] == Ints(b)
      && FlattenedSize(b) == 4 * |w|
  {
    LowHalf(b.id, ToInt32(b.id % WORD) as int);
    hide ToInt32;
  }

  lemma LowHalf(id: nat, x: int)
    requires (x - id % WORD) % WORD == 0
    ensures (x - id) % WORD == 0
  {
    var q, r := id / WORD, (x - id % WORD) / WORD;
    assert x - id == (r - q) * WORD;
    MultipleOfWord(r - q);
  }

  lemma MultipleOfWord(k: int)
    ensures k * WORD % WORD == 0
  {
  }

  /** Few enough descriptors and ints for unflatten. */
  predicate Small(b: Buffer) {
    |Fds(b)| < 4096 && |Ints(b)| < 4086
  }

  /** Whatever follows the flattened buffer and its descriptors, unflatten takes exactly what
      flatten wrote; it gives the buffer back if the handle holds anything, and else only the id. */
  lemma RoundTrip(b: Buffer, b0: Buffer, more: seq<Int32>, moreFds: seq<Int32>, size: nat, count: nat)
    requires Fits(b) && Small(b)
    requires FlattenedSize(b) <= size <= FlattenedSize(b) + |more| * WORD_SIZE
    requires |Fds(b)| <= count <= |Fds(b)| + |moreFds|
    ensures Unflatten(b0, Flat(b) + more, size, Fds(b) + moreFds, count, true, NoError)
      == Unflattened(if HasContent(b) then b else Buffer(ZERO, b.id, None), NoError,
                     size - FlattenedSize(b), count - |Fds(b)|)
  {
    var words, fds := Flat(b) + more, Fds(b) + moreFds;
    assert ToUInt64(words[8]) == |Fds(b)| && ToUInt64(words[9]) == |Ints(b)|;
    IdSurvives(b.id);
    assert fds[..|Fds(b)|] == Fds(b);
    assert words[10..10 + |Ints(b)|] == Ints(b);
    assert words[6] == ToInt32(b.id / WORD) && words[7] == ToInt32(b.id % WORD);
    assert FieldsOf(words) == b.fields;
    hide JoinId, ToInt32, ToUInt64, FieldsOf;
  }

  /** The buffer comes back exactly if its handle holds something, or it is the empty buffer. */
  lemma RoundTripIff(b: Buffer, b0: Buffer)
    requires Fits(b) && Small(b)
    ensures Unflatten(b0, Flat(b), FlattenedSize(b), Fds(b), |Fds(b)|, true, NoError).buffer == b
      <==> HasContent(b) || (b.fields == ZERO && b.handle == None)
  {
    RoundTrip(b, b0, [], [], FlattenedSize(b), |Fds(b)|);
    assert Flat(b) + [] == Flat(b) && Fds(b) + [] == Fds(b);
    hide Unflatten, Flat;
  }

  /** A buffer with fields and no handle comes back without its fields. */
  lemma FieldsAreLost(b0: Buffer)
    ensures var b := Buffer(Fields(16, 16, 16, 1, 0), 7, None);
      && Fits(b) && Small(b)
      && Unflatten(b0, Flat(b), FlattenedSize(b), [], 0, true, NoError).buffer == Buffer(ZERO, 7, None)
  {
    var b := Buffer(Fields(16, 16, 16, 1, 0), 7, None);
    RoundTrip(b, b0, [], [], FlattenedSize(b), 0);
    assert Flat(b) + [] == Flat(b) && Fds(b) + [] == [];
    hide Unflatten, Flat;
  }

  /** A handle over the limits is refused, and the receiver loses what it had but its id. */
  lemma TooLargeIsRefused(b: Buffer, b0: Buffer, created: bool, mapped: Status)
    requires Fits(b) && !Small(b)
    ensures Unflatten(b0, Flat(b), FlattenedSize(b), Fds(b), |Fds(b)|, created, mapped)
      == Unflattened(Buffer(ZERO, b0.id, None), BadValue, FlattenedSize(b), |Fds(b)|)
  {
    var words := Flat(b);
    assert ToUInt64(words[8]) == |Fds(b)| && ToUInt64(words[9]) == |Ints(b)|;
  }

  /** A flattened buffer cut short is refused and leaves the receiver as it was. */
  lemma TruncatedIsRefused(b: Buffer, b0: Buffer, words: seq<Int32>, size: nat, fds: seq<Int32>, count: nat,
                           created: bool, mapped: Status)
    requires Fits(b) && Small(b)
    requires |words| >= 10 && words[..10] == Flat(b)[..10] && Backed(words, size) && count <= |fds|
    requires size < FlattenedSize(b) || count < |Fds(b)|
    ensures Unflatten(b0, words, size, fds, count, created, mapped) == Unflattened(b0, NoMemory, size, count)
  {
    assert words[8] == words[..10][8] == Flat(b)[..10][8] == Flat(b)[8];
    assert words[9] == words[..10][9] == Flat(b)[..10][9] == Flat(b)[9];
    assert words[0] == words[..10][0] == Flat(b)[..10][0] == Flat(b)[0];
    assert ToUInt64(words[8]) == |Fds(b)| && ToUInt64(words[9]) == |Ints(b)|;
  }

  /** Fewer than 32 bytes, or another first word, and nothing is touched. */
  lemma OthersAreRefused(b0: Buffer, words: seq<Int32>, size: nat, fds: seq<Int32>, count: nat,
                         created: bool, mapped: Status)
    requires Backed(words, size) && count <= |fds| && (size >= 32 ==> words[0] != 0x4742_4652)
    ensures Unflatten(b0, words, size, fds, count, created, mapped)
      == Unflattened(b0, if size < 32 then NoMemory else BadType, size, count)
  {
  }

  /** When the handle cannot be made or mapped the receiver keeps neither fields nor handle; the
      id is its own if it was not made, and that of the flattened buffer if it was not mapped. */
  lemma FailuresClear(b: Buffer, b0: Buffer, mapped: Status)
    requires Fits(b) && Small(b) && HasContent(b) && mapped != NoError
    ensures Unflatten(b0, Flat(b), FlattenedSize(b), Fds(b), |Fds(b)|, false, mapped)
      == Unflattened(Buffer(ZERO, b0.id, None), NoMemory, FlattenedSize(b), |Fds(b)|)
    ensures Unflatten(b0, Flat(b), FlattenedSize(b), Fds(b), |Fds(b)|, true, mapped)
      == Unflattened(Buffer(ZERO, b.id, None), mapped, FlattenedSize(b), |Fds(b)|)
  {
    var words := Flat(b);
    assert ToUInt64(words[8]) == |Fds(b)| && ToUInt64(words[9]) == |Ints(b)|;
    IdSurvives(b.id);
    assert words[6] == ToInt32(b.id / WORD) && words[7] == ToInt32(b.id % WORD);
    hide JoinId, ToInt32, ToUInt64, FieldsOf;
  }

  // ---------------------------------------------------------------------------
  // The object and its buffers.

  class NativeHandle {
    const fds: seq<Int32>
    const ints: seq<Int32>

    constructor (fds: seq<Int32>, ints: seq<Int32>)
      ensures this.fds == fds && this.ints == ints
    {
      this.fds, this.ints := fds, ints;
    }
  }

  class GraphicBuffer {
    var fields: Fields
    var id: nat                   // mId
    var handle: NativeHandle?

    ghost function View(): Buffer
      reads this
    {
      Buffer(fields, id, if handle == null then None else Some(Handle(handle.fds, handle.ints)))
    }

    constructor (fields: Fields, id: nat, handle: NativeHandle?)
      ensures View() == Buffer(fields, id, if handle == null then None else Some(Handle(handle.fds, handle.ints)))
    {
      this.fields, this.id, this.handle := fields, id, handle;
    }

    method Flatten(buf: array<Int32>, size: nat, fds: array<Int32>, count: nat)
        returns (status: Status, size': nat, count': nat)
      requires Fits(View()) && buf != fds && size <= buf.Length * WORD_SIZE && count <= fds.Length
      modifies buf, fds
      ensures status == NoMemory <==> size < FlattenedSize(View()) || count < |Fds(View())|
      ensures status == NoMemory ==>
        buf[..] == old(buf[..]) && fds[..] == old(fds[..]) && size' == size && count' == count
      ensures status != NoMemory ==>
        && status == NoError
        && buf[..] == Flat(View()) + old(buf[10 + |Ints(View())|..])
        && fds[..] == Fds(View()) + old(fds[|Fds(View())|..])
        && size' == size - FlattenedSize(View()) && count' == count - |Fds(View())|
    {
      var numInts := if handle != null then |handle.ints| else 0;
      var numFds := if handle != null then |handle.fds| else 0;
      var needed := (10 + numInts) * WORD_SIZE;
      if size < needed || count < numFds {
        return NoMemory, size, count;
      }
      WriteHeader(buf);
      if handle != null {
        WriteHandle(buf, fds);
      }
      hide Flat;
      assert Ints(View()) == [] || handle != null;
      return NoError, size - needed, count - numFds;
    }

    /** The two counts and the contents of the handle. */
    method WriteHandle(buf: array<Int32>, fds: array<Int32>)
      requires handle != null && Fits(View()) && buf != fds
      requires 10 + |handle.ints| <= buf.Length && |handle.fds| <= fds.Length
      requires buf[..10] == Flat(Buffer(fields, id, None))
      modifies buf, fds
      ensures buf[..] == Flat(View()) + old(buf[10 + |handle.ints|..])
      ensures fds[..] == handle.fds + old(fds[|handle.fds|..])
    {
      ghost var rest := buf[10 + |handle.ints|..];
      ghost var head := Flat(View())[..10];
      assert Flat(View()) == head + handle.ints;
      buf[8] := |handle.fds| as Int32;
      buf[9] := |handle.ints| as Int32;
      assert buf[..10] == head;
      assert buf[10 + |handle.ints|..] == rest;
      hide Flat;
      Copy(fds, 0, handle.fds);
      Copy(buf, 10, handle.ints);
    }

    /** The ten header words, as for no handle. */
    method WriteHeader(buf: array<Int32>)
      requires buf.Length >= 10 && id < WORD * WORD
      modifies buf
      ensures buf[..10] == Flat(Buffer(fields, id, None))
      ensures buf[10..] == old(buf[10..])
      ensures forall k :: 10 <= k <= buf.Length ==> buf[k..] == old(buf[k..])
    {
      buf[0] := MAGIC as Int32;
      buf[1] := fields.width;
      buf[2] := fields.height;
      buf[3] := fields.stride;
      buf[4] := fields.format;
      buf[5] := fields.usage;
      buf[6] := ToInt32(id / WORD);
      buf[7] := ToInt32(id % WORD);
      buf[8] := 0;
      buf[9] := 0;
    }

    /** unflatten. The words read are those of buf; a previous handle is freed once the sizes
        are known to suffice, and then it is never left in place. */
    method UnflattenFrom(buf: array<Int32>, size: nat, fds: array<Int32>, count: nat, created: bool, mapped: Status)
        returns (status: Status, size': nat, count': nat, ghost freed: NativeHandle?, ghost read: nat)
      requires Backed(buf[..], size) && count <= fds.Length
      modifies this
      ensures Unflattened(View(), status, size', count')
        == Unflatten(old(View()), buf[..], size, fds[..], count, created, mapped)
      ensures read == WordsRead(buf[..], size, count, created)
      ensures freed != null ==> freed == old(handle) && (handle == null || fresh(handle))
      ensures freed == null && old(handle) != null ==> status == NoMemory || status == BadType || status == BadValue
    {
      freed, read := null, 0;
      if size < 8 * WORD_SIZE {
        return NoMemory, size, count, null, read;
      }
      read := 1;
      if buf[0] as int != MAGIC {
        return BadType, size, count, null, read;
      }
      var numFds, numInts := ToUInt64(buf[8]), ToUInt64(buf[9]);
      read := 10;
      if numFds >= MAX_NUMBER || numInts >= MAX_NUMBER - 10 {
        fields, handle := ZERO, null;
        return BadValue, size, count, null, read;
      }
      var needed := (10 + numInts) * WORD_SIZE;
      if size < needed || count < numFds {
        return NoMemory, size, count, null, read;
      }
      freed := handle;
      if numFds > 0 || numInts > 0 {
        fields := Fields(buf[1], buf[2], buf[3], buf[4], buf[5]);
        if !created {
          fields, handle := ZERO, null;
          return NoMemory, size, count, freed, read;
        }
        handle := new NativeHandle(fds[..numFds], buf[10..10 + numInts]);
        read := 10 + numInts;
        assert fds[..][..numFds] == fds[..numFds] && buf[..][10..10 + numInts] == buf[10..10 + numInts];
      } else {
        fields, handle := ZERO, null;
      }
      id := JoinId(buf[6], buf[7]);
      if handle != null && mapped != NoError {
        fields, handle := ZERO, null;
        return mapped, size, count, freed, read;
      }
      return NoError, size - needed, count - numFds, freed, read;
    }
  }

  /** memcpy into an array. */
  method Copy(a: array<Int32>, start: nat, src: seq<Int32>)
    requires start + |src| <= a.Length
    modifies a
    ensures a[..] == old(a[..start]) + src + old(a[start + |src|..])
  {
    forall i | 0 <= i < |src| {
      a[start + i] := src[i];
    }
  }
}
