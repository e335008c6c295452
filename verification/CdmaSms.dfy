// A CDMA SMS as a parcel of padded 32-bit words: the decoder of requests and the encoder of
// responses mirror each other.
module CdmaSms {
  import opened Options

  const ADDRESS_MAX := 36      // RIL_CDMA_SMS_ADDRESS_MAX
  const SUBADDRESS_MAX := 36   // RIL_CDMA_SMS_SUBADDRESS_MAX
  const BEARER_MAX := 255      // RIL_CDMA_SMS_BEARER_DATA_MAX

  type Byte = x: int | 0 <= x < 0x100
  type Word = x: int | -0x8000_0000 <= x < 0x8000_0000

  datatype Address = Address(digitMode: Word, numberMode: Word, numberType: Word, numberPlan: Word,
                             count: Byte, digits: seq<Byte>)

  datatype SubAddress = SubAddress(kind: Word, odd: Byte, count: Byte, digits: seq<Byte>)

  datatype Sms = Sms(teleservice: Word, present: Byte, category: Word, address: Address, sub: SubAddress,
                     bearerLen: Word, bearer: seq<Byte>)

  /** The arrays of the C struct have fixed lengths. */
  predicate Formed(m: Sms) {
    |m.address.digits| == ADDRESS_MAX && |m.sub.digits| == SUBADDRESS_MAX && |m.bearer| == BEARER_MAX
  }

  function Limit(n: int, max: nat): (k: nat)
    ensures k <= max && (0 <= n <= max ==> k == n)
  {
    if n < 0 then 0 else if n < max then n else max
  }

  function Zeros(n: nat): (z: seq<Byte>)
    ensures |z| == n && forall i :: 0 <= i < n ==> z[i] == 0
  {
    seq(n, _ => 0)
  }

  // ---------------------------------------------------------------------------
  // Encoding.

  /** Bytes written one by one: each takes a word. */
  function Padded(bytes: seq<Byte>): (w: seq<Word>)
    ensures |w| == |bytes| && forall i :: 0 <= i < |w| ==> w[i] == bytes[i]
  {
    seq(|bytes|, i requires 0 <= i < |bytes| => bytes[i])
  }

  function EncodeAddress(a: Address): seq<Word>
    requires |a.digits| == ADDRESS_MAX
  {
    [a.digitMode, a.numberMode, a.numberType, a.numberPlan, a.count] + Padded(a.digits[..Limit(a.count, ADDRESS_MAX)])
  }

  function EncodeSub(s: SubAddress): seq<Word>
    requires |s.digits| == SUBADDRESS_MAX
  {
    [s.kind, s.odd, s.count] + Padded(s.digits[..Limit(s.count, SUBADDRESS_MAX)])
  }

  /** Everything after the first three fields. */
  function Body(m: Sms): seq<Word>
    requires Formed(m)
  {
    EncodeAddress(m.address) + EncodeSub(m.sub)
      + ([m.bearerLen] + Padded(m.bearer[..Limit(m.bearerLen, BEARER_MAX)]))
  }

  /** responseCdmaSms */
  function Encode(m: Sms): seq<Word>
    requires Formed(m)
  {
    [m.teleservice, m.present, m.category] + Body(m)
  }

  /** The count of bytes that are written of an array with room for max. */
  function Among(n: int, max: int): int {
    if n < 0 then 0 else if n > max then max else n
  }

  /** An encoded message word by word: three words, the address with at most 36 digits, the
      subaddress with at most 36, and the bearer data with at most 255 bytes. */
  lemma EncodeIs(m: Sms)
    requires Formed(m)
    ensures var e, a, s := Encode(m), m.address, m.sub;
      var i, j, k := Among(a.count, 36), Among(s.count, 36), Among(m.bearerLen, 255);
      && |e| == 12 + i + j + k && i <= |a.digits| && j <= |s.digits| && k <= |m.bearer|
      && e[0] == m.teleservice && e[1] == m.present && e[2] == m.category
      && e[3] == a.digitMode && e[4] == a.numberMode && e[5] == a.numberType && e[6] == a.numberPlan
      && e[7] == a.count && (forall x :: 0 <= x < i ==> e[8 + x] == a.digits[x])
      && e[8 + i] == s.kind && e[9 + i] == s.odd && e[10 + i] == s.count
      && (forall x :: 0 <= x < j ==> e[11 + i + x] == s.digits[x])
      && e[11 + i + j] == m.bearerLen && (forall x :: 0 <= x < k ==> e[12 + i + j + x] == m.bearer[x])
  {
    var i, j, k := Among(m.address.count, 36), Among(m.sub.count, 36), Among(m.bearerLen, 255);
    var e, a, s := Encode(m), EncodeAddress(m.address), EncodeSub(m.sub);
    assert |a| == 5 + i && |s| == 3 + j;
    assert forall x :: 0 <= x < |a| ==> e[3 + x] == a[x];
    assert forall x :: 0 <= x < |s| ==> e[8 + i + x] == s[x];
    forall x | 0 <= x < i ensures e[8 + x] == m.address.digits[x] {
      assert e[3 + (5 + x)] == a[5 + x];
    }
    forall x | 0 <= x < j ensures e[11 + i + x] == m.sub.digits[x] {
      assert e[8 + i + (3 + x)] == s[3 + x];
    }
  }

  // ---------------------------------------------------------------------------
  // Decoding. A read that fails leaves the variable as it was; only the status of the last
  // read is looked at.

  /** The parcel, the cursor, the variables t and ut, and the status of the last read. */
  datatype Reader = Reader(words: seq<Word>, pos: nat, t: Word, ut: Byte, ok: bool)

  /** Only at the end of the parcel does a read fail. */
  predicate Sound(r: Reader) {
    r.pos <= |r.words| && (!r.ok ==> r.pos == |r.words|)
  }

  /** r' comes from r by reads. */
  predicate After(r: Reader, r': Reader) {
    r'.words == r.words && r.pos <= r'.pos && (Sound(r) ==> Sound(r') && (r'.ok ==> r.ok))
  }

  function ReadInt32(r: Reader): (r': Reader)
    ensures After(r, r')
  {
    if r.pos < |r.words| then r.(pos := r.pos + 1, t := r.words[r.pos], ok := true) else r.(ok := false)
  }

  function ReadByte(r: Reader): (r': Reader)
    ensures After(r, r')
  {
    if r.pos < |r.words| then r.(pos := r.pos + 1, ut := r.words[r.pos] % 0x100, ok := true) else r.(ok := false)
  }

  /** n bytes one by one; a failed read repeats the last byte. */
  function ReadBytes(r: Reader, n: nat): (res: (Reader, seq<Byte>))
    ensures After(r, res.0) && |res.1| == n
  {
    if n == 0 then (r, [])
    else
      var (r1, bs) := ReadBytes(r, n - 1);
      var r2 := ReadByte(r1);
      (r2, bs + [r2.ut])
  }

  /** The fields of an address before its digits. */
  function ReadAddressHead(r: Reader): (res: (Reader, Address))
    ensures After(r, res.0)
  {
    var r1 := ReadInt32(r);
    var r2 := ReadInt32(r1);
    var r3 := ReadInt32(r2);
    var r4 := ReadInt32(r3);
    var r5 := ReadByte(r4);
    (r5, Address(r1.t, r2.t, r3.t, r4.t, r5.ut, []))
  }

  function ReadAddress(r: Reader): (res: (Reader, Address))
    ensures After(r, res.0)
  {
    var (r1, a) := ReadAddressHead(r);
    var k := Limit(a.count, ADDRESS_MAX);
    var (r2, digits) := ReadBytes(r1, k);
    (r2, a.(digits := digits + Zeros(ADDRESS_MAX - k)))
  }

  function ReadSubHead(r: Reader): (res: (Reader, SubAddress))
    ensures After(r, res.0)
  {
    var r1 := ReadInt32(r);
    var r2 := ReadByte(r1);
    var r3 := ReadByte(r2);
    (r3, SubAddress(r1.t, r2.ut, r3.ut, []))
  }

  function ReadSub(r: Reader): (res: (Reader, SubAddress))
    ensures After(r, res.0)
  {
    var (r1, s) := ReadSubHead(r);
    var k := Limit(s.count, SUBADDRESS_MAX);
    var (r2, digits) := ReadBytes(r1, k);
    (r2, s.(digits := digits + Zeros(SUBADDRESS_MAX - k)))
  }

  /** The first three fields. */
  function ReadSmsHead(r: Reader): (res: (Reader, Word, Byte, Word))
    ensures After(r, res.0)
  {
    var r1 := ReadInt32(r);
    var r2 := ReadByte(r1);
    var r3 := ReadInt32(r2);
    (r3, r1.t, r2.ut, r3.t)
  }

  function ReadBearer(r: Reader): (res: (Reader, Word, seq<Byte>))
    ensures After(r, res.0)
  {
    var r1 := ReadInt32(r);
    var k := Limit(r1.t, BEARER_MAX);
    var (r2, bearer) := ReadBytes(r1, k);
    (r2, r1.t, bearer + Zeros(BEARER_MAX - k))
  }

  /** constructCdmaSms: the reader at the end, whose status decides, and the message. */
  function Decode(r: Reader): (res: (Reader, Sms))
    ensures After(r, res.0)
  {
    var (r1, teleservice, present, category) := ReadSmsHead(r);
    var (r2, address) := ReadAddress(r1);
    var (r3, sub) := ReadSub(r2);
    var (r4, bearerLen, bearer) := ReadBearer(r3);
    (r4, Sms(teleservice, present, category, address, sub, bearerLen, bearer))
  }

  /** A reader at the start; t and ut hold whatever was on the stack. */
  predicate Start(r: Reader) {
    r.pos == 0 && r.ok
  }

  // ---------------------------------------------------------------------------
  // The round trip.

  /** What stands next in the parcel. */
  predicate Next(r: Reader, part: seq<Word>) {
    r.pos + |part| <= |r.words| && r.words[r.pos..r.pos + |part|] == part
  }

  lemma NextSplits(r: Reader, a: seq<Word>, b: seq<Word>)
    requires Next(r, a + b)
    ensures Next(r, a) && r.pos + |a| + |b| <= |r.words| && r.words[r.pos + |a|..r.pos + |a| + |b|] == b
  {
    var w, mid := r.words[r.pos..r.pos + |a| + |b|], r.pos + |a|;
    Slices(r.words, r.pos, mid, mid + |b|);
    assert w[..|a|] == a && w[|a|..] == b;
  }

  lemma Slices(w: seq<Word>, i: nat, j: nat, k: nat)
    requires i <= j <= k <= |w|
    ensures w[i..j] == w[i..k][..j - i] && w[j..k] == w[i..k][j - i..]
  {
  }

  lemma {:induction false} ReadBytesGives(r: Reader, bytes: seq<Byte>)
    requires Next(r, Padded(bytes)) && r.ok
    ensures var (r', bs) := ReadBytes(r, |bytes|);
      bs == bytes && r'.ok && r'.pos == r.pos + |bytes| && r'.t == r.t
  {
    hide Next, Padded;
    if bytes != [] {
      var front, last := bytes[..|bytes| - 1], bytes[|bytes| - 1];
      assert front + [last] == bytes;
      LastByte(r, front, last);
      ReadBytesGives(r, front);
    }
  }

  lemma LastByte(r: Reader, front: seq<Byte>, last: Byte)
    requires Next(r, Padded(front + [last]))
    ensures Next(r, Padded(front)) && r.pos + |front| < |r.words| && r.words[r.pos + |front|] == last
  {
    assert Padded(front + [last]) == Padded(front) + [last];
    NextSplits(r, Padded(front), [last]);
    assert r.words[r.pos + |front|] == r.words[r.pos + |front|..r.pos + |front| + 1][0];
  }

  /** Digits beyond the count come back as zeros. */
  function ClampAddress(a: Address): Address
    requires |a.digits| == ADDRESS_MAX
  {
    var k := Limit(a.count, ADDRESS_MAX);
    a.(digits := a.digits[..k] + Zeros(ADDRESS_MAX - k))
  }

  function ClampSub(s: SubAddress): SubAddress
    requires |s.digits| == SUBADDRESS_MAX
  {
    var k := Limit(s.count, SUBADDRESS_MAX);
    s.(digits := s.digits[..k] + Zeros(SUBADDRESS_MAX - k))
  }

  function Clamp(m: Sms): Sms
    requires Formed(m)
  {
    var k := Limit(m.bearerLen, BEARER_MAX);
    m.(address := ClampAddress(m.address), sub := ClampSub(m.sub),
       bearer := m.bearer[..k] + Zeros(BEARER_MAX - k))
  }

  /** bs holds the first n bytes of whole, and zeros behind them. */
  predicate FrontOf(bs: seq<Byte>, whole: seq<Byte>, n: int) {
    |bs| == |whole| && forall x :: 0 <= x < |bs| ==> bs[x] == if x < n then whole[x] else 0
  }

  /** Which part of a message comes back: all of it but what stands beyond the counts. */
  predicate Agrees(m: Sms, m': Sms)
    requires Formed(m)
  {
    var a, s, a', s' := m.address, m.sub, m'.address, m'.sub;
    && m'.teleservice == m.teleservice && m'.present == m.present && m'.category == m.category
    && a'.digitMode == a.digitMode && a'.numberMode == a.numberMode && a'.numberType == a.numberType
    && a'.numberPlan == a.numberPlan && a'.count == a.count && FrontOf(a'.digits, a.digits, Among(a.count, 36))
    && s'.kind == s.kind && s'.odd == s.odd && s'.count == s.count
    && FrontOf(s'.digits, s.digits, Among(s.count, 36))
    && m'.bearerLen == m.bearerLen && FrontOf(m'.bearer, m.bearer, Among(m.bearerLen, 255))
  }

  lemma ClampAgrees(m: Sms)
    requires Formed(m)
    ensures Agrees(m, Clamp(m))
  {
  }

  lemma AddressHeadGives(r: Reader, a: Address)
    requires Next(r, [a.digitMode, a.numberMode, a.numberType, a.numberPlan, a.count]) && r.ok
    ensures var (r', a') := ReadAddressHead(r);
      a' == a.(digits := []) && r'.ok && r'.pos == r.pos + 5
  {
    HeadAt(r, [a.digitMode, a.numberMode, a.numberType, a.numberPlan, a.count]);
    hide Next;
  }

  lemma ReadAddressGives(r: Reader, a: Address)
    requires |a.digits| == ADDRESS_MAX && Next(r, EncodeAddress(a)) && r.ok
    ensures var (r', a') := ReadAddress(r);
      a' == ClampAddress(a) && r'.ok && r'.pos == r.pos + |EncodeAddress(a)|
  {
    var head: seq<Word> := [a.digitMode, a.numberMode, a.numberType, a.numberPlan, a.count];
    var tail := a.digits[..Limit(a.count, ADDRESS_MAX)];
    NextSplits(r, head, Padded(tail));
    AddressHeadGives(r, a);
    ReadBytesGives(ReadAddressHead(r).0, tail);
    hide ReadBytes, ReadAddressHead;
  }

  /** The words of a known part. */
  lemma HeadAt(r: Reader, part: seq<Word>)
    requires Next(r, part)
    ensures forall i :: 0 <= i < |part| ==> r.words[r.pos + i] == part[i]
  {
    forall i | 0 <= i < |part| ensures r.words[r.pos + i] == part[i] {
      assert r.words[r.pos + i] == r.words[r.pos..r.pos + |part|][i];
    }
  }

  lemma SubHeadGives(r: Reader, s: SubAddress)
    requires Next(r, [s.kind, s.odd, s.count]) && r.ok
    ensures var (r', s') := ReadSubHead(r);
      s' == s.(digits := []) && r'.ok && r'.pos == r.pos + 3
  {
    HeadAt(r, [s.kind, s.odd, s.count]);
    hide Next;
  }

  lemma ReadSubGives(r: Reader, s: SubAddress)
    requires |s.digits| == SUBADDRESS_MAX && Next(r, EncodeSub(s)) && r.ok
    ensures var (r', s') := ReadSub(r);
      s' == ClampSub(s) && r'.ok && r'.pos == r.pos + |EncodeSub(s)|
  {
    var head: seq<Word> := [s.kind, s.odd, s.count];
    var tail := s.digits[..Limit(s.count, SUBADDRESS_MAX)];
    NextSplits(r, head, Padded(tail));
    SubHeadGives(r, s);
    ReadBytesGives(ReadSubHead(r).0, tail);
    hide ReadBytes, ReadSubHead;
  }

  lemma ReadBearerGives(r: Reader, m: Sms)
    requires Formed(m) && r.ok
    requires Next(r, [m.bearerLen] + Padded(m.bearer[..Limit(m.bearerLen, BEARER_MAX)]))
    ensures var (r', n, bs) := ReadBearer(r);
      && n == m.bearerLen && bs == Clamp(m).bearer && r'.ok
      && r'.pos == r.pos + 1 + Limit(m.bearerLen, BEARER_MAX)
  {
    var tail := m.bearer[..Limit(m.bearerLen, BEARER_MAX)];
    NextSplits(r, [m.bearerLen], Padded(tail));
    HeadAt(r, [m.bearerLen]);
    ReadBytesGives(ReadInt32(r), tail);
    hide ReadBytes, ClampAddress, ClampSub;
  }

  lemma SmsHeadGives(r: Reader, m: Sms)
    requires Next(r, [m.teleservice, m.present, m.category]) && r.ok
    ensures var (r', a, b, c) := ReadSmsHead(r);
      a == m.teleservice && b == m.present && c == m.category && r'.ok && r'.pos == r.pos + 3
  {
    HeadAt(r, [m.teleservice, m.present, m.category]);
    hide Next;
  }

  /** The parts of an encoded message, nested as the decoder takes them. */
  lemma StartsWith(m: Sms, suffix: seq<Word>, r: Reader)
    requires Formed(m) && Start(r) && r.words == Encode(m) + suffix
    ensures var head: seq<Word> := [m.teleservice, m.present, m.category];
      var a, s := EncodeAddress(m.address), EncodeSub(m.sub);
      var b := [m.bearerLen] + Padded(m.bearer[..Limit(m.bearerLen, BEARER_MAX)]);
      && Next(r, head + (a + (s + b))) && |Encode(m)| == |head| + |a| + |s| + |b|
      && r.words[|Encode(m)|..] == suffix
  {
    hide EncodeAddress, EncodeSub, Padded;
    var head: seq<Word> := [m.teleservice, m.present, m.category];
    var a, s := EncodeAddress(m.address), EncodeSub(m.sub);
    var b := [m.bearerLen] + Padded(m.bearer[..Limit(m.bearerLen, BEARER_MAX)]);
    assert Body(m) == a + (s + b);
    assert Encode(m) == head + (a + (s + b));
    assert r.words[..|Encode(m)|] == Encode(m);
  }

  /** Decoding an encoded message, whatever follows it, gives the message back with zeros
      beyond its counts, and leaves exactly what follows. */
  lemma RoundTrip(m: Sms, suffix: seq<Word>, r: Reader)
    requires Formed(m) && Start(r) && r.words == Encode(m) + suffix
    ensures var (r', m') := Decode(r);
      m' == Clamp(m) && Agrees(m, m') && r'.ok && r'.pos == |Encode(m)| && r'.words[r'.pos..] == suffix
  {
    ClampAgrees(m);
    var head: seq<Word> := [m.teleservice, m.present, m.category];
    var a, s := EncodeAddress(m.address), EncodeSub(m.sub);
    var b := [m.bearerLen] + Padded(m.bearer[..Limit(m.bearerLen, BEARER_MAX)]);
    StartsWith(m, suffix, r);
    hide Encode, Body, EncodeAddress, EncodeSub, ReadSmsHead, ReadAddress, ReadSub, ReadBearer,
         ClampAddress, ClampSub, Next, Padded, Agrees;
    NextSplits(r, head, a + (s + b));
    SmsHeadGives(r, m);
    var r1 := ReadSmsHead(r).0;
    NextAfter(r, r1, head, a + (s + b));
    NextSplits(r1, a, s + b);
    ReadAddressGives(r1, m.address);
    var r2 := ReadAddress(r1).0;
    NextAfter(r1, r2, a, s + b);
    NextSplits(r2, s, b);
    ReadSubGives(r2, m.sub);
    var r3 := ReadSub(r2).0;
    NextAfter(r2, r3, s, b);
    ReadBearerGives(r3, m);
  }

  lemma NextAfter(r: Reader, r': Reader, a: seq<Word>, b: seq<Word>)
    requires Next(r, a + b) && r'.words == r.words && r'.pos == r.pos + |a|
    ensures Next(r', b)
  {
    NextSplits(r, a, b);
  }

  // ---------------------------------------------------------------------------
  // Short parcels.

  function Extended(r: Reader, more: seq<Word>): Reader {
    r.(words := r.words + more)
  }

  lemma {:induction false} BytesExtend(r: Reader, n: nat, more: seq<Word>)
    requires Sound(r) && ReadBytes(r, n).0.ok
    ensures ReadBytes(Extended(r, more), n) == (Extended(ReadBytes(r, n).0, more), ReadBytes(r, n).1)
  {
    if n > 0 {
      BytesExtend(r, n - 1, more);
    }
  }

  lemma AddressHeadExtends(r: Reader, more: seq<Word>)
    requires Sound(r) && ReadAddressHead(r).0.ok
    ensures ReadAddressHead(Extended(r, more)) == (Extended(ReadAddressHead(r).0, more), ReadAddressHead(r).1)
  {
  }

  lemma AddressExtends(r: Reader, more: seq<Word>)
    requires Sound(r) && ReadAddress(r).0.ok
    ensures ReadAddress(Extended(r, more)) == (Extended(ReadAddress(r).0, more), ReadAddress(r).1)
  {
    var (r1, a) := ReadAddressHead(r);
    BytesExtend(r1, Limit(a.count, ADDRESS_MAX), more);
    AddressHeadExtends(r, more);
    hide ReadBytes, ReadAddressHead;
  }

  lemma SubHeadExtends(r: Reader, more: seq<Word>)
    requires Sound(r) && ReadSubHead(r).0.ok
    ensures ReadSubHead(Extended(r, more)) == (Extended(ReadSubHead(r).0, more), ReadSubHead(r).1)
  {
  }

  lemma SubExtends(r: Reader, more: seq<Word>)
    requires Sound(r) && ReadSub(r).0.ok
    ensures ReadSub(Extended(r, more)) == (Extended(ReadSub(r).0, more), ReadSub(r).1)
  {
    var (r1, s) := ReadSubHead(r);
    BytesExtend(r1, Limit(s.count, SUBADDRESS_MAX), more);
    SubHeadExtends(r, more);
    hide ReadBytes, ReadSubHead;
  }

  lemma BearerExtends(r: Reader, more: seq<Word>)
    requires Sound(r) && ReadBearer(r).0.ok
    ensures ReadBearer(Extended(r, more)) ==
      (Extended(ReadBearer(r).0, more), ReadBearer(r).1, ReadBearer(r).2)
  {
    BytesExtend(ReadInt32(r), Limit(ReadInt32(r).t, BEARER_MAX), more);
    hide ReadBytes;
  }

  lemma SmsHeadExtends(r: Reader, more: seq<Word>)
    requires Sound(r) && ReadSmsHead(r).0.ok
    ensures ReadSmsHead(Extended(r, more)) ==
      (Extended(ReadSmsHead(r).0, more), ReadSmsHead(r).1, ReadSmsHead(r).2, ReadSmsHead(r).3)
  {
  }

  /** An accepted parcel means the same whatever is appended to it. */
  lemma DecodeExtends(r: Reader, more: seq<Word>)
    requires Sound(r) && Decode(r).0.ok
    ensures Decode(Extended(r, more)) == (Extended(Decode(r).0, more), Decode(r).1)
  {
    var r1 := ReadSmsHead(r).0;
    var r2 := ReadAddress(r1).0;
    var r3 := ReadSub(r2).0;
    assert ReadBearer(r3).0.ok;
    hide ReadSmsHead, ReadAddress, ReadSub, ReadBearer;
    SmsHeadExtends(r, more);
    AddressExtends(r1, more);
    SubExtends(r2, more);
    BearerExtends(r3, more);
  }

  /** A parcel cut short is rejected, wherever the cut is and whatever the stack held, though
      only the last status is checked. */
  lemma TruncatedIsRejected(m: Sms, k: nat, t: Word, ut: Byte)
    requires Formed(m) && k < |Encode(m)|
    ensures !Decode(Reader(Encode(m)[..k], 0, t, ut, true)).0.ok
  {
    hide Encode, Decode, Clamp;
    var e := Encode(m);
    var r := Reader(e[..k], 0, t, ut, true);
    if Decode(r).0.ok {
      DecodeExtends(r, e[k..]);
      assert e[..k] + e[k..] == e == e + [];
      RoundTrip(m, [], Extended(r, e[k..]));
      assert false;
    }
  }

  // ---------------------------------------------------------------------------
  // The functions over a parcel object.

  lemma Join(a: seq<Word>, b: seq<Word>, c: seq<Word>)
    ensures a + b + c == a + (b + c)
  {
  }

  class Parcel {
    var data: seq<Word>
    var pos: nat

    constructor (data: seq<Word>)
      ensures this.data == data && pos == 0
    {
      this.data, pos := data, 0;
    }

    ghost function At(t: Word, ut: Byte, ok: bool): Reader
      reads this
    {
      Reader(data, pos, t, ut, ok)
    }

    /** readInt32 into t; the other variable and the last status only matter to the contract. */
    method ReadInt32Into(t: Word, ghost ut: Byte, ghost was: bool) returns (t': Word, ok: bool)
      modifies `pos
      ensures At(t', ut, ok) == ReadInt32(old(At(t, ut, was)))
    {
      if pos < |data| {
        t', ok := data[pos], true;
        pos := pos + 1;
      } else {
        t', ok := t, false;
      }
    }

    /** read of one byte into ut. */
    method ReadByteInto(ut: Byte, ghost t: Word, ghost was: bool) returns (ut': Byte, ok: bool)
      modifies `pos
      ensures At(t, ut', ok) == ReadByte(old(At(t, ut, was)))
    {
      if pos < |data| {
        ut', ok := data[pos] % 0x100, true;
        pos := pos + 1;
      } else {
        ut', ok := ut, false;
      }
    }

    /** The digit loops: the array, zero at first, takes n bytes from its front on. */
    method ReadArray(ut: Byte, was: bool, n: nat, max: nat, ghost t: Word)
        returns (ut': Byte, ok: bool, bytes: seq<Byte>)
      requires n <= max
      modifies `pos
      ensures At(t, ut', ok) == ReadBytes(old(At(t, ut, was)), n).0
      ensures bytes == ReadBytes(old(At(t, ut, was)), n).1 + Zeros(max - n)
    {
      bytes, ut', ok := Zeros(max), ut, was;
      var i := 0;
      while i < n
        invariant i <= n && |bytes| == max && data == old(data)
        invariant At(t, ut', ok) == ReadBytes(old(At(t, ut, was)), i).0
        invariant bytes[..i] == ReadBytes(old(At(t, ut, was)), i).1
        invariant forall j :: i <= j < max ==> bytes[j] == 0
      {
        ghost var before := bytes[..i];
        ut', ok := ReadByteInto(ut', t, ok);
        bytes := bytes[i := ut'];
        assert bytes[..i + 1] == before + [ut'];
        i := i + 1;
      }
      assert bytes == bytes[..n] + bytes[n..];
      assert bytes[n..] == Zeros(max - n);
    }

    method ReadSAddress(t: Word, ut: Byte, ghost was: bool) returns (a: Address, t': Word, ut': Byte, ok: bool)
      modifies `pos
      ensures (At(t', ut', ok), a) == ReadAddress(old(At(t, ut, was)))
    {
      hide ReadBytes, ReadInt32, ReadByte;
      var digitMode, ok1 := ReadInt32Into(t, ut, was);
      var numberMode, ok2 := ReadInt32Into(digitMode, ut, ok1);
      var numberType, ok3 := ReadInt32Into(numberMode, ut, ok2);
      var numberPlan, ok4 := ReadInt32Into(numberType, ut, ok3);
      t' := numberPlan;
      var count, ok5 := ReadByteInto(ut, t', ok4);
      var digits;
      ut', ok, digits := ReadArray(count, ok5, Limit(count, ADDRESS_MAX), ADDRESS_MAX, t');
      a := Address(digitMode, numberMode, numberType, numberPlan, count, digits);
    }

    method ReadSSubAddress(t: Word, ut: Byte, ghost was: bool) returns (s: SubAddress, t': Word, ut': Byte, ok: bool)
      modifies `pos
      ensures (At(t', ut', ok), s) == ReadSub(old(At(t, ut, was)))
    {
      hide ReadBytes, ReadInt32, ReadByte;
      var ok1, odd, ok2, count, ok3, digits;
      t', ok1 := ReadInt32Into(t, ut, was);
      odd, ok2 := ReadByteInto(ut, t', ok1);
      count, ok3 := ReadByteInto(odd, t', ok2);
      ut', ok, digits := ReadArray(count, ok3, Limit(count, SUBADDRESS_MAX), SUBADDRESS_MAX, t');
      s := SubAddress(t', odd, count, digits);
    }

    /** constructCdmaSms: t and ut start with whatever the stack held. */
    method ConstructCdmaSms(t: Word, ut: Byte) returns (ok: bool, m: Sms)
      modifies `pos
      ensures var (r, m') := Decode(old(At(t, ut, true)));
        pos == r.pos && data == r.words && ok == r.ok && m == m'
    {
      hide ReadBytes, ReadInt32, ReadByte, ReadAddress, ReadSub;
      var teleservice, ok1 := ReadInt32Into(t, ut, true);
      var present, ok2 := ReadByteInto(ut, teleservice, ok1);
      var category, ok3 := ReadInt32Into(teleservice, present, ok2);
      var address, t4, ut4, ok4 := ReadSAddress(category, present, ok3);
      var sub, t5, ut5, ok5 := ReadSSubAddress(t4, ut4, ok4);
      var bearerLen, ok6 := ReadInt32Into(t5, ut5, ok5);
      var _, ok7, bearer := ReadArray(ut5, ok6, Limit(bearerLen, BEARER_MAX), BEARER_MAX, bearerLen);
      return ok7, Sms(teleservice, present, category, address, sub, bearerLen, bearer);
    }

    /** One byte, padded to a word. */
    method WriteByte(b: Byte)
      modifies `data
      ensures data == old(data) + [b]
    {
      data := data + [b];
    }

    method WriteInt32(w: Word)
      modifies `data
      ensures data == old(data) + [w]
    {
      data := data + [w];
    }

    method WriteArray(bytes: seq<Byte>, n: nat)
      requires n <= |bytes|
      modifies `data
      ensures data == old(data) + Padded(bytes[..n])
    {
      var i := 0;
      while i < n
        invariant i <= n && data == old(data) + Padded(bytes[..i])
      {
        WriteByte(bytes[i]);
        assert Padded(bytes[..i + 1]) == Padded(bytes[..i]) + [bytes[i]];
        i := i + 1;
      }
    }

    /** responseCdmaSms: a null or wrongly sized response writes nothing. */
    method ResponseCdmaSms(response: Option<Sms>, sizeOk: bool) returns (ok: bool)
      requires response.Some? ==> Formed(response.value)
      modifies `data
      ensures ok <==> response.Some? && sizeOk
      ensures data == old(data) + if ok then Encode(response.value) else []
    {
      hide Encode, Formed;
      ok := response.Some? && sizeOk;
      if ok {
        WriteSms(response.value);
      }
    }

    /** The writes of responseCdmaSms. */
    method WriteSms(m: Sms)
      requires Formed(m)
      modifies `data
      ensures data == old(data) + Encode(m)
    {
      hide Body;
      ghost var before := data;
      WriteHead(m);
      WriteBody(m);
      Join(before, [m.teleservice, m.present, m.category], Body(m));
    }

    method WriteHead(m: Sms)
      modifies `data
      ensures data == old(data) + [m.teleservice, m.present, m.category]
    {
      WriteInt32(m.teleservice);
      WriteByte(m.present);
      WriteInt32(m.category);
    }

    /** Everything after the first three fields. */
    method WriteBody(m: Sms)
      requires Formed(m)
      modifies `data
      ensures data == old(data) + Body(m)
    {
      hide EncodeAddress, EncodeSub;
      WriteSAddress(m.address);
      WriteSSubAddress(m.sub);
      WriteInt32(m.bearerLen);
      WriteArray(m.bearer, Limit(m.bearerLen, BEARER_MAX));
    }

    method WriteSAddress(a: Address)
      requires |a.digits| == ADDRESS_MAX
      modifies `data
      ensures data == old(data) + EncodeAddress(a)
    {
      WriteInt32(a.digitMode);
      WriteInt32(a.numberMode);
      WriteInt32(a.numberType);
      WriteInt32(a.numberPlan);
      WriteByte(a.count);
      WriteArray(a.digits, Limit(a.count, ADDRESS_MAX));
    }

    method WriteSSubAddress(s: SubAddress)
      requires |s.digits| == SUBADDRESS_MAX
      modifies `data
      ensures data == old(data) + EncodeSub(s)
    {
      WriteInt32(s.kind);
      WriteByte(s.odd);
      WriteByte(s.count);
      WriteArray(s.digits, Limit(s.count, SUBADDRESS_MAX));
    }
  }
}
