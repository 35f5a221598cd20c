/**
 The generated codec of the two oneofs, FailureCondition_Trigger and
 PrometheusTrigger: field 1 is a string, field 2 a message, both length-delimited
 records of the Protocol Buffers encoding. A message payload is opaque bytes.
 */
module OneofCodec {
  import opened Types

  type byte = n: nat | n < 256

  const U64: nat := 0x1_0000_0000_0000_0000
  /** Lengths are Go ints: a slice has fewer than 2^63 bytes. */
  const INT_LIMIT: nat := 0x8000_0000_0000_0000
  const WIRE_BYTES := 2
  const MAX_VARINT_BYTES := 10

  datatype Error = UnexpectedEOF | Overflow | BadLength | BadWireType

  datatype Oneof = NoCase | Text(text: seq<byte>) | Message(payload: seq<byte>)

  /** A value, and how many bytes it took. */
  datatype Read<+T> = Read(value: T, size: nat)

  // ----- base 128 varints -----

  function Varint(x: nat): (r: seq<byte>)
    ensures |r| > 0
  {
    if x < 128 then [x] else [x % 128 + 128] + Varint(x / 128)
  }

  /** The groups of a varint whose first k bytes have been read; more than ten bytes overflow. */
  function Groups(b: seq<byte>, k: nat): (r: Result<Read<nat>, Error>)
    requires k <= MAX_VARINT_BYTES
    ensures r.Ok? ==> 0 < r.value.size <= |b|
    decreases MAX_VARINT_BYTES - k
  {
    if k == MAX_VARINT_BYTES then Err(Overflow)
    else if b == [] then Err(UnexpectedEOF)
    else if b[0] < 128 then Ok(Read(b[0], 1))
    else
      match Groups(b[1..], k + 1)
      case Err(e) => Err(e)
      case Ok(Read(high, size)) => Ok(Read(b[0] - 128 + 128 * high, size + 1))
  }

  /** A uint64 keeps the low 64 bits. */
  function ReadVarint(b: seq<byte>): (r: Result<Read<nat>, Error>)
    ensures r.Ok? ==> 0 < r.value.size <= |b|
  {
    match Groups(b, 0)
    case Err(e) => Err(e)
    case Ok(Read(x, size)) => Ok(Read(x % U64, size))
  }

  function Power128(k: nat): nat {
    if k == 0 then 1 else 128 * Power128(k - 1)
  }

  lemma {:induction false} VarintSize(x: nat, k: nat)
    requires k > 0 && x < Power128(k)
    ensures |Varint(x)| <= k
  {
    if x >= 128 {
      assert k > 1 by { assert Power128(0) == 1; }
      VarintSize(x / 128, k - 1);
    }
  }

  lemma {:induction false} VarintFitsTenBytes(x: nat)
    requires x < U64
    ensures |Varint(x)| <= MAX_VARINT_BYTES
  {
    assert Power128(5) == 0x8_0000_0000;
    assert Power128(10) == 128 * 128 * 128 * 128 * 128 * Power128(5);
    VarintSize(x, 10);
  }

  lemma {:induction false} GroupsRoundTrip(x: nat, k: nat, rest: seq<byte>)
    requires |Varint(x)| + k <= MAX_VARINT_BYTES
    ensures Groups(Varint(x) + rest, k) == Ok(Read(x, |Varint(x)|))
  {
    if x >= 128 {
      var tail := Varint(x / 128);
      assert (Varint(x) + rest)[1..] == tail + rest;
      GroupsRoundTrip(x / 128, k + 1, rest);
    }
  }

  lemma {:induction false} VarintRoundTrip(x: nat, rest: seq<byte>)
    requires x < 0x1_0000_0000_0000_0000
    ensures ReadVarint(Varint(x) + rest) == Ok(Read(x, |Varint(x)|))
  {
    VarintFitsTenBytes(x);
    GroupsRoundTrip(x, 0, rest);
  }

  /** No varint is the beginning of another: cut short, it does not decode. */
  lemma {:induction false} GroupsCut(x: nat, k: nat, n: nat)
    requires |Varint(x)| + k <= MAX_VARINT_BYTES && n < |Varint(x)|
    ensures Groups(Varint(x)[..n], k) == Err(UnexpectedEOF)
  {
    if n > 0 {
      assert Varint(x)[..n][1..] == Varint(x / 128)[..n - 1];
      GroupsCut(x / 128, k + 1, n - 1);
    }
  }

  /** The groups come least significant first: 300 is the bytes 0xac and 0x02. */
  lemma VarintOf300()
    ensures Varint(300) == [0xac, 0x02]
  {
  }

  lemma {:induction false} ContinuedGroups(b: seq<byte>, k: nat)
    requires k <= MAX_VARINT_BYTES && forall i :: 0 <= i < |b| && i + k < MAX_VARINT_BYTES ==> b[i] >= 128
    ensures Groups(b, k) == Err(if |b| + k >= MAX_VARINT_BYTES then Overflow else UnexpectedEOF)
    decreases MAX_VARINT_BYTES - k
  {
    if k < MAX_VARINT_BYTES && b != [] {
      ContinuedGroups(b[1..], k + 1);
    }
  }

  /** A varint that goes on for ten bytes overflows, one that ends before is cut; a value read is a uint64. */
  lemma VarintLimits(b: seq<byte>)
    ensures (forall i :: 0 <= i < |b| && i < 10 ==> b[i] >= 128) ==>
      ReadVarint(b) == Err(if |b| >= 10 then Overflow else UnexpectedEOF)
    ensures ReadVarint(b).Ok? ==> ReadVarint(b).value.value < 0x1_0000_0000_0000_0000
  {
    if forall i :: 0 <= i < |b| && i < 10 ==> b[i] >= 128 {
      ContinuedGroups(b, 0);
    }
  }

  // ----- length-delimited records -----

  function Delimited(s: seq<byte>): seq<byte> {
    Varint(|s|) + s
  }

  function ReadDelimited(b: seq<byte>): (r: Result<Read<seq<byte>>, Error>)
    ensures r.Ok? ==> 0 < r.value.size <= |b|
  {
    match ReadVarint(b)
    case Err(e) => Err(e)
    case Ok(Read(n, size)) =>
      if n >= INT_LIMIT then Err(BadLength)
      else if size + n > |b| then Err(UnexpectedEOF)
      else Ok(Read(b[size..size + n], size + n))
  }

  lemma DelimitedRoundTrip(s: seq<byte>, rest: seq<byte>)
    requires |s| < 0x8000_0000_0000_0000
    ensures ReadDelimited(Delimited(s) + rest) == Ok(Read(s, |Delimited(s)|))
  {
    assert Delimited(s) + rest == Varint(|s|) + (s + rest);
    VarintRoundTrip(|s|, s + rest);
  }

  /** What any length prefix leads to: a length of 2^63 or more is refused, then one that goes beyond the end. */
  lemma {:induction false} LengthExactly(n: nat, rest: seq<byte>)
    requires n < 0x1_0000_0000_0000_0000
    ensures ReadDelimited(Varint(n) + rest)
         == if n >= 0x8000_0000_0000_0000 then Err(BadLength)
            else if n > |rest| then Err(UnexpectedEOF)
            else Ok(Read(rest[..n], |Varint(n)| + n))
  {
    hide Varint, ReadVarint;
    VarintRoundTrip(n, rest);
    if n <= |rest| {
      var size := |Varint(n)|;
      assert (Varint(n) + rest)[size..size + n] == rest[..n];
    }
  }

  lemma DelimitedCut(s: seq<byte>, n: nat)
    requires |s| < INT_LIMIT && n < |Delimited(s)|
    ensures ReadDelimited(Delimited(s)[..n]) == Err(UnexpectedEOF)
  {
    var v := Varint(|s|);
    VarintFitsTenBytes(|s|);
    if n < |v| {
      assert Delimited(s)[..n] == v[..n];
      GroupsCut(|s|, 0, n);
    } else {
      assert Delimited(s)[..n] == v + s[..n - |v|];
      VarintRoundTrip(|s|, s[..n - |v|]);
    }
  }

  // ----- the oneof field -----

  function Key(tag: nat): nat {
    tag * 8 + WIRE_BYTES
  }

  function Encoding(v: Oneof): seq<byte> {
    match v
    case NoCase => []
    case Text(s) => Varint(Key(1)) + Delimited(s)
    case Message(p) => Varint(Key(2)) + Delimited(p)
  }

  /** What the unmarshaler assigns for a tag. */
  function Case(tag: nat, bytes: seq<byte>): Oneof {
    if tag == 1 then Text(bytes) else Message(bytes)
  }

  /** A key, then the field it announces; an unknown tag is none of this oneof's. */
  function ReadField(b: seq<byte>): Result<Read<Oneof>, Error> {
    match ReadVarint(b)
    case Err(e) => Err(e)
    case Ok(Read(key, size)) =>
      if key / 8 != 1 && key / 8 != 2 then Ok(Read(NoCase, size))
      else if key % 8 != WIRE_BYTES then Err(BadWireType)
      else
        match ReadDelimited(b[size..])
        case Err(e) => Err(e)
        case Ok(Read(bytes, n)) => Ok(Read(Case(key / 8, bytes), size + n))
  }

  /** The string is field 1, the message field 2, both length-delimited, so the keys are the bytes 0x0a and 0x12. */
  lemma EncodingKeys(bytes: seq<byte>)
    ensures Encoding(Text(bytes)) == [0x0a] + Delimited(bytes)
    ensures Encoding(Message(bytes)) == [0x12] + Delimited(bytes)
    ensures Encoding(NoCase) == []
  {
  }

  predicate Sized(v: Oneof) {
    match v
    case NoCase => true
    case Text(s) => |s| < 0x8000_0000_0000_0000
    case Message(p) => |p| < 0x8000_0000_0000_0000
  }

  /** What any key leads to: other tags are not this oneof's, and its own have to announce a length. */
  lemma {:induction false} KeyDecides(key: nat, rest: seq<byte>)
    requires key < 0x1_0000_0000_0000_0000 && (key / 8 == 1 || key / 8 == 2 ==> key % 8 != 2)
    ensures ReadField(Varint(key) + rest)
         == if key / 8 == 1 || key / 8 == 2 then Err(BadWireType) else Ok(Read(NoCase, |Varint(key)|))
  {
    hide Varint, ReadVarint;
    VarintRoundTrip(key, rest);
  }

  lemma ReadFieldAfterKey(tag: nat, rest: seq<byte>)
    requires tag == 1 || tag == 2
    ensures ReadField(Varint(Key(tag)) + rest)
         == match ReadDelimited(rest)
            case Err(e) => Err(e)
            case Ok(Read(bytes, n)) => Ok(Read(Case(tag, bytes), |Varint(Key(tag))| + n))
  {
    hide Varint, ReadVarint, ReadDelimited, Case;
    VarintRoundTrip(Key(tag), rest);
    assert (Varint(Key(tag)) + rest)[|Varint(Key(tag))|..] == rest;
  }

  /** Reading what was written rebuilds the value and takes exactly the bytes written, whatever follows. */
  lemma OneofRoundTrip(v: Oneof, rest: seq<byte>)
    requires v != NoCase && Sized(v)
    ensures ReadField(Encoding(v) + rest) == Ok(Read(v, |Encoding(v)|))
  {
    hide Varint, ReadField, Delimited, ReadDelimited;
    var tag := if v.Text? then 1 else 2;
    var bytes := if v.Text? then v.text else v.payload;
    assert Encoding(v) + rest == Varint(Key(tag)) + (Delimited(bytes) + rest);
    DelimitedRoundTrip(bytes, rest);
    ReadFieldAfterKey(tag, Delimited(bytes) + rest);
  }

  /** A field cut short anywhere is an error, never another value. */
  lemma CutFieldIsRefused(v: Oneof, n: nat)
    requires v != NoCase && Sized(v) && n < |Encoding(v)|
    ensures ReadField(Encoding(v)[..n]) == Err(UnexpectedEOF)
  {
    var tag := if v.Text? then 1 else 2;
    var bytes := if v.Text? then v.text else v.payload;
    var key := Varint(Key(tag));
    VarintFitsTenBytes(Key(tag));
    if n < |key| {
      assert Encoding(v)[..n] == key[..n];
      GroupsCut(Key(tag), 0, n);
    } else {
      assert Encoding(v)[..n] == key + Delimited(bytes)[..n - |key|];
      DelimitedCut(bytes, n - |key|);
      ReadFieldAfterKey(tag, Delimited(bytes)[..n - |key|]);
    }
  }

  // ----- the groups read so far, as the decoding loop accumulates them -----

  function Times(scale: nat, group: nat): nat {
    scale * group
  }

  /** A varint whose first k groups make x, and whose other groups count for `scale` each. */
  function Shifted(rest: Result<Read<nat>, Error>, x: nat, scale: nat, k: nat): Result<Read<nat>, Error> {
    match rest
    case Ok(Read(high, size)) => Ok(Read(x + Times(scale, high), size + k))
    case Err(e) => Err(e)
  }

  lemma ShiftedByNothing(r: Result<Read<nat>, Error>)
    ensures Shifted(r, 0, 1, 0) == r
  {
  }

  lemma Regroup(scale: nat, low: nat, high: nat)
    ensures Times(scale, low + 128 * high) == Times(scale, low) + Times(scale * 128, high)
  {
  }

  lemma ShiftGroup(b: seq<byte>, x: nat, scale: nat, k: nat)
    requires k < MAX_VARINT_BYTES
    ensures b == [] ==> Shifted(Groups(b, k), x, scale, k) == Err(UnexpectedEOF)
    ensures b != [] && b[0] < 128 ==> Shifted(Groups(b, k), x, scale, k) == Ok(Read(x + Times(scale, b[0]), k + 1))
    ensures b != [] && b[0] >= 128 ==>
      Shifted(Groups(b, k), x, scale, k)
      == Shifted(Groups(b[1..], k + 1), x + Times(scale, b[0] - 128), scale * 128, k + 1)
  {
    if b != [] && b[0] >= 128 {
      match Groups(b[1..], k + 1)
      case Ok(Read(high, size)) => Regroup(scale, b[0] - 128, high);
      case Err(e) =>
    }
  }

  lemma {:induction false} ShiftOverflow(b: seq<byte>, x: nat, scale: nat)
    ensures Shifted(Groups(b, MAX_VARINT_BYTES), x, scale, MAX_VARINT_BYTES) == Err(Overflow)
  {
  }

  lemma SliceOfSlice(b: seq<byte>, from: nat, size: nat, n: nat)
    requires from + size + n <= |b|
    ensures b[from + size..from + size + n] == b[from..][size..size + n]
  {
  }

  // ----- the generated functions, over a buffer -----

  class Buffer {
    var buf: seq<byte>
    var index: nat

    ghost predicate Valid()
      reads this
    {
      index <= |buf|
    }

    constructor (bytes: seq<byte>)
      ensures buf == bytes && index == 0
    {
      buf, index := bytes, 0;
    }

    method EncodeVarint(value: nat)
      modifies this`buf
      ensures buf == old(buf) + Varint(value)
    {
      var x := value;
      ghost var written := [];
      while x >= 128
        invariant buf == old(buf) + written && written + Varint(x) == Varint(value)
      {
        assert Varint(x) == [x % 128 + 128] + Varint(x / 128);
        written := written + [x % 128 + 128];
        buf := buf + [x % 128 + 128];
        x := x / 128;
      }
      buf := buf + [x];
      assert old(buf) + written + [x] == old(buf) + (written + [x]);
    }

    method EncodeBytes(s: seq<byte>)
      modifies this`buf
      ensures buf == old(buf) + Delimited(s)
    {
      EncodeVarint(|s|);
      buf := buf + s;
    }

    method DecodeVarint() returns (r: Result<nat, Error>)
      requires Valid()
      modifies this`index
      ensures Valid()
      ensures match ReadVarint(buf[old(index)..])
              case Ok(Read(x, size)) => r == Ok(x) && index == old(index) + size
              case Err(e) => r == Err(e) && index == old(index)
    {
      hide Groups, Shifted;
      ghost var all := Groups(buf[index..], 0);
      var i: nat, x: nat, scale: nat, k: nat := index, 0, 1, 0;
      ShiftedByNothing(all);
      while k < MAX_VARINT_BYTES
        invariant i == index + k <= |buf| && k <= MAX_VARINT_BYTES && index == old(index)
        invariant all == Shifted(Groups(buf[i..], k), x, scale, k)
      {
        ShiftGroup(buf[i..], x, scale, k);
        if i >= |buf| {
          return Err(UnexpectedEOF);
        }
        var b := buf[i];
        assert buf[i..][1..] == buf[i + 1..];
        i := i + 1;
        if b < 128 {
          x := x + Times(scale, b);
          index := i;
          return Ok(x % U64);
        }
        x, scale, k := x + Times(scale, b - 128), scale * 128, k + 1;
      }
      ShiftOverflow(buf[i..], x, scale);
      return Err(Overflow);
    }

    method DecodeBytes() returns (r: Result<seq<byte>, Error>)
      requires Valid()
      modifies this`index
      ensures Valid()
      ensures match ReadDelimited(buf[old(index)..])
              case Ok(Read(s, size)) => r == Ok(s) && index == old(index) + size
              case Err(e) => r == Err(e)
    {
      hide Groups;
      var length := DecodeVarint();
      if length.Err? {
        return Err(length.error);
      }
      var n := length.value;
      if n >= INT_LIMIT {
        return Err(BadLength);
      }
      var end := index + n;
      if end > |buf| {
        return Err(UnexpectedEOF);
      }
      SliceOfSlice(buf, old(index), index - old(index), n);
      r := Ok(buf[index..end]);
      index := end;
    }
  }

  /** A message that holds one of the two oneofs. */
  class OneofHolder {
    var oneof: Oneof

    constructor (v: Oneof)
      ensures oneof == v
    {
      oneof := v;
    }
  }

  method MarshalOneof(m: OneofHolder, b: Buffer)
    modifies b`buf
    ensures b.buf == old(b.buf) + Encoding(m.oneof)
  {
    hide Varint, Delimited;
    match m.oneof
    case Text(s) =>
      b.EncodeVarint(Key(1));
      b.EncodeBytes(s);
    case Message(p) =>
      b.EncodeVarint(Key(2));
      b.EncodeBytes(p);
    case NoCase =>
  }

  /** Reads the field after its key. A failed read still assigns the case, empty. */
  method UnmarshalOneof(m: OneofHolder, tag: nat, wire: nat, b: Buffer) returns (handled: bool, error: Option<Error>)
    requires b.Valid()
    modifies m, b`index
    ensures b.Valid()
    ensures handled <==> tag == 1 || tag == 2
    ensures !handled ==> m.oneof == old(m.oneof) && error == None && b.index == old(b.index)
    ensures handled && wire != WIRE_BYTES ==>
      error == Some(BadWireType) && m.oneof == old(m.oneof) && b.index == old(b.index)
    ensures handled && wire == WIRE_BYTES ==>
      match ReadDelimited(b.buf[old(b.index)..])
      case Ok(Read(bytes, n)) => error == None && m.oneof == Case(tag, bytes) && b.index == old(b.index) + n
      case Err(e) => error == Some(e) && m.oneof == Case(tag, [])
  {
    if tag != 1 && tag != 2 {
      return false, None;
    }
    if wire != WIRE_BYTES {
      return true, Some(BadWireType);
    }
    var x := b.DecodeBytes();
    m.oneof := Case(tag, if x.Ok? then x.value else []);
    return true, if x.Ok? then None else Some(x.error);
  }

  method SizeVarint(value: nat) returns (n: nat)
    ensures n == |Varint(value)|
  {
    n := 1;
    var x := value;
    while x >= 128
      invariant n + |Varint(x)| == |Varint(value)| + 1
    {
      n := n + 1;
      x := x / 128;
    }
  }

  /** The sizer counts one byte for the key, the varint of the length, and the bytes. */
  method SizeOneof(m: OneofHolder) returns (n: nat)
    ensures n == |Encoding(m.oneof)|
  {
    n := 0;
    match m.oneof
    case Text(s) =>
      n := n + 1;
      var k := SizeVarint(|s|);
      n := n + k + |s|;
    case Message(p) =>
      n := n + 1;
      var k := SizeVarint(|p|);
      n := n + k + |p|;
    case NoCase =>
  }

  /** Marshal, read the key back, unmarshal into another holder: the same value, and every byte is consumed. */
  method MarshalThenUnmarshal(m: OneofHolder, into: OneofHolder) returns (size: nat, b: Buffer)
    requires m.oneof != NoCase && Sized(m.oneof) && m != into
    modifies into
    ensures into.oneof == m.oneof
    ensures fresh(b) && b.index == |b.buf| == size
  {
    b := new Buffer([]);
    MarshalOneof(m, b);
    size := SizeOneof(m);
    ghost var v := m.oneof;
    assert b.buf == Encoding(v) + [] && b.buf[0..] == b.buf;
    OneofRoundTrip(v, []);
    var key := b.DecodeVarint();
    var _, _ := UnmarshalOneof(into, key.value / 8, key.value % 8, b);
  }
}
