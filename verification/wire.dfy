/**
 The Protocol Buffers wire format ("Base 128 Varints" and "Message Structure" in its Encoding
 document), as far as the log and table files use it.
 */
module Wire {
  import opened Wrappers
  import opened Kv

  /** A decoded value and the number of bytes it took. */
  datatype Parsed<+T> = Parsed(value: T, size: nat)

  /** One field of a message. `Fixed` holds an 8-byte or 4-byte scalar, which this program never writes. */
  datatype Field =
    | Number(num: nat, n: nat)
    | Blob(num: nat, data: Bytes)
    | Fixed(num: nat, data: Bytes)

  const MAX_SIZE := 0x8000_0000

  function EncodeVarint(n: nat): (bs: Bytes)
    ensures bs != []
  {
    if n < 128 then [n] else [n % 128 + 128] + EncodeVarint(n / 128)
  }

  /** Reads at most `limit` bytes; absent when no final byte is among them. */
  function DecodeVarint(bs: Bytes, limit: nat): (r: Option<Parsed<nat>>)
    ensures r.Some? ==> 0 < r.value.size <= |bs|
  {
    if bs == [] || limit == 0 then
      None
    else if bs[0] < 128 then
      Some(Parsed(bs[0], 1))
    else
      match DecodeVarint(bs[1..], limit - 1)
      case None => None
      case Some(high) => Some(Parsed(bs[0] - 128 + 128 * high.value, high.size + 1))
  }

  predicate ValidField(f: Field) {
    && 1 <= f.num < 0x2000_0000
    && match f
       case Number(_, n) => n < 0x1_0000_0000_0000_0000
       case Blob(_, data) => |data| < MAX_SIZE
       case Fixed(_, data) => |data| == 8 || |data| == 4
  }

  ghost predicate ValidFields(fs: seq<Field>) {
    forall i :: 0 <= i < |fs| ==> ValidField(fs[i])
  }

  function EncodeField(f: Field): Bytes {
    match f
    case Number(num, n) => EncodeVarint(num * 8) + EncodeVarint(n)
    case Blob(num, data) => EncodeVarint(num * 8 + 2) + EncodeVarint(|data|) + data
    case Fixed(num, data) => EncodeVarint(num * 8 + if |data| == 8 then 1 else 5) + data
  }

  function EncodeFields(fs: seq<Field>): Bytes {
    if fs == [] then [] else EncodeField(fs[0]) + EncodeFields(fs[1..])
  }

  /** The payload of a field whose tag announced `kind`. */
  function ParsePayload(num: nat, kind: nat, bs: Bytes): (r: Option<Parsed<Field>>)
    ensures r.Some? ==> r.value.size <= |bs|
  {
    if kind == 0 then
      match DecodeVarint(bs, 10)
      case None => None
      case Some(v) => Some(Parsed(Number(num, v.value % 0x1_0000_0000_0000_0000), v.size))
    else if kind == 1 then
      if |bs| < 8 then None else Some(Parsed(Fixed(num, bs[..8]), 8))
    else if kind == 5 then
      if |bs| < 4 then None else Some(Parsed(Fixed(num, bs[..4]), 4))
    else if kind == 2 then
      match DecodeVarint(bs, 5)
      case None => None
      case Some(len) =>
        if len.value < MAX_SIZE && len.size + len.value <= |bs| then
          Some(Parsed(Blob(num, bs[len.size..len.size + len.value]), len.size + len.value))
        else
          None
    else
      None
  }

  function ParseField(bs: Bytes): (r: Option<Parsed<Field>>)
    ensures r.Some? ==> 0 < r.value.size <= |bs|
  {
    match DecodeVarint(bs, 5)
    case None => None
    case Some(tag) =>
      var t := tag.value % 0x1_0000_0000;
      if t / 8 == 0 then None else
      match ParsePayload(t / 8, t % 8, bs[tag.size..])
      case None => None
      case Some(f) => Some(Parsed(f.value, tag.size + f.size))
  }

  /** All the fields of a message, or nothing when the bytes are not a message. */
  function ParseFields(bs: Bytes): Option<seq<Field>> {
    if bs == [] then
      Some([])
    else
      match ParseField(bs)
      case None => None
      case Some(f) =>
        match ParseFields(bs[f.size..])
        case None => None
        case Some(rest) => Some([f.value] + rest)
  }

  /** The last length-delimited field `num`, or `default`: a later field overrides an earlier one. */
  function GetBlob(fs: seq<Field>, num: nat, default: Bytes): Bytes {
    if fs == [] then
      default
    else
      var last := fs[|fs| - 1];
      if last.Blob? && last.num == num then last.data else GetBlob(fs[..|fs| - 1], num, default)
  }

  function GetNumber(fs: seq<Field>, num: nat, default: uint64): uint64 {
    if fs == [] then
      default
    else
      var last := fs[|fs| - 1];
      if last.Number? && last.num == num then
        last.n % 0x1_0000_0000_0000_0000
      else
        GetNumber(fs[..|fs| - 1], num, default)
  }

  /** Of several fields with one number the last decides, and a field of another number or kind does not matter. */
  lemma LastFieldDecides(fs: seq<Field>, f: Field, num: nat, blob: Bytes, number: uint64)
    ensures GetBlob(fs + [f], num, blob) == if f.Blob? && f.num == num then f.data else GetBlob(fs, num, blob)
    ensures GetNumber(fs + [f], num, number) ==
            if f.Number? && f.num == num then f.n % 0x1_0000_0000_0000_0000 else GetNumber(fs, num, number)
    ensures GetBlob([], num, blob) == blob && GetNumber([], num, number) == number
  {
    assert (fs + [f])[..|fs|] == fs;
  }

  /** Reading the fields of two messages in a row is reading the second with the first as default. */
  lemma {:induction false} FieldsTogether(a: seq<Field>, b: seq<Field>, num: nat, blob: Bytes, number: uint64)
    ensures GetBlob(a + b, num, blob) == GetBlob(b, num, GetBlob(a, num, blob))
    ensures GetNumber(a + b, num, number) == GetNumber(b, num, GetNumber(a, num, number))
  {
    if b == [] {
      assert a + b == a;
    } else {
      var n := |b| - 1;
      FieldsTogether(a, b[..n], num, blob, number);
      assert (a + b)[..|a + b| - 1] == a + b[..n];
    }
  }

  function Power128(k: nat): nat {
    if k == 0 then 1 else 128 * Power128(k - 1)
  }

  lemma {:induction false} VarintLength(n: nat, k: nat)
    requires 0 < k && n < Power128(k)
    ensures |EncodeVarint(n)| <= k
  {
    if 128 <= n {
      assert k != 1;
      VarintLength(n / 128, k - 1);
    }
  }

  lemma VarintFits(n: nat)
    ensures n < 0x1_0000_0000 ==> |EncodeVarint(n)| <= 5
    ensures n < 0x1_0000_0000_0000_0000 ==> |EncodeVarint(n)| <= 10
  {
    assert Power128(5) == 0x8_0000_0000;
    assert Power128(10) == 0x8_0000_0000 * 0x8_0000_0000;
    if n < 0x1_0000_0000 { VarintLength(n, 5); }
    if n < 0x1_0000_0000_0000_0000 { VarintLength(n, 10); }
  }

  lemma {:induction false} VarintRoundTrip(n: nat, rest: Bytes, limit: nat)
    requires |EncodeVarint(n)| <= limit
    ensures DecodeVarint(EncodeVarint(n) + rest, limit) == Some(Parsed(n, |EncodeVarint(n)|))
  {
    if 128 <= n {
      VarintRoundTrip(n / 128, rest, limit - 1);
      assert (EncodeVarint(n) + rest)[1..] == EncodeVarint(n / 128) + rest;
    }
  }

  /** The number that bytes stand for to the base 128, the least significant first, the top bits aside. */
  function Base128(bs: Bytes): nat {
    if bs == [] then 0 else bs[0] % 128 + 128 * Base128(bs[1..])
  }

  /** The bytes of a varint are the number to the base 128, and the top bit is set in all but the last of them. */
  lemma {:induction false} VarintBytes(n: nat)
    ensures var bs := EncodeVarint(n);
            Base128(bs) == n && forall i :: 0 <= i < |bs| ==> (128 <= bs[i] <==> i < |bs| - 1)
  {
    var bs := EncodeVarint(n);
    if n < 128 {
      assert bs[1..] == [];
    } else {
      VarintBytes(n / 128);
      assert bs[1..] == EncodeVarint(n / 128);
      assert forall i :: 0 < i < |bs| ==> bs[i] == EncodeVarint(n / 128)[i - 1];
    }
  }

  /** A varint cut short is never taken for a complete one. */
  lemma {:induction false} VarintPrefix(n: nat, cut: nat, limit: nat)
    requires cut < |EncodeVarint(n)|
    ensures DecodeVarint(EncodeVarint(n)[..cut], limit) == None
  {
    if cut > 0 && limit > 0 {
      assert EncodeVarint(n)[..cut][1..] == EncodeVarint(n / 128)[..cut - 1];
      VarintPrefix(n / 128, cut - 1, limit - 1);
    }
  }

  /** A field is its tag followed by its payload. */
  lemma TagRoundTrip(num: nat, kind: nat, payload: Bytes)
    requires 1 <= num < 0x2000_0000 && kind < 8
    ensures ParseField(EncodeVarint(num * 8 + kind) + payload) ==
            match ParsePayload(num, kind, payload)
            case None => None
            case Some(f) => Some(Parsed(f.value, |EncodeVarint(num * 8 + kind)| + f.size))
  {
    var tag := num * 8 + kind;
    VarintFits(tag);
    VarintRoundTrip(tag, payload, 5);
    assert (EncodeVarint(tag) + payload)[|EncodeVarint(tag)|..] == payload;
    assert tag % 0x1_0000_0000 == tag && tag / 8 == num && tag % 8 == kind;
  }

  lemma BlobPayload(num: nat, data: Bytes, rest: Bytes)
    requires |data| < MAX_SIZE
    ensures ParsePayload(num, 2, EncodeVarint(|data|) + data + rest) ==
            Some(Parsed(Blob(num, data), |EncodeVarint(|data|)| + |data|))
  {
    var len := EncodeVarint(|data|);
    VarintFits(|data|);
    VarintRoundTrip(|data|, data + rest, 5);
    assert len + data + rest == len + (data + rest);
    assert (len + data + rest)[|len|..|len| + |data|] == data;
  }

  lemma FixedPayload(num: nat, data: Bytes, rest: Bytes)
    requires |data| == 8 || |data| == 4
    ensures ParsePayload(num, if |data| == 8 then 1 else 5, data + rest) == Some(Parsed(Fixed(num, data), |data|))
  {
    assert (data + rest)[..|data|] == data;
  }

  lemma NumberPayload(num: nat, n: nat, rest: Bytes)
    requires n < 0x1_0000_0000_0000_0000
    ensures ParsePayload(num, 0, EncodeVarint(n) + rest) == Some(Parsed(Number(num, n), |EncodeVarint(n)|))
  {
    VarintFits(n);
    VarintRoundTrip(n, rest, 10);
  }

  lemma FieldRoundTrip(f: Field, rest: Bytes)
    requires ValidField(f)
    ensures ParseField(EncodeField(f) + rest) == Some(Parsed(f, |EncodeField(f)|))
  {
    hide ParseField, ParsePayload;
    var (kind, payload) := if f.Number? then (0, EncodeVarint(f.n))
                           else if f.Fixed? then (if |f.data| == 8 then 1 else 5, f.data)
                           else (2, EncodeVarint(|f.data|) + f.data);
    var tag := EncodeVarint(f.num * 8 + kind);
    assert EncodeField(f) == tag + payload;
    ConcatIsAssociative(tag, payload, rest);
    TagRoundTrip(f.num, kind, payload + rest);
    if f.Number? {
      NumberPayload(f.num, f.n, rest);
    } else if f.Fixed? {
      FixedPayload(f.num, f.data, rest);
    } else {
      BlobPayload(f.num, f.data, rest);
    }
  }

  /** Decoding inverts encoding, for every list of fields that the format can carry. */
  lemma {:induction false} FieldsRoundTrip(fs: seq<Field>)
    requires ValidFields(fs)
    ensures ParseFields(EncodeFields(fs)) == Some(fs)
  {
    if fs != [] {
      assert ValidField(fs[0]);
      FieldRoundTrip(fs[0], EncodeFields(fs[1..]));
      assert EncodeFields(fs)[|EncodeField(fs[0])|..] == EncodeFields(fs[1..]);
      FieldsRoundTrip(fs[1..]);
      assert [fs[0]] + fs[1..] == fs;
    }
  }

  /** A field whose tag, length and number take one byte each. */
  predicate IsShort(f: Field) {
    1 <= f.num < 15 && !f.Fixed? && if f.Number? then f.n < 128 else |f.data| < 128
  }

  function ShortField(f: Field): Bytes
    requires IsShort(f)
  {
    if f.Number? then [f.num * 8, f.n] else [f.num * 8 + 2, |f.data|] + f.data
  }

  lemma OneShort(f: Field)
    requires IsShort(f)
    ensures EncodeFields([f]) == ShortField(f)
  {
    assert [f][1..] == [];
  }

  lemma TwoShort(f: Field, g: Field)
    requires IsShort(f) && IsShort(g)
    ensures EncodeFields([f, g]) == ShortField(f) + ShortField(g)
  {
    assert [f, g][1..] == [g];
    OneShort(g);
  }

  lemma ThreeShort(f: Field, g: Field, h: Field)
    requires IsShort(f) && IsShort(g) && IsShort(h)
    ensures EncodeFields([f, g, h]) == ShortField(f) + ShortField(g) + ShortField(h)
  {
    assert [f, g, h][1..] == [g, h];
    TwoShort(g, h);
    ConcatIsAssociative(ShortField(f), ShortField(g), ShortField(h));
  }

  lemma {:induction false} FieldsLength(fs: seq<Field>, i: nat)
    requires i < |fs| && fs[i].Blob?
    ensures |fs[i].data| <= |EncodeFields(fs)|
  {
    if i > 0 {
      FieldsLength(fs[1..], i - 1);
    }
  }

  /** What a reader of length-delimited messages finds next: a clean end, a broken message, or a message. */
  datatype Delimited<+T> = Eof | Bad | Good(value: T, size: nat)

  function EncodeFrame(body: Bytes): Bytes {
    EncodeVarint(|body|) + body
  }

  function ReadFrame(bs: Bytes): (r: Delimited<Bytes>)
    ensures r.Good? ==> 0 < r.size <= |bs|
  {
    if bs == [] then
      Eof
    else
      match DecodeVarint(bs, 10)
      case None => Bad
      case Some(len) =>
        var n := len.value % 0x1_0000_0000;
        if n < MAX_SIZE && len.size + n <= |bs| then
          Good(bs[len.size..len.size + n], len.size + n)
        else
          Bad
  }

  lemma FrameRoundTrip(body: Bytes, rest: Bytes)
    requires |body| < MAX_SIZE
    ensures ReadFrame(EncodeFrame(body) + rest) == Good(body, |EncodeFrame(body)|)
  {
    var len := EncodeVarint(|body|);
    VarintFits(|body|);
    VarintRoundTrip(|body|, body + rest, 10);
    assert EncodeFrame(body) + rest == len + (body + rest);
    assert (len + (body + rest))[|len|..|len| + |body|] == body;
  }

  /** No proper prefix of a frame reads as a frame. */
  lemma FramePrefix(body: Bytes, cut: nat)
    requires |body| < MAX_SIZE && cut < |EncodeFrame(body)|
    ensures !ReadFrame(EncodeFrame(body)[..cut]).Good?
  {
    var len := EncodeVarint(|body|);
    VarintFits(|body|);
    if cut < |len| {
      assert EncodeFrame(body)[..cut] == len[..cut];
      VarintPrefix(|body|, cut, 10);
    } else {
      assert EncodeFrame(body)[..cut] == len + body[..cut - |len|];
      VarintRoundTrip(|body|, body[..cut - |len|], 10);
    }
  }

  lemma {:induction false} VarintLocal(a: Bytes, b: Bytes, limit: nat)
    requires DecodeVarint(a, limit).Some?
    requires DecodeVarint(a, limit).value.size <= |b|
    requires a[..DecodeVarint(a, limit).value.size] == b[..DecodeVarint(a, limit).value.size]
    ensures DecodeVarint(b, limit) == DecodeVarint(a, limit)
  {
    var n := DecodeVarint(a, limit).value.size;
    assert a[0] == a[..n][0] == b[..n][0] == b[0];
    if 128 <= a[0] {
      assert a[1..][..n - 1] == a[..n][1..] == b[..n][1..] == b[1..][..n - 1];
      VarintLocal(a[1..], b[1..], limit - 1);
    }
  }

  /** A frame is read from its own bytes alone, whatever follows it. */
  lemma FrameLocal(a: Bytes, b: Bytes)
    requires ReadFrame(a).Good? && ReadFrame(a).size <= |b|
    requires a[..ReadFrame(a).size] == b[..ReadFrame(a).size]
    ensures ReadFrame(b) == ReadFrame(a)
  {
    var n := ReadFrame(a).size;
    var len := DecodeVarint(a, 10).value;
    assert a[..len.size] == a[..n][..len.size] == b[..n][..len.size] == b[..len.size];
    VarintLocal(a, b, 10);
    assert a[len.size..n] == a[..n][len.size..] == b[..n][len.size..] == b[len.size..n];
  }
}
