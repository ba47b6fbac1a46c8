/** The RLP printer of chain/rlp.go, and the reader of the Ethereum Yellow
    Paper's Appendix B it is proved against. */
module Rlp {
  import opened Wrappers
  import opened Machine
  import opened Arith
  import opened Bytes

  /** What `rlpEncode` accepts; a nil `*big.Int` is `Big(None)`. */
  datatype Value =
    | Bin(b: seq<byte>)
    | Text(chars: seq<byte>)
    | Uint(u: u64)
    | Big(amount: Option<int>)
    | Items(vs: seq<Value>)

  /** What a reader gets back: strings and lists only. */
  datatype Item = Str(s: seq<byte>) | List(items: seq<Item>)

  // ---------------------------------------------------------------- printer

  /** `offset + byte(n)` and `offset + 55 + byte(len(be))` are byte additions. */
  function LenPrefix(offset: byte, n: nat): seq<byte> {
    if n < 56 then [(offset + n) % 256]
    else [(offset + 55 + |NatBytes(n)|) % 256] + NatBytes(n)
  }

  function EncodeString(b: seq<byte>): seq<byte> {
    if |b| == 1 && b[0] < 0x80 then b else LenPrefix(0x80, |b|) + b
  }

  /** The bytes a non-list value stands for: `big.Int.Bytes` drops the sign. */
  function StringOf(v: Value): seq<byte>
    requires !v.Items?
  {
    match v
    case Bin(b) => b
    case Text(chars) => chars
    case Uint(u) => NatBytes(u)
    case Big(None) => []
    case Big(Some(n)) => NatBytes(Abs(n))
  }

  function Encode(v: Value): seq<byte>
    decreases v, 0
  {
    if v.Items? then LenPrefix(0xc0, |EncodeAll(v.vs)|) + EncodeAll(v.vs)
    else EncodeString(StringOf(v))
  }

  function EncodeAll(vs: seq<Value>): seq<byte>
    decreases vs, 1
  {
    if vs == [] then [] else Encode(vs[0]) + EncodeAll(vs[1..])
  }

  method UintBytes(u: u64) returns (r: seq<byte>)
    ensures r == NatBytes(u)
  {
    if u == 0 { return []; }
    var b := new byte[8](_ => 0);
    var left: u64 := u;
    var i := 7;
    assert Pow256(8) == TWO_64 by { Pow256Of8(); }
    assert b[8..] == FixedBytes(u, 0);
    while i >= 0
      invariant -1 <= i <= 7
      invariant left < Pow256(i + 1)
      invariant FixedBytes(left, i + 1) + b[i + 1..] == FixedBytes(u, 8)
    {
      ghost var before := b[i + 1..];
      b[i] := left % 256;
      assert b[i..] == [left % 256] + before;
      assert FixedBytes(left, i + 1) == FixedBytes(left / 256, i) + [left % 256];
      left := left / 256;
      i := i - 1;
    }
    assert b[..] == FixedBytes(u, 8);
    hide FixedBytes, NatBytes;
    var j := 0;
    while j < 8 && b[j] == 0
      invariant 0 <= j <= 8
      invariant forall k :: 0 <= k < j ==> b[k] == 0
    {
      j := j + 1;
    }
    r := b[j..];
    StrippedIsShortest(u, b[..], j);
    assert b[..][j..] == b[j..];
  }

  /** Eight bytes without their leading zeros are the shortest form. */
  lemma {:induction false} StrippedIsShortest(u: u64, b: seq<byte>, j: nat)
    requires b == FixedBytes(u, 8) && j <= 8
    requires (forall k :: 0 <= k < j ==> b[k] == 0) && (j < 8 ==> b[j] != 0)
    ensures b[j..] == NatBytes(u)
  {
    Pow256Of8();
    PaddedIsFixed(u, 8);
    NatBytesValue(u);
    hide FixedBytes, NatBytes;
    var pad := 8 - |NatBytes(u)|;
    var z := Zeros(pad) + NatBytes(u);
    assert b == z;
    assert forall k :: 0 <= k < pad ==> z[k] == 0;
    assert pad < 8 ==> z[pad] == NatBytes(u)[0] != 0;
    assert z[pad..] == NatBytes(u);
  }

  lemma Pow256Of8()
    ensures Pow256(8) == TWO_64
  {
    assert Pow256(4) == 0x1_0000_0000;
  }

  method RlpLen(offset: byte, n: u64) returns (r: seq<byte>)
    ensures r == LenPrefix(offset, n)
  {
    if n < 56 { return [(offset + n) % 256]; }
    var be := UintBytes(n);
    r := [(offset + 55 + |be|) % 256] + be;
  }

  method RlpString(b: seq<byte>) returns (r: seq<byte>)
    requires |b| < TWO_64
    ensures r == EncodeString(b)
  {
    if |b| == 1 && b[0] < 0x80 { return b; }
    var prefix := RlpLen(0x80, |b|);
    r := prefix + b;
  }

  /** The recursive printer. A Go slice cannot be longer than an int holds. */
  method RlpEncode(v: Value) returns (r: seq<byte>)
    requires |Encode(v)| < TWO_64
    ensures r == Encode(v)
    decreases v
  {
    if v.Items? {
      var body: seq<byte> := [];
      for i := 0 to |v.vs|
        invariant body + EncodeAll(v.vs[i..]) == EncodeAll(v.vs)
      {
        assert |Encode(v.vs[i])| <= |EncodeAll(v.vs[i..])| <= |EncodeAll(v.vs)|;
        var e := RlpEncode(v.vs[i]);
        assert v.vs[i..][1..] == v.vs[i + 1..];
        body := body + e;
      }
      assert body == EncodeAll(v.vs);
      var prefix := RlpLen(0xc0, |body|);
      r := prefix + body;
    } else {
      match v {
        case Bin(b) => r := RlpString(b);
        case Text(chars) => r := RlpString(chars);
        case Uint(u) =>
          var be := UintBytes(u);
          r := RlpString(be);
        case Big(amount) =>
          if amount.None? || amount.value == 0 {
            r := RlpString([]);
          } else {
            r := RlpString(NatBytes(Abs(amount.value)));
          }
      }
    }
  }

  // ----------------------------------------------------------------- reader

  /** A length prefix: `skip` bytes long, announcing `len` payload bytes. */
  datatype Head = Head(list: bool, skip: nat, len: nat)

  function ReadHead(s: seq<byte>): Option<Head> {
    if s == [] then None
    else if s[0] < 0x80 then Some(Head(false, 0, 1))
    else
      var list := s[0] >= 0xc0;
      var k := if list then s[0] - 0xc0 else s[0] - 0x80;
      if k < 56 then Some(Head(list, 1, k))
      else
        var width := k - 55;
        if |s| < 1 + width || s[1] == 0 || FromBytes(s[1..1 + width]) < 56 then None
        else Some(Head(list, 1 + width, FromBytes(s[1..1 + width])))
  }

  /** One item off the front of s, with what follows it. Only the shortest
      form of every length is accepted. */
  function Decode(s: seq<byte>): (r: Option<(Item, seq<byte>)>)
    ensures r.Some? ==> |r.value.1| < |s|
    decreases |s|, 0
  {
    match ReadHead(s)
    case None => None
    case Some(Head(list, skip, len)) =>
      if |s| < skip + len then None
      else
        var payload, rest := s[skip..skip + len], s[skip + len..];
        if list then
          match DecodeAll(payload)
          case None => None
          case Some(items) => Some((List(items), rest))
        else if skip > 0 && len == 1 && payload[0] < 0x80 then None
        else Some((Str(payload), rest))
  }

  function DecodeAll(p: seq<byte>): Option<seq<Item>>
    decreases |p|, 1
  {
    if p == [] then Some([])
    else
      match Decode(p)
      case None => None
      case Some((item, rest)) =>
        match DecodeAll(rest)
        case None => None
        case Some(items) => Some([item] + items)
  }

  /** The item a value prints as. */
  function ToItem(v: Value): Item
    decreases v, 0
  {
    if v.Items? then List(ToItems(v.vs)) else Str(StringOf(v))
  }

  function ToItems(vs: seq<Value>): (items: seq<Item>)
    ensures |items| == |vs|
    decreases vs, 1
  {
    if vs == [] then [] else [ToItem(vs[0])] + ToItems(vs[1..])
  }

  function FromItem(x: Item): Value
    decreases x, 0
  {
    match x
    case Str(s) => Bin(s)
    case List(items) => Items(FromItems(items))
  }

  function FromItems(xs: seq<Item>): seq<Value>
    decreases xs, 1
  {
    if xs == [] then [] else [FromItem(xs[0])] + FromItems(xs[1..])
  }

  // ------------------------------------------------------- printer vs reader

  /** A long length is a first byte telling how many bytes of it follow. */
  lemma {:induction false} LongPrefix(offset: byte, n: nat)
    requires 56 <= n < TWO_64 && (offset == 0x80 || offset == 0xc0)
    ensures var be := NatBytes(n);
            LenPrefix(offset, n) == [offset + 55 + |be|] + be && 1 <= |be| <= 8 && be[0] != 0 && FromBytes(be) == n
  {
    NatBytesValue(n);
    Pow256Of8();
    NatBytesLength(n, 8);
  }

  lemma {:induction false} HeadRoundTrip(list: bool, n: nat, tail: seq<byte>)
    requires n < TWO_64
    ensures var p := LenPrefix(if list then 0xc0 else 0x80, n);
            ReadHead(p + tail) == Some(Head(list, |p|, n))
  {
    if n >= 56 {
      LongPrefix(if list then 0xc0 else 0x80, n);
      hide NatBytes, FromBytes, LenPrefix;
      var s := LenPrefix(if list then 0xc0 else 0x80, n) + tail;
      assert s[1..1 + |NatBytes(n)|] == NatBytes(n) && s[1] == NatBytes(n)[0];
    }
  }

  /** A prefix announcing exactly the payload splits it off what follows. */
  lemma {:induction false} DecodeFramed(list: bool, payload: seq<byte>, rest: seq<byte>)
    requires |payload| < TWO_64
    ensures var s := LenPrefix(if list then 0xc0 else 0x80, |payload|) + payload + rest;
            Decode(s) == if list then
                           (match DecodeAll(payload) case None => None case Some(items) => Some((List(items), rest)))
                         else if |payload| == 1 && payload[0] < 0x80 then None
                         else Some((Str(payload), rest))
  {
    var p := LenPrefix(if list then 0xc0 else 0x80, |payload|);
    var s := p + payload + rest;
    HeadRoundTrip(list, |payload|, payload + rest);
    assert s == p + (payload + rest);
    assert s[|p|..|p| + |payload|] == payload;
    assert s[|p| + |payload|..] == rest;
  }

  /** Appendix B: whatever follows it, a printed value reads back as itself. */
  lemma {:induction false} RoundTrip(v: Value, rest: seq<byte>)
    requires |Encode(v)| < TWO_64
    ensures Decode(Encode(v) + rest) == Some((ToItem(v), rest))
    decreases v, 0
  {
    if v.Items? {
      DecodeFramed(true, EncodeAll(v.vs), rest);
      RoundTripAll(v.vs);
    } else {
      var b := StringOf(v);
      if |b| == 1 && b[0] < 0x80 {
        assert (b + rest)[0..1] == b && (b + rest)[1..] == rest;
      } else {
        DecodeFramed(false, b, rest);
      }
    }
  }

  lemma {:induction false} RoundTripAll(vs: seq<Value>)
    requires |EncodeAll(vs)| < TWO_64
    ensures DecodeAll(EncodeAll(vs)) == Some(ToItems(vs))
    decreases vs, 1
  {
    if vs != [] {
      RoundTrip(vs[0], EncodeAll(vs[1..]));
      RoundTripAll(vs[1..]);
    }
  }

  lemma {:induction false} HeadSound(s: seq<byte>)
    requires ReadHead(s).Some? && ReadHead(s).value.skip > 0
    ensures var h := ReadHead(s).value;
            |s| >= h.skip && s[..h.skip] == LenPrefix(if h.list then 0xc0 else 0x80, h.len)
  {
    hide NatBytes, FromBytes;
    var h := ReadHead(s).value;
    var offset: byte := if h.list then 0xc0 else 0x80;
    if h.skip > 1 {
      var be := s[1..h.skip];
      MinimalIsNatBytes(be);
      LenBytes(offset, h.len, be);
      assert s[..h.skip] == [s[0]] + be;
    } else {
      assert s[..1] == [s[0]];
    }
  }

  lemma LenBytes(offset: byte, n: nat, be: seq<byte>)
    requires n >= 56 && NatBytes(n) == be && offset + 55 + |be| < 256
    ensures LenPrefix(offset, n) == [offset + 55 + |be|] + be
  {
  }

  /** Conversely, the reader accepts nothing but printed values: a byte string
      has at most one meaning and a value exactly one byte string. */
  lemma {:induction false} DecodeSound(s: seq<byte>)
    requires Decode(s).Some?
    ensures s == Encode(FromItem(Decode(s).value.0)) + Decode(s).value.1
    decreases |s|, 0
  {
    var h := ReadHead(s).value;
    var payload, rest := s[h.skip..h.skip + h.len], s[h.skip + h.len..];
    assert s == s[..h.skip] + payload + rest;
    if h.skip > 0 { HeadSound(s); }
    if h.list { DecodeAllSound(payload); }
  }

  lemma {:induction false} DecodeAllSound(p: seq<byte>)
    requires DecodeAll(p).Some?
    ensures p == EncodeAll(FromItems(DecodeAll(p).value))
    decreases |p|, 1
  {
    if p != [] {
      DecodeSound(p);
      DecodeAllSound(Decode(p).value.1);
      var items := DecodeAll(p).value;
      assert items[1..] == DecodeAll(Decode(p).value.1).value;
    }
  }

  /** No printed value is a proper prefix of another. */
  lemma {:induction false} PrefixFree(v: Value, w: Value, tail: seq<byte>)
    requires |Encode(v)| < TWO_64 && |Encode(w)| < TWO_64
    requires Encode(v) + tail == Encode(w)
    ensures tail == [] && ToItem(v) == ToItem(w)
  {
    RoundTrip(v, tail);
    RoundTrip(w, []);
    assert Encode(w) + [] == Encode(w);
  }

  /** Equal bytes exactly when equal items. */
  lemma {:induction false} EncodeInjective(v: Value, w: Value)
    requires |Encode(v)| < TWO_64 && |Encode(w)| < TWO_64
    ensures Encode(v) == Encode(w) <==> ToItem(v) == ToItem(w)
  {
    if Encode(v) == Encode(w) {
      assert Encode(v) + [] == Encode(w);
      PrefixFree(v, w, []);
    }
    if ToItem(v) == ToItem(w) {
      SameItemSameBytes(v, w);
    }
  }

  lemma {:induction false} SameItemSameBytes(v: Value, w: Value)
    requires ToItem(v) == ToItem(w)
    ensures Encode(v) == Encode(w)
    decreases v, 0
  {
    if v.Items? { SameItemsSameBytes(v.vs, w.vs); }
  }

  lemma {:induction false} SameItemsSameBytes(vs: seq<Value>, ws: seq<Value>)
    requires ToItems(vs) == ToItems(ws)
    ensures EncodeAll(vs) == EncodeAll(ws)
    decreases vs, 1
  {
    if vs != [] {
      assert ToItems(vs)[0] == ToItems(ws)[0] && ToItems(vs)[1..] == ToItems(ws)[1..];
      SameItemSameBytes(vs[0], ws[0]);
      SameItemsSameBytes(vs[1..], ws[1..]);
    }
  }
}
