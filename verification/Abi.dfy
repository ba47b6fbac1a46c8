/** The hand-written Solidity ABI printer of chain/abi.go, against the head and
    tail layout of the Solidity Contract ABI Specification. */
module Abi {
  import opened Wrappers
  import opened Machine
  import opened Bytes

  type Word = w: seq<byte> | |w| == 32 witness Zeros(32)

  datatype Arg =
    | Addr(a: seq<byte>)
    | Raw(w: Word)
    | Num(u: u64)
    | Signed(n: int)
    | Flag(b: bool)

  const TWO_256: int := 256 * Pow256(31)
  const TWO_255: int := 128 * Pow256(31)

  /** The number `Word` prints for a big.Int: two's complement in 256 bits. */
  function TwosComplement(n: int): nat {
    var x := if n < 0 then TWO_256 + n else n;
    if x < 0 then -x else x
  }

  /** None is the panic of copying more than 32 bytes in. */
  function WordOf(v: Arg): Option<Word>
    requires v.Addr? ==> |v.a| == 20
  {
    match v
    case Addr(a) => Some(Zeros(12) + a)
    case Raw(w) => Some(w)
    case Num(u) => Some(Zeros(24) + FixedBytes(u, 8))
    case Signed(n) =>
      var b := NatBytes(TwosComplement(n));
      if |b| > 32 then None else Some(Zeros(32 - |b|) + b)
    case Flag(b) => Some(Zeros(31) + [if b then 1 else 0])
  }

  /** `copy(w[at:], src)`. */
  method CopyInto(w: array<byte>, at: nat, src: seq<byte>)
    requires at + |src| <= w.Length
    modifies w
    ensures w[..] == old(w[..])[..at] + src + old(w[..])[at + |src|..]
  {
    forall i | 0 <= i < |src| {
      w[at + i] := src[i];
    }
  }

  method UintBytes8(u: u64) returns (r: seq<byte>)
    ensures r == FixedBytes(u, 8)
  {
    var b := new byte[8](_ => 0);
    var left: nat := u;
    var i := 7;
    assert b[8..] == [];
    while i >= 0
      invariant -1 <= i <= 7
      invariant FixedBytes(left, i + 1) + b[i + 1..] == FixedBytes(u, 8)
    {
      ghost var before := b[i + 1..];
      b[i] := left % 256;
      assert b[i..] == [left % 256] + before;
      assert FixedBytes(left, i + 1) == FixedBytes(left / 256, i) + [left % 256];
      left := left / 256;
      i := i - 1;
    }
    r := b[..];
  }

  method BuildWord(v: Arg) returns (r: Option<Word>)
    requires v.Addr? ==> |v.a| == 20
    ensures r == WordOf(v)
  {
    var w := new byte[32](_ => 0);
    assert w[..] == Zeros(32);
    match v {
      case Addr(a) => CopyInto(w, 12, a);
      case Raw(x) => CopyInto(w, 0, x);
      case Num(u) =>
        var be := UintBytes8(u);
        CopyInto(w, 24, be);
      case Signed(n) =>
        var b := NatBytes(TwosComplement(n));
        if |b| > 32 { return None; }
        CopyInto(w, 32 - |b|, b);
      case Flag(b) =>
        if b { w[31] := 1; }
        assert w[..] == Zeros(31) + [if b then 1 else 0];
    }
    r := Some(w[..]);
    assert r.value == WordOf(v).value;
  }

  function Int128(w: Word): int {
    if w[0] >= 0x80 then FromBytes(w) - TWO_256 else FromBytes(w)
  }

  function Uint64(w: Word): nat {
    FromBytes(w) % TWO_64
  }

  lemma {:induction false} LeadingByte(b: seq<byte>)
    requires b != []
    ensures FromBytes(b) == b[0] * Pow256(|b| - 1) + FromBytes(b[1..])
  {
    var n := |b| - 1;
    if n > 0 {
      LeadingByte(b[..n]);
      assert b[..n][1..] == b[1..][..n - 1] && b[1..][n - 1] == b[n];
      assert FromBytes(b) == 256 * FromBytes(b[..n]) + b[n];
      assert FromBytes(b[1..]) == 256 * FromBytes(b[1..][..n - 1]) + b[n];
      hide FromBytes;
      Scaled(b[0], Pow256(n - 1));
    }
  }

  lemma Scaled(x: int, p: int)
    ensures 256 * (x * p) == x * (256 * p)
  {
  }

  lemma {:induction false} PaddedValue(k: nat, b: seq<byte>)
    ensures FromBytes(Zeros(k) + b) == FromBytes(b)
  {
    if b != [] {
      PaddedValue(k, b[..|b| - 1]);
      assert (Zeros(k) + b)[..k + |b| - 1] == Zeros(k) + b[..|b| - 1];
    } else {
      if k > 0 {
        PaddedValue(k - 1, []);
        assert (Zeros(k) + [])[..k - 1] == Zeros(k - 1) + [];
      }
    }
  }

  lemma {:induction false} TopDigit(d: byte, low: nat, p: nat)
    requires low < p
    ensures d >= 0x80 <==> d * p + low >= 128 * p
    ensures d * p + low < 256 * p
  {
    if d >= 0x80 {
      assert (d - 128) * p >= 0;
    } else {
      assert (127 - d) * p >= 0;
    }
    assert (255 - d) * p >= 0;
  }

  lemma {:induction false} TopBit(b: seq<byte>)
    requires b != []
    ensures b[0] >= 0x80 <==> FromBytes(b) >= 128 * Pow256(|b| - 1)
    ensures FromBytes(b) < 256 * Pow256(|b| - 1)
  {
    LeadingByte(b);
    FromBytesBound(b[1..]);
    TopDigit(b[0], FromBytes(b[1..]), Pow256(|b| - 1));
  }

  lemma {:induction false} WordReads(x: nat)
    requires |NatBytes(x)| <= 32
    ensures 0 <= x < TWO_256
    ensures var w := Zeros(32 - |NatBytes(x)|) + NatBytes(x);
            Int128(w) == if x >= TWO_255 then x - TWO_256 else x
  {
    var b := NatBytes(x);
    var w := Zeros(32 - |b|) + b;
    NatBytesValue(x);
    PaddedValue(32 - |b|, b);
    TopBit(w);
  }

  /** A signed number survives a word exactly when 256-bit two's complement can
      hold it. */
  lemma {:induction false} SignedRoundTrip(n: int)
    ensures (WordOf(Signed(n)).Some? && Int128(WordOf(Signed(n)).value) == n) <==> -TWO_255 <= n < TWO_255
  {
    var x := TwosComplement(n);
    NatBytesLength(x, 32);
    assert Pow256(32) == TWO_256;
    Pow256Positive(31);
    if |NatBytes(x)| <= 32 { WordReads(x); }
  }

  lemma {:induction false} NumValue(u: u64)
    ensures FromBytes(Zeros(24) + FixedBytes(u, 8)) == u == Uint64(Zeros(24) + FixedBytes(u, 8))
  {
    assert Pow256(8) == TWO_64 by { assert Pow256(4) == 0x1_0000_0000; }
    hide FromBytes, Pow256, FixedBytes;
    PaddedValue(24, FixedBytes(u, 8));
    FixedBytesValue(u, 8);
  }

  // ------------------------------------------------------------- word strings

  function Join(ws: seq<Word>): (b: seq<byte>)
    ensures |b| == 32 * |ws|
  {
    if ws == [] then [] else ws[0] + Join(ws[1..])
  }

  function Split(b: seq<byte>): (ws: seq<Word>)
    requires |b| % 32 == 0
    ensures |ws| == |b| / 32
  {
    if b == [] then [] else [b[..32]] + Split(b[32..])
  }

  lemma {:induction false} SplitJoin(ws: seq<Word>)
    ensures Split(Join(ws)) == ws
  {
    if ws != [] {
      SplitJoin(ws[1..]);
      assert Join(ws)[..32] == ws[0] && Join(ws)[32..] == Join(ws[1..]);
    }
  }

  lemma {:induction false} JoinSplit(b: seq<byte>)
    requires |b| % 32 == 0
    ensures Join(Split(b)) == b
  {
    if b != [] {
      JoinSplit(b[32..]);
      assert Split(b)[0] == b[..32] && Split(b)[1..] == Split(b[32..]);
    }
  }

  lemma {:induction false} JoinConcat(a: seq<Word>, b: seq<Word>)
    ensures Join(a + b) == Join(a) + Join(b)
  {
    if a == [] {
      assert a + b == b;
    } else {
      JoinConcat(a[1..], b);
      assert (a + b)[1..] == a[1..] + b;
    }
  }

  /** `Words`: the payload cut into words, or an error for a ragged one. */
  method Words(data: seq<byte>) returns (r: Option<seq<Word>>)
    ensures r.None? <==> |data| % 32 != 0
    ensures r.Some? ==> Join(r.value) == data && |r.value| == |data| / 32
  {
    if |data| % 32 != 0 { return None; }
    var out: seq<Word> := [];
    var i := 0;
    while i < |data| / 32
      invariant 0 <= i <= |data| / 32
      invariant |out| == i && Join(out) == data[..32 * i]
    {
      JoinConcat(out, [data[32 * i..32 * (i + 1)]]);
      assert Join([data[32 * i..32 * (i + 1)]]) == data[32 * i..32 * (i + 1)];
      out := out + [data[32 * i..32 * (i + 1)]];
      i := i + 1;
    }
    assert data[..32 * (|data| / 32)] == data;
    return Some(out);
  }

  // ----------------------------------------------------------------- printer

  function NumWord(n: nat): Word {
    Zeros(24) + FixedBytes(n, 8)
  }

  /** Length word, then elements. */
  function Segment(arr: seq<Word>): seq<Word> {
    [NumWord(|arr|)] + arr
  }

  function Tail(arrays: seq<seq<Word>>): seq<Word> {
    if arrays == [] then [] else Segment(arrays[0]) + Tail(arrays[1..])
  }

  /** One offset word per array, the first segment lying `at` words in. */
  function Heads(arrays: seq<seq<Word>>, at: nat): (ws: seq<Word>)
    ensures |ws| == |arrays|
  {
    if arrays == [] then []
    else [NumWord(32 * at)] + Heads(arrays[1..], at + 1 + |arrays[0]|)
  }

  /** The arguments of a call as words: statics, offsets, segments. */
  function CallWords(statics: seq<Word>, arrays: seq<seq<Word>>): seq<Word> {
    statics + Heads(arrays, |statics| + |arrays|) + Tail(arrays)
  }

  lemma {:induction false} JoinSnoc(ws: seq<Word>, w: Word)
    ensures Join(ws + [w]) == Join(ws) + w
  {
    JoinConcat(ws, [w]);
    assert Join([w]) == w + Join([]);
  }

  lemma {:induction false} TailConcat(a: seq<seq<Word>>, b: seq<seq<Word>>)
    ensures Tail(a + b) == Tail(a) + Tail(b)
  {
    hide Segment;
    if a == [] {
      assert a + b == b;
    } else {
      assert (a + b)[0] == a[0] && (a + b)[1..] == a[1..] + b;
      TailConcat(a[1..], b);
      assert Tail(a + b) == Segment(a[0]) + (Tail(a[1..]) + Tail(b));
    }
  }

  lemma {:induction false} TailSplit(arrays: seq<seq<Word>>, i: nat)
    requires i <= |arrays|
    ensures Tail(arrays) == Tail(arrays[..i]) + Tail(arrays[i..])
  {
    assert arrays == arrays[..i] + arrays[i..];
    TailConcat(arrays[..i], arrays[i..]);
  }

  /** One more array adds its segment where the earlier ones end. */
  lemma {:induction false} TailAt(arrays: seq<seq<Word>>, i: nat)
    requires i < |arrays|
    ensures Tail(arrays[..i + 1]) == Tail(arrays[..i]) + Segment(arrays[i])
    ensures Tail(arrays) == Tail(arrays[..i]) + Segment(arrays[i]) + Tail(arrays[i + 1..])
  {
    assert Tail([arrays[i]]) == Segment(arrays[i]) + Tail([]);
    hide Tail, Segment;
    TailSplit(arrays, i + 1);
    TailSplit(arrays[..i + 1], i);
    assert arrays[..i + 1][..i] == arrays[..i] && arrays[..i + 1][i..] == [arrays[i]];
  }

  lemma {:induction false} HeadAt(arrays: seq<seq<Word>>, at: nat, i: nat)
    requires i < |arrays|
    ensures Heads(arrays, at)[i] == NumWord(32 * (at + |Tail(arrays[..i])|))
  {
    if i > 0 {
      var at' := at + 1 + |arrays[0]|;
      HeadAt(arrays[1..], at', i - 1);
      assert Heads(arrays, at)[i] == Heads(arrays[1..], at')[i - 1];
      assert arrays[..i][1..] == arrays[1..][..i - 1];
      assert |Tail(arrays[..i])| == 1 + |arrays[0]| + |Tail(arrays[1..][..i - 1])|;
    }
  }

  /** The first i offset words and the first i segments, as bytes. */
  ghost function HeadBytes(arrays: seq<seq<Word>>, base: nat, i: nat): seq<byte>
    requires i <= |arrays|
  {
    Join(Heads(arrays, base)[..i])
  }

  ghost function TailBytes(arrays: seq<seq<Word>>, i: nat): seq<byte>
    requires i <= |arrays|
  {
    Join(Tail(arrays[..i]))
  }

  lemma {:induction false} PrintStep(arrays: seq<seq<Word>>, base: nat, i: nat)
    requires i < |arrays|
    ensures HeadBytes(arrays, base, i + 1)
         == HeadBytes(arrays, base, i) + NumWord(32 * (base + |Tail(arrays[..i])|))
    ensures TailBytes(arrays, i + 1) == TailBytes(arrays, i) + Join(Segment(arrays[i]))
    ensures |Tail(arrays[..i + 1])| == |Tail(arrays[..i])| + 1 + |arrays[i]| <= |Tail(arrays)|
  {
    var heads := Heads(arrays, base);
    HeadAt(arrays, base, i);
    JoinSnoc(heads[..i], heads[i]);
    assert heads[..i + 1] == heads[..i] + [heads[i]];
    TailAt(arrays, i);
    JoinConcat(Tail(arrays[..i]), Segment(arrays[i]));
  }

  method AppendWords(buf: seq<byte>, ws: seq<Word>) returns (out: seq<byte>)
    ensures out == buf + Join(ws)
  {
    out := buf;
    for i := 0 to |ws|
      invariant out == buf + Join(ws[..i])
    {
      JoinSnoc(ws[..i], ws[i]);
      assert ws[..i + 1] == ws[..i] + [ws[i]];
      out := out + ws[i];
    }
    assert ws[..|ws|] == ws;
  }

  /** An array's length word and elements, appended to the tail. */
  method AppendSegment(tail: seq<byte>, arr: seq<Word>) returns (out: seq<byte>)
    requires |arr| <= MAX_INT64
    ensures out == tail + Join(Segment(arr))
  {
    var n := BuildWord(Num(|arr|));
    out := AppendWords(tail + n.value, arr);
    assert Segment(arr)[1..] == arr;
  }

  lemma Assoc(a: seq<byte>, b: seq<byte>, c: seq<byte>, d: seq<byte>)
    ensures a + b + c + d == a + (b + c + d)
  {
  }

  lemma {:induction false} CallJoin(selector: seq<byte>, statics: seq<Word>, arrays: seq<seq<Word>>)
    ensures selector + Join(statics) + HeadBytes(arrays, |statics| + |arrays|, |arrays|) + TailBytes(arrays, |arrays|)
         == selector + Join(CallWords(statics, arrays))
  {
    var heads := Heads(arrays, |statics| + |arrays|);
    JoinConcat(statics + heads, Tail(arrays));
    JoinConcat(statics, heads);
    assert heads[..|arrays|] == heads && arrays[..|arrays|] == arrays;
    Assoc(selector, Join(statics), Join(heads), Join(Tail(arrays)));
  }

  /** `EncodeCall` for a given selector: static words, then one offset per
      array, with the segments collected on the side. */
  method EncodeCall(selector: seq<byte>, statics: seq<Word>, arrays: seq<seq<Word>>) returns (out: seq<byte>)
    requires 32 * |CallWords(statics, arrays)| <= MAX_INT64
    ensures out == selector + Join(CallWords(statics, arrays))
  {
    hide Join, Heads, Segment;
    var base := |statics| + |arrays|;
    var front := AppendWords(selector, statics);
    var offset := 32 * base;
    var tail: seq<byte> := [];
    out := front;
    for i := 0 to |arrays|
      invariant out == front + HeadBytes(arrays, base, i)
      invariant tail == TailBytes(arrays, i)
      invariant offset == 32 * (base + |Tail(arrays[..i])|)
    {
      PrintStep(arrays, base, i);
      var w := BuildWord(Num(offset));
      out := out + w.value;
      tail := AppendSegment(tail, arrays[i]);
      offset := offset + 32 * (1 + |arrays[i]|);
    }
    CallJoin(selector, statics, arrays);
    out := out + tail;
  }

  /** `EncodeArrays` keeps the heads in a buffer of their own; the bytes are
      those of a call without static words. */
  method EncodeArrays(selector: seq<byte>, arrays: seq<seq<Word>>) returns (out: seq<byte>)
    requires 32 * |CallWords([], arrays)| <= MAX_INT64
    ensures out == selector + Join(CallWords([], arrays))
  {
    var head: seq<byte> := [];
    var tail: seq<byte> := [];
    var offset := 32 * |arrays|;
    for i := 0 to |arrays|
      invariant head == HeadBytes(arrays, |arrays|, i)
      invariant tail == TailBytes(arrays, i)
      invariant offset == 32 * (|arrays| + |Tail(arrays[..i])|)
    {
      PrintStep(arrays, |arrays|, i);
      var w := BuildWord(Num(offset));
      head := head + w.value;
      tail := AppendSegment(tail, arrays[i]);
      offset := offset + 32 * (1 + |arrays[i]|);
    }
    CallJoin(selector, [], arrays);
    assert selector + Join([]) == selector;
    out := selector + head;
    out := out + tail;
  }

  // ------------------------------------------------------------------ reader

  /** The bytes [from, to) of the arguments, if they are there. */
  function Slice(args: seq<byte>, from: nat, to: nat): Option<seq<byte>> {
    if from <= to <= |args| then Some(args[from..to]) else None
  }

  /** The dynamic array whose offset is argument word i, read as the
      specification says: go to the offset, read a length, read that many words. */
  function ReadArray(args: seq<byte>, i: nat): Option<seq<Word>> {
    match Slice(args, 32 * i, 32 * i + 32)
    case None => None
    case Some(head) =>
      var at := FromBytes(head);
      match Slice(args, at, at + 32)
      case None => None
      case Some(length) =>
        var n := FromBytes(length);
        match Slice(args, at + 32, at + 32 + 32 * n)
        case None => None
        case Some(body) => Some(Split(body))
  }

  /** Where array i's segment starts, in words from the start of the arguments. */
  function Start(statics: seq<Word>, arrays: seq<seq<Word>>, i: nat): nat
    requires i <= |arrays|
  {
    |statics| + |arrays| + |Tail(arrays[..i])|
  }

  lemma {:induction false} JoinSlice(ws: seq<Word>, i: nat, j: nat)
    requires i <= j <= |ws|
    ensures Join(ws)[32 * i..32 * j] == Join(ws[i..j])
  {
    assert ws == ws[..i] + ws[i..j] + ws[j..];
    JoinConcat(ws[..i] + ws[i..j], ws[j..]);
    JoinConcat(ws[..i], ws[i..j]);
  }

  /** Segment i starts at Start(i), and the segments tile the payload after the
      head without gap or overlap. */
  lemma {:induction false} SegmentsTile(statics: seq<Word>, arrays: seq<seq<Word>>, i: nat)
    requires i < |arrays|
    ensures Start(statics, arrays, 0) == |statics| + |arrays|
    ensures Start(statics, arrays, i + 1) == Start(statics, arrays, i) + 1 + |arrays[i]| <= |CallWords(statics, arrays)|
    ensures Start(statics, arrays, |arrays|) == |CallWords(statics, arrays)|
    ensures CallWords(statics, arrays)[Start(statics, arrays, i)..Start(statics, arrays, i + 1)] == Segment(arrays[i])
  {
    CallSplits(statics, arrays, i);
    TailAt(arrays, i);
    assert Tail([]) == [];
    assert arrays[..|arrays|] == arrays && arrays[..0] == [];
    assert |CallWords(statics, arrays)| == |statics| + |arrays| + |Tail(arrays)|;
    hide Tail, Heads, NumWord, CallWords;
    Middle(statics + Heads(arrays, |statics| + |arrays|) + Tail(arrays[..i]), Segment(arrays[i]), Tail(arrays[i + 1..]));
  }

  lemma {:induction false} CallSplits(statics: seq<Word>, arrays: seq<seq<Word>>, i: nat)
    requires i < |arrays|
    ensures CallWords(statics, arrays)
         == (statics + Heads(arrays, |statics| + |arrays|) + Tail(arrays[..i])) + Segment(arrays[i]) + Tail(arrays[i + 1..])
  {
    hide Tail, Heads, Segment;
    TailAt(arrays, i);
  }

  lemma Middle(a: seq<Word>, b: seq<Word>, c: seq<Word>)
    ensures (a + b + c)[|a|..|a| + |b|] == b
    ensures forall i :: 0 <= i < |b| ==> (a + b + c)[|a| + i] == b[i]
  {
  }

  lemma {:induction false} StaticReadsBack(statics: seq<Word>, arrays: seq<seq<Word>>, i: nat)
    requires i < |statics|
    ensures Slice(Join(CallWords(statics, arrays)), 32 * i, 32 * i + 32) == Some(statics[i])
  {
    var ws := CallWords(statics, arrays);
    JoinSlice(ws, i, i + 1);
    assert ws[i..i + 1] == [] + [statics[i]];
    JoinSnoc([], statics[i]);
    assert Join([]) + statics[i] == statics[i];
  }

  /** The number printed as word i reads back from byte 32 * i. */
  lemma {:induction false} NumberReadsBack(ws: seq<Word>, i: nat, n: nat)
    requires i < |ws| && ws[i] == NumWord(n) && n < TWO_64
    ensures Slice(Join(ws), 32 * i, 32 * i + 32) == Some(NumWord(n)) && FromBytes(NumWord(n)) == n
  {
    NumValue(n);
    hide NumWord, FromBytes;
    JoinSlice(ws, i, i + 1);
    assert ws[i..i + 1] == [] + [NumWord(n)];
    JoinSnoc([], NumWord(n));
    assert Join([]) + NumWord(n) == NumWord(n);
    assert 32 * (i + 1) == 32 * i + 32;
  }

  lemma {:induction false} SegmentReadsBack(ws: seq<Word>, at: nat, arr: seq<Word>)
    requires at + 1 + |arr| <= |ws| && ws[at..at + 1 + |arr|] == Segment(arr) && |arr| < TWO_64
    ensures ws[at] == NumWord(|arr|)
    ensures Slice(Join(ws), 32 * at + 32, 32 * at + 32 + 32 * |arr|) == Some(Join(arr))
  {
    assert ws[at] == ws[at..at + 1 + |arr|][0];
    assert ws[at + 1..at + 1 + |arr|] == ws[at..at + 1 + |arr|][1..] == arr;
    JoinSlice(ws, at + 1, at + 1 + |arr|);
    assert 32 * (at + 1) == 32 * at + 32 && 32 * (at + 1 + |arr|) == 32 * at + 32 + 32 * |arr|;
  }

  lemma {:induction false} OffsetWord(statics: seq<Word>, arrays: seq<seq<Word>>, i: nat)
    requires i < |arrays|
    ensures |statics| + i < |CallWords(statics, arrays)|
    ensures CallWords(statics, arrays)[|statics| + i] == NumWord(32 * Start(statics, arrays, i))
  {
    HeadAt(arrays, |statics| + |arrays|, i);
    hide NumWord, Heads, Tail;
    var heads := Heads(arrays, |statics| + |arrays|);
    Middle(statics, heads, Tail(arrays));
    assert Start(statics, arrays, i) == |statics| + |arrays| + |Tail(arrays[..i])|;
    assert CallWords(statics, arrays)[|statics| + i] == heads[i];
  }

  lemma {:induction false} ArrayReadsBack(statics: seq<Word>, arrays: seq<seq<Word>>, i: nat)
    requires 32 * |CallWords(statics, arrays)| <= MAX_INT64
    requires i < |arrays|
    ensures ReadArray(Join(CallWords(statics, arrays)), |statics| + i) == Some(arrays[i])
  {
    hide CallWords, ReadArray, Join, Split, Start, Segment, NumWord;
    SegmentsTile(statics, arrays, i);
    OffsetWord(statics, arrays, i);
    SplitJoin(arrays[i]);
    FollowOffset(CallWords(statics, arrays), |statics| + i, Start(statics, arrays, i), arrays[i]);
  }

  /** An offset word naming a segment reads back that segment's elements. */
  lemma {:induction false} FollowOffset(ws: seq<Word>, i: nat, at: nat, arr: seq<Word>)
    requires i < |ws| && ws[i] == NumWord(32 * at)
    requires at + 1 + |arr| <= |ws| && ws[at..at + 1 + |arr|] == Segment(arr) && 32 * |ws| <= MAX_INT64
    ensures ReadArray(Join(ws), i) == Some(Split(Join(arr)))
  {
    hide Join, Split, NumWord, Segment;
    NumberReadsBack(ws, i, 32 * at);
    SegmentReadsBack(ws, at, arr);
    NumberReadsBack(ws, at, |arr|);
  }

  /** The static words read back in place, and following array i's offset word
      yields exactly its elements. */
  lemma {:induction false} CallReadsBack(statics: seq<Word>, arrays: seq<seq<Word>>)
    requires 32 * |CallWords(statics, arrays)| <= MAX_INT64
    ensures var args := Join(CallWords(statics, arrays));
            && (forall i :: 0 <= i < |statics| ==> Slice(args, 32 * i, 32 * i + 32) == Some(statics[i]))
            && (forall i :: 0 <= i < |arrays| ==> ReadArray(args, |statics| + i) == Some(arrays[i]))
  {
    forall i | 0 <= i < |statics| { StaticReadsBack(statics, arrays, i); }
    forall i | 0 <= i < |arrays| { ArrayReadsBack(statics, arrays, i); }
  }

  /** Calls to one function differ in their bytes when they differ in any
      static word or any element of any array. */
  lemma {:induction false} CallInjective(statics: seq<Word>, arrays: seq<seq<Word>>,
                                         statics': seq<Word>, arrays': seq<seq<Word>>)
    requires |statics| == |statics'| && |arrays| == |arrays'|
    requires 32 * |CallWords(statics, arrays)| <= MAX_INT64 && 32 * |CallWords(statics', arrays')| <= MAX_INT64
    ensures Join(CallWords(statics, arrays)) == Join(CallWords(statics', arrays'))
        <==> statics == statics' && arrays == arrays'
  {
    hide CallWords, Join, ReadArray, Slice;
    if Join(CallWords(statics, arrays)) == Join(CallWords(statics', arrays')) {
      forall i | 0 <= i < |statics|
        ensures statics[i] == statics'[i]
      {
        StaticReadsBack(statics, arrays, i);
        StaticReadsBack(statics', arrays', i);
      }
      forall i | 0 <= i < |arrays|
        ensures arrays[i] == arrays'[i]
      {
        ArrayReadsBack(statics, arrays, i);
        ArrayReadsBack(statics', arrays', i);
      }
    }
  }

  /** Where a word holds what: an address in its last twenty bytes behind zeros, a flag
      in its last bit, a number big-endian at its end. */
  lemma {:induction false} WordMeans(v: Arg)
    requires v.Addr? ==> |v.a| == 20
    ensures v.Addr? ==>
              WordOf(v).Some? && WordOf(v).value[12..] == v.a && forall i :: 0 <= i < 12 ==> WordOf(v).value[i] == 0
    ensures v.Raw? ==> WordOf(v) == Some(v.w)
    ensures v.Num? ==> WordOf(v).Some? && FromBytes(WordOf(v).value) == v.u
    ensures v.Signed? && v.n >= 0 && WordOf(v).Some? ==> FromBytes(WordOf(v).value) == v.n
    ensures v.Flag? ==>
              WordOf(v).Some? && WordOf(v).value[31] == (if v.b then 1 else 0)
              && forall i :: 0 <= i < 31 ==> WordOf(v).value[i] == 0
  {
    match v
    case Num(u) => NumValue(u);
    case Signed(n) =>
      if n >= 0 && WordOf(v).Some? {
        NatBytesValue(n);
        PaddedValue(32 - |NatBytes(n)|, NatBytes(n));
      }
    case _ =>
  }
}
