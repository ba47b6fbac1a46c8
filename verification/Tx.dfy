/** The EIP-1559 transaction of chain/tx.go: what the signature commits to. */
module Tx {
  import opened Wrappers
  import opened Machine
  import opened Arith
  import opened Bytes
  import opened Rlp

  type Address = a: seq<byte> | |a| == 20 witness Zeros(20)

  datatype Tx = Tx(
    chainID: u64,
    nonce: u64,
    tipCap: Option<int>,
    feeCap: Option<int>,
    gas: u64,
    to: Option<Address>,
    amount: Option<int>,
    data: seq<byte>,
    accessList: seq<Value>)

  /** `fields`: a nil recipient is the empty string, a nil value is zero, and
      the access list is always sent empty, whatever the field holds. */
  function Fields(t: Tx): (vs: seq<Value>)
    ensures |vs| == 9
  {
    var to := if t.to.Some? then Bin(t.to.value) else Bin([]);
    [Uint(t.chainID), Uint(t.nonce), Big(t.tipCap), Big(t.feeCap), Uint(t.gas), to,
     Big(Some(t.amount.GetOr(0))), Bin(t.data), Items([])]
  }

  /** The bytes `SigningHash` hashes. */
  function SigningPreimage(t: Tx): seq<byte> {
    [0x02] + Encode(Items(Fields(t)))
  }

  /** The bytes `Sign` returns, for signature (v, r, s). */
  function RawSigned(t: Tx, v: u64, r: nat, s: nat): seq<byte> {
    [0x02] + Encode(Items(Fields(t) + [Uint(v), Big(Some(r)), Big(Some(s))]))
  }

  predicate Printable(t: Tx) {
    |SigningPreimage(t)| < TWO_64
  }

  function Magnitude(v: Option<int>): nat {
    Abs(v.GetOr(0))
  }

  /** Everything two transactions must share to be the same bytes. */
  predicate SameOnWire(t: Tx, u: Tx) {
    && t.chainID == u.chainID && t.nonce == u.nonce && t.gas == u.gas
    && t.to == u.to && t.data == u.data
    && Magnitude(t.tipCap) == Magnitude(u.tipCap)
    && Magnitude(t.feeCap) == Magnitude(u.feeCap)
    && Magnitude(t.amount) == Magnitude(u.amount)
  }

  predicate NonNegative(t: Tx) {
    t.tipCap.GetOr(0) >= 0 && t.feeCap.GetOr(0) >= 0 && t.amount.GetOr(0) >= 0
  }

  /** The fields a caller can set apart from the access list, nil read as 0. */
  function Meaning(t: Tx): (u64, u64, int, int, u64, Option<Address>, int, seq<byte>) {
    (t.chainID, t.nonce, t.tipCap.GetOr(0), t.feeCap.GetOr(0), t.gas, t.to, t.amount.GetOr(0), t.data)
  }

  lemma {:induction false} ItemsAt(vs: seq<Value>, i: nat)
    requires i < |vs|
    ensures ToItems(vs)[i] == ToItem(vs[i])
  {
    if i > 0 { ItemsAt(vs[1..], i - 1); }
  }

  lemma {:induction false} ItemsOfConcat(vs: seq<Value>, ws: seq<Value>)
    ensures ToItems(vs + ws) == ToItems(vs) + ToItems(ws)
  {
    hide ToItem;
    if vs == [] {
      assert vs + ws == ws;
    } else {
      var all := vs + ws;
      assert all[0] == vs[0] && all[1..] == vs[1..] + ws;
      ItemsOfConcat(vs[1..], ws);
      assert ToItems(all) == [ToItem(vs[0])] + ToItems(vs[1..] + ws);
    }
  }

  lemma {:induction false} FieldItems(t: Tx)
    ensures var xs := ToItems(Fields(t));
            && xs[0] == Str(NatBytes(t.chainID)) && xs[1] == Str(NatBytes(t.nonce))
            && xs[2] == Str(NatBytes(Magnitude(t.tipCap))) && xs[3] == Str(NatBytes(Magnitude(t.feeCap)))
            && xs[4] == Str(NatBytes(t.gas)) && xs[5] == Str(if t.to.Some? then t.to.value else [])
            && xs[6] == Str(NatBytes(Magnitude(t.amount))) && xs[7] == Str(t.data) && xs[8] == List([])
  {
    forall i | 0 <= i < 9
      ensures ToItems(Fields(t))[i] == ToItem(Fields(t)[i])
    {
      ItemsAt(Fields(t), i);
    }
  }

  lemma {:induction false} SameFieldItems(t: Tx, u: Tx)
    ensures ToItems(Fields(t)) == ToItems(Fields(u)) <==> SameOnWire(t, u)
  {
    FieldItems(t);
    FieldItems(u);
    NatBytesInjective(t.chainID, u.chainID);
    NatBytesInjective(t.nonce, u.nonce);
    NatBytesInjective(t.gas, u.gas);
    NatBytesInjective(Magnitude(t.tipCap), Magnitude(u.tipCap));
    NatBytesInjective(Magnitude(t.feeCap), Magnitude(u.feeCap));
    NatBytesInjective(Magnitude(t.amount), Magnitude(u.amount));
  }

  /** For all transactions: one preimage exactly when nothing but signs, nil
      against zero, or the unsent access list tells them apart. */
  lemma {:induction false} PreimageIff(t: Tx, u: Tx)
    requires Printable(t) && Printable(u)
    ensures SigningPreimage(t) == SigningPreimage(u) <==> SameOnWire(t, u)
  {
    var v, w := Items(Fields(t)), Items(Fields(u));
    assert SigningPreimage(t)[1..] == Encode(v) && SigningPreimage(u)[1..] == Encode(w);
    EncodeInjective(v, w);
    SameFieldItems(t, u);
  }

  /** With non-negative amounts the preimage pins down every field sent. */
  lemma {:induction false} PreimageCommits(t: Tx, u: Tx)
    requires Printable(t) && Printable(u) && NonNegative(t) && NonNegative(u)
    ensures SigningPreimage(t) == SigningPreimage(u) <==> Meaning(t) == Meaning(u)
  {
    PreimageIff(t, u);
  }

  /** A sign is not on the wire: paying 5 and paying -5 are one preimage. */
  lemma {:induction false} SignIsNotCommitted()
    ensures var t := Tx(1, 0, None, None, 21000, None, Some(5), [], []);
            SigningPreimage(t) == SigningPreimage(t.(amount := Some(-5))) && !NonNegative(t.(amount := Some(-5)))
  {
    var t := Tx(1, 0, None, None, 21000, None, Some(5), [], []);
    var u := t.(amount := Some(-5));
    SameFieldItems(t, u);
    SameItemsSameBytes(Fields(t), Fields(u));
  }

  /** A raw signed transaction determines its fields and its signature, and is
      never the preimage of another transaction. */
  lemma {:induction false} RawSignedIff(t: Tx, v: u64, r: nat, s: nat, u: Tx, v': u64, r': nat, s': nat)
    requires |RawSigned(t, v, r, s)| < TWO_64 && |RawSigned(u, v', r', s')| < TWO_64 && Printable(u)
    ensures RawSigned(t, v, r, s) == RawSigned(u, v', r', s')
        <==> SameOnWire(t, u) && v == v' && r == r' && s == s'
    ensures RawSigned(t, v, r, s) != SigningPreimage(u)
  {
    var sig, sig' := [Uint(v), Big(Some(r)), Big(Some(s))], [Uint(v'), Big(Some(r')), Big(Some(s'))];
    var a, b, c := Items(Fields(t) + sig), Items(Fields(u) + sig'), Items(Fields(u));
    assert RawSigned(t, v, r, s)[1..] == Encode(a);
    assert RawSigned(u, v', r', s')[1..] == Encode(b) && SigningPreimage(u)[1..] == Encode(c);
    EncodeInjective(a, b);
    EncodeInjective(a, c);
    ItemsOfConcat(Fields(t), sig);
    ItemsOfConcat(Fields(u), sig');
    SameFieldItems(t, u);
    var xs, ys := ToItems(Fields(t)), ToItems(Fields(u));
    assert xs + ToItems(sig) == ys + ToItems(sig') <==> xs == ys && ToItems(sig) == ToItems(sig') by {
      assert (xs + ToItems(sig))[..9] == xs && (xs + ToItems(sig))[9..] == ToItems(sig);
      assert (ys + ToItems(sig'))[..9] == ys && (ys + ToItems(sig'))[9..] == ToItems(sig');
    }
    SignatureItems(v, r, s);
    SignatureItems(v', r', s');
    NatBytesInjective(v, v');
    NatBytesInjective(r, r');
    NatBytesInjective(s, s');
  }

  lemma {:induction false} SignatureItems(v: u64, r: nat, s: nat)
    ensures ToItems([Uint(v), Big(Some(r)), Big(Some(s))]) == [Str(NatBytes(v)), Str(NatBytes(r)), Str(NatBytes(s))]
  {
    var sig := [Uint(v), Big(Some(r)), Big(Some(s))];
    ItemsAt(sig, 0);
    ItemsAt(sig, 1);
    ItemsAt(sig, 2);
  }

  /** What the bytes signed say: an EIP-1559 envelope, type 2, around one list of the
      nine fields in their order. */
  lemma {:induction false} PreimageReads(t: Tx)
    requires Printable(t)
    ensures SigningPreimage(t)[0] == 2
    ensures Decode(SigningPreimage(t)[1..]) == Some((List([
              Str(NatBytes(t.chainID)),
              Str(NatBytes(t.nonce)),
              Str(NatBytes(Abs(t.tipCap.GetOr(0)))),
              Str(NatBytes(Abs(t.feeCap.GetOr(0)))),
              Str(NatBytes(t.gas)),
              Str(if t.to.Some? then t.to.value else []),
              Str(NatBytes(Abs(t.amount.GetOr(0)))),
              Str(t.data),
              List([])]), []))
  {
    var v := Items(Fields(t));
    RoundTrip(v, []);
    assert SigningPreimage(t)[1..] == Encode(v) + [];
    FieldItems(t);
    var xs := ToItems(Fields(t));
    assert xs == [xs[0], xs[1], xs[2], xs[3], xs[4], xs[5], xs[6], xs[7], xs[8]];
  }

  /** The raw transaction is the same envelope with the signature behind the fields. */
  lemma {:induction false} RawReads(t: Tx, v: u64, r: nat, s: nat)
    requires |RawSigned(t, v, r, s)| < TWO_64
    ensures RawSigned(t, v, r, s)[0] == 2
    ensures Decode(RawSigned(t, v, r, s)[1..]) == Some((List([
              Str(NatBytes(t.chainID)),
              Str(NatBytes(t.nonce)),
              Str(NatBytes(Abs(t.tipCap.GetOr(0)))),
              Str(NatBytes(Abs(t.feeCap.GetOr(0)))),
              Str(NatBytes(t.gas)),
              Str(if t.to.Some? then t.to.value else []),
              Str(NatBytes(Abs(t.amount.GetOr(0)))),
              Str(t.data),
              List([]),
              Str(NatBytes(v)), Str(NatBytes(r)), Str(NatBytes(s))]), []))
  {
    var sig := [Uint(v), Big(Some(r)), Big(Some(s))];
    var all := Items(Fields(t) + sig);
    RoundTrip(all, []);
    assert RawSigned(t, v, r, s)[1..] == Encode(all) + [];
    FieldItems(t);
    SignatureItems(v, r, s);
    ItemsOfConcat(Fields(t), sig);
    var xs := ToItems(Fields(t));
    hide ToItems, Decode, Encode, NatBytes, Fields;
    assert xs == [xs[0], xs[1], xs[2], xs[3], xs[4], xs[5], xs[6], xs[7], xs[8]];
    assert xs + [Str(NatBytes(v)), Str(NatBytes(r)), Str(NatBytes(s))]
        == [xs[0], xs[1], xs[2], xs[3], xs[4], xs[5], xs[6], xs[7], xs[8],
            Str(NatBytes(v)), Str(NatBytes(r)), Str(NatBytes(s))];
  }
}
