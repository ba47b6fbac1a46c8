/** The hashing of eip712/eip712.go: typed data to the digest a wallet signs. */
module TypedData {
  import opened Wrappers
  import opened Machine
  import opened Bytes
  import opened Eip712
  import Abi

  type Word = Abi.Word

  /** What is hashed: text as it stands, or bytes put together from words. */
  datatype Hashed = Letters(s: string) | Data(b: seq<byte>)

  /** A decoded JSON value; anything no field type accepts is Other. */
  datatype Value =
    | Num(n: int)
    | Flag(b: bool)
    | Str(s: string)
    | Obj(members: map<string, Value>)
    | Other

  /** The hash, and the readers of hexadecimal and of numbers in text. */
  datatype Library = Library(
    keccak: Hashed -> Word, hex: string -> Option<seq<byte>>, number: string -> Option<int>)

  // ------------------------------------------------------------------ field types

  datatype Kind =
    | Struct | StringOf | BytesOf | BoolOf | Address
    | Fixed(size: int) | UintOf(bits: int) | IntOf(bits: int)
    | Unsupported

  predicate Digits(s: string) {
    s != [] && forall i :: 0 <= i < |s| ==> '0' <= s[i] <= '9'
  }

  /** `atoi`, wrapping as a Go int does. */
  function Atoi(s: string): int64 {
    if s == [] then 0
    else Wrap(Atoi(s[..|s| - 1]) * 10 + (s[|s| - 1] as int - '0' as int))
  }

  /** The number after a prefix, when nothing but digits follows it. */
  function Sized(prefix: string, typ: string): Option<int64> {
    if |typ| >= |prefix| && typ[..|prefix|] == prefix && Digits(typ[|prefix|..])
    then Some(Atoi(typ[|prefix|..])) else None
  }

  /** The branch `encodeField` takes; a struct's name comes before the built-in ones. */
  function KindOf(types: Types, typ: string): Kind {
    if typ != [] && typ[|typ| - 1] == ']' then Unsupported
    else if typ in types then Struct
    else if typ == "string" then StringOf
    else if typ == "bytes" then BytesOf
    else if typ == "bool" then BoolOf
    else if typ == "address" then Address
    else
      match (Sized("bytes", typ), Sized("uint", typ), Sized("int", typ))
      case (Some(n), _, _) => if 1 <= n <= 32 then Fixed(n) else Unsupported
      case (_, Some(bits), _) => UintOf(bits)
      case (_, _, Some(bits)) => IntOf(bits)
      case (_, _, _) => Unsupported
  }

  function Pow2(n: nat): int {
    if n == 0 then 1 else 2 * Pow2(n - 1)
  }

  function HexOf(lib: Library, v: Value): Option<seq<byte>> {
    if v.Str? then lib.hex(v.s) else None
  }

  function NumberOf(lib: Library, v: Value): Option<int> {
    match v
    case Num(n) => Some(n)
    case Str(s) => lib.number(s)
    case _ => None
  }

  // ------------------------------------------------------------------- the hashing

  /** The word of a field that is not a struct; None is an error, or the panic of a
      number too long for its word. */
  function ScalarWord(lib: Library, kind: Kind, v: Value): Option<Word>
    requires !kind.Struct?
  {
    match kind
    case StringOf => if v.Str? then Some(lib.keccak(Letters(v.s))) else None
    case BytesOf =>
      (match HexOf(lib, v)
       case Some(b) => Some(lib.keccak(Data(b)))
       case None => None)
    case BoolOf => if v.Flag? then Some(Zeros(31) + [if v.b then 1 else 0]) else None
    case Address =>
      (match HexOf(lib, v)
       case Some(b) => if |b| == 20 then Some(Zeros(12) + b) else None
       case None => None)
    case Fixed(n) =>
      (match HexOf(lib, v)
       case Some(b) => if |b| == n && n <= 32 then Some(b + Zeros(32 - n)) else None
       case None => None)
    case UintOf(bits) =>
      (match NumberOf(lib, v)
       case Some(n) => if n < 0 || bits < 0 || n >= Pow2(bits) then None else Abi.WordOf(Abi.Signed(n))
       case None => None)
    case IntOf(bits) =>
      (match NumberOf(lib, v)
       case Some(n) =>
         if bits < 1 || n < -Pow2(bits - 1) || n >= Pow2(bits - 1) then None else Abi.WordOf(Abi.Signed(n))
       case None => None)
    case Unsupported => None
  }

  ghost function FieldWord(lib: Library, types: Types, typ: string, v: Value): Option<Word>
    decreases v, 2, 0
  {
    var kind := KindOf(types, typ);
    if kind.Struct? then StructHash(lib, types, typ, v) else ScalarWord(lib, kind, v)
  }

  /** The words of a struct's fields, in the order the type lists them. */
  ghost function DataOf(lib: Library, types: Types, fields: seq<Field>, v: Value): (r: Option<seq<byte>>)
    requires v.Obj?
    ensures r.Some? ==> |r.value| == 32 * |fields|
    decreases v, 0, |fields|
  {
    if fields == [] then Some([])
    else
      var n := |fields| - 1;
      match DataOf(lib, types, fields[..n], v)
      case None => None
      case Some(front) =>
        if fields[n].name !in v.members then None
        else
          match FieldWord(lib, types, fields[n].typ, v.members[fields[n].name])
          case None => None
          case Some(w) => Some(front + w)
  }

  ghost function TypeHash(lib: Library, types: Types, typ: string): Word {
    lib.keccak(Letters(Encoding(types, typ)))
  }

  ghost function StructHash(lib: Library, types: Types, typ: string, v: Value): Option<Word>
    decreases v, 1, 0
  {
    if !v.Obj? || typ !in types then None
    else
      match DataOf(lib, types, types[typ], v)
      case None => None
      case Some(data) => Some(lib.keccak(Data(TypeHash(lib, types, typ) + data)))
  }

  const DOMAIN := "EIP712Domain"

  datatype Document = Document(types: Types, primary: string, domain: Value, message: Value)

  ghost function DigestOf(lib: Library, d: Document): Option<Word> {
    match (StructHash(lib, d.types, DOMAIN, d.domain), StructHash(lib, d.types, d.primary, d.message))
    case (Some(x), Some(y)) => Some(lib.keccak(Data([0x19, 0x01] + x + y)))
    case (_, _) => None
  }

  method EncodeField(lib: Library, types: Types, typ: string, v: Value) returns (r: Option<Word>)
    ensures r == FieldWord(lib, types, typ, v)
    decreases v, 2
  {
    var kind := KindOf(types, typ);
    if kind.Struct? {
      if !v.Obj? { return None; }
      r := HashStruct(lib, types, typ, v);
    } else {
      r := ScalarWord(lib, kind, v);
    }
  }

  method EncodeData(lib: Library, types: Types, typ: string, v: Value) returns (r: Option<seq<byte>>)
    requires v.Obj? && typ in types
    ensures r == DataOf(lib, types, types[typ], v)
    decreases v, 0
  {
    var fields, out := types[typ], [];
    for i := 0 to |fields|
      invariant DataOf(lib, types, fields[..i], v) == Some(out)
    {
      DataStops(lib, types, fields, i + 1, v);
      assert fields[..i + 1][..i] == fields[..i];
      if fields[i].name !in v.members { return None; }
      var word := EncodeField(lib, types, fields[i].typ, v.members[fields[i].name]);
      if word.None? { return None; }
      out := out + word.value;
    }
    assert fields[..|fields|] == fields;
    return Some(out);
  }

  method HashStruct(lib: Library, types: Types, typ: string, v: Value) returns (r: Option<Word>)
    requires v.Obj?
    ensures r == StructHash(lib, types, typ, v)
    decreases v, 1
  {
    var text := EncodeType(types, typ);
    if text.None? { return None; }
    var data := EncodeData(lib, types, typ, v);
    if data.None? { return None; }
    return Some(lib.keccak(Data(lib.keccak(Letters(text.value)) + data.value)));
  }

  method Digest(lib: Library, d: Document) returns (r: Option<Word>)
    requires d.domain.Obj? && d.message.Obj?
    ensures r == DigestOf(lib, d)
  {
    var x := HashStruct(lib, d.types, DOMAIN, d.domain);
    if x.None? { return None; }
    var y := HashStruct(lib, d.types, d.primary, d.message);
    if y.None? { return None; }
    return Some(lib.keccak(Data([0x19, 0x01] + x.value + y.value)));
  }

  /** A field that cannot be encoded stops the whole struct. */
  lemma {:induction false} DataStops(lib: Library, types: Types, fields: seq<Field>, n: nat, v: Value)
    requires v.Obj? && n <= |fields|
    ensures DataOf(lib, types, fields[..n], v).None? ==> DataOf(lib, types, fields, v).None?
    decreases |fields|
  {
    if n < |fields| {
      var front := fields[..|fields| - 1];
      assert front[..n] == fields[..n];
      DataStops(lib, types, front, n, v);
    } else {
      assert fields[..n] == fields;
    }
  }

  /** Field i's word lies at byte 32 * i. */
  lemma {:induction false} WordAt(lib: Library, types: Types, fields: seq<Field>, v: Value, i: nat)
    requires v.Obj? && i < |fields| && DataOf(lib, types, fields, v).Some?
    ensures fields[i].name in v.members
    ensures FieldWord(lib, types, fields[i].typ, v.members[fields[i].name])
         == Some(DataOf(lib, types, fields, v).value[32 * i..32 * i + 32])
  {
    hide FieldWord;
    var n := |fields| - 1;
    if i < n {
      WordAt(lib, types, fields[..n], v, i);
      var front, all := DataOf(lib, types, fields[..n], v).value, DataOf(lib, types, fields, v).value;
      assert all[..32 * n] == front;
      assert all[32 * i..32 * i + 32] == front[32 * i..32 * i + 32];
    } else {
      var front, all := DataOf(lib, types, fields[..n], v).value, DataOf(lib, types, fields, v).value;
      assert all[32 * n..32 * n + 32] == all[|front|..];
    }
  }

  // ----------------------------------------------------------- what words tell

  lemma {:induction false} Pow2Bytes(k: nat)
    ensures Pow2(8 * k) == Pow256(k)
  {
    if k > 0 {
      Pow2Bytes(k - 1);
      Pow2Eight(8 * (k - 1));
    }
  }

  lemma Pow2Eight(n: nat)
    ensures Pow2(n + 4) == 16 * Pow2(n) && Pow2(n + 7) == 128 * Pow2(n) && Pow2(n + 8) == 256 * Pow2(n)
  {
    assert Pow2(n + 4) == 2 * Pow2(n + 3) == 4 * Pow2(n + 2) == 8 * Pow2(n + 1);
    assert Pow2(n + 8) == 2 * Pow2(n + 7) == 4 * Pow2(n + 6) == 8 * Pow2(n + 5) == 16 * Pow2(n + 4);
  }

  lemma {:induction false} Pow2Mono(m: nat, n: nat)
    requires m <= n
    ensures 1 <= Pow2(m) <= Pow2(n)
  {
    if m < n { Pow2Mono(m, n - 1); } else if m > 0 { Pow2Mono(m - 1, m - 1); }
  }

  /** Numbers of at most 256 bits, either kind, are told apart by their words. */
  lemma {:induction false} NumbersApart(kind: Kind, m: int, n: int)
    requires kind.UintOf? || (kind.IntOf? && 1 <= kind.bits <= 256)
    requires kind.UintOf? ==> m >= 0 && n >= 0
    requires kind.IntOf? ==> var half := Pow2(kind.bits - 1); -half <= m < half && -half <= n < half
    requires Abi.WordOf(Abi.Signed(m)).Some? && Abi.WordOf(Abi.Signed(m)) == Abi.WordOf(Abi.Signed(n))
    ensures m == n
  {
    if kind.IntOf? {
      Pow2Bytes(31);
      Pow2Eight(8 * 31);
      Pow2Mono(kind.bits - 1, 255);
      Abi.SignedRoundTrip(m);
      Abi.SignedRoundTrip(n);
    } else {
      NaturalWord(m);
      NaturalWord(n);
    }
  }

  lemma NaturalWord(n: nat)
    requires Abi.WordOf(Abi.Signed(n)).Some?
    ensures FromBytes(Abi.WordOf(Abi.Signed(n)).value) == n
  {
    NatBytesValue(n);
    Abi.PaddedValue(32 - |NatBytes(n)|, NatBytes(n));
  }

  /** No field is a signed number of more than 256 bits. */
  predicate Narrow(types: Types) {
    forall t, i :: t in types && 0 <= i < |types[t]| ==>
      var kind := KindOf(types, types[t][i].typ); kind.IntOf? ==> kind.bits <= 256
  }

  /** Two values mean the same as a field that is not a struct. */
  predicate SameScalar(lib: Library, kind: Kind, v: Value, w: Value) {
    match kind
    case StringOf => v == w
    case BoolOf => v == w
    case BytesOf => HexOf(lib, v) == HexOf(lib, w)
    case Address => HexOf(lib, v) == HexOf(lib, w)
    case Fixed(_) => HexOf(lib, v) == HexOf(lib, w)
    case UintOf(_) => NumberOf(lib, v) == NumberOf(lib, w)
    case IntOf(_) => NumberOf(lib, v) == NumberOf(lib, w)
    case _ => true
  }

  /** What is hashed to make a scalar's word. */
  function ScalarHashed(lib: Library, kind: Kind, v: Value): set<Hashed> {
    match kind
    case StringOf => if v.Str? then {Letters(v.s)} else {}
    case BytesOf => (match HexOf(lib, v) case Some(b) => {Data(b)} case None => {})
    case _ => {}
  }

  /** Two different things of one kind hashed, one on each side, share a hash: text
      against the bytes it is made of is no collision. */
  ghost predicate Collide(lib: Library, a: set<Hashed>, b: set<Hashed>) {
    exists x, y :: x in a && y in b && x != y && (x.Letters? <==> y.Letters?) && lib.keccak(x) == lib.keccak(y)
  }

  lemma {:induction false} ScalarCommits(lib: Library, kind: Kind, v: Value, w: Value)
    requires !kind.Struct? && (kind.IntOf? ==> kind.bits <= 256)
    requires ScalarWord(lib, kind, v).Some? && ScalarWord(lib, kind, v) == ScalarWord(lib, kind, w)
    ensures SameScalar(lib, kind, v, w) || Collide(lib, ScalarHashed(lib, kind, v), ScalarHashed(lib, kind, w))
  {
    match kind
    case StringOf => assert v == w || Letters(v.s) != Letters(w.s);
    case BytesOf => assert HexOf(lib, v) == HexOf(lib, w) || Data(HexOf(lib, v).value) != Data(HexOf(lib, w).value);
    case BoolOf => assert ScalarWord(lib, kind, v).value[31] == if v.b then 1 else 0;
      assert ScalarWord(lib, kind, w).value[31] == if w.b then 1 else 0;
    case Address =>
      assert ScalarWord(lib, kind, v).value[12..] == HexOf(lib, v).value;
      assert ScalarWord(lib, kind, w).value[12..] == HexOf(lib, w).value;
    case Fixed(n) =>
      assert ScalarWord(lib, kind, v).value[..n] == HexOf(lib, v).value;
      assert ScalarWord(lib, kind, w).value[..n] == HexOf(lib, w).value;
    case UintOf(_) => NumbersApart(kind, NumberOf(lib, v).value, NumberOf(lib, w).value);
    case IntOf(_) => NumbersApart(kind, NumberOf(lib, v).value, NumberOf(lib, w).value);
    case Unsupported =>
  }

  // ------------------------------------------------------- the digest commits

  /** What is hashed on the way to a field's word. */
  ghost function FieldHashed(lib: Library, types: Types, typ: string, v: Value): set<Hashed>
    decreases v, 2, 0
  {
    var kind := KindOf(types, typ);
    if kind.Struct? then StructHashed(lib, types, typ, v) else ScalarHashed(lib, kind, v)
  }

  ghost function FieldsHashed(lib: Library, types: Types, fields: seq<Field>, v: Value): set<Hashed>
    requires v.Obj?
    decreases v, 0, |fields|
  {
    if fields == [] then {}
    else
      var n := |fields| - 1;
      FieldsHashed(lib, types, fields[..n], v)
      + if fields[n].name in v.members then FieldHashed(lib, types, fields[n].typ, v.members[fields[n].name]) else {}
  }

  ghost function StructHashed(lib: Library, types: Types, typ: string, v: Value): set<Hashed>
    decreases v, 1, 0
  {
    if StructHash(lib, types, typ, v).None? then {}
    else
      {Letters(Encoding(types, typ)),
       Data(TypeHash(lib, types, typ) + DataOf(lib, types, types[typ], v).value)}
      + FieldsHashed(lib, types, types[typ], v)
  }

  /** Two values mean the same as a field of the type. */
  ghost predicate SameField(lib: Library, types: Types, typ: string, v: Value, w: Value)
    decreases v, 1, 0
  {
    var kind := KindOf(types, typ);
    if kind.Struct? then SameStruct(lib, types, typ, v, w) else SameScalar(lib, kind, v, w)
  }

  /** Two objects agree on every field of the struct, members it does not name aside. */
  ghost predicate SameStruct(lib: Library, types: Types, typ: string, v: Value, w: Value)
    decreases v, 0
  {
    && v.Obj? && w.Obj? && typ in types
    && forall i :: 0 <= i < |types[typ]| ==>
         var f := types[typ][i];
         f.name in v.members && f.name in w.members
         && SameField(lib, types, f.typ, v.members[f.name], w.members[f.name])
  }

  lemma {:induction false} FieldsHold(lib: Library, types: Types, fields: seq<Field>, v: Value, i: nat)
    requires v.Obj? && i < |fields| && fields[i].name in v.members
    ensures FieldHashed(lib, types, fields[i].typ, v.members[fields[i].name]) <= FieldsHashed(lib, types, fields, v)
  {
    hide FieldHashed;
    var n := |fields| - 1;
    if i < n { FieldsHold(lib, types, fields[..n], v, i); }
  }

  /** Documents that define a type alike read its fields alike. */
  lemma {:induction false} KindSame(s: Types, t: Types, a: string, i: nat)
    requires SameType(s, t, a, a) && i < |s[a]|
    ensures a in Reach(s, a) && s[a] == t[a] && KindOf(s, s[a][i].typ) == KindOf(t, s[a][i].typ)
  {
    Itself(s, a);
    hide Reaches;
    var typ := s[a][i].typ;
    if !(typ != [] && typ[|typ| - 1] == ']') {
      assert Base(typ) == typ;
      if typ in s {
        assert Edge(s, a, typ);
        Itself(s, typ);
        Onward(s, a, typ, typ);
        assert typ in Reach(s, a);
      }
      if typ in t {
        assert Edge(t, a, typ);
        Itself(t, typ);
        Onward(t, a, typ, typ);
        assert typ in Reach(t, a);
      }
    }
  }

  lemma {:induction false} FieldCommits(
    lib: Library, s: Types, t: Types, a: string, i: nat, v: Value, w: Value)
    requires CleanTypes(s) && CleanTypes(t) && Narrow(s) && SameType(s, t, a, a) && i < |s[a]|
    requires var typ := s[a][i].typ;
             FieldWord(lib, s, typ, v).Some? && FieldWord(lib, s, typ, v) == FieldWord(lib, t, typ, w)
    ensures var typ := s[a][i].typ;
            SameField(lib, s, typ, v, w) || Collide(lib, FieldHashed(lib, s, typ, v), FieldHashed(lib, t, typ, w))
    decreases v, 2
  {
    var typ := s[a][i].typ;
    KindSame(s, t, a, i);
    hide CleanTypes, SameType, SameStruct, StructHashed, StructHash, Collide, SameScalar, ScalarHashed, ScalarWord, KindOf;
    if KindOf(s, typ).Struct? {
      StructCommits(lib, s, t, typ, typ, v, w);
    } else {
      ScalarCommits(lib, KindOf(s, typ), v, w);
    }
  }

  lemma CollideWithin(lib: Library, a: set<Hashed>, b: set<Hashed>, a': set<Hashed>, b': set<Hashed>)
    requires Collide(lib, a, b) && a <= a' && b <= b'
    ensures Collide(lib, a', b')
  {
  }

  /** Two structs with one hash are the same type with the same values, or what was
      hashed to make them holds a collision. */
  lemma {:induction false} StructCommits(
    lib: Library, s: Types, t: Types, a: string, b: string, v: Value, w: Value)
    requires CleanTypes(s) && CleanTypes(t) && Narrow(s)
    requires StructHash(lib, s, a, v).Some? && StructHash(lib, s, a, v) == StructHash(lib, t, b, w)
    ensures (SameType(s, t, a, b) && SameStruct(lib, s, a, v, w))
         || Collide(lib, StructHashed(lib, s, a, v), StructHashed(lib, t, b, w))
    decreases v, 1
  {
    hide CleanTypes, Narrow, FieldsHashed, DataOf, Encoding, Reach;
    var hs: seq<byte>, ht: seq<byte> := TypeHash(lib, s, a), TypeHash(lib, t, b);
    var ds: seq<byte>, dt: seq<byte> := DataOf(lib, s, s[a], v).value, DataOf(lib, t, t[b], w).value;
    var here, there := StructHashed(lib, s, a, v), StructHashed(lib, t, b, w);
    assert Data(hs + ds) in here && Data(ht + dt) in there;
    assert Letters(Encoding(s, a)) in here && Letters(Encoding(t, b)) in there;
    if hs + ds == ht + dt && Encoding(s, a) == Encoding(t, b) {
      assert ds == (hs + ds)[32..] == dt;
      EncodingCommits(s, t, a, b);
      if !SameStruct(lib, s, a, v, w) { ValuesDiffer(lib, s, t, a, v, w); }
    } else {
      assert hs == (hs + ds)[..32] && ht == (ht + dt)[..32];
    }
  }

  lemma {:induction false} ValuesDiffer(lib: Library, s: Types, t: Types, a: string, v: Value, w: Value)
    requires CleanTypes(s) && CleanTypes(t) && Narrow(s) && SameType(s, t, a, a)
    requires StructHash(lib, s, a, v).Some? && StructHash(lib, t, a, w).Some?
    requires DataOf(lib, s, s[a], v) == DataOf(lib, t, t[a], w) && !SameStruct(lib, s, a, v, w)
    ensures Collide(lib, StructHashed(lib, s, a, v), StructHashed(lib, t, a, w))
    decreases v, 0
  {
    hide CleanTypes, Narrow, FieldWord, FieldHashed, FieldsHashed, DataOf, Encoding, Reach, SameField, Collide, KindOf;
    Itself(s, a);
    var fields := s[a];
    assert t[a] == fields by { hide *; SameFields(s, t, a); }
    forall i | 0 <= i < |fields|
      ensures fields[i].name in v.members && fields[i].name in w.members
    {
      WordAt(lib, s, fields, v, i);
      WordAt(lib, t, fields, w, i);
    }
    var i :| 0 <= i < |fields|
      && !SameField(lib, s, fields[i].typ, v.members[fields[i].name], w.members[fields[i].name]);
    var x, y := v.members[fields[i].name], w.members[fields[i].name];
    WordAt(lib, s, fields, v, i);
    WordAt(lib, t, fields, w, i);
    FieldCommits(lib, s, t, a, i, x, y);
    FieldsHold(lib, s, fields, v, i);
    FieldsHold(lib, t, fields, w, i);
    CollideWithin(lib, FieldHashed(lib, s, fields[i].typ, x), FieldHashed(lib, t, fields[i].typ, y),
                  StructHashed(lib, s, a, v), StructHashed(lib, t, a, w));
  }

  lemma SameFields(s: Types, t: Types, a: string)
    requires SameType(s, t, a, a)
    ensures s[a] == t[a]
  {
    Itself(s, a);
  }

  ghost function DigestHashed(lib: Library, d: Document): set<Hashed> {
    match (StructHash(lib, d.types, DOMAIN, d.domain), StructHash(lib, d.types, d.primary, d.message))
    case (Some(x), Some(y)) =>
      {Data([0x19, 0x01] + x + y)} + StructHashed(lib, d.types, DOMAIN, d.domain)
      + StructHashed(lib, d.types, d.primary, d.message)
    case (_, _) => {}
  }

  /** A digest commits to its document: clean documents with one digest name the
      same type, define it and all it reaches alike, and agree on every field of
      the domain and of the message; or what was hashed holds a collision. */
  lemma {:induction false} DigestCommits(lib: Library, d: Document, e: Document)
    requires CleanTypes(d.types) && CleanTypes(e.types) && Narrow(d.types)
    requires DigestOf(lib, d).Some? && DigestOf(lib, d) == DigestOf(lib, e)
    ensures (&& SameType(d.types, e.types, d.primary, e.primary) && SameStruct(lib, d.types, d.primary, d.message, e.message)
             && SameType(d.types, e.types, DOMAIN, DOMAIN) && SameStruct(lib, d.types, DOMAIN, d.domain, e.domain))
         || Collide(lib, DigestHashed(lib, d), DigestHashed(lib, e))
  {
    hide CleanTypes, Narrow, StructHash, StructHashed, SameType, SameStruct, Collide;
    var x, y := StructHash(lib, d.types, DOMAIN, d.domain).value, StructHash(lib, d.types, d.primary, d.message).value;
    var x', y' := StructHash(lib, e.types, DOMAIN, e.domain).value, StructHash(lib, e.types, e.primary, e.message).value;
    var p, q := [0x19, 0x01] + x + y, [0x19, 0x01] + x' + y';
    if p == q {
      assert x == p[2..34] == x' && y == p[34..] == y';
      StructCommits(lib, d.types, e.types, DOMAIN, DOMAIN, d.domain, e.domain);
      StructCommits(lib, d.types, e.types, d.primary, e.primary, d.message, e.message);
      DomainInDigest(lib, d, e);
    } else {
      assert Data(p) in DigestHashed(lib, d) && Data(q) in DigestHashed(lib, e);
      CollideHere(lib, Data(p), Data(q), DigestHashed(lib, d), DigestHashed(lib, e));
    }
  }

  lemma CollideHere(lib: Library, x: Hashed, y: Hashed, a: set<Hashed>, b: set<Hashed>)
    requires x in a && y in b && x != y && (x.Letters? <==> y.Letters?) && lib.keccak(x) == lib.keccak(y)
    ensures Collide(lib, a, b)
  {
  }

  lemma DomainInDigest(lib: Library, d: Document, e: Document)
    requires DigestOf(lib, d).Some? && DigestOf(lib, e).Some?
    ensures Collide(lib, StructHashed(lib, d.types, DOMAIN, d.domain), StructHashed(lib, e.types, DOMAIN, e.domain))
         || Collide(lib, StructHashed(lib, d.types, d.primary, d.message), StructHashed(lib, e.types, e.primary, e.message))
         ==> Collide(lib, DigestHashed(lib, d), DigestHashed(lib, e))
  {
    hide StructHash, StructHashed;
  }

  lemma {:induction false} SameFieldSameWord(lib: Library, s: Types, t: Types, a: string, i: nat, v: Value, w: Value)
    requires SameType(s, t, a, a) && i < |s[a]| && SameField(lib, s, s[a][i].typ, v, w)
    ensures FieldWord(lib, s, s[a][i].typ, v) == FieldWord(lib, t, s[a][i].typ, w)
    decreases v, 2
  {
    var typ := s[a][i].typ;
    KindSame(s, t, a, i);
    hide SameStruct, StructHash, KindOf, SameType, ScalarWord, SameScalar;
    if KindOf(s, typ).Struct? {
      SubType(s, t, a, i);
      SameMeansSameHash(lib, s, t, typ, v, w);
    } else {
      SameScalarSameWord(lib, KindOf(s, typ), v, w);
    }
  }

  lemma SameScalarSameWord(lib: Library, kind: Kind, v: Value, w: Value)
    requires !kind.Struct? && SameScalar(lib, kind, v, w)
    ensures ScalarWord(lib, kind, v) == ScalarWord(lib, kind, w)
  {
  }

  /** A field's struct is defined alike where the struct it belongs to is. */
  lemma {:induction false} SubType(s: Types, t: Types, a: string, i: nat)
    requires SameType(s, t, a, a) && i < |s[a]| && KindOf(s, s[a][i].typ).Struct?
    ensures SameType(s, t, s[a][i].typ, s[a][i].typ)
  {
    var b := s[a][i].typ;
    KindSame(s, t, a, i);
    assert Base(b) == b;
    assert Edge(s, a, b) && Edge(t, a, b);
    FurtherReached(s, a, a, b);
    FurtherReached(t, a, a, b);
    hide Edge, Reaches, KindOf;
    forall n | n in s && Reaches(s, b, n)
      ensures n in t && Reaches(t, b, n) && s[n] == t[n]
    {
      Onward(s, a, b, n);
      assert n in Reach(s, a);
      SamePaths(s, t, a, b, n);
    }
    forall n | n in t && Reaches(t, b, n)
      ensures n in s && Reaches(s, b, n)
    {
      Onward(t, a, b, n);
      assert n in Reach(t, a);
      SamePaths(t, s, a, b, n);
    }
  }

  /** What is reached through types defined alike is reached alike. */
  lemma {:induction false} SamePaths(s: Types, t: Types, a: string, b: string, n: string)
    requires a in s && a in t && Reach(s, a) == Reach(t, a) && forall m :: m in Reach(s, a) ==> s[m] == t[m]
    requires b in Reach(s, a) && Reaches(s, b, n)
    ensures Reaches(t, b, n)
  {
    var p :| Path(s, p, b, n);
    PathCopies(s, t, a, p, b, n);
    assert Path(t, p, b, n);
  }

  lemma {:induction false} PathCopies(s: Types, t: Types, a: string, p: seq<string>, b: string, n: string)
    requires a in s && a in t && Reach(s, a) == Reach(t, a) && forall m :: m in Reach(s, a) ==> s[m] == t[m]
    requires b in Reach(s, a) && Path(s, p, b, n)
    ensures Path(t, p, b, n)
    decreases |p|
  {
    if |p| > 1 {
      assert Edge(s, p[0], p[1]);
      hide Reaches;
      FurtherReached(s, a, b, p[1]);
      assert Path(s, p[1..], p[1], n);
      PathCopies(s, t, a, p[1..], p[1], n);
      assert s[b] == t[b];
      assert Edge(t, b, p[1]);
      forall i | 0 <= i < |p| - 1
        ensures Edge(t, p[i], p[i + 1])
      {
        if i > 0 { assert Edge(t, p[1..][i - 1], p[1..][i]); }
      }
    }
  }

  lemma FurtherReached(types: Types, a: string, b: string, c: string)
    requires b in Reach(types, a) && Edge(types, b, c)
    ensures c in Reach(types, a)
  {
    var p :| Path(types, p, a, b);
    var q := p + [c];
    assert forall i :: 0 <= i < |q| - 1 ==> Edge(types, q[i], q[i + 1]);
    assert Path(types, q, a, c);
  }

  /** Conversely, the same type and the same values hash alike. */
  lemma {:induction false} SameMeansSameHash(lib: Library, s: Types, t: Types, a: string, v: Value, w: Value)
    requires SameType(s, t, a, a) && SameStruct(lib, s, a, v, w)
    ensures StructHash(lib, s, a, v) == StructHash(lib, t, a, w)
    decreases v, 1
  {
    SameFields(s, t, a);
    SameData(lib, s, t, a, |s[a]|, v, w);
    assert s[a][..|s[a]|] == s[a];
    SameTexts(s, t, a);
  }

  lemma SameTexts(s: Types, t: Types, a: string)
    requires SameType(s, t, a, a)
    ensures Encoding(s, a) == Encoding(t, a)
  {
    hide Reaches;
    Itself(s, a);
    var names := [a] + Listing(Reach(s, a) - {a});
    assert forall n :: n in names ==> n in Reach(s, a);
    SameText(s, t, names);
  }

  lemma {:induction false} SameData(lib: Library, s: Types, t: Types, a: string, n: nat, v: Value, w: Value)
    requires SameType(s, t, a, a) && SameStruct(lib, s, a, v, w) && n <= |s[a]|
    ensures DataOf(lib, s, s[a][..n], v) == DataOf(lib, t, s[a][..n], w)
    decreases v, 0, n
  {
    if n > 0 {
      var f := s[a][n - 1];
      SameData(lib, s, t, a, n - 1, v, w);
      assert s[a][..n][..n - 1] == s[a][..n - 1];
      assert f.name in v.members && f.name in w.members;
      SameFieldSameWord(lib, s, t, a, n - 1, v.members[f.name], w.members[f.name]);
      hide FieldWord;
    }
  }

  /** Of every signed type wider than a word, 0 and -2^256 are values with one word. */
  lemma {:induction false} WideNumbersCollide(lib: Library, bits: int)
    requires bits > 256
    ensures ScalarWord(lib, IntOf(bits), Num(0)).Some?
    ensures ScalarWord(lib, IntOf(bits), Num(0)) == ScalarWord(lib, IntOf(bits), Num(-Abi.TWO_256))
    ensures !SameScalar(lib, IntOf(bits), Num(0), Num(-Abi.TWO_256))
  {
    WideRange(bits);
    hide Pow2;
    assert Abi.TwosComplement(0) == Abi.TwosComplement(-Abi.TWO_256) == 0;
    hide Abi.TwosComplement;
  }

  lemma WideRange(bits: int)
    requires bits > 256
    ensures Pow2(bits - 1) >= Abi.TWO_256 > 0
  {
    Pow256Positive(31);
    assert Pow256(32) == Abi.TWO_256;
    Pow2Bytes(32);
    Pow2Mono(256, bits - 1);
  }

  /** A signed field type tells all its numbers apart if and only if it has at most
      256 bits. */
  lemma {:induction false} SignedApartIff(lib: Library, bits: int)
    ensures (forall v, w :: ScalarWord(lib, IntOf(bits), v).Some?
                            && ScalarWord(lib, IntOf(bits), v) == ScalarWord(lib, IntOf(bits), w)
                            ==> SameScalar(lib, IntOf(bits), v, w))
            <==> bits <= 256
  {
    if bits > 256 {
      WideNumbersCollide(lib, bits);
    } else {
      forall v, w | ScalarWord(lib, IntOf(bits), v).Some?
                    && ScalarWord(lib, IntOf(bits), v) == ScalarWord(lib, IntOf(bits), w)
        ensures SameScalar(lib, IntOf(bits), v, w)
      {
        NumbersApart(IntOf(bits), NumberOf(lib, v).value, NumberOf(lib, w).value);
      }
    }
  }

  // ------------------------------------------------------- the standard's own terms

  /** What is signed is the hash of 66 bytes: 0x19, 0x01, the domain's hash and the
      message's; there is a digest exactly when both can be hashed. */
  lemma {:induction false} DigestPreimage(lib: Library, d: Document)
    ensures var x, y := StructHash(lib, d.types, "EIP712Domain", d.domain), StructHash(lib, d.types, d.primary, d.message);
            && (DigestOf(lib, d).Some? <==> x.Some? && y.Some?)
            && (x.Some? && y.Some? ==> exists m: seq<byte> ::
                  && |m| == 66 && m[0] == 25 && m[1] == 1 && m[2..34] == x.value && m[34..] == y.value
                  && DigestOf(lib, d) == Some(lib.keccak(Data(m))))
  {
    var x, y := StructHash(lib, d.types, DOMAIN, d.domain), StructHash(lib, d.types, d.primary, d.message);
    hide StructHash;
    if x.Some? && y.Some? {
      var m := [0x19, 0x01] + x.value + y.value;
      assert m[2..34] == x.value && m[34..] == y.value;
    }
  }

  /** A struct can be hashed exactly when every field of its type is there and has a
      word. */
  lemma {:induction false} StructHasHash(lib: Library, types: Types, typ: string, v: Value)
    requires typ in types && v.Obj?
    ensures var fields := types[typ];
            StructHash(lib, types, typ, v).Some? <==> forall i :: 0 <= i < |fields| ==> HasWord(lib, types, fields[i], v)
  {
    DataWhole(lib, types, types[typ], v);
  }

  ghost predicate HasWord(lib: Library, types: Types, f: Field, v: Value)
    requires v.Obj?
  {
    f.name in v.members && FieldWord(lib, types, f.typ, v.members[f.name]).Some?
  }

  lemma {:induction false} DataWhole(lib: Library, types: Types, fields: seq<Field>, v: Value)
    requires v.Obj?
    ensures DataOf(lib, types, fields, v).Some? <==> forall i :: 0 <= i < |fields| ==> HasWord(lib, types, fields[i], v)
    decreases |fields|
  {
    hide FieldWord;
    if fields != [] {
      var n := |fields| - 1;
      DataWhole(lib, types, fields[..n], v);
      assert forall i :: 0 <= i < n ==> fields[..n][i] == fields[i];
      assert DataOf(lib, types, fields, v).Some? <==> DataOf(lib, types, fields[..n], v).Some? && HasWord(lib, types, fields[n], v);
    }
  }

  /** What is hashed for a struct: the hash of its type's text, then one word a field,
      in the type's order. */
  lemma {:induction false} StructPreimage(lib: Library, types: Types, typ: string, v: Value) returns (m: seq<byte>)
    requires StructHash(lib, types, typ, v).Some?
    ensures StructHash(lib, types, typ, v) == Some(lib.keccak(Data(m)))
    ensures |m| == 32 + 32 * |types[typ]| && m[..32] == lib.keccak(Letters(Encoding(types, typ)))
    ensures forall i :: 0 <= i < |types[typ]| ==>
              && types[typ][i].name in v.members
              && FieldWord(lib, types, types[typ][i].typ, v.members[types[typ][i].name]) == Some(m[32 * i + 32..32 * i + 64])
  {
    var fields := types[typ];
    var data := DataOf(lib, types, fields, v).value;
    m := TypeHash(lib, types, typ) + data;
    assert m[..32] == TypeHash(lib, types, typ);
    hide FieldWord, DataOf;
    forall i | 0 <= i < |fields|
      ensures fields[i].name in v.members
      ensures FieldWord(lib, types, fields[i].typ, v.members[fields[i].name]) == Some(m[32 * i + 32..32 * i + 64])
    {
      WordAt(lib, types, fields, v, i);
      Behind(TypeHash(lib, types, typ), data, 32 * i, 32 * i + 32);
    }
  }

  lemma Behind(w: Word, data: seq<byte>, i: nat, j: nat)
    requires i <= j <= |data|
    ensures (w + data)[i + 32..j + 32] == data[i..j]
  {
  }

  /** The words themselves: a flag in the last bit, an address in the last 20 bytes,
      fixed bytes at the front, zeros elsewhere; bytes of another length have none. */
  lemma {:induction false} BytesMean(lib: Library, kind: Kind, v: Value, w: Word)
    requires kind.BoolOf? || kind.Address? || kind.Fixed?
    ensures ScalarWord(lib, kind, v) == Some(w) <==>
              match kind
              case BoolOf => v.Flag? && w[31] == (if v.b then 1 else 0) && forall i :: 0 <= i < 31 ==> w[i] == 0
              case Address => HexOf(lib, v).Some? && w[12..] == HexOf(lib, v).value && forall i :: 0 <= i < 12 ==> w[i] == 0
              case Fixed(n) =>
                0 <= n <= 32 && HexOf(lib, v).Some? && w[..n] == HexOf(lib, v).value && forall i :: n <= i < 32 ==> w[i] == 0
              case _ => true
  {
    match kind
    case BoolOf =>
      if v.Flag? { EndHolds([if v.b then 1 else 0], 31, w); }
    case Address =>
      if HexOf(lib, v).Some? { EndHolds(HexOf(lib, v).value, 12, w); }
    case Fixed(n) =>
      if 0 <= n <= 32 && HexOf(lib, v).Some? { FixedHolds(HexOf(lib, v).value, n, w); }
    case _ =>
  }

  /** A number is big-endian and, below zero, two's complement in 256 bits; one its type
      has no room for has no word. */
  lemma {:induction false} NumbersMean(lib: Library, kind: Kind, v: Value, w: Word)
    requires kind.UintOf? || (kind.IntOf? && 1 <= kind.bits <= 256)
    ensures ScalarWord(lib, kind, v) == Some(w) <==>
              && NumberOf(lib, v).Some?
              && var n := NumberOf(lib, v).value;
                 if kind.UintOf? then 0 <= kind.bits && 0 <= n < Pow2(kind.bits) && FromBytes(w) == n
                 else -Pow2(kind.bits - 1) <= n < Pow2(kind.bits - 1) && FromBytes(w) == if n < 0 then n + Pow2(256) else n
  {
    hide Pow2, NumberOf, Abi.WordOf, FromBytes, HexOf;
    if NumberOf(lib, v).Some? {
      var n := NumberOf(lib, v).value;
      if kind.UintOf? {
        if n >= 0 { WordOfNatural(n, w); }
      } else if -Pow2(kind.bits - 1) <= n < Pow2(kind.bits - 1) {
        SignedWord(kind.bits, n, w);
      }
    }
  }

  lemma {:induction false} SignedWord(bits: int, n: int, w: Word)
    requires 1 <= bits <= 256 && -Pow2(bits - 1) <= n < Pow2(bits - 1)
    ensures Abi.WordOf(Abi.Signed(n)) == Some(w) <==> FromBytes(w) == if n < 0 then n + Pow2(256) else n
  {
    var x := Complement(bits, n);
    WordOfNatural(x, w);
    hide Pow2, Abi.TwosComplement, FromBytes, NatBytes;
  }

  lemma {:induction false} Complement(bits: int, n: int) returns (x: nat)
    requires 1 <= bits <= 256 && -Pow2(bits - 1) <= n < Pow2(bits - 1)
    ensures x == if n < 0 then n + Pow2(256) else n
    ensures Abi.TwosComplement(n) == x == Abi.TwosComplement(x)
  {
    Halves(bits);
    hide Pow2, Pow256;
    x := if n < 0 then n + Pow2(256) else n;
  }

  lemma Halves(bits: int)
    requires 1 <= bits <= 256
    ensures 2 * Pow2(bits - 1) <= Pow2(256) == Abi.TWO_256
  {
    Pow2Bytes(32);
    Pow2Mono(bits - 1, 255);
    assert Pow2(256) == 2 * Pow2(255);
    hide Pow2;
    assert Pow256(32) == Abi.TWO_256;
  }

  lemma EndHolds(b: seq<byte>, k: nat, w: Word)
    requires k <= 32
    ensures |b| == 32 - k && w == Zeros(k) + b <==> w[k..] == b && forall i :: 0 <= i < k ==> w[i] == 0
    ensures |b| == 1 && k == 31 ==> (w[31..] == b <==> w[31] == b[0])
  {
    if w[k..] == b && forall i :: 0 <= i < k ==> w[i] == 0 {
      assert w[..k] == Zeros(k);
      assert w == w[..k] + w[k..];
    }
  }

  lemma FixedHolds(b: seq<byte>, n: nat, w: Word)
    requires n <= 32
    ensures |b| == n && w == b + Zeros(32 - n) <==> w[..n] == b && forall i :: n <= i < 32 ==> w[i] == 0
  {
    if w[..n] == b && forall i :: n <= i < 32 ==> w[i] == 0 {
      assert w[n..] == Zeros(32 - n);
      assert w == w[..n] + w[n..];
    }
  }

  /** The word of a number is the one with its value. */
  lemma {:induction false} WordOfNatural(x: nat, w: Word)
    ensures Abi.WordOf(Abi.Signed(x)) == Some(w) <==> FromBytes(w) == x
  {
    if Abi.WordOf(Abi.Signed(x)) == Some(w) { NaturalWord(x); }
    if FromBytes(w) == x {
      FromBytesBound(w);
      FixedBytesBack(w);
      PaddedIsFixed(x, 32);
    }
  }

  /** Which names are types: a list is none, a struct goes before the built-in names,
      and a size is the number its digits spell. */
  lemma {:induction false} KindMeans(types: Types, typ: string)
    ensures KindOf(types, typ + "]") == Unsupported
    ensures typ in types && !(exists t: string :: typ == t + "]") ==> KindOf(types, typ) == Struct
    ensures KindOf(map[], "string") == StringOf && KindOf(map[], "bytes") == BytesOf
    ensures KindOf(map[], "bool") == BoolOf && KindOf(map[], "address") == Address
  {
    assert (typ + "]")[|typ|] == ']';
    if typ != [] && typ[|typ| - 1] == ']' {
      assert typ == typ[..|typ| - 1] + "]";
    }
  }

  lemma {:induction false} SizedKinds(types: Types, d: string)
    requires d != "" && forall i :: 0 <= i < |d| ==> d[i] in "0123456789"
    requires "bytes" + d !in types && "uint" + d !in types && "int" + d !in types
    ensures KindOf(types, "bytes" + d) == if 1 <= Atoi(d) <= 32 then Fixed(Atoi(d)) else Unsupported
    ensures KindOf(types, "uint" + d) == UintOf(Atoi(d)) && KindOf(types, "int" + d) == IntOf(Atoi(d))
  {
    assert Digits(d);
    hide Atoi, Digits, KindOf;
    NamedSize("bytes", d);
    NamedSize("uint", d);
    NamedSize("int", d);
    OtherPrefix("uint", "bytes", d);
    OtherPrefix("int", "bytes", d);
    OtherPrefix("int", "uint", d);
    NotBuiltIn("bytes", d);
    NotBuiltIn("uint", d);
    NotBuiltIn("int", d);
    hide Sized;
    KindBySize(types, "bytes" + d);
    KindBySize(types, "uint" + d);
    KindBySize(types, "int" + d);
  }

  lemma NotBuiltIn(prefix: string, d: string)
    requires prefix in ["bytes", "uint", "int"] && d != "" && prefix != ""
    ensures prefix + d !in ["string", "bytes", "bool", "address"]
  {
    var typ := prefix + d;
    if prefix == "bytes" { assert typ[0] == 'b' && typ[1] == 'y' && |typ| > 5; }
    if prefix == "uint" { assert typ[0] == 'u'; }
    if prefix == "int" { assert typ[0] == 'i'; }
  }

  lemma KindBySize(types: Types, typ: string)
    requires typ != "" && typ !in types && typ[|typ| - 1] != ']' && typ !in ["string", "bytes", "bool", "address"]
    ensures match (Sized("bytes", typ), Sized("uint", typ), Sized("int", typ))
            case (Some(n), _, _) => KindOf(types, typ) == (if 1 <= n <= 32 then Fixed(n) else Unsupported)
            case (_, Some(bits), _) => KindOf(types, typ) == UintOf(bits)
            case (_, _, Some(bits)) => KindOf(types, typ) == IntOf(bits)
            case (_, _, _) => KindOf(types, typ) == Unsupported
  {
    hide Sized;
  }

  /** Anything but digits behind a prefix, or nothing behind a number's, is no type. */
  lemma {:induction false} OddSizes(types: Types, prefix: string, d: string)
    requires prefix in ["bytes", "uint", "int"] && prefix + d !in types
    requires if d == "" then prefix != "bytes" else exists i :: 0 <= i < |d| && d[i] !in "0123456789"
    ensures KindOf(types, prefix + d) == Unsupported
  {
    assert !Digits(d);
    assert (prefix + d)[..|prefix|] == prefix && (prefix + d)[|prefix|..] == d;
    assert Sized(prefix, prefix + d) == None;
    if prefix != "bytes" { OtherPrefix(prefix, "bytes", d); }
    if prefix != "uint" { OtherPrefix(prefix, "uint", d); }
    if prefix != "int" { OtherPrefix(prefix, "int", d); }
    hide Sized, Digits;
    if prefix == "bytes" { assert (prefix + d)[1] == 'y' && |prefix + d| > 5; }
    if prefix == "uint" { assert (prefix + d)[0] == 'u'; }
    if prefix == "int" { assert (prefix + d)[0] == 'i'; }
  }

  lemma NamedSize(prefix: string, d: string)
    requires Digits(d) && prefix != []
    ensures Sized(prefix, prefix + d) == Some(Atoi(d))
    ensures var typ := prefix + d; typ[|typ| - 1] == d[|d| - 1] && '0' <= typ[|typ| - 1] <= '9'
  {
    assert (prefix + d)[..|prefix|] == prefix && (prefix + d)[|prefix|..] == d;
  }

  lemma OtherPrefix(prefix: string, other: string, d: string)
    requires prefix != [] && other != [] && prefix[0] != other[0]
    ensures Sized(other, prefix + d) == None
  {
    if |prefix + d| >= |other| { assert (prefix + d)[..|other|][0] == prefix[0]; }
  }

  lemma SizesRead()
    ensures Digits("256") && Atoi("256") == 256 && Digits("64") && Atoi("64") == 64
    ensures Digits("32") && Atoi("32") == 32 && Digits("33") && Atoi("33") == 33 && Digits("0") && Atoi("0") == 0
  {
    assert "256"[..2] == "25" && "25"[..1] == "2" && "2"[..0] == "" && "64"[..1] == "6" && "6"[..0] == "";
    assert Atoi("2") == 2 && Atoi("25") == 25 && Atoi("6") == 6;
    assert "32"[..1] == "3" == "33"[..1] && "3"[..0] == "" && "0"[..0] == "" && Atoi("3") == 3;
  }

  /** So the sizes in use are read as they are meant. */
  lemma {:induction false} SizesInUse()
    ensures KindOf(map[], "uint" + "256") == UintOf(256) && KindOf(map[], "int" + "64") == IntOf(64)
    ensures KindOf(map[], "bytes" + "32") == Fixed(32)
    ensures KindOf(map[], "bytes" + "33") == KindOf(map[], "bytes" + "0") == Unsupported
  {
    SizesRead();
    hide KindOf, Atoi, Digits;
    assert forall s: string :: s in ["256", "64", "32", "33", "0"] ==> forall i :: 0 <= i < |s| ==> s[i] in "0123456789";
    SizedKinds(map[], "256");
    SizedKinds(map[], "64");
    SizedKinds(map[], "32");
    SizedKinds(map[], "33");
    SizedKinds(map[], "0");
  }
}
