/** The `ut_pex` message on the wire: compact address records in a bencoded dictionary. */
module PexWire {
  import opened Basics
  import opened Digits
  import opened BencodeSpec
  import opened BencodeProofs
  import opened BencodeTheorems
  import opened OrderedDict
  import opened Pex

  const ADDED: seq<byte> := [0x61, 0x64, 0x64, 0x65, 0x64]
  const ADDED_FLAGS: seq<byte> := [0x61, 0x64, 0x64, 0x65, 0x64, 0x2E, 0x66]
  const ADDED6: seq<byte> := [0x61, 0x64, 0x64, 0x65, 0x64, 0x36]
  const ADDED6_FLAGS: seq<byte> := [0x61, 0x64, 0x64, 0x65, 0x64, 0x36, 0x2E, 0x66]
  const DROPPED: seq<byte> := [0x64, 0x72, 0x6F, 0x70, 0x70, 0x65, 0x64]
  const DROPPED6: seq<byte> := [0x64, 0x72, 0x6F, 0x70, 0x70, 0x65, 0x64, 0x36]

  const MAX_ACCEPTED: nat := 200
  const LIMITS := Limits(DEFAULT_MAX_DEPTH, DEFAULT_MAX_LENGTH, false)

  datatype PexError = Empty | NoCompactForm | Unreadable | NotADict | NotAString | NotWholeRecords

  datatype Parsed = Parsed(
    added: seq<Key>, added6: seq<Key>, dropped: seq<Key>, dropped6: seq<Key>,
    flags: seq<byte>, flags6: seq<byte>, truncated: nat)

  // ----------------------------------------------------------------------- records

  /** An address that a record can carry and a receiver accepts. */
  predicate Whole(k: Key) {
    && 1 <= k.port <= 65535
    && match k.host
       case V4(o) => |o| == 4
       case V6(o) => |o| == 16
       case Name(_) => false
  }

  function RecordSize(six: bool): nat {
    if six then 18 else 6
  }

  function Pack(k: Key): seq<byte>
    requires Whole(k)
  {
    k.host.octets + [k.port / 256, k.port % 256]
  }

  function PackAll(ks: seq<Key>): seq<byte>
    requires forall k :: k in ks ==> Whole(k)
  {
    if ks == [] then [] else Pack(ks[0]) + PackAll(ks[1..])
  }

  function Unpack(record: seq<byte>, six: bool): Key
    requires |record| == RecordSize(six)
  {
    var n := |record| - 2;
    var high: nat, low: nat := record[n], record[n + 1];
    Key(if six then V6(record[..n]) else V4(record[..n]), high * 256 + low)
  }

  /** The records of a compact list; one with port 0 is passed over. */
  function UnpackAll(raw: seq<byte>, six: bool): (ks: seq<Key>)
    requires |raw| % RecordSize(six) == 0
    ensures forall k :: k in ks ==> Whole(k) && k.host.V6? == six
    decreases |raw|
  {
    if raw == [] then []
    else
      RestIsWhole(raw, RecordSize(six));
      var first := Unpack(raw[..RecordSize(six)], six);
      var rest := UnpackAll(raw[RecordSize(six)..], six);
      if first.port == 0 then rest else [first] + rest
  }

  lemma RestIsWhole(raw: seq<byte>, size: nat)
    requires (size == 6 || size == 18) && raw != [] && |raw| % size == 0
    ensures |raw| >= size && (|raw| - size) % size == 0
  {
  }

  lemma UnpackPack(k: Key)
    requires Whole(k)
    ensures |Pack(k)| == RecordSize(k.host.V6?) && Unpack(Pack(k), k.host.V6?) == k
  {
    assert Pack(k)[..|k.host.octets|] == k.host.octets;
  }

  lemma WholeRecords(n: nat, six: bool)
    ensures n * RecordSize(six) % RecordSize(six) == 0
  {
  }

  /** A compact list of one family reads back as the addresses it was made of, in order. */
  lemma {:induction false} RecordsRoundTrip(ks: seq<Key>, six: bool)
    requires forall k :: k in ks ==> Whole(k) && k.host.V6? == six
    ensures |PackAll(ks)| == |ks| * RecordSize(six)
    ensures |PackAll(ks)| % RecordSize(six) == 0 && UnpackAll(PackAll(ks), six) == ks
  {
    if ks != [] {
      RecordsRoundTrip(ks[1..], six);
      UnpackPack(ks[0]);
      var raw := PackAll(ks);
      assert raw[..RecordSize(six)] == Pack(ks[0]) && raw[RecordSize(six)..] == PackAll(ks[1..]);
      assert ks == [ks[0]] + ks[1..];
      WholeRecords(|ks|, six);
    }
  }

  // ------------------------------------------------------------------------ encode

  function FlagByte(t: Traits): byte {
    (if t.seed then 0x02 else 0) + (if t.reachable then 0x10 else 0)
  }

  /** The addresses of one family; whatever is not IPv6 is packed as IPv4. */
  function Family<V(!new)>(d: seq<Slot<Key, V>>, six: bool): (r: seq<Slot<Key, V>>)
    ensures forall s :: s in r <==> s in d && s.key.host.V6? == six
    ensures |r| <= |d|
  {
    if d == [] then []
    else if d[0].key.host.V6? == six then [d[0]] + Family(d[1..], six)
    else Family(d[1..], six)
  }

  function Addresses<V>(d: seq<Slot<Key, V>>): (r: seq<Key>)
    ensures |r| == |d| && forall i :: 0 <= i < |d| ==> r[i] == d[i].key
  {
    seq(|d|, i requires 0 <= i < |d| => d[i].key)
  }

  function FlagBytes(d: seq<Contact>): (r: seq<byte>)
    ensures |r| == |d|
  {
    seq(|d|, i requires 0 <= i < |d| => FlagByte(d[i].value))
  }

  predicate AllWhole<V>(d: seq<Slot<Key, V>>) {
    forall i :: 0 <= i < |d| ==> Whole(d[i].key)
  }

  lemma WholeFamily<V(!new)>(d: seq<Slot<Key, V>>, six: bool)
    requires AllWhole(d)
    ensures forall k :: k in Addresses(Family(d, six)) ==> Whole(k) && k.host.V6? == six
  {
    var f := Family(d, six);
    forall k | k in Addresses(f)
      ensures Whole(k) && k.host.V6? == six
    {
      var i :| 0 <= i < |f| && f[i].key == k;
      assert f[i] in d;
    }
  }

  function Compact<V(!new)>(d: seq<Slot<Key, V>>, six: bool): seq<byte>
    requires AllWhole(d)
  {
    WholeFamily(d, six);
    PackAll(Addresses(Family(d, six)))
  }

  /** A field that would be empty is left out. */
  function With(m: map<seq<byte>, Value>, k: seq<byte>, v: seq<byte>): map<seq<byte>, Value> {
    if v == [] then m else m[k := Bytes(v)]
  }

  function Body(m: Message): map<seq<byte>, Value>
    requires AllWhole(m.added) && AllWhole(m.dropped)
  {
    var b0 := With(map[], ADDED, Compact(m.added, false));
    var b1 := With(b0, ADDED_FLAGS, FlagBytes(Family(m.added, false)));
    var b2 := With(b1, ADDED6, Compact(m.added, true));
    var b3 := With(b2, ADDED6_FLAGS, FlagBytes(Family(m.added, true)));
    var b4 := With(b3, DROPPED, Compact(m.dropped, false));
    With(b4, DROPPED6, Compact(m.dropped, true))
  }

  /** `encode_pex`: an empty message is refused, and so is an address without a compact form. */
  ghost function EncodePex(m: Message): Result<seq<byte>, PexError> {
    if m.added == [] && m.dropped == [] then Err(Empty)
    else if !AllWhole(m.added) || !AllWhole(m.dropped) then Err(NoCompactForm)
    else Ok(Encode(Dict(Body(m))))
  }

  // ------------------------------------------------------------------------ decode

  function FieldOf(m: map<seq<byte>, Value>, k: seq<byte>): Result<seq<byte>, PexError> {
    if k !in m then Ok([])
    else if !m[k].Bytes? then Err(NotAString)
    else Ok(m[k].b)
  }

  function Records(m: map<seq<byte>, Value>, k: seq<byte>, six: bool): Result<seq<Key>, PexError> {
    match FieldOf(m, k)
    case Err(e) => Err(e)
    case Ok(raw) => if |raw| % RecordSize(six) != 0 then Err(NotWholeRecords) else Ok(UnpackAll(raw, six))
  }

  /** Past the cap, IPv4 addresses are kept first. */
  function Capped(added: seq<Key>, added6: seq<Key>): (r: (seq<Key>, seq<Key>, nat))
    ensures |r.0| + |r.1| + r.2 == |added| + |added6| && |r.0| + |r.1| == Min(200, |added| + |added6|)
    ensures r.0 <= added && r.1 <= added6 && (r.1 != [] ==> r.0 == added)
  {
    var total := |added| + |added6|;
    if total <= MAX_ACCEPTED then (added, added6, 0)
    else if MAX_ACCEPTED <= |added| then (added[..MAX_ACCEPTED], [], total - MAX_ACCEPTED)
    else (added, added6[..MAX_ACCEPTED - |added|], total - MAX_ACCEPTED)
  }

  /** `decode_pex`. */
  function DecodePex(payload: seq<byte>): Result<Parsed, PexError> {
    match Decode(LIMITS, payload)
    case Err(_) => Err(Unreadable)
    case Ok(v) => if !v.Dict? then Err(NotADict) else FromBody(v.entries)
  }

  function FromBody(m: map<seq<byte>, Value>): Result<Parsed, PexError> {
    var a, a6 := Records(m, ADDED, false), Records(m, ADDED6, true);
    var d, d6 := Records(m, DROPPED, false), Records(m, DROPPED6, true);
    var f, f6 := FieldOf(m, ADDED_FLAGS), FieldOf(m, ADDED6_FLAGS);
    if a.Err? then Err(a.error)
    else if a6.Err? then Err(a6.error)
    else if d.Err? then Err(d.error)
    else if d6.Err? then Err(d6.error)
    else if f.Err? then Err(f.error)
    else if f6.Err? then Err(f6.error)
    else
      var (kept, kept6, truncated) := Capped(a.value, a6.value);
      Ok(Parsed(kept, kept6, d.value, d6.value, f.value, f6.value, truncated))
  }

  // -------------------------------------------------------------------- round trip

  lemma FieldNames()
    ensures |ADDED| == 5 && |ADDED_FLAGS| == 7 && |ADDED6| == 6 && |ADDED6_FLAGS| == 8 && |DROPPED| == 7
    ensures |DROPPED6| == 8
    ensures ADDED_FLAGS != DROPPED && ADDED6_FLAGS != DROPPED6
  {
    assert ADDED_FLAGS[0] != DROPPED[0] && ADDED6_FLAGS[0] != DROPPED6[0];
  }

  lemma WithField(m: map<seq<byte>, Value>, k: seq<byte>, v: seq<byte>, j: seq<byte>)
    requires j == k ==> k !in m
    ensures FieldOf(With(m, k, v), j) == if j == k then Ok(v) else FieldOf(m, j)
  {
  }

  /** Each field of the body is the list it stands for, absent or not. */
  lemma BodyFields(m: Message, k: seq<byte>)
    requires AllWhole(m.added) && AllWhole(m.dropped)
    requires k in {ADDED, ADDED_FLAGS, ADDED6, ADDED6_FLAGS, DROPPED, DROPPED6}
    ensures FieldOf(Body(m), k) == Ok(
              if k == ADDED then Compact(m.added, false)
              else if k == ADDED_FLAGS then FlagBytes(Family(m.added, false))
              else if k == ADDED6 then Compact(m.added, true)
              else if k == ADDED6_FLAGS then FlagBytes(Family(m.added, true))
              else if k == DROPPED then Compact(m.dropped, false)
              else Compact(m.dropped, true))
  {
    FieldNames();
    var b0 := With(map[], ADDED, Compact(m.added, false));
    var b1 := With(b0, ADDED_FLAGS, FlagBytes(Family(m.added, false)));
    var b2 := With(b1, ADDED6, Compact(m.added, true));
    var b3 := With(b2, ADDED6_FLAGS, FlagBytes(Family(m.added, true)));
    var b4 := With(b3, DROPPED, Compact(m.dropped, false));
    WithField(map[], ADDED, Compact(m.added, false), k);
    WithField(b0, ADDED_FLAGS, FlagBytes(Family(m.added, false)), k);
    WithField(b1, ADDED6, Compact(m.added, true), k);
    WithField(b2, ADDED6_FLAGS, FlagBytes(Family(m.added, true)), k);
    WithField(b3, DROPPED, Compact(m.dropped, false), k);
    WithField(b4, DROPPED6, Compact(m.dropped, true), k);
  }

  // ------------------------------------------------------------------------- sizes

  ghost predicate Small(m: map<seq<byte>, Value>) {
    forall k :: k in m ==> |k| <= 8 && m[k].Bytes? && |m[k].b| <= 3600
  }

  lemma SmallWith(m: map<seq<byte>, Value>, k: seq<byte>, v: seq<byte>, n: nat)
    requires Small(m) && |m| <= n && |k| <= 8 && |v| <= 3600
    ensures Small(With(m, k, v)) && |With(m, k, v)| <= n + 1
  {
    if v != [] {
      assert m[k := Bytes(v)].Keys == m.Keys + {k};
      if k in m {
        assert m.Keys + {k} == m.Keys;
      }
    }
  }

  lemma CompactSize<V(!new)>(d: seq<Slot<Key, V>>, six: bool)
    requires AllWhole(d) && |d| <= MAX_ACCEPTED
    ensures |Compact(d, six)| <= 3600
  {
    var ks := Addresses(Family(d, six));
    WholeFamily(d, six);
    ListSize(ks, six);
    assert Compact(d, six) == PackAll(ks);
  }

  lemma ListSize(ks: seq<Key>, six: bool)
    requires (forall k :: k in ks ==> Whole(k) && k.host.V6? == six) && |ks| <= MAX_ACCEPTED
    ensures |PackAll(ks)| <= 3600
  {
    RecordsRoundTrip(ks, six);
    if six {
      assert |PackAll(ks)| == |ks| * 18;
    } else {
      assert |PackAll(ks)| == |ks| * 6;
    }
  }

  lemma BodyIsSmall(m: Message)
    requires AllWhole(m.added) && AllWhole(m.dropped) && |m.added| <= MAX_ACCEPTED && |m.dropped| <= MAX_ACCEPTED
    ensures Small(Body(m)) && |Body(m)| <= 6
  {
    FieldNames();
    CompactSize(m.added, false);
    CompactSize(m.added, true);
    CompactSize(m.dropped, false);
    CompactSize(m.dropped, true);
    var b0 := With(map[], ADDED, Compact(m.added, false));
    var b1 := With(b0, ADDED_FLAGS, FlagBytes(Family(m.added, false)));
    var b2 := With(b1, ADDED6, Compact(m.added, true));
    var b3 := With(b2, ADDED6_FLAGS, FlagBytes(Family(m.added, true)));
    var b4 := With(b3, DROPPED, Compact(m.dropped, false));
    SmallWith(map[], ADDED, Compact(m.added, false), 0);
    SmallWith(b0, ADDED_FLAGS, FlagBytes(Family(m.added, false)), 1);
    SmallWith(b1, ADDED6, Compact(m.added, true), 2);
    SmallWith(b2, ADDED6_FLAGS, FlagBytes(Family(m.added, true)), 3);
    SmallWith(b3, DROPPED, Compact(m.dropped, false), 4);
    SmallWith(b4, DROPPED6, Compact(m.dropped, true), 5);
  }

  lemma ShortText(b: seq<byte>)
    requires |b| <= 3600
    ensures |Decimal(|b|)| <= 4 && |EncodeBytes(b)| <= |b| + 5
  {
    assert Power(4) == 10000;
    DigitsBound(|b|, 4);
  }

  lemma {:induction false} PairsAreShort(d: Value, keys: seq<seq<byte>>)
    requires d.Dict? && Small(d.entries) && forall k :: k in keys ==> k in d.entries
    ensures |EncodePairs(d, keys)| <= 3700 * |keys|
  {
    if keys != [] {
      assert keys[0] in keys && forall k :: k in keys[1..] ==> k in keys;
      ShortText(keys[0]);
      ShortText(d.entries[keys[0]].b);
      PairsAreShort(d, keys[1..]);
    }
  }

  lemma SmallFits(m: map<seq<byte>, Value>)
    requires Small(m) && |m| <= 6
    ensures Within(Dict(m), 0, DEFAULT_MAX_DEPTH) && |Encode(Dict(m))| <= DEFAULT_MAX_LENGTH
  {
    SortedSize(m.Keys);
    PairsAreShort(Dict(m), Sorted(m.Keys));
    forall k | k in m
      ensures |Decimal(|k|)| <= MAX_LENGTH_DIGITS && Within(m[k], 1, DEFAULT_MAX_DEPTH)
    {
      ShortText(k);
      ShortText(m[k].b);
    }
  }

  // -------------------------------------------------------------------- round trip

  lemma RecordsOf<V(!new)>(m: Message, d: seq<Slot<Key, V>>, k: seq<byte>, six: bool)
    requires AllWhole(m.added) && AllWhole(m.dropped) && AllWhole(d) && FieldOf(Body(m), k) == Ok(Compact(d, six))
    ensures Records(Body(m), k, six) == Ok(Addresses(Family(d, six)))
  {
    WholeFamily(d, six);
    RecordsRoundTrip(Addresses(Family(d, six)), six);
  }

  ghost function WhatIsRead(m: Message): Parsed {
    Parsed(Addresses(Family(m.added, false)), Addresses(Family(m.added, true)),
           Addresses(Family(m.dropped, false)), Addresses(Family(m.dropped, true)),
           FlagBytes(Family(m.added, false)), FlagBytes(Family(m.added, true)), 0)
  }

  lemma AllFields(m: Message)
    requires AllWhole(m.added) && AllWhole(m.dropped)
    ensures FieldOf(Body(m), ADDED) == Ok(Compact(m.added, false))
    ensures FieldOf(Body(m), ADDED6) == Ok(Compact(m.added, true))
    ensures FieldOf(Body(m), DROPPED) == Ok(Compact(m.dropped, false))
    ensures FieldOf(Body(m), DROPPED6) == Ok(Compact(m.dropped, true))
    ensures FieldOf(Body(m), ADDED_FLAGS) == Ok(FlagBytes(Family(m.added, false)))
    ensures FieldOf(Body(m), ADDED6_FLAGS) == Ok(FlagBytes(Family(m.added, true)))
  {
    FieldNames();
    BodyFields(m, ADDED);
    BodyFields(m, ADDED6);
    BodyFields(m, DROPPED);
    BodyFields(m, DROPPED6);
    BodyFields(m, ADDED_FLAGS);
    BodyFields(m, ADDED6_FLAGS);
  }

  lemma BodyReadsBack(m: Message)
    requires AllWhole(m.added) && AllWhole(m.dropped) && |m.added| <= MAX_ACCEPTED
    ensures FromBody(Body(m)) == Ok(WhatIsRead(m))
  {
    AllFields(m);
    RecordsOf(m, m.added, ADDED, false);
    RecordsOf(m, m.added, ADDED6, true);
    RecordsOf(m, m.dropped, DROPPED, false);
    RecordsOf(m, m.dropped, DROPPED6, true);
    FamiliesAreAll(m.added);
  }

  lemma {:induction false} FamiliesAreAll<V(!new)>(d: seq<Slot<Key, V>>)
    ensures |Family(d, false)| + |Family(d, true)| == |d|
  {
    if d != [] {
      FamiliesAreAll(d[1..]);
    }
  }

  /** A message within the caps is read back whole: each family's addresses in order, one flag byte for
      each added address, nothing cut off. */
  lemma WireRoundTrip(m: Message)
    requires AllWhole(m.added) && AllWhole(m.dropped) && (m.added != [] || m.dropped != [])
    requires |m.added| <= MAX_ACCEPTED && |m.dropped| <= MAX_ACCEPTED
    ensures EncodePex(m).Ok? && DecodePex(EncodePex(m).value) == Ok(WhatIsRead(m))
  {
    BodyIsSmall(m);
    SmallFits(Body(m));
    RoundTrip(LIMITS, Dict(Body(m)));
    BodyReadsBack(m);
  }

  // ------------------------------------------------------------- letter by letter

  lemma NamesSpelled()
    ensures ADDED == Ascii("added") && ADDED_FLAGS == Ascii("added.f")
    ensures ADDED6 == Ascii("added6") && ADDED6_FLAGS == Ascii("added6.f")
    ensures DROPPED == Ascii("dropped") && DROPPED6 == Ascii("dropped6")
  {
  }

  /** The addresses of a family keep their order: adding one more address adds it at the end of its family. */
  lemma {:induction false} FamilyMore<V(!new)>(d: seq<Slot<Key, V>>, s: Slot<Key, V>, six: bool)
    ensures Family(d + [s], six) == Family(d, six) + if s.key.host.V6? == six then [s] else []
  {
    if d == [] {
      assert d + [s] == [s];
      assert |[s][1..]| == 0;
    } else {
      assert (d + [s])[0] == d[0] && (d + [s])[1..] == d[1..] + [s];
      FamilyMore(d[1..], s, six);
    }
  }

  /** In what a recipient decodes, bit 0x02 of a flag byte says seed, bit 0x10 says reachable, and no other bit
      is set. */
  lemma FlagsSayTraits(m: Message, i: nat)
    requires AllWhole(m.added) && AllWhole(m.dropped) && (m.added != [] || m.dropped != [])
    requires |m.added| <= MAX_ACCEPTED && |m.dropped| <= MAX_ACCEPTED
    ensures DecodePex(EncodePex(m).value).Ok?
    ensures var p, f := DecodePex(EncodePex(m).value).value, Family(m.added, false);
            && |p.flags| == |p.added| == |f|
            && (i < |f| ==> p.added[i] == f[i].key && p.flags[i] in {0x00, 0x02, 0x10, 0x12}
                            && (p.flags[i] in {0x02, 0x12} <==> f[i].value.seed)
                            && (p.flags[i] in {0x10, 0x12} <==> f[i].value.reachable))
    ensures var p, f := DecodePex(EncodePex(m).value).value, Family(m.added, true);
            && |p.flags6| == |p.added6| == |f|
            && (i < |f| ==> p.added6[i] == f[i].key && p.flags6[i] in {0x00, 0x02, 0x10, 0x12}
                            && (p.flags6[i] in {0x02, 0x12} <==> f[i].value.seed)
                            && (p.flags6[i] in {0x10, 0x12} <==> f[i].value.reachable))
  {
    WireRoundTrip(m);
  }

  lemma SampleBody()
    ensures var k := Key(V4([192, 168, 1, 2]), 6881);
            var m := Message([Slot(k, Traits(true, false))], []);
            && AllWhole(m.added) && AllWhole(m.dropped)
            && Body(m) == map[ADDED := Bytes([192, 168, 1, 2, 26, 225]), ADDED_FLAGS := Bytes([0x02])]
  {
    var k := Key(V4([192, 168, 1, 2]), 6881);
    var d := [Slot(k, Traits(true, false))];
    assert |d[1..]| == 0 && Family(d[1..], false) == [] && Family(d[1..], true) == [];
    assert Family(d, false) == d && Family(d, true) == [];
    assert Addresses(d) == [k] && |[k][1..]| == 0;
    assert PackAll([k]) == Pack(k) + [] == [192, 168, 1, 2, 26, 225];
    assert FlagBytes(d) == [0x02];
    NamesSpelled();
  }

  /** One seed, byte by byte. */
  lemma SampleMessage()
    ensures EncodePex(Message([Slot(Key(V4([192, 168, 1, 2]), 6881), Traits(true, false))], [])) ==
            Ok(Ascii("d5:added6:") + [192, 168, 1, 2, 26, 225] + Ascii("7:added.f1:") + [0x02] + Ascii("e"))
  {
    var body := map[ADDED := Bytes([192, 168, 1, 2, 26, 225]), ADDED_FLAGS := Bytes([0x02])];
    SampleBody();
    NamesSpelled();
    assert SplitsAt(ADDED, ADDED_FLAGS, 5);
    CanonicalKeyOrder(body, [ADDED, ADDED_FLAGS]);
    TwoPairs(Dict(body), ADDED, ADDED_FLAGS);
    SampleParts();
  }

  lemma SampleParts()
    ensures [TOKEN_DICT] + (EncodeBytes(Ascii("added")) + EncodeBytes([192, 168, 1, 2, 26, 225])
                            + (EncodeBytes(Ascii("added.f")) + EncodeBytes([0x02]))) + [TOKEN_END] ==
            Ascii("d5:added6:") + [192, 168, 1, 2, 26, 225] + Ascii("7:added.f1:") + [0x02] + Ascii("e")
  {
    SampleNames();
    SampleValues();
    var r := [192, 168, 1, 2, 26, 225];
    assert [TOKEN_DICT] + Ascii("5:added") + Ascii("6:") == Ascii("d5:added6:");
    assert Ascii("7:added.f") + Ascii("1:") == Ascii("7:added.f1:");
    assert [TOKEN_END] == Ascii("e");
    Regrouped([TOKEN_DICT], Ascii("5:added"), Ascii("6:"), r, Ascii("7:added.f"), Ascii("1:"), [0x02], [TOKEN_END]);
  }

  lemma Regrouped(a: seq<byte>, b: seq<byte>, c: seq<byte>, d: seq<byte>, e: seq<byte>, f: seq<byte>, g: seq<byte>,
                  h: seq<byte>)
    ensures a + (b + (c + d) + (e + (f + g))) + h == (a + b + c) + d + (e + f) + g + h
  {
  }

  lemma SampleNames()
    ensures EncodeBytes(Ascii("added")) == Ascii("5:added") && EncodeBytes(Ascii("added.f")) == Ascii("7:added.f")
  {
  }

  lemma SampleValues()
    ensures EncodeBytes([192, 168, 1, 2, 26, 225]) == Ascii("6:") + [192, 168, 1, 2, 26, 225]
    ensures EncodeBytes([0x02]) == Ascii("1:") + [0x02]
  {
  }

  ghost function KeySet(ks: seq<Key>): set<Key> {
    set k | k in ks
  }

  lemma FamiliesCover<V(!new)>(d: seq<Slot<Key, V>>)
    ensures KeySet(Addresses(Family(d, false))) + KeySet(Addresses(Family(d, true))) == Keys(d)
  {
    var f, g := Family(d, false), Family(d, true);
    forall k | k in Keys(d)
      ensures k in KeySet(Addresses(f)) || k in KeySet(Addresses(g))
    {
      var s :| s in d && s.key == k;
      var h := if k.host.V6? then g else f;
      assert s in h;
      var i :| 0 <= i < |h| && h[i] == s;
      assert Addresses(h)[i] == k;
    }
    forall k | k in KeySet(Addresses(f)) || k in KeySet(Addresses(g))
      ensures k in Keys(d)
    {
      var h := if k in KeySet(Addresses(f)) then f else g;
      var i :| 0 <= i < |h| && Addresses(h)[i] == k;
      assert h[i] in d;
    }
  }

  /** A recipient that adds and drops what it decodes ends up where the ledger's bookkeeping says. */
  lemma RecipientFollows(replica: set<Key>, m: Message)
    requires AllWhole(m.added) && AllWhole(m.dropped) && (m.added != [] || m.dropped != [])
    requires |m.added| <= MAX_ACCEPTED && |m.dropped| <= MAX_ACCEPTED
    ensures DecodePex(EncodePex(m).value).Ok?
    ensures var p := DecodePex(EncodePex(m).value).value;
            replica + (KeySet(p.added) + KeySet(p.added6)) - (KeySet(p.dropped) + KeySet(p.dropped6))
            == Received(replica, m)
  {
    WireRoundTrip(m);
    FamiliesCover(m.added);
    FamiliesCover(m.dropped);
  }

  /** Addresses are checked when they are made: a port in range, and the octets of their family. */
  ghost predicate Checked<V>(d: seq<Slot<Key, V>>) {
    forall i :: 0 <= i < |d| ==> d[i].key.host.Name? || Whole(d[i].key)
  }

  /** The ledger's build raises exactly when the encoder refuses the message it drained. */
  lemma BuildRaisesWithEncoder(l: Ledger, interval: real, before: real, after: real)
    requires Checked(l.added) && Checked(l.dropped)
    ensures Build(l, interval, before, after).1.Raised? <==>
              && Due(l, interval, before) && (NextMessage(l).added != [] || NextMessage(l).dropped != [])
              && EncodePex(NextMessage(l)).Err?
  {
    CheckedMeansPackableIsWhole(First(l.added, Cap(l)), l.added);
    CheckedMeansPackableIsWhole(First(l.dropped, MAX_PER_MESSAGE), l.dropped);
  }

  lemma CheckedMeansPackableIsWhole<V>(d: seq<Slot<Key, V>>, all: seq<Slot<Key, V>>)
    requires Checked(all) && d <= all
    ensures Packable(d) <==> AllWhole(d)
  {
    assert forall i :: 0 <= i < |d| ==> d[i] == all[i];
  }
}
