/** Lists of chunk hashes in WHOHAS and IHAVE packets: chunks2pkts and pkt2chunks of tracker.c.
    A hash is the 40 characters of its hexadecimal text, as bytes. */
module HashLists {
  import opened LinkedQueue

  const HASH_SIZE := 20        // SHA1_HASH_SIZE
  const HEX_SIZE := 2 * HASH_SIZE
  const MAX_NUM := 74          // SHA_MAX_NUM, that is (1500 - 16 - 4) / 20

  datatype PacketType = WHOHAS | IHAVE | GET | DATA | ACK | DENIED

  // ---------- The hexadecimal text of chunk.c ----------

  function ToUpper(c: bv8): bv8 { if 97 <= c <= 122 then c - 32 else c }

  // _hex2binary; the comparison is on signed characters
  function Nibble(c: bv8): bv8 {
    var u := ToUpper(c);
    if u <= 57 || u >= 128 then u - 48 else u - 55
  }

  function Byte(hi: bv8, lo: bv8): bv8 { (Nibble(hi) << 4) | Nibble(lo) }

  // hex2binary
  function HexToBinary(hex: seq<bv8>): (b: seq<bv8>)
    ensures |b| == |hex| / 2
  {
    seq(|hex| / 2, i requires 0 <= i < |hex| / 2 => Byte(hex[2 * i], hex[2 * i + 1]))
  }

  function Digit(n: bv8): bv8 { if n < 10 then 48 + n else 87 + n }

  function High(b: bv8): bv8 { Digit(b >> 4) }

  function Low(b: bv8): bv8 { Digit(b & 15) }

  // binary2hex
  function BinaryToHex(b: seq<bv8>): (hex: seq<bv8>)
    ensures |hex| == 2 * |b|
  {
    seq(2 * |b|, i requires 0 <= i < 2 * |b| => if i % 2 == 0 then High(b[i / 2]) else Low(b[i / 2]))
  }

  predicate IsHexDigit(c: bv8) { 48 <= c <= 57 || 65 <= c <= 70 || 97 <= c <= 102 }

  function ToLower(c: bv8): bv8 { if 65 <= c <= 90 then c + 32 else c }

  predicate IsHexText(s: seq<bv8>) { forall i :: 0 <= i < |s| ==> IsHexDigit(s[i]) }

  function Lower(s: seq<bv8>): (l: seq<bv8>)
    ensures |l| == |s|
  {
    seq(|s|, i requires 0 <= i < |s| => ToLower(s[i]))
  }

  lemma DigitsOfByte(c: bv8, d: bv8)
    requires IsHexDigit(c) && IsHexDigit(d)
    ensures High(Byte(c, d)) == ToLower(c) && Low(Byte(c, d)) == ToLower(d)
  {
  }

  lemma ByteOfDigits(x: bv8)
    ensures Byte(High(x), Low(x)) == x
  {
  }

  /** Reading hexadecimal text and writing it again only changes capitals to small letters. */
  lemma HexRoundTrip(hex: seq<bv8>)
    requires IsHexText(hex) && |hex| % 2 == 0
    ensures BinaryToHex(HexToBinary(hex)) == Lower(hex)
  {
    forall i | 0 <= i < |hex|
      ensures BinaryToHex(HexToBinary(hex))[i] == Lower(hex)[i]
    {
      var k := i / 2;
      assert i == 2 * k || i == 2 * k + 1;
      DigitsOfByte(hex[2 * k], hex[2 * k + 1]);
    }
  }

  /** Writing bytes as text and reading them again is the identity. */
  lemma BinaryRoundTrip(b: seq<bv8>)
    ensures HexToBinary(BinaryToHex(b)) == b
  {
    forall i | 0 <= i < |b|
      ensures HexToBinary(BinaryToHex(b))[i] == b[i]
    {
      var hex := BinaryToHex(b);
      assert hex[2 * i] == High(b[i]) && hex[2 * i + 1] == Low(b[i]);
      ByteOfDigits(b[i]);
    }
  }

  // ---------- Packets of hashes ----------

  type Hash = seq<bv8>

  predicate AreHashes(hs: seq<Hash>) { forall i :: 0 <= i < |hs| ==> |hs[i]| == HEX_SIZE }

  /** The number of packets for n hashes. */
  function PacketCount(n: nat): nat { n / MAX_NUM + (if n % MAX_NUM > 0 then 1 else 0) }

  /** The number of hashes in packet i of the packets for n hashes; the last one gets n % 74, even if that is 0. */
  function Share(n: nat, i: nat): (k: nat)
    requires i < PacketCount(n)
    ensures k <= MAX_NUM && MAX_NUM * i + k <= n
  {
    assert n == MAX_NUM * (n / MAX_NUM) + n % MAX_NUM;
    if i < PacketCount(n) - 1 then MAX_NUM else n % MAX_NUM
  }

  function Group(hs: seq<Hash>, i: nat): (g: seq<Hash>)
    requires i < PacketCount(|hs|)
    ensures |g| == Share(|hs|, i)
  {
    hs[MAX_NUM * i..MAX_NUM * i + Share(|hs|, i)]
  }

  /** A payload holds the number of hashes, three zero bytes and the hashes, 20 bytes each. */
  ghost predicate IsPayload(data: seq<bv8>, hs: seq<Hash>) {
    && |hs| <= MAX_NUM && AreHashes(hs)
    && |data| == 4 + HASH_SIZE * |hs|
    && data[0] as int == |hs| && data[1] == data[2] == data[3] == 0
    && forall i :: 0 <= i < |hs| ==> Field(data, i) == HexToBinary(hs[i])
  }

  function Field(data: seq<bv8>, i: nat): seq<bv8>
    requires 4 + HASH_SIZE * (i + 1) <= |data|
  {
    data[4 + HASH_SIZE * i..4 + HASH_SIZE * (i + 1)]
  }

  ghost predicate ArePayloads(pkts: seq<seq<bv8>>, hs: seq<Hash>) {
    && |pkts| == PacketCount(|hs|)
    && forall i :: 0 <= i < |pkts| ==> IsPayload(pkts[i], Group(hs, i))
  }

  lemma CountByte(n: nat)
    requires n <= MAX_NUM
    ensures (n as bv8) as int == n
  {
  }

  /** The memcpy of one hash behind those before it. */
  method PutField(data: array<bv8>, idx: nat, bin: seq<bv8>)
    requires |bin| == HASH_SIZE && 4 + HASH_SIZE * (idx + 1) <= data.Length
    modifies data
    ensures forall j :: 0 <= j < 4 + HASH_SIZE * idx ==> data[j] == old(data[j])
    ensures Field(data[..], idx) == bin
  {
    forall j | 0 <= j < HASH_SIZE {
      data[4 + HASH_SIZE * idx + j] := bin[j];
    }
  }

  lemma FieldsStay(before: seq<bv8>, after: seq<bv8>, idx: nat)
    requires |before| == |after| >= 4 + HASH_SIZE * idx
    requires forall j :: 0 <= j < 4 + HASH_SIZE * idx ==> after[j] == before[j]
    ensures forall i :: 0 <= i < idx ==> Field(after, i) == Field(before, i)
  {
  }

  method FillPayload(hs: seq<Hash>) returns (payload: seq<bv8>)
    requires |hs| <= MAX_NUM && AreHashes(hs)
    ensures IsPayload(payload, hs)
  {
    var data := new bv8[4 + HASH_SIZE * |hs|](_ => 0);
    data[0] := |hs| as bv8;
    var idx := 0;
    while idx < |hs|
      invariant 0 <= idx <= |hs|
      invariant data[0] == |hs| as bv8 && data[1] == data[2] == data[3] == 0
      invariant forall i :: 0 <= i < idx ==> Field(data[..], i) == HexToBinary(hs[i])
    {
      ghost var before := data[..];
      PutField(data, idx, HexToBinary(hs[idx]));
      FieldsStay(before, data[..], idx);
      idx := idx + 1;
    }
    CountByte(|hs|);
    payload := data[..];
  }

  // chunks2pkts: the payloads of its packets
  method Chunks2Pkts(hs: seq<Hash>, kind: PacketType) returns (pkts: Option<seq<seq<bv8>>>)
    requires AreHashes(hs)
    ensures pkts == None <==> kind != WHOHAS && kind != IHAVE
    ensures pkts.Some? ==> ArePayloads(pkts.value, hs)
    ensures pkts.Some? ==> forall i :: 0 <= i < |pkts.value| ==> 16 + |pkts.value[i]| <= 1500
  {
    if kind != WHOHAS && kind != IHAVE {
      return None;
    }
    var num := |hs| / MAX_NUM + (if |hs| % MAX_NUM > 0 then 1 else 0);
    var cur := 0;
    var payloads: seq<seq<bv8>> := [];
    for i := 0 to num
      invariant |payloads| == i && (i < num ==> cur == MAX_NUM * i)
      invariant forall k :: 0 <= k < i ==> IsPayload(payloads[k], Group(hs, k))
    {
      var sha1Num := if i < num - 1 then MAX_NUM else |hs| % MAX_NUM;
      assert Group(hs, i) == hs[cur..cur + sha1Num];
      var payload := FillPayload(hs[cur..cur + sha1Num]);
      payloads := payloads + [payload];
      cur := cur + sha1Num;
    }
    pkts := Some(payloads);
  }

  /** The number of hashes a receiver reads: the first byte as a signed character. */
  function Announced(data: seq<bv8>): nat
    requires |data| >= 4
  {
    var n := data[0] as nat; if n < 128 then n else 0
  }

  /** All announced hashes lie within the data. */
  predicate WellSized(data: seq<bv8>) { |data| >= 4 && |data| >= 4 + HASH_SIZE * Announced(data) }

  function Parse(data: seq<bv8>): seq<Hash>
    requires WellSized(data)
  {
    seq(Announced(data), i requires 0 <= i < Announced(data) => BinaryToHex(Field(data, i)))
  }

  /** Behind the header, the receive buffer holds the hashes for every count up to 74, however short the packet. */
  lemma BufferHolds(data: seq<bv8>)
    requires |data| == 1500 - 16
    ensures WellSized(data) <==> Announced(data) <= 74
  {
  }

  /** What lies behind the announced hashes does not matter. */
  lemma RestIgnored(data: seq<bv8>, rest: seq<bv8>)
    requires WellSized(data)
    ensures WellSized(data + rest) && Parse(data + rest) == Parse(data)
  {
    forall i | 0 <= i < Announced(data) ensures Field(data + rest, i) == Field(data, i) {
    }
  }

  // As far as any count makes pkt2chunks read
  const READABLE := 4 + HASH_SIZE * 127

  // pkt2chunks: the hashes of its chunks; data is the memory from the payload on: the rest of the receive buffer, and
  // what lies behind it, which is read for counts above 74
  method Pkt2Chunks(data: seq<bv8>, kind: PacketType) returns (hs: Option<seq<Hash>>)
    requires |data| >= READABLE
    ensures WellSized(data)
    ensures hs == if kind == WHOHAS || kind == IHAVE then Some(Parse(data)) else None
  {
    if kind != WHOHAS && kind != IHAVE {
      return None;
    }
    var list: seq<Hash> := [];
    var i := 0;
    while i < Announced(data)
      invariant 0 <= i <= Announced(data)
      invariant list == Parse(data)[..i]
    {
      list := list + [BinaryToHex(data[4 + i * HASH_SIZE..4 + i * HASH_SIZE + HASH_SIZE])];
      i := i + 1;
    }
    assert Parse(data)[..Announced(data)] == Parse(data);
    hs := Some(list);
  }

  // ---------- Round trip ----------

  function ParseAll(pkts: seq<seq<bv8>>): seq<Hash>
    requires forall i :: 0 <= i < |pkts| ==> WellSized(pkts[i])
  {
    if pkts == [] then [] else ParseAll(pkts[..|pkts| - 1]) + Parse(pkts[|pkts| - 1])
  }

  function LowerAll(hs: seq<Hash>): (l: seq<Hash>)
    ensures |l| == |hs|
  {
    seq(|hs|, i requires 0 <= i < |hs| => Lower(hs[i]))
  }

  predicate AreHexTexts(hs: seq<Hash>) { AreHashes(hs) && forall i :: 0 <= i < |hs| ==> IsHexText(hs[i]) }

  lemma AnnouncedPayload(data: seq<bv8>, hs: seq<Hash>)
    requires IsPayload(data, hs)
    ensures Announced(data) == |hs|
  {
  }

  lemma ParsePayload(data: seq<bv8>, hs: seq<Hash>)
    requires IsPayload(data, hs) && AreHexTexts(hs)
    ensures WellSized(data) && Parse(data) == LowerAll(hs)
  {
    AnnouncedPayload(data, hs);
    forall i | 0 <= i < |hs|
      ensures BinaryToHex(Field(data, i)) == Lower(hs[i])
    {
      assert Field(data, i) == HexToBinary(hs[i]);
      HexRoundTrip(hs[i]);
    }
  }

  /** The number of hashes that survive: all n, except that a positive multiple of 74 loses its last 74. */
  function Kept(n: nat): (k: nat)
    ensures k <= n
  {
    if n > 0 && n % MAX_NUM == 0 then n - MAX_NUM else n
  }

  /** The number of hashes in the first i packets. */
  function Before(n: nat, i: nat): (k: nat)
    requires i <= PacketCount(n)
    ensures k <= n
  {
    if i == 0 then 0 else MAX_NUM * (i - 1) + Share(n, i - 1)
  }

  lemma GroupsMeet(n: nat, i: nat)
    requires i <= PacketCount(n)
    ensures Before(n, i) == if i < PacketCount(n) then MAX_NUM * i else Kept(n)
  {
    assert n == MAX_NUM * (n / MAX_NUM) + n % MAX_NUM;
  }

  lemma LowerAppend(a: seq<Hash>, b: seq<Hash>)
    ensures LowerAll(a + b) == LowerAll(a) + LowerAll(b)
  {
  }

  lemma ParseAllStep(pkts: seq<seq<bv8>>, k: nat)
    requires 0 < k <= |pkts| && forall i :: 0 <= i < |pkts| ==> WellSized(pkts[i])
    ensures ParseAll(pkts[..k]) == ParseAll(pkts[..k - 1]) + Parse(pkts[k - 1])
  {
    assert pkts[..k][..k - 1] == pkts[..k - 1];
  }

  lemma PrefixStep(hs: seq<Hash>, k: nat)
    requires 0 < k <= PacketCount(|hs|)
    ensures hs[..Before(|hs|, k)] == hs[..Before(|hs|, k - 1)] + Group(hs, k - 1)
  {
    GroupsMeet(|hs|, k - 1);
  }

  lemma {:induction false} ParseGroups(pkts: seq<seq<bv8>>, hs: seq<Hash>, k: nat)
    requires AreHexTexts(hs) && ArePayloads(pkts, hs) && k <= |pkts|
    requires forall i :: 0 <= i < |pkts| ==> WellSized(pkts[i])
    ensures ParseAll(pkts[..k]) == LowerAll(hs[..Before(|hs|, k)])
  {
    if k > 0 {
      ParseGroups(pkts, hs, k - 1);
      ParsePayload(pkts[k - 1], Group(hs, k - 1));
      ParseAllStep(pkts, k);
      PrefixStep(hs, k);
      LowerAppend(hs[..Before(|hs|, k - 1)], Group(hs, k - 1));
    }
  }

  /** Sending a list of hashes in packets and reading them in order returns the list in small letters,
      if and only if its length is 0 or not a multiple of 74; otherwise the last 74 hashes are lost. */
  lemma HashListRoundTrip(pkts: seq<seq<bv8>>, hs: seq<Hash>)
    requires AreHexTexts(hs) && ArePayloads(pkts, hs)
    ensures forall i :: 0 <= i < |pkts| ==> WellSized(pkts[i])
    ensures ParseAll(pkts) == LowerAll(hs[..Kept(|hs|)])
    ensures ParseAll(pkts) == LowerAll(hs) <==> |hs| == 0 || |hs| % 74 != 0
  {
    forall i | 0 <= i < |pkts|
      ensures WellSized(pkts[i])
    {
      ParsePayload(pkts[i], Group(hs, i));
    }
    ParseGroups(pkts, hs, |pkts|);
    GroupsMeet(|hs|, |pkts|);
    assert pkts[..|pkts|] == pkts;
    assert Kept(|hs|) == |hs| ==> hs[..Kept(|hs|)] == hs;
    assert |LowerAll(hs[..Kept(|hs|)])| == Kept(|hs|);
  }
}
