/** The crash capsule as bytes: sections after an 80-byte header, all checksummed. */
module Capsule {
  import opened Base
  import opened Crc

  const HEADER_LEN: nat := 80
  const SECTION_HEADER_LEN: nat := 16
  const MAX_SECTIONS: nat := 256
  const MAX_CAPSULE: nat := 0x100_0000
  const U32_END: nat := 0x1_0000_0000

  type Bytes = seq<Byte>

  // --------------------------------------------------------------- little endian

  function Power256(k: nat): (p: nat)
    ensures 0 < p
  {
    if k == 0 then 1 else 256 * Power256(k - 1)
  }

  function LittleEndian(n: nat, k: nat): (s: Bytes)
    ensures |s| == k
    decreases k
  {
    if k == 0 then [] else [n % 256] + LittleEndian(n / 256, k - 1)
  }

  function Value(s: Bytes): nat {
    if s == [] then 0 else s[0] + 256 * Value(s[1..])
  }

  lemma {:induction false} ValueBound(s: Bytes)
    ensures Value(s) < Power256(|s|)
  {
    if s != [] {
      ValueBound(s[1..]);
    }
  }

  lemma {:induction false} ReadsBack(n: nat, k: nat)
    requires n < Power256(k)
    ensures Value(LittleEndian(n, k)) == n
    decreases k
  {
    if 0 < k {
      ReadsBack(n / 256, k - 1);
      assert LittleEndian(n, k)[1..] == LittleEndian(n / 256, k - 1);
    }
  }

  lemma {:induction false} WritesBack(s: Bytes)
    ensures LittleEndian(Value(s), |s|) == s
  {
    if s != [] {
      WritesBack(s[1..]);
      assert Value(s) % 256 == s[0] && Value(s) / 256 == Value(s[1..]);
      assert s == [s[0]] + s[1..];
    }
  }

  lemma Powers()
    ensures Power256(1) == 256 && Power256(2) == 0x1_0000 && Power256(4) == U32_END && Power256(8) == U64_END
  {
    assert Power256(4) == 256 * Power256(3) == 256 * (256 * Power256(2));
    assert Power256(8) == 256 * (256 * (256 * (256 * Power256(4))));
  }

  // -------------------------------------------------------------------- sections

  datatype Section = Section(kind: nat, version: nat, flags: nat, payload: Bytes)

  predicate SectionOk(s: Section) {
    s.kind < 0x1_0000 && s.version < 0x1_0000 && s.flags < U32_END && |s.payload| < U32_END
  }

  function SectionHeader(s: Section): (h: Bytes)
    ensures |h| == 16
  {
    LittleEndian(s.kind, 2) + LittleEndian(s.version, 2) + LittleEndian(|s.payload|, 4) + LittleEndian(s.flags, 4)
    + LittleEndian(Crc32(s.payload), 4)
  }

  function EncodeSection(s: Section): Bytes {
    SectionHeader(s) + s.payload
  }

  function EncodeSections(ss: seq<Section>): Bytes {
    if ss == [] then [] else EncodeSection(ss[0]) + EncodeSections(ss[1..])
  }

  lemma {:induction false} EncodeAppend(ss: seq<Section>, s: Section)
    ensures EncodeSections(ss + [s]) == EncodeSections(ss) + EncodeSection(s)
  {
    hide EncodeSection;
    if ss == [] {
      assert [s][1..] == [];
    } else {
      assert (ss + [s])[1..] == ss[1..] + [s];
      EncodeAppend(ss[1..], s);
    }
  }

  datatype DecodeError =
    | TruncatedHeader | BadMagic | UnsupportedSchema | UnsupportedHeaderLength | InvalidTotalLength | TruncatedPayload
    | HeaderCrcMismatch | PayloadCrcMismatch | TooManySections | TruncatedSectionHeader | InvalidSectionLength
    | SectionCrcMismatch

  /** The five header fields of a section, read from its first 16 bytes. */
  function ReadKind(h: Bytes): nat
    requires 16 <= |h|
  {
    Value(h[0..2])
  }

  function ReadLength(h: Bytes): nat
    requires 16 <= |h|
  {
    Value(h[4..8])
  }

  /** The section at the front of a body. */
  function FrontSection(body: Bytes): (r: Result<Section, DecodeError>)
    ensures r.Ok? ==> 16 + |r.value.payload| <= |body|
  {
    hide Crc32;
    if |body| < 16 then Err(TruncatedSectionHeader)
    else if |body| < 16 + ReadLength(body) then Err(InvalidSectionLength)
    else
      var payload := body[16..16 + ReadLength(body)];
      if Crc32(payload) != Value(body[12..16]) then Err(SectionCrcMismatch)
      else Ok(Section(ReadKind(body), Value(body[2..4]), Value(body[8..12]), payload))
  }

  /** The decoder's walk, as a function of the bytes still to be read. */
  function ParseBody(body: Bytes, count: nat): Result<seq<Section>, DecodeError>
    decreases |body|
  {
    hide FrontSection, Crc32;
    if body == [] then Ok([])
    else if MAX_SECTIONS <= count then Err(TooManySections)
    else match FrontSection(body)
      case Err(e) => Err(e)
      case Ok(s) =>
        match ParseBody(body[16 + |s.payload|..], count + 1)
        case Err(e) => Err(e)
        case Ok(rest) => Ok([s] + rest)
  }

  lemma HeaderFields(s: Section, rest: Bytes)
    ensures var h := SectionHeader(s) + rest;
            && h[0..2] == LittleEndian(s.kind, 2) && h[2..4] == LittleEndian(s.version, 2)
            && h[4..8] == LittleEndian(|s.payload|, 4) && h[8..12] == LittleEndian(s.flags, 4)
            && h[12..16] == LittleEndian(Crc32(s.payload), 4) && h[16..] == rest
  {
    hide Crc32;
  }

  /** An encoded section is read back whatever follows it. */
  lemma FrontReadsBack(s: Section, rest: Bytes)
    requires SectionOk(s)
    ensures FrontSection(EncodeSection(s) + rest) == Ok(s)
    ensures |EncodeSection(s)| == 16 + |s.payload| && (EncodeSection(s) + rest)[16 + |s.payload|..] == rest
  {
    hide Crc32, LittleEndian, Value, Power256;
    var body := EncodeSection(s) + rest;
    assert body == SectionHeader(s) + (s.payload + rest);
    HeaderFields(s, s.payload + rest);
    Powers();
    ReadsBack(s.kind, 2);
    ReadsBack(s.version, 2);
    ReadsBack(|s.payload|, 4);
    ReadsBack(s.flags, 4);
    ReadsBack(Crc32(s.payload), 4);
    assert body[16..16 + |s.payload|] == s.payload;
  }

  /** A field read from bytes is in range and writes those bytes back. */
  lemma FieldBack(body: Bytes, i: nat, k: nat)
    requires i + k <= |body|
    ensures Value(body[i..i + k]) < Power256(k) && LittleEndian(Value(body[i..i + k]), k) == body[i..i + k]
  {
    ValueBound(body[i..i + k]);
    WritesBack(body[i..i + k]);
  }

  lemma HeaderPieces(body: Bytes)
    requires 16 <= |body|
    ensures body[0..2] + body[2..4] + body[4..8] + body[8..12] + body[12..16] == body[..16]
  {
  }

  /** A section that is read is, byte for byte, the encoding of what was read. */
  lemma FrontWritesBack(body: Bytes)
    requires FrontSection(body).Ok?
    ensures var s := FrontSection(body).value;
            SectionOk(s) && 16 + |s.payload| <= |body| && EncodeSection(s) == body[..16 + |s.payload|]
  {
    hide Crc32, LittleEndian, Value, Power256;
    var s := FrontSection(body).value;
    Powers();
    FieldBack(body, 0, 2);
    FieldBack(body, 2, 2);
    FieldBack(body, 4, 4);
    FieldBack(body, 8, 4);
    FieldBack(body, 12, 4);
    HeaderPieces(body);
    assert SectionHeader(s) == body[..16];
  }

  predicate SectionsOk(ss: seq<Section>) {
    forall i | 0 <= i < |ss| :: SectionOk(ss[i])
  }

  /** The walk recovers exactly the sections that were written, unless there are more than 256. */
  lemma {:induction false} BodyReadsBack(ss: seq<Section>, count: nat)
    requires SectionsOk(ss) && count <= MAX_SECTIONS
    ensures ParseBody(EncodeSections(ss), count) ==
            if count + |ss| <= MAX_SECTIONS then Ok(ss) else Err(TooManySections)
  {
    hide Crc32, FrontSection, EncodeSection;
    if ss != [] {
      FrontReadsBack(ss[0], EncodeSections(ss[1..]));
      if count < MAX_SECTIONS {
        BodyReadsBack(ss[1..], count + 1);
        assert [ss[0]] + ss[1..] == ss;
      }
    }
  }

  /** Conversely an accepted walk tiles the body with the encodings of its sections. */
  lemma {:induction false} BodyWritesBack(body: Bytes, count: nat)
    requires ParseBody(body, count).Ok? && count <= MAX_SECTIONS
    ensures var ss := ParseBody(body, count).value;
            SectionsOk(ss) && count + |ss| <= MAX_SECTIONS && EncodeSections(ss) == body
    decreases |body|
  {
    hide Crc32, FrontSection, EncodeSection;
    if body != [] {
      FrontWritesBack(body);
      var s := FrontSection(body).value;
      var rest := body[16 + |s.payload|..];
      BodyWritesBack(rest, count + 1);
      var ss := ParseBody(body, count).value;
      assert ss[1..] == ParseBody(rest, count + 1).value;
      assert body == body[..16 + |s.payload|] + rest;
    }
  }

  // ---------------------------------------------------------------------- header

  datatype Header = Header(
    flags: nat, runId: Bytes, buildId: Bytes, ownerCpu: Byte, onlineMask: Byte, capturedMask: Byte, recordKind: Byte,
    sequence: nat)

  predicate HeaderOk(h: Header) {
    h.flags < U64_END && |h.runId| == 16 && |h.buildId| == 20 && h.sequence < U64_END
  }

  /** "AGCRASH" and a zero byte. */
  function Magic(): (m: Bytes)
    ensures |m| == 8
  {
    [0x41, 0x47, 0x43, 0x52, 0x41, 0x53, 0x48, 0x00]
  }

  function HeaderFront(h: Header, total: nat, payloadCrc: nat): (b: Bytes)
    requires HeaderOk(h)
    ensures |b| == 76
  {
    Magic() + LittleEndian(1, 2) + LittleEndian(HEADER_LEN, 2) + LittleEndian(total, 4) + LittleEndian(h.flags, 8)
    + h.runId + h.buildId + [h.ownerCpu, h.onlineMask, h.capturedMask, h.recordKind]
    + LittleEndian(h.sequence, 8) + LittleEndian(payloadCrc, 4)
  }

  /** The checksum of a header counts its own field as zero. */
  function HeaderCrc(front: Bytes): nat {
    Crc32(front + [0, 0, 0, 0])
  }

  function EncodeHeader(h: Header, total: nat, payloadCrc: nat): (b: Bytes)
    requires HeaderOk(h)
    ensures |b| == 80
  {
    var front := HeaderFront(h, total, payloadCrc);
    front + LittleEndian(HeaderCrc(front), 4)
  }

  function Encode(h: Header, ss: seq<Section>): Bytes
    requires HeaderOk(h)
  {
    var body := EncodeSections(ss);
    EncodeHeader(h, HEADER_LEN + |body|, Crc32(body)) + body
  }

  datatype Report = Report(header: Header, sections: seq<Section>, end: nat)

  function ReadHeader(b: Bytes): (h: Header)
    requires |b| == 80
    ensures |h.runId| == 16 && |h.buildId| == 20
  {
    Header(Value(b[16..24]), b[24..40], b[40..60], b[60], b[61], b[62], b[63], Value(b[64..72]))
  }

  /** The decoder's checks on a blob that begins with a capsule. */
  function ParseAt(blob: Bytes): Result<(Header, seq<Section>, nat), DecodeError> {
    if |blob| < 80 then Err(TruncatedHeader)
    else if blob[..8] != Magic() then Err(BadMagic)
    else if Value(blob[8..10]) != 1 then Err(UnsupportedSchema)
    else if Value(blob[10..12]) != HEADER_LEN then Err(UnsupportedHeaderLength)
    else
      var total := Value(blob[12..16]);
      if total < HEADER_LEN || MAX_CAPSULE < total then Err(InvalidTotalLength)
      else if |blob| < total then Err(TruncatedPayload)
      else if HeaderCrc(blob[..76]) != Value(blob[76..80]) then Err(HeaderCrcMismatch)
      else if Crc32(blob[80..total]) != Value(blob[72..76]) then Err(PayloadCrcMismatch)
      else match ParseBody(blob[80..total], 0)
        case Err(e) => Err(e)
        case Ok(ss) => Ok((ReadHeader(blob[..80]), ss, total))
  }

  lemma FrontFields(h: Header, total: nat, crc: nat)
    requires HeaderOk(h)
    ensures var b := HeaderFront(h, total, crc);
            && b[..8] == Magic() && b[8..10] == LittleEndian(1, 2) && b[10..12] == LittleEndian(HEADER_LEN, 2)
            && b[12..16] == LittleEndian(total, 4) && b[16..24] == LittleEndian(h.flags, 8)
            && b[24..40] == h.runId && b[40..60] == h.buildId
            && b[60..64] == [h.ownerCpu, h.onlineMask, h.capturedMask, h.recordKind]
            && b[64..72] == LittleEndian(h.sequence, 8) && b[72..76] == LittleEndian(crc, 4)
  {
    hide Crc32, LittleEndian, Magic;
    var a := Magic() + LittleEndian(1, 2) + LittleEndian(HEADER_LEN, 2) + LittleEndian(total, 4)
             + LittleEndian(h.flags, 8);
    var m := h.runId + h.buildId + [h.ownerCpu, h.onlineMask, h.capturedMask, h.recordKind];
    var z := LittleEndian(h.sequence, 8) + LittleEndian(crc, 4);
    var b := HeaderFront(h, total, crc);
    assert b == a + m + z;
    assert b[..24] == a && b[24..64] == m && b[64..] == z;
    Pieces(b, a, m, z);
  }

  lemma Pieces(b: Bytes, a: Bytes, m: Bytes, z: Bytes)
    requires b == a + m + z && |a| == 24 && |m| == 40 && |z| == 12
    ensures b[..8] == a[..8] && b[8..10] == a[8..10] && b[10..12] == a[10..12] && b[12..16] == a[12..16]
    ensures b[16..24] == a[16..24] && b[24..40] == m[..16] && b[40..60] == m[16..36] && b[60..64] == m[36..]
    ensures b[64..72] == z[..8] && b[72..76] == z[8..]
  {
  }

  lemma EncodedParts(h: Header, total: nat, crc: nat, body: Bytes)
    requires HeaderOk(h)
    ensures var front := HeaderFront(h, total, crc);
            var blob := EncodeHeader(h, total, crc) + body;
            && blob[..80] == EncodeHeader(h, total, crc) && blob[..76] == front && blob[80..] == body
            && blob[76..80] == LittleEndian(HeaderCrc(front), 4)
            && (forall i, j | 0 <= i <= j <= 76 :: blob[i..j] == front[i..j])
  {
    hide HeaderFront, LittleEndian, HeaderCrc;
    var front := HeaderFront(h, total, crc);
    var blob := EncodeHeader(h, total, crc) + body;
    forall i, j | 0 <= i <= j <= 76
      ensures blob[i..j] == front[i..j]
    {
    }
  }

  lemma HeaderReadsBack(h: Header, total: nat, crc: nat)
    requires HeaderOk(h)
    ensures ReadHeader(EncodeHeader(h, total, crc)) == h
  {
    hide HeaderFront, LittleEndian, HeaderCrc, Value, Power256;
    var b := EncodeHeader(h, total, crc);
    EncodedParts(h, total, crc, []);
    assert b + [] == b;
    FrontFields(h, total, crc);
    Powers();
    ReadsBack(h.flags, 8);
    ReadsBack(h.sequence, 8);
    assert b[60..64][0] == b[60] && b[60..64][1] == b[61] && b[60..64][2] == b[62] && b[60..64][3] == b[63];
  }

  /**
   Framing round trip: whatever follows it, an encoded capsule passes every check
   and gives back its header and exactly its sections.
   */
  lemma RoundTrip(h: Header, ss: seq<Section>, tail: Bytes)
    requires HeaderOk(h) && SectionsOk(ss) && |Encode(h, ss)| <= MAX_CAPSULE
    ensures ParseAt(Encode(h, ss) + tail) ==
            if |ss| <= MAX_SECTIONS then Ok((h, ss, |Encode(h, ss)|)) else Err(TooManySections)
  {
    hide Crc32, LittleEndian, Value, Power256, HeaderFront, EncodeHeader, EncodeSections, ParseBody, HeaderCrc,
         ReadHeader, Magic;
    var body := EncodeSections(ss);
    var total, crc := HEADER_LEN + |body|, Crc32(body);
    var blob := Encode(h, ss) + tail;
    assert blob == EncodeHeader(h, total, crc) + (body + tail);
    EncodedParts(h, total, crc, body + tail);
    FrontFields(h, total, crc);
    Powers();
    ReadsBack(1, 2);
    ReadsBack(HEADER_LEN, 2);
    ReadsBack(total, 4);
    ReadsBack(crc, 4);
    HeaderCrcSmall(blob[..76]);
    ReadsBack(HeaderCrc(blob[..76]), 4);
    BodySlice(blob, EncodeHeader(h, total, crc), body, tail);
    HeaderReadsBack(h, total, crc);
    BodyReadsBack(ss, 0);
  }

  lemma HeaderCrcSmall(front: Bytes)
    ensures HeaderCrc(front) < U32_END
  {
  }

  lemma BodySlice(blob: Bytes, header: Bytes, body: Bytes, tail: Bytes)
    requires |header| == 80 && blob == header + (body + tail)
    ensures blob[80..80 + |body|] == body
  {
  }

  /** And only encodings pass: what the decoder accepts is, byte for byte, the encoding of its report. */
  lemma AcceptedIsEncoded(blob: Bytes)
    requires ParseAt(blob).Ok?
    ensures var (h, ss, total) := ParseAt(blob).value;
            && HeaderOk(h) && SectionsOk(ss) && |ss| <= MAX_SECTIONS && total <= |blob|
                    && blob[..total] == Encode(h, ss)
  {
    hide Crc32, LittleEndian, Value, Power256, ParseBody, EncodeSections, HeaderFront, Magic;
    var (h, ss, total) := ParseAt(blob).value;
    BodyWritesBack(blob[80..total], 0);
    HeaderWritesBack(blob, total);
    FieldBack(blob, 76, 4);
    assert blob[..76] + blob[76..80] == blob[..80];
    assert blob[..total] == blob[..80] + blob[80..total];
  }

  lemma HeaderWritesBack(blob: Bytes, total: nat)
    requires 80 <= |blob| && blob[..8] == Magic() && Value(blob[8..10]) == 1 && Value(blob[10..12]) == HEADER_LEN
    requires Value(blob[12..16]) == total
    ensures HeaderOk(ReadHeader(blob[..80]))
    ensures HeaderFront(ReadHeader(blob[..80]), total, Value(blob[72..76])) == blob[..76]
  {
    hide LittleEndian, Value, Power256, Magic;
    var h := ReadHeader(blob[..80]);
    Powers();
    FieldBack(blob, 8, 2);
    FieldBack(blob, 10, 2);
    FieldBack(blob, 12, 4);
    FieldBack(blob, 16, 8);
    FieldBack(blob, 64, 8);
    FieldBack(blob, 72, 4);
    SameSlices(blob);
    FrontPieces(blob);
  }

  lemma SameSlices(blob: Bytes)
    requires 80 <= |blob|
    ensures blob[..80][16..24] == blob[16..24] && blob[..80][24..40] == blob[24..40]
            && blob[..80][40..60] == blob[40..60]
    ensures blob[..80][64..72] == blob[64..72]
  {
  }

  lemma FrontPieces(blob: Bytes)
    requires 80 <= |blob|
    ensures blob[..8] + blob[8..10] + blob[10..12] + blob[12..16] + blob[16..24] + blob[24..40] + blob[40..60]
            + [blob[60], blob[61], blob[62], blob[63]] + blob[64..72] + blob[72..76] == blob[..76]
  {
    assert blob[..8] + blob[8..10] + blob[10..12] + blob[12..16] + blob[16..24] == blob[..24];
    assert blob[..24] + blob[24..40] + blob[40..60] == blob[..60];
    assert blob[..60] + [blob[60], blob[61], blob[62], blob[63]] == blob[..64];
    assert blob[..64] + blob[64..72] + blob[72..76] == blob[..76];
  }
}
