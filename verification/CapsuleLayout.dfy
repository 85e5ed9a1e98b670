/**
 Where each field of a capsule lies and which byte holds which digit of it, said
 without the encoder and the decoder.
 */
module CapsuleLayout {
  import opened Crc
  import opened Capsule

  /** `k` bytes at `at` hold a number, its low digits first. */
  ghost predicate NumberAt(b: Bytes, at: nat, k: nat, n: nat) {
    at + k <= |b| && forall i: nat | i < k :: b[at + i] == n / Power256(i) % 256
  }

  lemma {:induction false} DigitAt(n: nat, k: nat, i: nat)
    requires i < k
    ensures LittleEndian(n, k)[i] == n / Power256(i) % 256
    decreases k
  {
    if 0 < i {
      DigitAt(n / 256, k - 1, i - 1);
      DivideTwice(n, Power256(i - 1));
    }
  }

  lemma DivideTwice(n: nat, p: nat)
    requires 0 < p
    ensures n / 256 / p == n / (256 * p)
  {
    var a := n / 256;
    var b, r := a / p, a % p;
    assert a == b * p + r && n == 256 * a + n % 256;
    assert b * (256 * p) == 256 * (b * p);
    Quotient(n, 256 * p, b, 256 * r + n % 256);
  }

  lemma Quotient(n: nat, p: nat, q: nat, r: nat)
    requires 0 < p && r < p && n == q * p + r
    ensures n / p == q
  {
    var d: int := n / p;
    var x: int := d - q;
    assert n == d * p + n % p;
    assert x * p == d * p - q * p;
    SmallMultiple(x, p);
  }

  lemma SmallMultiple(x: int, p: int)
    requires 0 < p && -p < x * p < p
    ensures x == 0
  {
    if 0 < x {
      AtLeast(x, p);
    } else if x < 0 {
      AtLeast(-x, p);
    }
  }

  lemma AtLeast(x: int, p: int)
    requires 1 <= x && 0 < p
    ensures p <= x * p && (-x) * p == -(x * p)
  {
    assert x * p == p + (x - 1) * p;
  }

  /** The bytes weighed by their places. */
  function Weighed(s: Bytes): nat {
    if s == [] then 0 else
      var n := |s| - 1;
      Weighed(s[..n]) + s[n] * Power256(n)
  }

  /** What the decoder reads from a field is the sum of its bytes times the powers of 256. */
  lemma {:induction false} ValueIsSum(s: Bytes)
    ensures Value(s) == Weighed(s)
  {
    if s != [] {
      WeighedShift(s);
      ValueIsSum(s[1..]);
    }
  }

  lemma {:induction false} WeighedShift(s: Bytes)
    requires s != []
    ensures Weighed(s) == s[0] + 256 * Weighed(s[1..])
  {
    var n := |s| - 1;
    if 0 < n {
      WeighedShift(s[..n]);
      assert s[..n][1..] == s[1..][..n - 1];
      assert s[1..][n - 1] == s[n];
      OneUp(s[n], Power256(n - 1));
      hide Power256;
    }
  }

  lemma OneUp(a: nat, p: nat)
    ensures a * (256 * p) == 256 * (a * p)
  {
  }

  lemma EncodedAt(b: Bytes, at: nat, k: nat, n: nat)
    requires at + k <= |b| && b[at..at + k] == LittleEndian(n, k)
    ensures NumberAt(b, at, k, n)
  {
    forall i: nat | i < k
      ensures b[at + i] == n / Power256(i) % 256
    {
      assert b[at + i] == b[at..at + k][i];
      DigitAt(n, k, i);
    }
  }

  /** The 80 bytes of a capsule's header. */
  ghost predicate HeaderAt(b: Bytes, h: Header, total: nat) {
    && 80 <= |b| && total <= |b| && 80 <= total
    && b[..8] == [0x41, 0x47, 0x43, 0x52, 0x41, 0x53, 0x48, 0x00]
    && NumberAt(b, 8, 2, 1) && NumberAt(b, 10, 2, 80) && NumberAt(b, 12, 4, total) && NumberAt(b, 16, 8, h.flags)
    && b[24..40] == h.runId && b[40..60] == h.buildId
    && b[60] == h.ownerCpu && b[61] == h.onlineMask && b[62] == h.capturedMask && b[63] == h.recordKind
    && NumberAt(b, 64, 8, h.sequence) && NumberAt(b, 72, 4, Crc32(b[80..total]))
    && NumberAt(b, 76, 4, Crc32(b[..76] + [0, 0, 0, 0]))
  }

  /** A section: five fields in 16 bytes, then its payload. */
  ghost predicate SectionAt(b: Bytes, at: nat, s: Section) {
    && at + 16 + |s.payload| <= |b|
    && NumberAt(b, at, 2, s.kind) && NumberAt(b, at + 2, 2, s.version) && NumberAt(b, at + 4, 4, |s.payload|)
    && NumberAt(b, at + 8, 4, s.flags) && NumberAt(b, at + 12, 4, Crc32(s.payload))
    && b[at + 16..at + 16 + |s.payload|] == s.payload
  }

  /** Where the section of a number starts: right after the one before. */
  function Start(ss: seq<Section>, k: nat): nat
    requires k <= |ss|
  {
    if k == 0 then 80 else Start(ss, k - 1) + 16 + |ss[k - 1].payload|
  }

  /** The whole capsule: its header, then its sections without gaps up to the end. */
  ghost predicate LaidOut(b: Bytes, h: Header, ss: seq<Section>) {
    && HeaderAt(b, h, |b|) && |b| == Start(ss, |ss|)
    && forall k: nat | k < |ss| :: Start(ss, k) <= |b| && SectionAt(b, Start(ss, k), ss[k])
  }

  lemma HeaderIsAt(h: Header, body: Bytes)
    requires HeaderOk(h)
    ensures var b := EncodeHeader(h, 80 + |body|, Crc32(body)) + body; HeaderAt(b, h, |b|)
  {
    hide Crc32, LittleEndian, HeaderFront, NumberAt;
    var total, crc := 80 + |body|, Crc32(body);
    var b := EncodeHeader(h, total, crc) + body;
    var front := HeaderFront(h, total, crc);
    EncodedParts(h, total, crc, body);
    FrontFields(h, total, crc);
    assert b[8..10] == front[8..10] && b[10..12] == front[10..12] && b[12..16] == front[12..16];
    assert b[16..24] == front[16..24] && b[64..72] == front[64..72] && b[72..76] == front[72..76];
    EncodedAt(b, 8, 2, 1);
    EncodedAt(b, 10, 2, 80);
    EncodedAt(b, 12, 4, total);
    EncodedAt(b, 16, 8, h.flags);
    EncodedAt(b, 64, 8, h.sequence);
    EncodedAt(b, 72, 4, crc);
    EncodedAt(b, 76, 4, HeaderCrc(front));
    HeaderMiddle(b, front, h);
    assert b[80..|b|] == body;
  }

  lemma HeaderMiddle(b: Bytes, front: Bytes, h: Header)
    requires |front| == 76 && 80 <= |b| && b[..76] == front
    requires front[..8] == Magic() && front[24..40] == h.runId && front[40..60] == h.buildId
    requires front[60..64] == [h.ownerCpu, h.onlineMask, h.capturedMask, h.recordKind]
    ensures b[..8] == Magic() && b[24..40] == h.runId && b[40..60] == h.buildId
    ensures b[60] == h.ownerCpu && b[61] == h.onlineMask && b[62] == h.capturedMask && b[63] == h.recordKind
  {
    assert b[..8] == b[..76][..8] && b[24..40] == b[..76][24..40] && b[40..60] == b[..76][40..60];
    assert b[60..64] == b[..76][60..64];
    assert b[60..64][0] == b[60] && b[60..64][1] == b[61] && b[60..64][2] == b[62] && b[60..64][3] == b[63];
  }

  lemma SliceOf(b: Bytes, at: nat, n: nat, i: nat, j: nat)
    requires at + n <= |b| && i <= j <= n
    ensures b[at..at + n][i..j] == b[at + i..at + j]
  {
    var x, y := b[at..at + n][i..j], b[at + i..at + j];
    forall k | 0 <= k < j - i
      ensures x[k] == y[k]
    {
      assert x[k] == b[at..at + n][i + k];
    }
  }

  lemma SectionIsAt(b: Bytes, at: nat, s: Section)
    requires at + 16 + |s.payload| <= |b| && b[at..at + 16 + |s.payload|] == EncodeSection(s)
    ensures SectionAt(b, at, s)
  {
    hide Crc32, LittleEndian, SectionHeader, NumberAt;
    var e := b[at..at + 16 + |s.payload|];
    HeaderFields(s, s.payload);
    SliceOf(b, at, |e|, 0, 2);
    SliceOf(b, at, |e|, 2, 4);
    SliceOf(b, at, |e|, 4, 8);
    SliceOf(b, at, |e|, 8, 12);
    SliceOf(b, at, |e|, 12, 16);
    SliceOf(b, at, |e|, 16, |e|);
    EncodedAt(b, at, 2, s.kind);
    EncodedAt(b, at + 2, 2, s.version);
    EncodedAt(b, at + 4, 4, |s.payload|);
    EncodedAt(b, at + 8, 4, s.flags);
    EncodedAt(b, at + 12, 4, Crc32(s.payload));
  }

  lemma {:induction false} StartIs(ss: seq<Section>, k: nat)
    requires k <= |ss|
    ensures Start(ss, k) == 80 + |EncodeSections(ss[..k])|
  {
    hide SectionHeader;
    if 0 < k {
      StartIs(ss, k - 1);
      assert ss[..k] == ss[..k - 1] + [ss[k - 1]];
      EncodeAppend(ss[..k - 1], ss[k - 1]);
    } else {
      assert ss[..0] == [];
    }
  }

  lemma {:induction false} SectionBytes(ss: seq<Section>, k: nat)
    requires k < |ss|
    ensures var body, at := EncodeSections(ss), |EncodeSections(ss[..k])|;
            at + 16 + |ss[k].payload| <= |body| && body[at..at + 16 + |ss[k].payload|] == EncodeSection(ss[k])
  {
    hide SectionHeader;
    if 0 < k {
      SectionBytes(ss[1..], k - 1);
      assert ss[1..][..k - 1] == ss[..k][1..] && ss[..k][0] == ss[0];
      var head, rest := EncodeSection(ss[0]), EncodeSections(ss[1..]);
      var at := |EncodeSections(ss[1..][..k - 1])|;
      assert (head + rest)[|head| + at..|head| + at + 16 + |ss[k].payload|] == rest[at..at + 16 + |ss[k].payload|];
    } else {
      assert ss[..0] == [];
    }
  }

  lemma BodyAt(header: Bytes, body: Bytes, at: nat, n: nat)
    requires |header| == 80 && at + n <= |body|
    ensures (header + body)[80 + at..80 + at + n] == body[at..at + n]
  {
  }

  lemma SectionPlaced(header: Bytes, ss: seq<Section>, k: nat)
    requires |header| == 80 && k < |ss|
    ensures var b := header + EncodeSections(ss); Start(ss, k) <= |b| && SectionAt(b, Start(ss, k), ss[k])
  {
    hide EncodeSections, EncodeSection, SectionAt, Start;
    StartIs(ss, k);
    SectionBytes(ss, k);
    var at := |EncodeSections(ss[..k])|;
    BodyAt(header, EncodeSections(ss), at, 16 + |ss[k].payload|);
    SectionIsAt(header + EncodeSections(ss), 80 + at, ss[k]);
  }

  /** The encoding of a capsule has every field and section where the format puts it. */
  lemma EncodedIsLaidOut(h: Header, ss: seq<Section>)
    requires HeaderOk(h)
    ensures LaidOut(Encode(h, ss), h, ss)
  {
    hide Crc32, EncodeSections, EncodeHeader, HeaderAt, SectionAt, Start;
    var body := EncodeSections(ss);
    HeaderIsAt(h, body);
    StartIs(ss, |ss|);
    assert ss[..|ss|] == ss;
    forall k: nat | k < |ss|
      ensures Start(ss, k) <= |Encode(h, ss)| && SectionAt(Encode(h, ss), Start(ss, k), ss[k])
    {
      SectionPlaced(EncodeHeader(h, 80 + |body|, Crc32(body)), ss, k);
    }
  }

  /** Whatever the decoder accepts is laid out so, and its report says what lies there. */
  lemma AcceptedIsLaidOut(blob: Bytes)
    requires ParseAt(blob).Ok?
    ensures var (h, ss, total) := ParseAt(blob).value; total <= |blob| && LaidOut(blob[..total], h, ss)
  {
    hide LaidOut, ParseAt, Encode;
    AcceptedIsEncoded(blob);
    var (h, ss, total) := ParseAt(blob).value;
    EncodedIsLaidOut(h, ss);
  }
}
