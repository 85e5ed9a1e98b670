/** The kernel's capsule writer over a fixed arena, and the decoder's walk. */
module CapsuleCodec {
  import opened Base
  import opened Crc
  import opened Capsule
  import opened CapsuleLayout

  const FLAG_TRUNCATED: nat := 1

  /** What a section's body does to the writer: append bytes, or patch a word it wrote before. */
  datatype WriteOp = Raw(data: Bytes) | PatchU32(offset: nat, value: nat)

  datatype Job = Job(kind: nat, version: nat, flags: nat, ops: seq<WriteOp>)

  predicate JobOk(j: Job) {
    j.kind < 0x1_0000 && j.version < 0x1_0000 && j.flags < U32_END
  }

  function Patched(data: Bytes, at: nat, word: Bytes): (r: Bytes)
    requires at + |word| <= |data|
    ensures |r| == |data|
  {
    data[..at] + word + data[at + |word|..]
  }

  /** One write into a payload that may not outgrow its room; a write that does not fit is dropped whole. */
  function AfterOp(payload: Bytes, room: nat, op: WriteOp): Bytes {
    match op
    case Raw(data) => if |payload| + |data| <= room then payload + data else payload
    case PatchU32(offset, value) =>
      if offset + 4 <= |payload| then Patched(payload, offset, LittleEndian(value, 4)) else payload
  }

  predicate Fits(payload: Bytes, room: nat, op: WriteOp) {
    op.Raw? ==> |payload| + |op.data| <= room
  }

  function AfterOps(payload: Bytes, room: nat, ops: seq<WriteOp>): (r: Bytes)
    requires |payload| <= room
    ensures |r| <= room
    decreases |ops|
  {
    if ops == [] then payload else AfterOps(AfterOp(payload, room, ops[0]), room, ops[1..])
  }

  /** Whether some write of a section does not fit. */
  predicate CutOps(payload: Bytes, room: nat, ops: seq<WriteOp>)
    decreases |ops|
  {
    ops != [] && (!Fits(payload, room, ops[0]) || CutOps(AfterOp(payload, room, ops[0]), room, ops[1..]))
  }

  /** The sections that a run of jobs leaves in `room` bytes. */
  function Written(jobs: seq<Job>, room: nat): seq<Section>
    decreases |jobs|
  {
    if jobs == [] then []
    else if room < 16 then Written(jobs[1..], room)
    else
      var payload := AfterOps([], room - 16, jobs[0].ops);
      [Section(jobs[0].kind, jobs[0].version, jobs[0].flags, payload)] + Written(jobs[1..], room - 16 - |payload|)
  }

  /** Whether anything of a run of jobs is cut short. */
  predicate Cut(jobs: seq<Job>, room: nat)
    decreases |jobs|
  {
    jobs != [] &&
    (room < 16 || CutOps([], room - 16, jobs[0].ops)
     || Cut(jobs[1..], room - 16 - |AfterOps([], room - 16, jobs[0].ops)|))
  }

  class Writer {
    const bytes: array<Byte>
    var len: nat
    var truncated: bool

    ghost predicate Valid()
      reads this
    {
      len <= bytes.Length
    }

    constructor (bytes: array<Byte>)
      ensures Valid() && this.bytes == bytes && len == 0 && !truncated
    {
      this.bytes := bytes;
      len := 0;
      truncated := false;
    }

    /** Overwrites part of the buffer. */
    method Store(at: nat, data: Bytes)
      requires at + |data| <= bytes.Length
      modifies bytes
      ensures bytes[..] == Patched(old(bytes[..]), at, data)
    {
      ghost var was := bytes[..];
      var i := 0;
      while i < |data|
        invariant 0 <= i <= |data|
        invariant forall k | 0 <= k < bytes.Length :: bytes[k] == if at <= k < at + i then data[k - at] else was[k]
      {
        bytes[at + i] := data[i];
        i := i + 1;
      }
      assert bytes[..] == Patched(was, at, data);
    }

    method Reserve(count: nat) returns (r: Option<nat>)
      requires Valid()
      modifies this
      ensures Valid()
      ensures r.Some? <==> old(len) + count <= bytes.Length
      ensures r.Some? ==> r.value == old(len) && len == old(len) + count && truncated == old(truncated)
      ensures r.None? ==> len == old(len) && truncated
    {
      if len + count > bytes.Length {
        truncated := true;
        return None;
      }
      r := Some(len);
      len := len + count;
    }

    method Append(data: Bytes) returns (ok: bool)
      requires Valid()
      modifies this, bytes
      ensures Valid() && ok == (old(len) + |data| <= bytes.Length)
      ensures ok ==> bytes[..len] == old(bytes[..len]) + data && truncated == old(truncated)
      ensures !ok ==> len == old(len) && bytes[..] == old(bytes[..]) && truncated
    {
      var start := Reserve(|data|);
      if start.None? {
        return false;
      }
      Store(start.value, data);
      return true;
    }

    method PatchWord(offset: nat, value: nat)
      requires Valid()
      modifies bytes
      ensures offset + 4 <= len ==> bytes[..] == Patched(old(bytes[..]), offset, LittleEndian(value, 4))
      ensures len < offset + 4 ==> bytes[..] == old(bytes[..])
      ensures offset + 4 <= len ==> NumberAt(bytes[..], offset, 4, value)
    {
      hide NumberAt;
      if offset + 4 <= len {
        Store(offset, LittleEndian(value, 4));
        PatchedAt(old(bytes[..]), offset, value);
      }
    }

    /** Runs a section's writes; offsets of patches count from the start of its payload. */
    method RunOps(ops: seq<WriteOp>, payload: nat)
      requires Valid() && payload <= len
      modifies this, bytes
      ensures Valid() && payload <= len
      ensures bytes[..payload] == old(bytes[..payload])
      ensures bytes[payload..len] == AfterOps(old(bytes[payload..len]), bytes.Length - payload, ops)
      ensures truncated == (old(truncated) || CutOps(old(bytes[payload..len]), bytes.Length - payload, ops))
    {
      ghost var room := bytes.Length - payload;
      var k := 0;
      while k < |ops|
        invariant 0 <= k <= |ops| && Valid() && payload <= len
        invariant (truncated || CutOps(bytes[payload..len], room, ops[k..])) ==
                  (old(truncated) || CutOps(old(bytes[payload..len]), room, ops))
        invariant bytes[..payload] == old(bytes[..payload])
        invariant AfterOps(bytes[payload..len], room, ops[k..]) == AfterOps(old(bytes[payload..len]), room, ops)
      {
        assert ops[k..][0] == ops[k] && ops[k..][1..] == ops[k + 1..];
        RunOp(ops[k], payload);
        k := k + 1;
      }
    }

    method RunOp(op: WriteOp, payload: nat)
      requires Valid() && payload <= len
      modifies this, bytes
      ensures Valid() && payload <= len && bytes[..payload] == old(bytes[..payload])
      ensures bytes[payload..len] == AfterOp(old(bytes[payload..len]), bytes.Length - payload, op)
      ensures truncated == (old(truncated) || !Fits(old(bytes[payload..len]), bytes.Length - payload, op))
    {
      match op {
        case Raw(data) => RawOp(data, payload);
        case PatchU32(offset, value) => PatchOp(offset, value, payload);
      }
    }

    method RawOp(data: Bytes, payload: nat)
      requires Valid() && payload <= len
      modifies this, bytes
      ensures Valid() && payload <= len && bytes[..payload] == old(bytes[..payload])
      ensures bytes[payload..len] == AfterOp(old(bytes[payload..len]), bytes.Length - payload, Raw(data))
      ensures truncated == (old(truncated) || bytes.Length - old(len) < |data|)
    {
      ghost var was := bytes[..len];
      assert was[..payload] == bytes[..payload] && was[payload..] == bytes[payload..len];
      var ok := Append(data);
      if ok {
        AppendSlice(was, payload, data);
        assert bytes[..len][..payload] == bytes[..payload] && bytes[..len][payload..] == bytes[payload..len];
      }
    }

    method PatchOp(offset: nat, value: nat, payload: nat)
      requires Valid() && payload <= len
      modifies bytes
      ensures bytes[..payload] == old(bytes[..payload])
      ensures bytes[payload..len] == AfterOp(old(bytes[payload..len]), bytes.Length - payload, PatchU32(offset, value))
    {
      hide LittleEndian, Patched;
      ghost var was := bytes[..];
      PatchWord(payload + offset, value);
      if offset + 4 <= len - payload {
        PatchInside(was, payload, len, offset, LittleEndian(value, 4));
      }
    }

    /** A section: its header is reserved first and filled in once the payload is known. */
    method WriteSection(job: Job)
      requires Valid() && JobOk(job)
      modifies this, bytes
      ensures Valid()
      ensures old(len) + 16 <= bytes.Length ==>
                truncated == (old(truncated) || CutOps([], bytes.Length - old(len) - 16, job.ops))
      ensures bytes.Length < old(len) + 16 ==> len == old(len) && bytes[..len] == old(bytes[..len]) && truncated
      ensures old(len) + 16 <= bytes.Length ==>
                bytes[..len] == old(bytes[..len])
                  + EncodeSection(Section(job.kind, job.version, job.flags,
                                          AfterOps([], bytes.Length - old(len) - 16, job.ops)))
    {
      hide LittleEndian, Crc32, AfterOps, CutOps, SectionHeader;
      var header := len;
      ghost var before := bytes[..len];
      var ok := Append(LittleEndian(0, 16));
      if !ok {
        return;
      }
      var start := len;
      assert bytes[start..start] == [];
      RunOps(job.ops, start);
      ghost var payload := bytes[start..len];
      FirstPart(bytes[..], before, LittleEndian(0, 16));
      var checksum := ComputeCrc32(bytes[start..len]);
      FillHeader(header, job, checksum);
      ThreeParts(bytes[..], header, header + 16, len);
      assert bytes[..len] == before + SectionHeader(Section(job.kind, job.version, job.flags, payload)) + payload;
    }

    /** Stores the five fields of a reserved section header. */
    method FillHeader(header: nat, job: Job, checksum: nat)
      requires Valid() && header + 16 <= len && checksum == Crc32(bytes[header + 16..len])
      modifies bytes
      ensures bytes[..header] == old(bytes[..header]) && bytes[header + 16..len] == old(bytes[header + 16..len])
      ensures bytes[header..header + 16] ==
              SectionHeader(Section(job.kind, job.version, job.flags, bytes[header + 16..len]))
    {
      hide LittleEndian, Crc32;
      ghost var was := bytes[..];
      var fields := LittleEndian(job.kind, 2) + LittleEndian(job.version, 2) + LittleEndian(len - (header + 16), 4)
        + LittleEndian(job.flags, 4) + LittleEndian(checksum, 4);
      Store(header, fields);
      StoredHeader(was, header, fields, len);
    }
  }

  lemma AppendSlice(was: Bytes, payload: nat, data: Bytes)
    requires payload <= |was|
    ensures (was + data)[..payload] == was[..payload] && (was + data)[payload..] == was[payload..] + data
  {
  }

  lemma PatchInside(was: Bytes, payload: nat, len: nat, offset: nat, word: Bytes)
    requires payload <= len <= |was| && |word| == 4 && offset + 4 <= len - payload
    ensures Patched(was, payload + offset, word)[..payload] == was[..payload]
    ensures Patched(was, payload + offset, word)[payload..len] == Patched(was[payload..len], offset, word)
  {
    var patched := Patched(was, payload + offset, word);
    assert patched[payload..len] == was[payload..payload + offset] + word + was[payload + offset + 4..len];
  }

  lemma PatchedAt(b: Bytes, offset: nat, value: nat)
    requires offset + 4 <= |b|
    ensures NumberAt(Patched(b, offset, LittleEndian(value, 4)), offset, 4, value)
  {
    hide LittleEndian, NumberAt;
    var p := Patched(b, offset, LittleEndian(value, 4));
    assert p[offset..offset + 4] == LittleEndian(value, 4);
    EncodedAt(p, offset, 4, value);
  }

  lemma FirstPart(b: Bytes, front: Bytes, back: Bytes)
    requires |front| + |back| <= |b| && b[..|front| + |back|] == front + back
    ensures b[..|front|] == front
  {
    assert b[..|front|] == b[..|front| + |back|][..|front|];
  }

  lemma ThreeParts(b: Bytes, i: nat, j: nat, k: nat)
    requires i <= j <= k <= |b|
    ensures b[..k] == b[..i] + b[i..j] + b[j..k]
  {
  }

  lemma StoredHeader(was: Bytes, header: nat, fields: Bytes, len: nat)
    requires |fields| == 16 && header + 16 <= len <= |was|
    ensures var b := Patched(was, header, fields);
            b[..header] == was[..header] && b[header..header + 16] == fields
            && b[header + 16..len] == was[header + 16..len]
  {
  }

  /** Jobs leave well-formed sections. */
  lemma {:induction false} WrittenOk(jobs: seq<Job>, room: nat)
    requires (forall k | 0 <= k < |jobs| :: JobOk(jobs[k])) && room < U32_END
    ensures SectionsOk(Written(jobs, room)) && |Written(jobs, room)| <= |jobs|
    decreases |jobs|
  {
    hide AfterOps;
    if jobs != [] {
      assert JobOk(jobs[0]) && forall k | 0 <= k < |jobs[1..]| :: JobOk(jobs[1..][k]);
      if room < 16 {
        WrittenOk(jobs[1..], room);
      } else {
        WrittenOk(jobs[1..], room - 16 - |AfterOps([], room - 16, jobs[0].ops)|);
      }
    }
  }

  lemma {:induction false} CutSnoc(jobs: seq<Job>, job: Job, room: nat)
    requires |EncodeSections(Written(jobs, room))| <= room
    ensures var left := room - |EncodeSections(Written(jobs, room))|;
            Cut(jobs + [job], room) <==> Cut(jobs, room) || left < 16 || CutOps([], left - 16, job.ops)
    decreases |jobs|
  {
    hide AfterOps, SectionHeader, CutOps;
    if jobs == [] {
      assert [job][1..] == [];
    } else {
      assert (jobs + [job])[1..] == jobs[1..] + [job];
      if 16 <= room {
        var payload := AfterOps([], room - 16, jobs[0].ops);
        var rest := Written(jobs[1..], room - 16 - |payload|);
        assert Written(jobs, room)[1..] == rest;
        assert |EncodeSections(Written(jobs, room))| == 16 + |payload| + |EncodeSections(rest)|;
        CutSnoc(jobs[1..], job, room - 16 - |payload|);
      }
    }
  }

  lemma {:induction false} WrittenSnoc(jobs: seq<Job>, job: Job, room: nat)
    requires |EncodeSections(Written(jobs, room))| <= room
    ensures var used := |EncodeSections(Written(jobs, room))|;
            Written(jobs + [job], room) ==
              if room - used < 16 then Written(jobs, room)
              else
                var payload := AfterOps([], room - used - 16, job.ops);
                Written(jobs, room) + [Section(job.kind, job.version, job.flags, payload)]
    decreases |jobs|
  {
    hide AfterOps, SectionHeader;
    if jobs == [] {
      assert [job][1..] == [];
    } else {
      assert (jobs + [job])[1..] == jobs[1..] + [job];
      if room < 16 {
        WrittenSnoc(jobs[1..], job, room);
      } else {
        var payload := AfterOps([], room - 16, jobs[0].ops);
        var s := Section(jobs[0].kind, jobs[0].version, jobs[0].flags, payload);
        var rest := Written(jobs[1..], room - 16 - |payload|);
        assert Written(jobs, room)[1..] == rest;
        assert |EncodeSections(Written(jobs, room))| == 16 + |payload| + |EncodeSections(rest)|;
        WrittenSnoc(jobs[1..], job, room - 16 - |payload|);
      }
    }
  }

  /** A section's payload written with room to spare. */
  function WholeOps(payload: Bytes, ops: seq<WriteOp>): Bytes
    decreases |ops|
  {
    if ops == [] then payload else
      match ops[0]
      case Raw(data) => WholeOps(payload + data, ops[1..])
      case PatchU32(offset, value) =>
        WholeOps(if offset + 4 <= |payload| then payload[..offset] + LittleEndian(value, 4) + payload[offset + 4..]
                 else payload, ops[1..])
  }

  function WholeSections(jobs: seq<Job>): seq<Section> {
    if jobs == [] then [] else
      var job := jobs[0];
      [Section(job.kind, job.version, job.flags, WholeOps([], job.ops))] + WholeSections(jobs[1..])
  }

  lemma {:induction false} WholeGrows(payload: Bytes, ops: seq<WriteOp>)
    ensures |payload| <= |WholeOps(payload, ops)|
    decreases |ops|
  {
    hide LittleEndian;
    if ops != [] {
      match ops[0]
      case Raw(data) => WholeGrows(payload + data, ops[1..]);
      case PatchU32(offset, value) =>
        if offset + 4 <= |payload| {
          WholeGrows(payload[..offset] + LittleEndian(value, 4) + payload[offset + 4..], ops[1..]);
        } else {
          WholeGrows(payload, ops[1..]);
        }
    }
  }

  lemma {:induction false} CutOpsExactly(payload: Bytes, room: nat, ops: seq<WriteOp>)
    requires |payload| <= room
    ensures CutOps(payload, room, ops) <==> room < |WholeOps(payload, ops)|
    ensures !CutOps(payload, room, ops) ==> AfterOps(payload, room, ops) == WholeOps(payload, ops)
    decreases |ops|
  {
    hide LittleEndian;
    if ops != [] {
      if Fits(payload, room, ops[0]) {
        CutOpsExactly(AfterOp(payload, room, ops[0]), room, ops[1..]);
      } else {
        WholeGrows(payload + ops[0].data, ops[1..]);
      }
    }
  }

  /** Something is cut short exactly when the whole does not fit, and else the whole is written. */
  lemma {:induction false} CutExactly(jobs: seq<Job>, room: nat)
    ensures Cut(jobs, room) <==> room < |EncodeSections(WholeSections(jobs))|
    ensures !Cut(jobs, room) ==> Written(jobs, room) == WholeSections(jobs)
    decreases |jobs|
  {
    hide SectionHeader, AfterOps, CutOps, WholeOps;
    if jobs != [] {
      var whole := WholeOps([], jobs[0].ops);
      assert WholeSections(jobs)[1..] == WholeSections(jobs[1..]);
      assert |EncodeSections(WholeSections(jobs))| == 16 + |whole| + |EncodeSections(WholeSections(jobs[1..]))|;
      if 16 <= room {
        CutOpsExactly([], room - 16, jobs[0].ops);
        if !CutOps([], room - 16, jobs[0].ops) {
          CutExactly(jobs[1..], room - 16 - |whole|);
        }
      }
    }
  }

  /**
   Serialises a capsule into an arena: whatever is cut short by its end, the bytes
   are the encoding of the sections that were written.
   */
  method Serialize(arena: array<Byte>, header: Header, jobs: seq<Job>) returns (total: nat, truncated: bool)
    requires HEADER_LEN <= arena.Length <= MAX_CAPSULE && forall k | 0 <= k < |jobs| :: JobOk(jobs[k])
    requires HeaderOk(header) && header.flags % 2 == 0
    modifies arena
    ensures total <= arena.Length && truncated == Cut(jobs, arena.Length - HEADER_LEN)
    ensures truncated <==> arena.Length < HEADER_LEN + |EncodeSections(WholeSections(jobs))|
    ensures !truncated ==> arena[..total] == Encode(header, WholeSections(jobs))
    ensures arena[..total] == Encode(WithTruncation(header, truncated), Written(jobs, arena.Length - HEADER_LEN))
    ensures ParseAt(arena[..total]) ==
              if |Written(jobs, arena.Length - HEADER_LEN)| <= MAX_SECTIONS
              then Ok((WithTruncation(header, truncated), Written(jobs, arena.Length - HEADER_LEN), total))
              else Err(TooManySections)
    ensures LaidOut(arena[..total], WithTruncation(header, truncated), Written(jobs, arena.Length - HEADER_LEN))
  {
    hide LaidOut, LittleEndian, Crc32, ParseAt, EncodeSection, EncodeSections, Written, EncodeHeader, Cut, CutOps;
    ghost var room := arena.Length - HEADER_LEN;
    var writer := new Writer(arena);
    var ok := writer.Append(LittleEndian(0, HEADER_LEN));
    var k := 0;
    WrittenNothing(room);
    while k < |jobs|
      invariant 0 <= k <= |jobs| && writer.Valid() && writer.bytes == arena && HEADER_LEN <= writer.len
      invariant arena[HEADER_LEN..writer.len] == EncodeSections(Written(jobs[..k], room))
      invariant writer.truncated == Cut(jobs[..k], room)
    {
      CutSnoc(jobs[..k], jobs[k], room);
      WrittenNext(jobs[..k], jobs[k], room);
      assert jobs[..k + 1] == jobs[..k] + [jobs[k]];
      ghost var before := arena[..writer.len];
      SliceOfPrefix(arena[..], writer.len);
      writer.WriteSection(jobs[k]);
      AppendSlice(before, HEADER_LEN, arena[..writer.len][|before|..]);
      SliceOfPrefix(arena[..], writer.len);
      k := k + 1;
    }
    assert jobs[..k] == jobs;
    total := writer.len;
    truncated := writer.truncated;
    FinishHeader(writer, WithTruncation(header, truncated), total);
    assert arena[..total] == arena[..HEADER_LEN] + arena[HEADER_LEN..total];
    WrittenOk(jobs, room);
    RoundTrip(WithTruncation(header, truncated), Written(jobs, room), []);
    assert arena[..total] + [] == arena[..total];
    EncodedIsLaidOut(WithTruncation(header, truncated), Written(jobs, room));
    CutExactly(jobs, room);
  }

  lemma SliceOfPrefix(b: Bytes, len: nat)
    requires HEADER_LEN <= len <= |b|
    ensures b[..len][HEADER_LEN..] == b[HEADER_LEN..len]
  {
  }

  /** What one more job adds to the encoding. */
  lemma WrittenNext(jobs: seq<Job>, job: Job, room: nat)
    requires |EncodeSections(Written(jobs, room))| <= room
    ensures var used := |EncodeSections(Written(jobs, room))|;
            EncodeSections(Written(jobs + [job], room)) ==
              if room - used < 16 then EncodeSections(Written(jobs, room))
              else
                var payload := AfterOps([], room - used - 16, job.ops);
                EncodeSections(Written(jobs, room)) + EncodeSection(Section(job.kind, job.version, job.flags, payload))
  {
    hide EncodeSections, EncodeSection, Written, AfterOps;
    var used := |EncodeSections(Written(jobs, room))|;
    WrittenSnoc(jobs, job, room);
    if 16 <= room - used {
      var payload := AfterOps([], room - used - 16, job.ops);
      EncodeAppend(Written(jobs, room), Section(job.kind, job.version, job.flags, payload));
    }
  }

  /** The header as emitted: its lowest flag tells whether anything was cut short. */
  function WithTruncation(h: Header, truncated: bool): (r: Header)
    requires HeaderOk(h) && h.flags % 2 == 0
    ensures HeaderOk(r) && r == h.(flags := r.flags) && r.flags / 2 == h.flags / 2
    ensures r.flags % 2 == if truncated then 1 else 0
  {
    if truncated then h.(flags := h.flags + FLAG_TRUNCATED) else h
  }

  lemma WrittenNothing(room: nat)
    ensures EncodeSections(Written([], room)) == [] && !Cut([], room)
  {
  }

  /** Fills in the header, its own checksum last and over a zeroed field. */
  method FinishHeader(writer: Writer, header: Header, total: nat)
    requires HEADER_LEN <= total <= writer.bytes.Length && HeaderOk(header)
    modifies writer.bytes
    ensures writer.bytes[HEADER_LEN..total] == old(writer.bytes[HEADER_LEN..total])
    ensures writer.bytes[..HEADER_LEN] == EncodeHeader(header, total, Crc32(writer.bytes[HEADER_LEN..total]))
  {
    hide LittleEndian, Crc32, HeaderFront;
    ghost var was := writer.bytes[..];
    var payloadCrc := ComputeCrc32(writer.bytes[HEADER_LEN..total]);
    var front := HeaderFront(header, total, payloadCrc);
    writer.Store(0, front + [0, 0, 0, 0]);
    ghost var blank := writer.bytes[..];
    StoredFront(was, front, total);
    var headerCrc := ComputeCrc32(writer.bytes[..HEADER_LEN]);
    writer.Store(76, LittleEndian(headerCrc, 4));
    StoredCrc(blank, front, LittleEndian(headerCrc, 4), total);
  }

  lemma StoredFront(was: Bytes, front: Bytes, total: nat)
    requires |front| == 76 && 80 <= total <= |was|
    ensures var b := Patched(was, 0, front + [0, 0, 0, 0]);
            b[..80] == front + [0, 0, 0, 0] && b[80..total] == was[80..total]
  {
  }

  lemma StoredCrc(blank: Bytes, front: Bytes, word: Bytes, total: nat)
    requires |front| == 76 && |word| == 4 && 80 <= total <= |blank| && blank[..80] == front + [0, 0, 0, 0]
    ensures var b := Patched(blank, 76, word); b[..80] == front + word && b[80..total] == blank[80..total]
  {
    assert blank[..80][..76] == front;
    assert blank[..76] == front;
  }

  // --------------------------------------------------------------------- decoder

  /** The decoder: checks the header, then walks the sections with a cursor. */
  method ParseCapsule(blob: Bytes, offset: int) returns (r: Result<Report, DecodeError>)
    ensures offset < 0 || |blob| < offset + HEADER_LEN ==> r == Err(TruncatedHeader)
    ensures 0 <= offset && offset + HEADER_LEN <= |blob| ==>
              match ParseAt(blob[offset..])
              case Err(e) => r == Err(e)
              case Ok((h, ss, total)) => r == Ok(Report(h, ss, offset + total))
    ensures r.Ok? ==>
              && 0 <= offset <= r.value.end <= |blob|
              && LaidOut(blob[offset..r.value.end], r.value.header, r.value.sections)
  {
    hide LaidOut, Crc32, Value, ParseBody, ReadHeader, FrontSection;
    if offset < 0 || |blob| < offset + HEADER_LEN {
      return Err(TruncatedHeader);
    }
    var capsule := blob[offset..];
    if capsule[..8] != Magic() {
      return Err(BadMagic);
    }
    if Value(capsule[8..10]) != 1 {
      return Err(UnsupportedSchema);
    }
    if Value(capsule[10..12]) != HEADER_LEN {
      return Err(UnsupportedHeaderLength);
    }
    var total := Value(capsule[12..16]);
    if total < HEADER_LEN || MAX_CAPSULE < total {
      return Err(InvalidTotalLength);
    }
    if |capsule| < total {
      return Err(TruncatedPayload);
    }
    if Crc32(capsule[..76] + [0, 0, 0, 0]) != Value(capsule[76..80]) {
      return Err(HeaderCrcMismatch);
    }
    if Crc32(capsule[HEADER_LEN..total]) != Value(capsule[72..76]) {
      return Err(PayloadCrcMismatch);
    }
    var sections := WalkSections(capsule[HEADER_LEN..total]);
    if sections.Err? {
      return Err(sections.error);
    }
    AcceptedIsLaidOut(capsule);
    assert blob[offset..offset + total] == capsule[..total];
    return Ok(Report(ReadHeader(capsule[..HEADER_LEN]), sections.value, offset + total));
  }

  method WalkSections(body: Bytes) returns (r: Result<seq<Section>, DecodeError>)
    ensures r == ParseBody(body, 0)
  {
    hide Crc32, Value, FrontSection;
    var sections: seq<Section> := [];
    var cursor := 0;
    assert body[0..] == body && forall rest: seq<Section> :: sections + rest == rest;
    while cursor < |body|
      invariant 0 <= cursor <= |body|
      invariant match ParseBody(body[cursor..], |sections|)
                case Err(e) => ParseBody(body, 0) == Err(e)
                case Ok(rest) => ParseBody(body, 0) == Ok(sections + rest)
    {
      if |sections| >= MAX_SECTIONS {
        return Err(TooManySections);
      }
      var front := FrontSection(body[cursor..]);
      if front.Err? {
        return Err(front.error);
      }
      var next := cursor + SECTION_HEADER_LEN + |front.value.payload|;
      assert body[cursor..][16 + |front.value.payload|..] == body[next..];
      assert forall rest: seq<Section> :: sections + ([front.value] + rest) == sections + [front.value] + rest;
      sections := sections + [front.value];
      cursor := next;
    }
    assert body[cursor..] == [];
    assert sections + [] == sections;
    return Ok(sections);
  }
}
