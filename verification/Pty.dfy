/** Canonical line editing as POSIX.1-2017 XBD section 11.1.6 describes it, without buffers. */
module LineEditing {

  type Byte = bv8

  type Bytes = seq<Byte>

  const MAX_CANON: nat := 4096
  const LF: Byte := 0x0a
  const CR: Byte := 0x0d
  const BACKSPACE: Byte := 0x08

  /** The terminal settings that the line discipline looks at. */
  datatype Termios = Termios(
    canonical: bool, echo: bool, icrnl: bool, isig: bool,
    vintr: Byte, vquit: Byte, verase: Byte, vkill: Byte, veof: Byte)

  /** What one input byte means. Tests are made in this order. */
  datatype Meaning = Interrupt | Quit | EndLine | EndFile | Kill | Erase | Text(byte: Byte)

  function MeaningOf(t: Termios, raw: Byte): Meaning {
    var b := if t.icrnl && raw == CR then LF else raw;
    if t.isig && raw != 0 && raw == t.vintr then Interrupt
    else if t.isig && raw != 0 && raw == t.vquit then Quit
    else if b == LF then EndLine
    else if raw != 0 && raw == t.veof then EndFile
    else if raw != 0 && raw == t.vkill then Kill
    else if (raw != 0 && raw == t.verase) || raw == BACKSPACE then Erase
    else Text(b)
  }

  predicate Edits(m: Meaning) {
    m.Kill? || m.Erase? || m.Text?
  }

  /** One editing byte on a line that may not outgrow `cap`. */
  function Edited(line: Bytes, m: Meaning, cap: nat): (r: Bytes)
    ensures |line| <= cap ==> |r| <= cap
  {
    match m
    case Kill => []
    case Erase => if line == [] then [] else line[..|line| - 1]
    case Text(b) => if |line| < cap then line + [b] else line
    case _ => line
  }

  function EditedAll(t: Termios, line: Bytes, input: Bytes, cap: nat): (r: Bytes)
    ensures |line| <= cap ==> |r| <= cap
    decreases |input|
  {
    if input == [] then line else EditedAll(t, Edited(line, MeaningOf(t, input[0]), cap), input[1..], cap)
  }

  lemma {:induction false} EditedAppend(t: Termios, line: Bytes, a: Bytes, b: Byte, cap: nat)
    ensures EditedAll(t, line, a + [b], cap) == Edited(EditedAll(t, line, a, cap), MeaningOf(t, b), cap)
    decreases |a|
  {
    if a == [] {
      assert [b][1..] == [];
    } else {
      assert (a + [b])[1..] == a[1..] + [b];
      EditedAppend(t, Edited(line, MeaningOf(t, a[0]), cap), a[1..], b, cap);
    }
  }

  // ------------------------------------------------------- the line, read backwards

  /**
   The text left of an editing run, found from its end: a kill hides everything
   before it, an erase hides the nearest text before it that is not hidden yet.
   */
  function Visible(t: Termios, input: Bytes, hidden: nat): Bytes
    decreases |input|
  {
    if input == [] then [] else
      var n := |input| - 1;
      match MeaningOf(t, input[n])
      case Kill => []
      case Erase => Visible(t, input[..n], hidden + 1)
      case Text(b) => if 0 < hidden then Visible(t, input[..n], hidden - 1) else Visible(t, input[..n], 0) + [b]
      case _ => Visible(t, input[..n], hidden)
  }

  /** The unbounded line: what an editor without a length limit would hold. */
  function Unbounded(t: Termios, input: Bytes): Bytes
    decreases |input|
  {
    if input == [] then [] else
      var n := |input| - 1;
      UnboundedStep(Unbounded(t, input[..n]), MeaningOf(t, input[n]))
  }

  function UnboundedStep(line: Bytes, m: Meaning): Bytes {
    match m
    case Kill => []
    case Erase => if line == [] then [] else line[..|line| - 1]
    case Text(b) => line + [b]
    case _ => line
  }

  /** Reading backwards gives the unbounded line, less what is still hidden. */
  lemma {:induction false} VisibleIsUnbounded(t: Termios, input: Bytes, hidden: nat)
    ensures var line := Unbounded(t, input);
            Visible(t, input, hidden) == if hidden <= |line| then line[..|line| - hidden] else []
    decreases |input|
  {
    if input != [] {
      var n := |input| - 1;
      var line := Unbounded(t, input[..n]);
      match MeaningOf(t, input[n])
      case Kill =>
      case Erase => VisibleIsUnbounded(t, input[..n], hidden + 1);
      case Text(b) =>
        if 0 < hidden {
          VisibleIsUnbounded(t, input[..n], hidden - 1);
        } else {
          VisibleIsUnbounded(t, input[..n], 0);
          assert line[..|line|] == line;
        }
      case _ => VisibleIsUnbounded(t, input[..n], hidden);
    }
  }

  /** Since it was last empty, the unbounded line has been longer than the cap. */
  predicate Overflowed(t: Termios, input: Bytes)
    decreases |input|
  {
    input != [] && Unbounded(t, input) != [] &&
    (MAX_CANON < |Unbounded(t, input)| || Overflowed(t, input[..|input| - 1]))
  }

  /** One more byte: whichever line was shorter stays shorter, until both are empty. */
  lemma CappedStep(line: Bytes, capped: Bytes, m: Meaning, over: bool)
    requires Edits(m) && |capped| <= MAX_CANON && if over then |capped| < |line| else capped == line
    ensures var line', capped' := UnboundedStep(line, m), Edited(capped, m, MAX_CANON);
            if line' != [] && (MAX_CANON < |line'| || over) then |capped'| < |line'| else capped' == line'
  {
  }

  lemma {:induction false} CappedLength(t: Termios, input: Bytes)
    requires forall i | 0 <= i < |input| :: Edits(MeaningOf(t, input[i]))
    ensures var capped, line := EditedAll(t, [], input, MAX_CANON), Unbounded(t, input);
            |capped| <= MAX_CANON && if Overflowed(t, input) then |capped| < |line| else capped == line
    decreases |input|
  {
    if input != [] {
      var n := |input| - 1;
      CappedLength(t, input[..n]);
      EditedAppend(t, [], input[..n], input[n], MAX_CANON);
      assert input[..n] + [input[n]] == input;
      assert Edits(MeaningOf(t, input[n]));
      CappedStep(Unbounded(t, input[..n]), EditedAll(t, [], input[..n], MAX_CANON), MeaningOf(t, input[n]),
          Overflowed(t, input[..n]));
    }
  }

  /** The capped line is the POSIX line if and only if that line has not overflowed since it was last empty. */
  lemma CappedExactly(t: Termios, input: Bytes)
    requires forall i | 0 <= i < |input| :: Edits(MeaningOf(t, input[i]))
    ensures EditedAll(t, [], input, MAX_CANON) == Visible(t, input, 0) <==> !Overflowed(t, input)
  {
    CappedLength(t, input);
    VisibleIsUnbounded(t, input, 0);
    var line := Unbounded(t, input);
    assert line[..|line|] == line;
  }

  lemma {:induction false} RunLength(t: Termios, b: Byte, n: nat)
    requires MeaningOf(t, b).Text?
    ensures |Unbounded(t, seq(n, _ => b))| == n
  {
    if 0 < n {
      RunLength(t, b, n - 1);
      assert seq(n, _ => b)[..n - 1] == seq(n - 1, _ => b);
    }
  }

  /** It has for 4097 bytes of text in a row: the last one is dropped. */
  lemma LongRunDiffers(t: Termios, b: Byte)
    requires MeaningOf(t, b).Text?
    ensures var input := seq(MAX_CANON + 1, _ => b); EditedAll(t, [], input, MAX_CANON) != Visible(t, input, 0)
  {
    var input := seq(MAX_CANON + 1, _ => b);
    RunLength(t, b, MAX_CANON + 1);
    assert Overflowed(t, input);
    CappedExactly(t, input);
  }

  lemma {:induction false} UnboundedLength(t: Termios, input: Bytes)
    ensures |Unbounded(t, input)| <= |input|
    decreases |input|
  {
    if input != [] {
      UnboundedLength(t, input[..|input| - 1]);
    }
  }

  /** In particular it is for every run of at most 4096 bytes. */
  lemma {:induction false} ShortRunsExact(t: Termios, input: Bytes)
    requires |input| <= MAX_CANON && forall i | 0 <= i < |input| :: Edits(MeaningOf(t, input[i]))
    ensures EditedAll(t, [], input, MAX_CANON) == Unbounded(t, input)
    decreases |input|
  {
    if input != [] {
      var n := |input| - 1;
      ShortRunsExact(t, input[..n]);
      UnboundedLength(t, input[..n]);
      EditedAppend(t, [], input[..n], input[n], MAX_CANON);
      assert input[..n] + [input[n]] == input;
      assert Edits(MeaningOf(t, input[n]));
    }
  }

  // ------------------------------------------------------------------- whole inputs

  /** Where the first byte that ends or abandons a line stands. */
  function FirstBreak(t: Termios, input: Bytes): (k: nat)
    ensures k <= |input| && (k < |input| ==> !Edits(MeaningOf(t, input[k])))
    ensures forall i | 0 <= i < k :: Edits(MeaningOf(t, input[i]))
    decreases |input|
  {
    if input == [] || !Edits(MeaningOf(t, input[0])) then 0 else 1 + FirstBreak(t, input[1..])
  }

  /** What a line that has just ended hands to the reader. */
  function Handed(line: Bytes, m: Meaning): Bytes {
    match m
    case EndLine => line + [LF]
    case EndFile => line
    case _ => []
  }

  /** Everything the reader is handed, line by line, starting with `line` half typed. */
  function Delivered(t: Termios, line: Bytes, input: Bytes): Bytes
    decreases |input|
  {
    var k := FirstBreak(t, input);
    if k == |input| then [] else
      Handed(EditedAll(t, line, input[..k], MAX_CANON), MeaningOf(t, input[k])) + Delivered(t, [], input[k + 1..])
  }

  /** The line half typed at the end of the input. */
  function Remaining(t: Termios, line: Bytes, input: Bytes): Bytes
    decreases |input|
  {
    var k := FirstBreak(t, input);
    if k == |input| then EditedAll(t, line, input, MAX_CANON) else Remaining(t, [], input[k + 1..])
  }

  lemma DeliveredHead(t: Termios, line: Bytes, input: Bytes)
    requires input != []
    ensures var m := MeaningOf(t, input[0]);
            && Delivered(t, line, input) ==
               (if Edits(m) then Delivered(t, Edited(line, m, MAX_CANON), input[1..])
                else Handed(line, m) + Delivered(t, [], input[1..]))
            && Remaining(t, line, input) ==
               (if Edits(m) then Remaining(t, Edited(line, m, MAX_CANON), input[1..]) else Remaining(t, [], input[1..]))
  {
    hide MeaningOf;
    if Edits(MeaningOf(t, input[0])) {
      EditedHead(t, line, input);
    } else {
      assert input[..0] == [];
    }
  }

  lemma EditedHead(t: Termios, line: Bytes, input: Bytes)
    requires input != [] && Edits(MeaningOf(t, input[0]))
    ensures var next := Edited(line, MeaningOf(t, input[0]), MAX_CANON);
            Delivered(t, line, input) == Delivered(t, next, input[1..])
                && Remaining(t, line, input) == Remaining(t, next, input[1..])
  {
    hide MeaningOf, Edited, Handed;
    var k, rest := FirstBreak(t, input), input[1..];
    assert k == 1 + FirstBreak(t, rest);
    assert input[..k][1..] == rest[..k - 1];
    if k < |input| {
      assert input[k] == rest[k - 1] && input[k + 1..] == rest[k..];
    }
  }

  /** The lines an editor without a length limit hands over. */
  function PosixDelivered(t: Termios, input: Bytes): Bytes
    decreases |input|
  {
    var k := FirstBreak(t, input);
    if k == |input| then [] else
      Handed(Visible(t, input[..k], 0), MeaningOf(t, input[k])) + PosixDelivered(t, input[k + 1..])
  }

  /** Some line that is handed over has overflowed. */
  predicate HandsOverflowed(t: Termios, input: Bytes)
    decreases |input|
  {
    var k := FirstBreak(t, input);
    k < |input| &&
    (((MeaningOf(t, input[k]).EndLine? || MeaningOf(t, input[k]).EndFile?) && Overflowed(t, input[..k]))
     || HandsOverflowed(t, input[k + 1..]))
  }

  lemma {:induction false} DeliveredLength(t: Termios, input: Bytes)
    ensures var got, posix := Delivered(t, [], input), PosixDelivered(t, input);
            if HandsOverflowed(t, input) then |got| < |posix| else got == posix
    decreases |input|
  {
    hide MeaningOf, EditedAll, Visible, Overflowed, FirstBreak;
    var k := FirstBreak(t, input);
    if k < |input| {
      var capped, line := EditedAll(t, [], input[..k], MAX_CANON), Visible(t, input[..k], 0);
      CappedLength(t, input[..k]);
      VisibleIsUnbounded(t, input[..k], 0);
      assert Unbounded(t, input[..k])[..|Unbounded(t, input[..k])|] == Unbounded(t, input[..k]);
      assert if Overflowed(t, input[..k]) then |capped| < |line| else capped == line;
      DeliveredLength(t, input[k + 1..]);
    }
  }

  /** The reader is handed the POSIX lines if and only if none of them has overflowed. */
  lemma DeliversPosixLines(t: Termios, input: Bytes)
    ensures Delivered(t, [], input) == PosixDelivered(t, input) <==> !HandsOverflowed(t, input)
  {
    DeliveredLength(t, input);
  }
}

/** The pseudo-terminal's queues and its line discipline, byte by byte. */
module Pty {
  import opened Base
  import opened LineEditing

  const MAX_QUEUED_BYTES: nat := 65536
  const SIGINT: nat := 2
  const SIGQUIT: nat := 3

  datatype Discipline = Discipline(slave: Bytes, master: Bytes, line: Bytes, eof: bool)

  /** The outcome of a push: bytes consumed, whether a reader must be woken, a signal to raise. */
  datatype SlaveInput = SlaveInput(consumed: nat, wakeReader: bool, signal: Option<nat>)

  const NOTHING := SlaveInput(0, false, None)

  /** A queue filled as far as its cap allows. */
  function Filled(queue: Bytes, more: Bytes): (r: Bytes)
    ensures |queue| <= MAX_QUEUED_BYTES ==> |r| <= MAX_QUEUED_BYTES && |queue| <= |r|
  {
    if |queue| + |more| <= MAX_QUEUED_BYTES then queue + more
    else if |queue| <= MAX_QUEUED_BYTES then queue + more[..MAX_QUEUED_BYTES - |queue|]
    else queue
  }

  ghost predicate Bounded(d: Discipline) {
    |d.slave| <= MAX_QUEUED_BYTES && |d.master| <= MAX_QUEUED_BYTES && |d.line| <= MAX_CANON
  }

  /** Filling twice is filling once: the cap cuts the same bytes. */
  lemma FilledTwice(queue: Bytes, a: Bytes, b: Bytes)
    requires |queue| <= MAX_QUEUED_BYTES
    ensures Filled(Filled(queue, a), b) == Filled(queue, a + b)
  {
    if MAX_QUEUED_BYTES < |queue| + |a| {
      FillsUp(queue, a, b);
    } else if MAX_QUEUED_BYTES < |queue| + |a| + |b| {
      FillsLater(queue, a, b);
    }
  }

  lemma FillsUp(queue: Bytes, a: Bytes, b: Bytes)
    requires |queue| <= MAX_QUEUED_BYTES < |queue| + |a|
    ensures Filled(Filled(queue, a), b) == Filled(queue, a + b)
  {
    var room := MAX_QUEUED_BYTES - |queue|;
    assert (a + b)[..room] == a[..room];
    assert Filled(queue, a) + b[..0] == Filled(queue, a);
  }

  lemma FillsLater(queue: Bytes, a: Bytes, b: Bytes)
    requires |queue| + |a| <= MAX_QUEUED_BYTES < |queue| + |a| + |b|
    ensures Filled(Filled(queue, a), b) == Filled(queue, a + b)
  {
    var room := MAX_QUEUED_BYTES - |queue|;
    assert (a + b)[..room] == a + b[..room - |a|];
    assert queue + (a + b[..room - |a|]) == queue + a + b[..room - |a|];
  }

  /** Backspace, space, backspace, once for each erased byte. */
  function Rubout(n: nat): Bytes {
    if n == 0 then [] else [0x08, 0x20, 0x08] + Rubout(n - 1)
  }

  /** What the emulator is shown for a byte. */
  function EchoOf(t: Termios, line: Bytes, m: Meaning): Bytes {
    if !t.echo then [] else
      match m
      case Interrupt => [0x5e, 0x43, CR, LF]
      case Quit => [0x5e, 0x5c, CR, LF]
      case EndLine => [CR, LF]
      case EndFile => []
      case Kill => Rubout(|line|)
      case Erase => if line == [] then [] else Rubout(1)
      case Text(b) => if |line| < MAX_CANON then [b] else []
  }

  /** One canonical byte. */
  function Stepped(t: Termios, d: Discipline, raw: Byte): Discipline {
    var m := MeaningOf(t, raw);
    Discipline(
      Filled(d.slave, Handed(d.line, m)),
      Filled(d.master, EchoOf(t, d.line, m)),
      if Edits(m) then Edited(d.line, m, MAX_CANON) else [],
      d.eof || (m.EndFile? && d.line == []))
  }

  function StepResult(t: Termios, d: Discipline, raw: Byte, r: SlaveInput): SlaveInput {
    var m := MeaningOf(t, raw);
    SlaveInput(
      r.consumed + 1,
      r.wakeReader || (m.EndFile? && d.line == []) || |d.slave| < |Stepped(t, d, raw).slave|,
      if m.Interrupt? then Some(SIGINT) else if m.Quit? then Some(SIGQUIT) else r.signal)
  }

  function Pushed(t: Termios, d: Discipline, input: Bytes): Discipline
    decreases |input|
  {
    if input == [] then d else Pushed(t, Stepped(t, d, input[0]), input[1..])
  }

  function PushResult(t: Termios, d: Discipline, input: Bytes, r: SlaveInput): SlaveInput
    decreases |input|
  {
    if input == [] then r else PushResult(t, Stepped(t, d, input[0]), input[1..], StepResult(t, d, input[0], r))
  }

  /** Pushing in either mode. */
  function AfterPush(t: Termios, d: Discipline, input: Bytes): Discipline {
    if t.canonical then Pushed(t, d, input) else d.(slave := Filled(d.slave, input))
  }

  function ResultOf(t: Termios, d: Discipline, input: Bytes): SlaveInput {
    if t.canonical then PushResult(t, d, input, NOTHING)
    else
      var n := |Filled(d.slave, input)|;
      var taken := if |d.slave| <= n then n - |d.slave| else 0;
      SlaveInput(taken, 0 < taken, None)
  }

  /** Two outcomes in a row, as one. */
  function Combined(a: SlaveInput, b: SlaveInput): SlaveInput {
    SlaveInput(a.consumed + b.consumed, a.wakeReader || b.wakeReader, if b.signal.Some? then b.signal else a.signal)
  }

  // --------------------------------------------------------------------- theorems

  lemma {:induction false} StaysBounded(t: Termios, d: Discipline, input: Bytes)
    requires Bounded(d)
    ensures Bounded(Pushed(t, d, input))
    decreases |input|
  {
    if input != [] {
      StaysBounded(t, Stepped(t, d, input[0]), input[1..]);
    }
  }

  lemma {:induction false} PushedAppend(t: Termios, d: Discipline, a: Bytes, b: Bytes)
    ensures Pushed(t, d, a + b) == Pushed(t, Pushed(t, d, a), b)
    decreases |a|
  {
    hide Stepped;
    if a == [] {
      assert a + b == b;
    } else {
      assert (a + b)[1..] == a[1..] + b;
      PushedAppend(t, Stepped(t, d, a[0]), a[1..], b);
    }
  }

  /** An outcome so far only adds to the rest. */
  lemma {:induction false} ResultAdds(t: Termios, d: Discipline, input: Bytes, r: SlaveInput)
    ensures PushResult(t, d, input, r) == Combined(r, PushResult(t, d, input, NOTHING))
    decreases |input|
  {
    hide Stepped, MeaningOf;
    if input != [] {
      var next := Stepped(t, d, input[0]);
      ResultAdds(t, next, input[1..], StepResult(t, d, input[0], r));
      ResultAdds(t, next, input[1..], StepResult(t, d, input[0], NOTHING));
    }
  }

  lemma {:induction false} ResultAppend(t: Termios, d: Discipline, a: Bytes, b: Bytes, r: SlaveInput)
    ensures PushResult(t, d, a + b, r) == PushResult(t, Pushed(t, d, a), b, PushResult(t, d, a, r))
    decreases |a|
  {
    hide Stepped, StepResult;
    if a == [] {
      assert a + b == b;
    } else {
      assert (a + b)[1..] == a[1..] + b;
      ResultAppend(t, Stepped(t, d, a[0]), a[1..], b, StepResult(t, d, a[0], r));
    }
  }

  /** Chunking does not matter: pushing a then b is pushing a followed by b, state and outcome. */
  lemma ChunkingIndependent(t: Termios, d: Discipline, a: Bytes, b: Bytes)
    requires Bounded(d)
    ensures AfterPush(t, AfterPush(t, d, a), b) == AfterPush(t, d, a + b)
    ensures Combined(ResultOf(t, d, a), ResultOf(t, AfterPush(t, d, a), b)) == ResultOf(t, d, a + b)
  {
    hide Pushed, PushResult, Filled;
    if t.canonical {
      PushedAppend(t, d, a, b);
      ResultAppend(t, d, a, b, NOTHING);
      ResultAdds(t, Pushed(t, d, a), b, PushResult(t, d, a, NOTHING));
    } else {
      FilledTwice(d.slave, a, b);
      FillGrows(d.slave, a);
      FillGrows(Filled(d.slave, a), b);
      FillGrows(d.slave, a + b);
    }
  }

  lemma FillGrows(queue: Bytes, more: Bytes)
    requires |queue| <= MAX_QUEUED_BYTES
    ensures |queue| <= |Filled(queue, more)| <= MAX_QUEUED_BYTES
  {
  }

  /**
   The reader gets the edited lines, in order, cut off at the queue's cap; the line
   buffer holds what is typed since.
   */
  lemma {:induction false} DeliversEditedLines(t: Termios, d: Discipline, input: Bytes)
    requires Bounded(d)
    ensures Pushed(t, d, input).slave == Filled(d.slave, Delivered(t, d.line, input))
    ensures Pushed(t, d, input).line == Remaining(t, d.line, input)
    decreases |input|
  {
    hide MeaningOf, Filled, Delivered, Remaining, EchoOf, Edited;
    if input == [] {
      DeliveredNothing(t, d.line);
      FillNothing(d.slave);
    } else {
      var m := MeaningOf(t, input[0]);
      var next := Stepped(t, d, input[0]);
      DeliveredHead(t, d.line, input);
      StaysBounded(t, d, [input[0]]);
      assert Pushed(t, d, [input[0]]) == next;
      DeliversEditedLines(t, next, input[1..]);
      FilledTwice(d.slave, Handed(d.line, m), Delivered(t, next.line, input[1..]));
      var rest := Delivered(t, next.line, input[1..]);
      assert Edits(m) ==> Handed(d.line, m) == [] && [] + rest == rest;
    }
  }

  lemma DeliveredNothing(t: Termios, line: Bytes)
    ensures Delivered(t, line, []) == [] && Remaining(t, line, []) == line
  {
  }

  /** With no line half typed, the queue gets the POSIX lines as far as its cap allows, unless one has overflowed. */
  lemma ReadsPosixLines(t: Termios, d: Discipline, input: Bytes)
    requires Bounded(d) && d.line == []
    ensures !HandsOverflowed(t, input) ==> Pushed(t, d, input).slave == Filled(d.slave, PosixDelivered(t, input))
    ensures |d.slave| + |PosixDelivered(t, input)| <= MAX_QUEUED_BYTES ==>
              (Pushed(t, d, input).slave == d.slave + PosixDelivered(t, input) <==> !HandsOverflowed(t, input))
  {
    hide Pushed, Delivered, PosixDelivered, HandsOverflowed;
    DeliversEditedLines(t, d, input);
    DeliveredLength(t, input);
  }

  lemma FillNothing(queue: Bytes)
    ensures Filled(queue, []) == queue
  {
  }

  // ----------------------------------------------------------------- key by key

  /** A queue takes as much as it has room for. */
  lemma FilledIs(queue: Bytes, more: Bytes)
    requires |queue| <= MAX_QUEUED_BYTES
    ensures Filled(queue, more) == queue + more[..Min(|more|, MAX_QUEUED_BYTES - |queue|)]
  {
    assert more[..|more|] == more;
  }

  /** The bytes that raise a signal. */
  predicate Signals(t: Termios, raw: Byte) {
    t.isig && raw != 0 && (raw == t.vintr || raw == t.vquit)
  }

  /** The bytes that end a line, unless they raise a signal. */
  predicate Ends(t: Termios, raw: Byte) {
    raw == 0x0a || (t.icrnl && raw == 0x0d)
  }

  /** The special characters of canonical mode, apart from those that end a line or raise a signal. */
  predicate Edit(t: Termios, raw: Byte) {
    (raw != 0 && (raw == t.veof || raw == t.vkill || raw == t.verase)) || raw == 0x08
  }

  lemma KeyFits(t: Termios, d: Discipline, raw: Byte)
    requires Bounded(d)
    ensures Bounded(Stepped(t, d, raw))
  {
  }

  /** The interrupt and quit characters drop the line and raise their signals; interrupt wins if they are the same. */
  lemma SignalKey(t: Termios, d: Discipline, raw: Byte, r: SlaveInput)
    requires t.isig && raw != 0 && (raw == t.vintr || raw == t.vquit)
    ensures Stepped(t, d, raw) ==
            Discipline(Filled(d.slave, []),
                       Filled(d.master, if !t.echo then [] else if raw == t.vintr then [0x5e, 0x43, 0x0d, 0x0a]
                                        else [0x5e, 0x5c, 0x0d, 0x0a]), [], d.eof)
    ensures StepResult(t, d, raw, r) ==
            SlaveInput(r.consumed + 1, r.wakeReader, Some(if raw == t.vintr then 2 else 3))
  {
  }

  /** A line feed, or a carriage return read as one, hands the line over with a line feed after it. */
  lemma NewlineKey(t: Termios, d: Discipline, raw: Byte, r: SlaveInput)
    requires !Signals(t, raw) && Ends(t, raw)
    ensures Stepped(t, d, raw) ==
            Discipline(Filled(d.slave, d.line + [0x0a]), Filled(d.master, if t.echo then [0x0d, 0x0a] else []), [],
                       d.eof)
    ensures StepResult(t, d, raw, r) ==
            SlaveInput(r.consumed + 1, r.wakeReader || |d.slave| < |Filled(d.slave, d.line + [0x0a])|, r.signal)
  {
  }

  /** The end-of-file character hands over a line that has text as it is, and marks end of file on an empty one. */
  lemma EofKey(t: Termios, d: Discipline, raw: Byte, r: SlaveInput)
    requires !Signals(t, raw) && !Ends(t, raw) && raw != 0 && raw == t.veof
    ensures Stepped(t, d, raw) ==
            Discipline(Filled(d.slave, d.line), Filled(d.master, []), [], d.eof || d.line == [])
    ensures StepResult(t, d, raw, r) ==
            SlaveInput(r.consumed + 1, r.wakeReader || d.line == [] || |d.slave| < |Filled(d.slave, d.line)|, r.signal)
  {
  }

  /** The kill character empties the line and rubs out all of it. */
  lemma KillKey(t: Termios, d: Discipline, raw: Byte, r: SlaveInput)
    requires !Signals(t, raw) && !Ends(t, raw) && raw != 0 && raw == t.vkill && raw != t.veof
    ensures Stepped(t, d, raw) ==
            Discipline(Filled(d.slave, []), Filled(d.master, if t.echo then Rubout(|d.line|) else []), [], d.eof)
    ensures StepResult(t, d, raw, r) == SlaveInput(r.consumed + 1, r.wakeReader, r.signal)
  {
    FillNothing(d.slave);
  }

  /** The erase character, or a backspace, takes the last byte of the line, if there is one. */
  lemma EraseKey(t: Termios, d: Discipline, raw: Byte, r: SlaveInput)
    requires !Signals(t, raw) && !Ends(t, raw) && (raw != 0 ==> raw != t.veof && raw != t.vkill)
    requires (raw != 0 && raw == t.verase) || raw == 0x08
    ensures Stepped(t, d, raw) ==
            Discipline(Filled(d.slave, []), Filled(d.master, if t.echo && d.line != [] then Rubout(1) else []),
                       if d.line == [] then [] else d.line[..|d.line| - 1], d.eof)
    ensures StepResult(t, d, raw, r) == SlaveInput(r.consumed + 1, r.wakeReader, r.signal)
  {
    FillNothing(d.slave);
  }

  /** Any other byte is text: it joins the line and is echoed, unless the line is full. */
  lemma TextKey(t: Termios, d: Discipline, raw: Byte, r: SlaveInput)
    requires !Signals(t, raw) && !Ends(t, raw) && !Edit(t, raw)
    ensures Stepped(t, d, raw) ==
            Discipline(Filled(d.slave, []), Filled(d.master, if t.echo && |d.line| < 4096 then [raw] else []),
                       if |d.line| < 4096 then d.line + [raw] else d.line, d.eof)
    ensures StepResult(t, d, raw, r) == SlaveInput(r.consumed + 1, r.wakeReader, r.signal)
  {
    FillNothing(d.slave);
  }

  /** What is rubbed out: a backspace, a space and a backspace for each byte. */
  lemma {:induction false} RuboutIs(n: nat, i: nat)
    requires i < n
    ensures |Rubout(n)| == 3 * n
    ensures Rubout(n)[3 * i] == 0x08 && Rubout(n)[3 * i + 1] == 0x20 && Rubout(n)[3 * i + 2] == 0x08
    decreases n
  {
    if 1 < n {
      RuboutIs(n - 1, if 0 < i then i - 1 else 0);
    }
  }

  /** An erase takes back the text typed just before it. */
  lemma EraseUndoesText(t: Termios, d: Discipline, raw: Byte, erase: Byte)
    requires Bounded(d) && |d.line| < MAX_CANON && !Signals(t, raw) && !Ends(t, raw) && !Edit(t, raw)
    requires erase == 0x08 && !Signals(t, erase) && t.veof != erase && t.vkill != erase
    ensures var b := Stepped(t, Stepped(t, d, raw), erase);
            b.slave == d.slave && b.line == d.line && b.eof == d.eof
  {
    TextKey(t, d, raw, NOTHING);
    EraseKey(t, Stepped(t, d, raw), erase, NOTHING);
    FillNothing(d.slave);
  }

  /** A line of plain text, typed from an empty line, reaches the reader with its line feed. */
  lemma TypedLineArrives(t: Termios, d: Discipline, text: Bytes)
    requires Bounded(d) && d.line == [] && |text| <= MAX_CANON && !Signals(t, 0x0a)
    requires forall i | 0 <= i < |text| :: !Signals(t, text[i]) && !Ends(t, text[i]) && !Edit(t, text[i])
    ensures Pushed(t, d, text + [0x0a]).slave == Filled(d.slave, text + [0x0a])
    ensures Pushed(t, d, text + [0x0a]).line == []
  {
    hide Pushed, Stepped, Filled;
    PushedAppend(t, d, text, [0x0a]);
    TypedText(t, d, text);
    PushedOne(t, Pushed(t, d, text), 0x0a);
    NewlineKey(t, Pushed(t, d, text), 0x0a, NOTHING);
    assert d.line + text == text;
  }

  lemma PushedOne(t: Termios, d: Discipline, raw: Byte)
    ensures Pushed(t, d, [raw]) == Stepped(t, d, raw)
  {
    hide Stepped;
    assert [raw][1..] == [];
  }

  lemma {:induction false} TypedText(t: Termios, d: Discipline, text: Bytes)
    requires |d.line| + |text| <= MAX_CANON
    requires forall i | 0 <= i < |text| :: !Signals(t, text[i]) && !Ends(t, text[i]) && !Edit(t, text[i])
    ensures Pushed(t, d, text).slave == d.slave && Pushed(t, d, text).line == d.line + text
    decreases |text|
  {
    hide Stepped, Filled;
    if text != [] {
      TextKey(t, d, text[0], NOTHING);
      FillNothing(d.slave);
      TypedText(t, Stepped(t, d, text[0]), text[1..]);
      assert d.line + [text[0]] + text[1..] == d.line + text;
    }
  }

  // ------------------------------------------------------------------ end of file

  /** What happens to a terminal in canonical mode: a byte typed, a read, a look for end of file. */
  datatype Use = Key(raw: Byte) | Read(count: nat) | Ask

  function Used(t: Termios, d: Discipline, u: Use): Discipline {
    match u
    case Key(raw) => Stepped(t, d, raw)
    case Read(count) => d.(slave := d.slave[Min(count, |d.slave|)..])
    case Ask => if d.slave == [] then d.(eof := false) else d
  }

  /** An end-of-file character on an empty line. */
  predicate MarksEof(t: Termios, d: Discipline, u: Use) {
    u.Key? && MeaningOf(t, u.raw).EndFile? && d.line == []
  }

  predicate ReportsEof(d: Discipline, u: Use) {
    u.Ask? && d.slave == [] && d.eof
  }

  function UsedAll(t: Termios, d: Discipline, uses: seq<Use>): Discipline
    decreases |uses|
  {
    if uses == [] then d else UsedAll(t, Used(t, d, uses[0]), uses[1..])
  }

  function Marks(t: Termios, d: Discipline, uses: seq<Use>): nat
    decreases |uses|
  {
    if uses == [] then 0 else One(MarksEof(t, d, uses[0])) + Marks(t, Used(t, d, uses[0]), uses[1..])
  }

  function Reports(t: Termios, d: Discipline, uses: seq<Use>): nat
    decreases |uses|
  {
    if uses == [] then 0 else One(ReportsEof(d, uses[0])) + Reports(t, Used(t, d, uses[0]), uses[1..])
  }

  /** No end-of-file character is typed while an earlier one is still to be reported. */
  predicate Spaced(t: Termios, d: Discipline, uses: seq<Use>)
    decreases |uses|
  {
    uses == [] || (!(MarksEof(t, d, uses[0]) && d.eof) && Spaced(t, Used(t, d, uses[0]), uses[1..]))
  }

  /** Reports never exceed marks, and fall short exactly when some mark came too soon. */
  lemma {:induction false} EofAccount(t: Termios, d: Discipline, uses: seq<Use>)
    ensures Reports(t, d, uses) + One(UsedAll(t, d, uses).eof) <= Marks(t, d, uses) + One(d.eof)
    ensures Spaced(t, d, uses) <==> Reports(t, d, uses) + One(UsedAll(t, d, uses).eof) == Marks(t, d, uses) + One(d.eof)
    decreases |uses|
  {
    hide MeaningOf, Filled, EchoOf, Handed, Edited;
    if uses != [] {
      EofAccount(t, Used(t, d, uses[0]), uses[1..]);
    }
  }

  /** Once nothing is pending, end of file has been reported once per mark if and only if the marks were spaced. */
  lemma EofOncePerMark(t: Termios, d: Discipline, uses: seq<Use>)
    requires !d.eof && !UsedAll(t, d, uses).eof
    ensures Reports(t, d, uses) == Marks(t, d, uses) <==> Spaced(t, d, uses)
  {
    EofAccount(t, d, uses);
  }

  /** Two end-of-file characters in a row are reported once. */
  lemma TwoMarksOneReport(t: Termios, raw: Byte)
    requires MeaningOf(t, raw).EndFile?
    ensures
      var d := Discipline([], [], [], false);
      var uses := [Key(raw), Key(raw), Ask, Ask];
      Marks(t, d, uses) == 2 && Reports(t, d, uses) == 1
  {
    var d := Discipline([], [], [], false);
    var uses := [Key(raw), Key(raw), Ask, Ask];
    var d1 := Used(t, d, Key(raw));
    var d2 := Used(t, d1, Key(raw));
    var d3 := Used(t, d2, Ask);
    assert uses[1..] == [Key(raw), Ask, Ask];
    assert uses[1..][1..] == [Ask, Ask];
    assert uses[1..][1..][1..] == [Ask];
    assert Reports(t, d2, [Ask, Ask]) == 1 + Reports(t, d3, [Ask]);
    assert Marks(t, d2, [Ask, Ask]) == Marks(t, d3, [Ask]);
  }

  // ------------------------------------------------------------------------ class

  class PtyInner {
    var slaveQueue: Bytes
    var masterQueue: Bytes
    var canonLine: Bytes
    var pendingEof: bool
    var termios: Termios

    ghost function View(): Discipline
      reads this
    {
      Discipline(slaveQueue, masterQueue, canonLine, pendingEof)
    }

    ghost predicate Valid()
      reads this
    {
      Bounded(View())
    }

    constructor (termios: Termios)
      ensures Valid() && View() == Discipline([], [], [], false) && this.termios == termios
    {
      slaveQueue, masterQueue, canonLine, pendingEof := [], [], [], false;
      this.termios := termios;
    }

    method PushSlaveRaw(bytes: Bytes) returns (taken: nat)
      requires Valid()
      modifies this`slaveQueue
      ensures Valid() && slaveQueue == Filled(old(slaveQueue), bytes) && taken == |slaveQueue| - |old(slaveQueue)|
      ensures taken == Min(|bytes|, MAX_QUEUED_BYTES - |old(slaveQueue)|)
      ensures slaveQueue == old(slaveQueue) + bytes[..taken]
    {
      var room := MAX_QUEUED_BYTES - |slaveQueue|;
      taken := Min(room, |bytes|);
      slaveQueue := slaveQueue + bytes[..taken];
      assert taken == |bytes| ==> bytes[..taken] == bytes;
    }

    method Echo(bytes: Bytes)
      requires Valid()
      modifies this`masterQueue
      ensures Valid() && masterQueue == Filled(old(masterQueue), bytes)
    {
      var i := 0;
      while i < |bytes|
        invariant 0 <= i <= |bytes| && masterQueue == Filled(old(masterQueue), bytes[..i])
        invariant |masterQueue| <= MAX_QUEUED_BYTES
      {
        EchoStep(old(masterQueue), bytes, i);
        if |masterQueue| >= MAX_QUEUED_BYTES {
          EchoFull(old(masterQueue), bytes, i);
          return;
        }
        masterQueue := masterQueue + [bytes[i]];
        i := i + 1;
      }
      assert bytes[..i] == bytes;
    }

    /** Typed input through the line discipline. */
    method PushSlaveInput(bytes: Bytes) returns (r: SlaveInput)
      requires Valid()
      modifies this`slaveQueue, this`masterQueue, this`canonLine, this`pendingEof
      ensures Valid() && View() == AfterPush(termios, old(View()), bytes)
      ensures r == ResultOf(termios, old(View()), bytes)
      ensures !termios.canonical ==>
                && r.consumed == Min(|bytes|, MAX_QUEUED_BYTES - |old(slaveQueue)|)
                && View() == old(View()).(slave := old(slaveQueue) + bytes[..r.consumed])
                && r.wakeReader == (0 < r.consumed) && r.signal.None?
    {
      if !termios.canonical {
        var consumed := PushSlaveRaw(bytes);
        return SlaveInput(consumed, consumed > 0, None);
      }
      ghost var d := View();
      r := NOTHING;
      var i := 0;
      while i < |bytes|
        invariant 0 <= i <= |bytes| && Valid()
        invariant Pushed(termios, View(), bytes[i..]) == Pushed(termios, d, bytes)
        invariant PushResult(termios, View(), bytes[i..], r) == PushResult(termios, d, bytes, NOTHING)
      {
        assert bytes[i..][0] == bytes[i] && bytes[i..][1..] == bytes[i + 1..];
        r := PushByte(bytes[i], r);
        i := i + 1;
      }
      assert bytes[i..] == [];
    }

    /** One typed byte, tested against the special characters in turn. */
    method PushByte(raw: Byte, before: SlaveInput) returns (r: SlaveInput)
      requires Valid()
      modifies this`slaveQueue, this`masterQueue, this`canonLine, this`pendingEof
      ensures Valid() && View() == Stepped(termios, old(View()), raw)
              && r == StepResult(termios, old(View()), raw, before)
    {
      hide Filled, Stepped, StepResult;
      ghost var d := View();
      FillNothing(slaveQueue);
      FillNothing(masterQueue);
      KeyFits(termios, d, raw);
      var b := if termios.icrnl && raw == CR then LF else raw;
      r := before.(consumed := before.consumed + 1);
      if termios.isig && raw != 0 && (raw == termios.vintr || raw == termios.vquit) {
        SignalKey(termios, d, raw, before);
        canonLine := [];
        if termios.echo {
          Echo(if raw == termios.vintr then [0x5e, 0x43, CR, LF] else [0x5e, 0x5c, CR, LF]);
        }
        r := r.(signal := Some(if raw == termios.vintr then SIGINT else SIGQUIT));
      } else if b == LF {
        NewlineKey(termios, d, raw, before);
        if termios.echo {
          Echo([CR, LF]);
        }
        canonLine := canonLine + [LF];
        r := Hand(r);
      } else if raw != 0 && raw == termios.veof {
        EofKey(termios, d, raw, before);
        if canonLine == [] {
          pendingEof := true;
          r := r.(wakeReader := true);
        } else {
          r := Hand(r);
        }
      } else {
        EditByte(raw, before);
      }
    }

    /** A byte that neither raises a signal nor ends the line. */
    method EditByte(raw: Byte, ghost before: SlaveInput)
      requires Valid() && !Signals(termios, raw) && !Ends(termios, raw) && (raw != 0 ==> raw != termios.veof)
      modifies this`slaveQueue, this`masterQueue, this`canonLine, this`pendingEof
      ensures Valid() && View() == Stepped(termios, old(View()), raw)
      ensures StepResult(termios, old(View()), raw, before) == before.(consumed := before.consumed + 1)
    {
      hide Filled, Stepped, StepResult, Rubout;
      ghost var d := View();
      FillNothing(slaveQueue);
      FillNothing(masterQueue);
      KeyFits(termios, d, raw);
      if raw != 0 && raw == termios.vkill {
        KillKey(termios, d, raw, before);
        var erased := |canonLine|;
        canonLine := [];
        if termios.echo {
          EchoRubout(erased);
        }
      } else if (raw != 0 && raw == termios.verase) || raw == BACKSPACE {
        EraseKey(termios, d, raw, before);
        if canonLine != [] {
          canonLine := canonLine[..|canonLine| - 1];
          if termios.echo {
            EchoRubout(1);
          }
        }
      } else {
        TextKey(termios, d, raw, before);
        if |canonLine| < MAX_CANON {
          canonLine := canonLine + [raw];
          if termios.echo {
            Echo([raw]);
          }
        }
      }
    }

    /** Hands the line over to the reader, who is woken if any of it fits. */
    method Hand(before: SlaveInput) returns (r: SlaveInput)
      requires |slaveQueue| <= MAX_QUEUED_BYTES && |masterQueue| <= MAX_QUEUED_BYTES
      modifies this`slaveQueue, this`canonLine
      ensures Valid() && canonLine == [] && slaveQueue == Filled(old(slaveQueue), old(canonLine))
      ensures r == before.(wakeReader := before.wakeReader || |old(slaveQueue)| < |slaveQueue|)
    {
      var line := canonLine;
      canonLine := [];
      var taken := PushSlaveRaw(line);
      return before.(wakeReader := before.wakeReader || taken > 0);
    }

    method EchoRubout(n: nat)
      requires Valid()
      modifies this`masterQueue
      ensures Valid() && masterQueue == Filled(old(masterQueue), Rubout(n))
    {
      var k := 0;
      FillNothing(masterQueue);
      while k < n
        invariant 0 <= k <= n && Valid() && masterQueue == Filled(old(masterQueue), Rubout(k))
      {
        FilledTwice(old(masterQueue), Rubout(k), [0x08, 0x20, 0x08]);
        RuboutSnoc(k);
        Echo([0x08, 0x20, 0x08]);
        k := k + 1;
      }
    }

    /** Reads back what was delivered, oldest first. */
    method SlaveRead(count: nat) returns (dst: Bytes)
      requires Valid()
      modifies this`slaveQueue
      ensures Valid() && dst + slaveQueue == old(slaveQueue) && |dst| == Min(count, |old(slaveQueue)|)
      ensures View() == Used(termios, old(View()), Read(count))
    {
      var n := Min(count, |slaveQueue|);
      dst := [];
      while |dst| < n
        invariant |dst| <= n && dst + slaveQueue == old(slaveQueue) && |slaveQueue| <= |old(slaveQueue)|
      {
        dst := dst + [slaveQueue[0]];
        slaveQueue := slaveQueue[1..];
      }
    }

    /** The emulator's side: what the slave wrote and the echo, oldest first. */
    method ReadMasterOutput(count: nat) returns (dst: Bytes)
      requires Valid()
      modifies this`masterQueue
      ensures Valid() && dst + masterQueue == old(masterQueue) && |dst| == Min(count, |old(masterQueue)|)
    {
      var n := Min(count, |masterQueue|);
      dst := [];
      while |dst| < n
        invariant |dst| <= n && dst + masterQueue == old(masterQueue) && |masterQueue| <= |old(masterQueue)|
      {
        dst := dst + [masterQueue[0]];
        masterQueue := masterQueue[1..];
      }
    }

    /** End of file, reported once, after everything delivered has been read. */
    method TakePendingEof() returns (r: bool)
      modifies this`pendingEof
      ensures r == ReportsEof(old(View()), Ask)
      ensures View() == Used(termios, old(View()), Ask)
    {
      if slaveQueue == [] && pendingEof {
        pendingEof := false;
        return true;
      }
      return false;
    }
  }

  lemma EchoStep(queue: Bytes, bytes: Bytes, i: nat)
    requires |queue| <= MAX_QUEUED_BYTES && i < |bytes|
    ensures Filled(queue, bytes[..i + 1]) == Filled(Filled(queue, bytes[..i]), [bytes[i]])
  {
    FilledTwice(queue, bytes[..i], [bytes[i]]);
    assert bytes[..i + 1] == bytes[..i] + [bytes[i]];
  }

  lemma EchoFull(queue: Bytes, bytes: Bytes, i: nat)
    requires |queue| <= MAX_QUEUED_BYTES && i < |bytes| && |Filled(queue, bytes[..i])| == MAX_QUEUED_BYTES
    ensures Filled(queue, bytes[..i]) == Filled(queue, bytes)
  {
    FilledTwice(queue, bytes[..i], bytes[i..]);
    assert bytes[..i] + bytes[i..] == bytes;
    assert Filled(queue, bytes[..i]) + bytes[i..][..0] == Filled(queue, bytes[..i]);
  }

  lemma {:induction false} RuboutSnoc(n: nat)
    ensures Rubout(n + 1) == Rubout(n) + [0x08, 0x20, 0x08]
  {
    if 0 < n {
      RuboutSnoc(n - 1);
    }
  }
}
