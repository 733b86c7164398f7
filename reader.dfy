// The card reader (`VCardReader` in vcard/src/reader.rs): physical lines
// ended by CRLF, unfolded into logical lines (section 3.2 of RFC 6350),
// parsed into properties, and assembled into a card between BEGIN:VCARD
// and END:VCARD.
//
// Each reading step is a function from the stream still to be read (and
// the bytes discarded so far) to its result and the stream it leaves; each
// method of `VCardReader` is proved to do what its function says.
module Reader {
  import opened Errors
  import opened Strings
  import opened Model
  import opened Properties
  import opened Cards
  import opened Pushback

  /** `DEFAULT_MAX_LINE_LENGTH`. */
  const DefaultMaxLineLength: nat := 5000

  /** The bytes of `END:VCARD`. */
  function EndLine(): (r: seq<byte>)
    ensures |r| == 9 && forall i :: 0 <= i < |r| ==> r[i] != CR
  {
    [69, 78, 68, 58, 86, 67, 65, 82, 68]
  }

  lemma EndLineText(bs: seq<byte>)
    requires bs == EndLine()
    ensures Utf8Decode(bs) == Some("END:VCARD")
  {
    DecodeAscii(bs);
    var t := Utf8Decode(bs).value;
    assert t == "END:VCARD" by {
      assert |t| == 9;
      forall i | 0 <= i < 9 ensures t[i] == "END:VCARD"[i] {
        assert t[i] == bs[i] as char;
      }
    }
  }

  predicate IsBlank(b: byte)
  {
    b == SP || b == TAB
  }

  // ---------------------------------------------------------------------
  // Physical lines

  datatype PhysicalOut = PhysicalOut(result: Result<()>, line: seq<byte>, rest: Stream)

  /** `read_physical_line`: bytes are appended to `buf` up to a CR LF,
      which is consumed and not kept. A CR followed by any other byte is
      dropped and that byte kept. Before every byte the buffer is checked
      against the limit. An error keeps what was appended so far. */
  function Physical(s: Stream, buf: seq<byte>, max: nat): (o: PhysicalOut)
    ensures o.rest.failing == s.failing && |o.rest.bytes| <= |s.bytes|
    ensures |buf| <= |o.line| && o.line[..|buf|] == buf
    ensures |o.line| - |buf| <= |s.bytes| - |o.rest.bytes|
    ensures o.result.Ok? ==> |o.line| <= max && |o.rest.bytes| + 2 <= |s.bytes|
    decreases |s.bytes|
  {
    if |buf| > max then PhysicalOut(Err(MaxLineLengthExceeded(max)), buf, s)
    else if s.bytes == [] then PhysicalOut(Err(EofError(s)), buf, s)
    else if s.bytes[0] != CR then Physical(Stream(s.bytes[1..], s.failing), buf + [s.bytes[0]], max)
    else if |s.bytes| == 1 then PhysicalOut(Err(EofError(s)), buf, Stream([], s.failing))
    else if s.bytes[1] == LF then PhysicalOut(Ok(()), buf, Stream(s.bytes[2..], s.failing))
    else Physical(Stream(s.bytes[2..], s.failing), buf + [s.bytes[1]], max)
  }

  predicate NoCR(t: seq<byte>)
  {
    forall i :: 0 <= i < |t| ==> t[i] != CR
  }

  /** A line of at most `max` bytes ended by CR LF is read whole, without
      its CR LF. */
  lemma {:induction false} PhysicalReadsLine(t: seq<byte>, rest: seq<byte>, f: bool, buf: seq<byte>, max: nat)
    requires NoCR(t) && |buf| + |t| <= max
    ensures Physical(Stream(t + [CR, LF] + rest, f), buf, max) == PhysicalOut(Ok(()), buf + t, Stream(rest, f))
    decreases |t|
  {
    var s := t + [CR, LF] + rest;
    if t == [] {
      assert s == [CR, LF] + rest;
      assert s[2..] == rest;
      assert buf + t == buf;
    } else {
      assert s[0] == t[0] && s[1..] == t[1..] + [CR, LF] + rest;
      PhysicalReadsLine(t[1..], rest, f, buf + [t[0]], max);
      assert buf + [t[0]] + t[1..] == buf + t;
    }
  }

  /** A line longer than `max` is refused, whatever follows it. */
  lemma {:induction false} PhysicalTooLong(t: seq<byte>, rest: seq<byte>, f: bool, buf: seq<byte>, max: nat)
    requires NoCR(t) && |buf| + |t| > max
    ensures Physical(Stream(t + rest, f), buf, max).result == Err(MaxLineLengthExceeded(max))
    decreases |t|
  {
    if |buf| <= max {
      var s := t + rest;
      assert s[0] == t[0] && s[1..] == t[1..] + rest;
      PhysicalTooLong(t[1..], rest, f, buf + [t[0]], max);
    }
  }

  /** Without a CR LF the whole rest is read and the end of the stream
      reported. */
  lemma {:induction false} PhysicalRunsOut(t: seq<byte>, f: bool, buf: seq<byte>, max: nat)
    requires NoCR(t) && |buf| + |t| <= max
    ensures Physical(Stream(t, f), buf, max) == PhysicalOut(Err(EofError(Stream(t, f))), buf + t, Stream([], f))
    decreases |t|
  {
    if t == [] {
      assert buf + t == buf;
    } else {
      PhysicalRunsOut(t[1..], f, buf + [t[0]], max);
      assert buf + [t[0]] + t[1..] == buf + t;
    }
  }

  // ---------------------------------------------------------------------
  // Looking ahead

  datatype Inspection = NoMoreContent | Discard | LogicalLine | NewProperty

  datatype InspectOut = InspectOut(result: Result<Inspection>, rest: Stream)

  /** `inspect_next_line`: two bytes are looked at. Fewer than two left
      means no more content (the last byte is lost). A line not starting
      with a blank belongs to a new property; a blank followed by a blank,
      LF or CR marks a line to discard; otherwise the leading blank is
      consumed and the line continues the current one. */
  function Inspect(s: Stream): (o: InspectOut)
    ensures o.rest.failing == s.failing
    ensures |s.bytes| < 2 ==> o.rest.bytes == [] && (o.result.Err? || o.result == Ok(NoMoreContent))
    ensures |s.bytes| >= 2 ==>
              && o.result.Ok? && o.result.value != NoMoreContent
              && (o.result.value == LogicalLine ==> o.rest.bytes == s.bytes[1..])
              && (o.result.value != LogicalLine ==> o.rest == s)
  {
    if |s.bytes| < 2 then
      InspectOut(if s.failing then Err(Io(Failed)) else Ok(NoMoreContent), Stream([], s.failing))
    else if !IsBlank(s.bytes[0]) then InspectOut(Ok(NewProperty), s)
    else if IsBlank(s.bytes[1]) || s.bytes[1] == LF || s.bytes[1] == CR then InspectOut(Ok(Discard), s)
    else InspectOut(Ok(LogicalLine), Stream(s.bytes[1..], s.failing))
  }

  // ---------------------------------------------------------------------
  // Logical lines

  datatype LineOut = LineOut(result: Result<(string, bool)>, discarded: seq<byte>, rest: Stream)

  /** The logical line as text, and whether another property follows. */
  function Finish(line: seq<byte>, more: bool, discarded: seq<byte>, rest: Stream): LineOut
  {
    match Utf8Decode(line)
    case None => LineOut(Err(FromUtf8Error), discarded, rest)
    case Some(text) => LineOut(Ok((text, more)), discarded, rest)
  }

  /** The loop of `read_logical_line`: continuation lines are appended,
      lines to discard are read into the discard buffer, which is never
      emptied, so the limit applies to all bytes ever discarded. */
  function Continue(s: Stream, line: seq<byte>, discarded: seq<byte>, max: nat): (o: LineOut)
    ensures o.rest.failing == s.failing && |o.rest.bytes| <= |s.bytes|
    ensures |discarded| <= |o.discarded| && o.discarded[..|discarded|] == discarded
    decreases |s.bytes|
  {
    var i := Inspect(s);
    match i.result
    case Err(e) => LineOut(Err(e), discarded, i.rest)
    case Ok(NewProperty) => Finish(line, true, discarded, i.rest)
    case Ok(NoMoreContent) => Finish(line, false, discarded, i.rest)
    case Ok(Discard) =>
      var d := Physical(i.rest, discarded, max);
      if d.result.Err? then LineOut(Err(d.result.error), d.line, d.rest)
      else Continue(d.rest, line, d.line, max)
    case Ok(LogicalLine) =>
      var p := Physical(i.rest, line, max);
      if p.result.Err? then LineOut(Err(p.result.error), discarded, p.rest)
      else Continue(p.rest, p.line, discarded, max)
  }

  /** `read_logical_line`: a first physical line, then its continuations.
      The end of the stream ends the first line without error only when
      the line read is exactly `END:VCARD`. */
  function Logical(s: Stream, discarded: seq<byte>, max: nat): (o: LineOut)
    ensures o.rest.failing == s.failing && |o.rest.bytes| <= |s.bytes|
    ensures o.result.Ok? ==> |o.rest.bytes| < |s.bytes|
    ensures |discarded| <= |o.discarded| && o.discarded[..|discarded|] == discarded
  {
    var first := Physical(s, [], max);
    if first.result.Err? && !(first.result.error == Io(UnexpectedEof) && first.line == EndLine()) then
      LineOut(Err(first.result.error), discarded, first.rest)
    else
      Continue(first.rest, first.line, discarded, max)
  }

  /** A continuation line (a blank, then a line not starting with a blank)
      is appended without its blank: the unfolding of section 3.2 of
      RFC 6350. */
  lemma ContinueFold(w: byte, t: seq<byte>, more: seq<byte>, f: bool, line: seq<byte>, discarded: seq<byte>, max: nat)
    requires IsBlank(w) && t != [] && !IsBlank(t[0]) && t[0] != LF && NoCR(t)
    requires |line| + |t| <= max
    ensures Continue(Stream([w] + t + [CR, LF] + more, f), line, discarded, max)
         == Continue(Stream(more, f), line + t, discarded, max)
  {
    var s := Stream([w] + t + [CR, LF] + more, f);
    assert s.bytes[1] == t[0];
    assert s.bytes[1..] == t + [CR, LF] + more;
    PhysicalReadsLine(t, more, f, line, max);
  }

  /** A logical line folded over two physical lines is read as the two
      parts joined, and the next line is left for the next property. */
  lemma UnfoldTwoLines(t1: seq<byte>, w: byte, t2: seq<byte>, next: seq<byte>, f: bool, discarded: seq<byte>, max: nat)
    requires NoCR(t1) && IsBlank(w) && t2 != [] && !IsBlank(t2[0]) && t2[0] != LF && NoCR(t2)
    requires |t1| + |t2| <= max
    requires |next| >= 2 && !IsBlank(next[0])
    ensures Logical(Stream(t1 + [CR, LF] + ([w] + t2 + [CR, LF] + next), f), discarded, max)
         == Finish(t1 + t2, true, discarded, Stream(next, f))
  {
    PhysicalReadsLine(t1, [w] + t2 + [CR, LF] + next, f, [], max);
    assert [] + t1 == t1;
    ContinueFold(w, t2, next, f, t1, discarded, max);
  }

  /** A last line without CR LF is accepted when it is `END:VCARD`, and
      nothing follows it. */
  lemma EndWithoutNewline(f: bool, discarded: seq<byte>, max: nat)
    requires max >= 9 && !f
    ensures Logical(Stream(EndLine(), f), discarded, max) == LineOut(Ok(("END:VCARD", false)), discarded, Stream([], f))
  {
    PhysicalRunsOut(EndLine(), f, [], max);
    assert [] + EndLine() == EndLine();
    EndLineText(EndLine());
  }

  /** Any other unterminated last line is refused with the end of the
      stream. */
  lemma TruncatedLineRefused(t: seq<byte>, f: bool, discarded: seq<byte>, max: nat)
    requires NoCR(t) && |t| <= max && t != EndLine()
    ensures Logical(Stream(t, f), discarded, max).result == Err(EofError(Stream(t, f)))
  {
    PhysicalRunsOut(t, f, [], max);
    assert [] + t == t;
  }

  /** Once more than `max` bytes were discarded, every further line to
      discard is refused, however short. */
  lemma DiscardLimit(s: Stream, line: seq<byte>, discarded: seq<byte>, max: nat)
    requires |s.bytes| >= 2 && IsBlank(s.bytes[0]) && IsBlank(s.bytes[1])
    requires |discarded| > max
    ensures Continue(s, line, discarded, max).result == Err(MaxLineLengthExceeded(max))
  {
  }

  // ---------------------------------------------------------------------
  // Properties and cards

  datatype PropertyOut = PropertyOut(result: Result<(Property, bool)>, discarded: seq<byte>, rest: Stream)

  /** `read_property`: a logical line parsed into a property. */
  function ReadProp(s: Stream, discarded: seq<byte>, max: nat): (o: PropertyOut)
    ensures o.rest.failing == s.failing && |o.rest.bytes| <= |s.bytes|
    ensures o.result.Ok? ==> |o.rest.bytes| < |s.bytes|
  {
    var l := Logical(s, discarded, max);
    match l.result
    case Err(e) => PropertyOut(Err(e), l.discarded, l.rest)
    case Ok((text, more)) =>
      match DecodeLine(text)
      case Err(e) => PropertyOut(Err(e), l.discarded, l.rest)
      case Ok(p) => PropertyOut(Ok((p, more)), l.discarded, l.rest)
  }

  datatype CardOut = CardOut(result: Result<VCard>, discarded: seq<byte>, rest: Stream)

  /** The loop of `parse_vcard`: one property read, then handled. */
  function CardLoop(s: Stream, discarded: seq<byte>, max: nat, card: VCard): (o: CardOut)
    decreases |s.bytes|, 1
  {
    CardStep(s, ReadProp(s, discarded, max), max, card)
  }

  /** What one property does to the card being read: end it with a
      result, or give the card to read on with. */
  datatype Handled = Done(result: Result<VCard>) | Next(card: VCard)

  /** One property handled: a second VERSION or BEGIN is a cardinality
      error; END:VCARD with nothing after it ends the card; every other
      property is added to the card. */
  function Handle(card: VCard, prop: Property, more: bool): Handled
  {
    match prop
    case Version(_) => Done(Err(InvalidCardinality(1, "VERSION")))
    case Begin(_) => Done(Err(InvalidCardinality(1, "BEGIN")))
    case End(value) =>
      if value != "VCARD" || more then Done(Err(InvalidEndProperty)) else Done(Ok(card))
    case Typed(p) =>
      (match AddProp(card, p)
       case Err(e) => Done(Err(e))
       case Ok(next) => Next(next))
    case Proprietary(pp) => Next(card.(proprietary := card.proprietary + [pp]))
  }

  function CardStep(s: Stream, r: PropertyOut, max: nat, card: VCard): (o: CardOut)
    requires r.result.Ok? ==> |r.rest.bytes| < |s.bytes|
    decreases |s.bytes|, 0
  {
    match r.result
    case Err(e) => CardOut(Err(e), r.discarded, r.rest)
    case Ok((prop, more)) =>
      match Handle(card, prop, more)
      case Done(result) => CardOut(result, r.discarded, r.rest)
      case Next(next) => CardLoop(r.rest, r.discarded, max, next)
  }

  /** `parse_vcard`: BEGIN:VCARD, then VERSION, then the properties up to
      END:VCARD. */
  function ParseCard(s: Stream, discarded: seq<byte>, max: nat): CardOut
  {
    var b := ReadProp(s, discarded, max);
    if b.result.Err? then CardOut(Err(b.result.error), b.discarded, b.rest)
    else if !(b.result.value.0.Begin? && b.result.value.0.value == "VCARD") then
      CardOut(Err(InvalidBeginProperty), b.discarded, b.rest)
    else if !b.result.value.1 then CardOut(Err(InvalidVersionProperty), b.discarded, b.rest)
    else
      var v := ReadProp(b.rest, b.discarded, max);
      if v.result.Err? then CardOut(Err(v.result.error), v.discarded, v.rest)
      else if !v.result.value.0.Version? then CardOut(Err(InvalidVersionProperty), v.discarded, v.rest)
      else if !v.result.value.1 then CardOut(Err(InvalidEndProperty), v.discarded, v.rest)
      else CardLoop(v.rest, v.discarded, max, EmptyCard(v.result.value.0.version))
  }

  lemma {:induction false} CardLoopValid(s: Stream, discarded: seq<byte>, max: nat, card: VCard)
    requires CardValid(card)
    ensures CardLoop(s, discarded, max, card).result.Ok? ==>
              && CardValid(CardLoop(s, discarded, max, card).result.value)
              && CardLoop(s, discarded, max, card).result.value.version == card.version
    decreases |s.bytes|, 1
  {
    CardStepValid(s, ReadProp(s, discarded, max), max, card);
  }

  lemma {:induction false} CardStepValid(s: Stream, r: PropertyOut, max: nat, card: VCard)
    requires CardValid(card) && (r.result.Ok? ==> |r.rest.bytes| < |s.bytes|)
    ensures CardStep(s, r, max, card).result.Ok? ==>
              && CardValid(CardStep(s, r, max, card).result.value)
              && CardStep(s, r, max, card).result.value.version == card.version
    decreases |s.bytes|, 0
  {
    if r.result.Ok? {
      var h := Handle(card, r.result.value.0, r.result.value.1);
      HandleValid(card, r.result.value.0, r.result.value.1);
      if h.Next? {
        CardLoopValid(r.rest, r.discarded, max, h.card);
      }
    }
  }

  /** Handling a property keeps the card valid and its version. */
  lemma HandleValid(card: VCard, prop: Property, more: bool)
    requires CardValid(card)
    ensures Handle(card, prop, more).Done? && Handle(card, prop, more).result.Ok? ==>
              Handle(card, prop, more).result.value == card
    ensures Handle(card, prop, more).Next? ==>
              CardValid(Handle(card, prop, more).card) && Handle(card, prop, more).card.version == card.version
  {
    if prop.Typed? {
      AddPropKeepsValid(card, prop.prop);
    }
  }

  /** A card read by `parse_vcard` keeps the version it declared, holds
      every property in its kind's slot, and has no alt-id list mixing
      alt-ids. */
  lemma ParseCardValid(s: Stream, discarded: seq<byte>, max: nat)
    ensures ParseCard(s, discarded, max).result.Ok? ==>
              && CardValid(ParseCard(s, discarded, max).result.value)
              && ReadProp(s, discarded, max).result.Ok?
              && var v := ReadProp(ReadProp(s, discarded, max).rest, ReadProp(s, discarded, max).discarded, max);
                 v.result.Ok? && v.result.value.0 == Version(ParseCard(s, discarded, max).result.value.version)
  {
    var b := ReadProp(s, discarded, max);
    if b.result.Ok? {
      var v := ReadProp(b.rest, b.discarded, max);
      if v.result.Ok? && v.result.value.0.Version? {
        CardLoopValid(v.rest, v.discarded, max, EmptyCard(v.result.value.0.version));
      }
    }
  }

  // ---------------------------------------------------------------------
  // The reader

  class VCardReader {
    const inner: PushbackReader
    /** `discard_buf`: every byte of every discarded line. */
    var discarded: seq<byte>
    var maxLen: nat

    predicate Valid()
      reads this, inner, inner.buf
    {
      inner.Valid()
    }

    function State(): Stream
      reads this, inner, inner.buf
      requires Valid()
    {
      inner.State()
    }

    /** `new`: the default limit of 5000 bytes. */
    constructor (input: seq<byte>, failing: bool)
      ensures Valid() && fresh(inner) && fresh(inner.buf)
      ensures State() == Stream(input, failing) && discarded == [] && maxLen == DefaultMaxLineLength
    {
      inner := new PushbackReader(input, failing);
      discarded := [];
      maxLen := DefaultMaxLineLength;
    }

    /** `new_with_logical_line_limit`. */
    constructor WithLimit(input: seq<byte>, failing: bool, max: nat)
      ensures Valid() && fresh(inner) && fresh(inner.buf)
      ensures State() == Stream(input, failing) && discarded == [] && maxLen == max
    {
      inner := new PushbackReader(input, failing);
      discarded := [];
      maxLen := max;
    }

    method ReadPhysicalLine(buf: seq<byte>) returns (r: Result<()>, line: seq<byte>)
      requires Valid()
      modifies inner, inner.buf
      ensures Valid()
      ensures PhysicalOut(r, line, State()) == Physical(old(State()), buf, maxLen)
    {
      line := buf;
      while true
        invariant Valid()
        invariant Physical(State(), line, maxLen) == Physical(old(State()), buf, maxLen)
        decreases |inner.Pending()|
      {
        ghost var s := State();
        if |line| > maxLen {
          return Err(MaxLineLengthExceeded(maxLen)), line;
        }
        var b := inner.ReadExact(1);
        if b.Err? {
          return Err(b.error), line;
        }
        if b.value[0] == CR {
          var c := inner.ReadExact(1);
          if c.Err? {
            assert State() == Stream([], s.failing);
            return Err(c.error), line;
          }
          assert c.value[0] == s.bytes[1] && State() == Stream(s.bytes[2..], s.failing);
          if c.value[0] == LF {
            return Ok(()), line;
          }
          assert c.value == [s.bytes[1]];
          assert Physical(s, line, maxLen) == Physical(State(), line + c.value, maxLen);
          line := line + c.value;
        } else {
          assert State() == Stream(s.bytes[1..], s.failing);
          assert b.value == [s.bytes[0]];
          assert Physical(s, line, maxLen) == Physical(State(), line + b.value, maxLen);
          line := line + b.value;
        }
      }
    }

    method InspectNextLine() returns (r: Result<Inspection>)
      requires Valid()
      modifies inner, inner.buf
      ensures Valid()
      ensures InspectOut(r, State()) == Inspect(old(State()))
    {
      var b := inner.ReadExact(2);
      if b.Err? {
        if b.error == Io(UnexpectedEof) {
          return Ok(NoMoreContent);
        }
        return Err(b.error);
      }
      var bytes := b.value;
      if !IsBlank(bytes[0]) {
        inner.ReturnBytes(bytes);
        return Ok(NewProperty);
      }
      if IsBlank(bytes[1]) || bytes[1] == LF || bytes[1] == CR {
        inner.ReturnBytes(bytes);
        return Ok(Discard);
      }
      ghost var rest := inner.input;
      assert old(State()).bytes[1..] == [bytes[1]] + rest;
      inner.ReturnByte(bytes[1]);
      return Ok(LogicalLine);
    }

    method DiscardLine() returns (r: Result<()>)
      requires Valid()
      modifies this, inner, inner.buf
      ensures Valid() && maxLen == old(maxLen)
      ensures PhysicalOut(r, discarded, State()) == Physical(old(State()), old(discarded), maxLen)
    {
      r, discarded := ReadPhysicalLine(discarded);
    }

    method ReadLogicalLine() returns (r: Result<(string, bool)>)
      requires Valid()
      modifies this, inner, inner.buf
      ensures Valid() && maxLen == old(maxLen)
      ensures LineOut(r, discarded, State()) == Logical(old(State()), old(discarded), maxLen)
    {
      var first, line := ReadPhysicalLine([]);
      if first.Err? && !(first.error == Io(UnexpectedEof) && line == EndLine()) {
        return Err(first.error);
      }
      while true
        invariant Valid() && maxLen == old(maxLen)
        invariant Continue(State(), line, discarded, maxLen) == Logical(old(State()), old(discarded), maxLen)
        decreases |inner.Pending()|
      {
        var i := InspectNextLine();
        if i.Err? {
          return Err(i.error);
        }
        match i.value {
          case NewProperty =>
            var text := Utf8Decode(line);
            if text.None? {
              return Err(FromUtf8Error);
            }
            return Ok((text.value, true));
          case NoMoreContent =>
            var text := Utf8Decode(line);
            if text.None? {
              return Err(FromUtf8Error);
            }
            return Ok((text.value, false));
          case Discard =>
            var d := DiscardLine();
            if d.Err? {
              return Err(d.error);
            }
          case LogicalLine =>
            var p;
            p, line := ReadPhysicalLine(line);
            if p.Err? {
              return Err(p.error);
            }
        }
      }
    }

    method ReadProperty() returns (r: Result<(Property, bool)>)
      requires Valid()
      modifies this, inner, inner.buf
      ensures Valid() && maxLen == old(maxLen)
      ensures PropertyOut(r, discarded, State()) == ReadProp(old(State()), old(discarded), maxLen)
    {
      var l := ReadLogicalLine();
      if l.Err? {
        return Err(l.error);
      }
      var p := PropertyFromStr(l.value.0);
      if p.Err? {
        return Err(p.error);
      }
      return Ok((p.value, l.value.1));
    }

    method ParseVcard() returns (r: Result<VCard>)
      requires Valid()
      modifies this, inner, inner.buf
      ensures Valid() && maxLen == old(maxLen)
      ensures CardOut(r, discarded, State()) == ParseCard(old(State()), old(discarded), maxLen)
    {
      var b := ReadProperty();
      if b.Err? {
        return Err(b.error);
      }
      if !(b.value.0.Begin? && b.value.0.value == "VCARD") {
        return Err(InvalidBeginProperty);
      }
      if !b.value.1 {
        return Err(InvalidVersionProperty);
      }
      var v := ReadProperty();
      if v.Err? {
        return Err(v.error);
      }
      if !v.value.0.Version? {
        return Err(InvalidVersionProperty);
      }
      if !v.value.1 {
        return Err(InvalidEndProperty);
      }
      r := ReadCardBody(EmptyCard(v.value.0.version));
    }

    /** The loop of `parse_vcard`, from the card read so far. */
    method ReadCardBody(start: VCard) returns (r: Result<VCard>)
      requires Valid()
      modifies this, inner, inner.buf
      ensures Valid() && maxLen == old(maxLen)
      ensures CardOut(r, discarded, State()) == CardLoop(old(State()), old(discarded), maxLen, start)
    {
      var card := start;
      while true
        invariant Valid() && maxLen == old(maxLen)
        invariant CardLoop(State(), discarded, maxLen, card) == CardLoop(old(State()), old(discarded), maxLen, start)
        decreases |inner.Pending()|
      {
        ghost var s, d := State(), discarded;
        var p := ReadProperty();
        ghost var step := PropertyOut(p, discarded, State());
        assert CardLoop(s, d, maxLen, card) == CardStep(s, step, maxLen, card);
        if p.Err? {
          return Err(p.error);
        }
        var h := Handle(card, p.value.0, p.value.1);
        if h.Done? {
          return h.result;
        }
        card := h.card;
      }
    }
  }
}
