/** What the reference counts and where its cursors stand, read off the calls of a run. */
module Measures {
  import opened Text
  import opened Base64
  import opened Asset
  import opened Meaning

  /** The encoding a writer was allocated with. */
  function EncodingOf(w: nat, calls: seq<GuestCall>): Encoding {
    if calls == [] then Identity
    else
      var before, last := calls[..|calls| - 1], calls[|calls| - 1];
      if last.AllocateOne? && Created(before) == w then last.encoding else EncodingOf(w, before)
  }

  /** How many bytes a text stands for: of base64, what its complete groups decode to. */
  function Weight(encoding: Encoding, text: seq<Byte>): nat {
    match encoding
    case Identity => |text|
    case Base64 =>
      match Decode(text[..|text| - |text| % 4])
      case Some(decoded) => |decoded|
      case None => 0
  }

  /** A group that is not complete weighs nothing, and canonical text what it decodes to. */
  lemma WeightMeans(text: seq<Byte>, rest: seq<Byte>)
    requires |text| % 4 == 0 && |rest| < 4
    ensures Weight(Identity, text + rest) == |text| + |rest|
    ensures Decode(text).Some? ==> Weight(Base64, text + rest) == |Decode(text).value|
  {
    assert (text + rest)[..|text|] == text && |text + rest| % 4 == |rest|;
  }

  /** The decoded bytes of everything written to the first `n` writers, attached, abandoned or not. */
  function WrittenTo(n: nat, calls: seq<GuestCall>): nat {
    if n == 0 then 0
    else WrittenTo(n - 1, calls) + Weight(EncodingOf(n - 1, calls), Offered(n - 1, calls))
  }

  /** The handle as it was when the run was given it. */
  function MadeAs(g: Setting, h: nat, calls: seq<GuestCall>): Option<Handle> {
    if calls == [] then None
    else
      var before, last := calls[..|calls| - 1], calls[|calls| - 1];
      if Created(before) == h && Creates(last) then Made(g, before, last) else MadeAs(g, h, before)
  }

  function Made(g: Setting, before: seq<GuestCall>, call: GuestCall): Option<Handle> {
    match call
    case OpenIt(Some(id)) => OpenedAs(g, id)
    case AttachIt(w) => Some(NewHandle(EncodingOf(w, before), Offered(w, before)))
    case StreamIt(_, response) => Some(NewHandle(Identity, response))
    case _ => None
  }

  function OpenedAs(g: Setting, id: nat): Option<Handle> {
    var row, content := FindRow(g.rows, id), FindInput(g.inputs, id);
    if row.None? || content.None? then None
    else
      match DecodedLength(row.value.encoding, content.value)
      case None => None
      case Some(len) => Some(Handle(content.value, row.value.encoding, 0, len, Some(id), row.value.sent, false))
  }

  function PartsLen(g: Setting, parts: seq<nat>, calls: seq<GuestCall>): nat {
    if parts == [] then 0
    else
      var last := MadeAs(g, parts[|parts| - 1], calls);
      PartsLen(g, parts[..|parts| - 1], calls) + if last.Some? then last.value.len else 0
  }

  /** The decoded bytes of every part a run streamed. */
  function Streamed(g: Setting, calls: seq<GuestCall>): nat {
    if calls == [] then 0
    else
      var before, last := calls[..|calls| - 1], calls[|calls| - 1];
      Streamed(g, before) + if last.StreamIt? then PartsLen(g, last.parts, before) else 0
  }

  /** Everything the sequential reads of a handle gave, in order. */
  function ReadBy(g: Setting, h: nat, calls: seq<GuestCall>): seq<Byte> {
    if calls == [] then []
    else
      var before, last := calls[..|calls| - 1], calls[|calls| - 1];
      var read := ReadBy(g, h, before);
      match MadeAs(g, h, before)
      case Some(handle) =>
        if last.ReadNext? && last.handle == h then read + ReadOut(handle, |read|, last.count) else read
      case None => read
  }

  /** One call more. */
  lemma MeasuresNext(g: Setting, calls: seq<GuestCall>, call: GuestCall, n: nat)
    ensures EncodingOf(n, calls + [call]) ==
            if call.AllocateOne? && Created(calls) == n then call.encoding else EncodingOf(n, calls)
    ensures MadeAs(g, n, calls + [call]) ==
            if Created(calls) == n && Creates(call) then Made(g, calls, call) else MadeAs(g, n, calls)
    ensures ReadBy(g, n, calls + [call]) ==
            if call.ReadNext? && call.handle == n && MadeAs(g, n, calls).Some?
            then ReadBy(g, n, calls) + ReadOut(MadeAs(g, n, calls).value, |ReadBy(g, n, calls)|, call.count)
            else ReadBy(g, n, calls)
    ensures Streamed(g, calls + [call]) ==
            Streamed(g, calls) + if call.StreamIt? then PartsLen(g, call.parts, calls) else 0
  {
    assert (calls + [call])[..|calls|] == calls;
  }

  // Writers.

  /** The writer has the encoding it was allocated with, and its validator has seen the whole text. */
  ghost predicate WriterMeasured(writer: Writer, w: nat, calls: seq<GuestCall>) {
    && writer.encoding == EncodingOf(w, calls)
    && (writer.encoding.Base64? ==> writer.validator == FeedAll(FRESH, Offered(w, calls)) && !writer.validator.invalid)
  }

  /** What a writer holds is what its text stands for. */
  lemma HeldIsWeight(writer: Writer, w: nat, calls: seq<GuestCall>)
    requires writer.spool == Some(Offered(w, calls)) && WriterMeasured(writer, w, calls)
    ensures Held(writer) == Weight(EncodingOf(w, calls), Offered(w, calls))
  {
    hide Decode, FeedAll;
    if writer.encoding.Base64? {
      var text := Offered(w, calls);
      FollowsAll(text);
      var whole := text[..|text| - |writer.validator.quantum|];
      DecodedSize(whole);
      Remainder(|whole|, |writer.validator.quantum|);
    }
  }

  ghost predicate WritersMeasured(s: Snapshot, calls: seq<GuestCall>) {
    WritersMatch(s, calls) && forall w | w in s.writers :: WriterMeasured(s.writers[w], w, calls)
  }

  /** A chunk that is taken is fed to the validator, which does not find fault. */
  lemma TakenFeeds(writer: Writer, bytes: seq<Byte>, charged: nat)
    requires Sane(writer.validator) && Judge(writer, bytes, charged).Takes?
    ensures var grown := Judge(writer, bytes, charged).writer;
            && writer.spool.Some? && grown.spool == Some(writer.spool.value + bytes)
            && grown.encoding == writer.encoding
            && (writer.encoding.Base64? ==>
                  grown.validator == FeedAll(writer.validator, bytes) && !grown.validator.invalid)
  {
  }

  /** A done call feeds one writer, allocates one, takes one away, or leaves them all as they are. */
  lemma WritersChange(g: Setting, s: Snapshot, call: GuestCall)
    requires AllSane(s) && Answering(g, s, call).Done?
    ensures var now := Answering(g, s, call).now;
            && now.next == s.next + (if Creates(call) then 1 else 0)
            && match call
               case WriteTo(w, bytes) =>
                 && w in s.writers && Judge(s.writers[w], bytes, s.written).Takes?
                 && now.writers == s.writers[w := Judge(s.writers[w], bytes, s.written).writer]
               case AllocateOne(encoding) => now.writers == s.writers[s.next := Writer(Some([]), encoding, FRESH)]
               case AttachIt(w) => now.writers == s.writers - {w}
               case Abandon(w) => now.writers == s.writers - {w}
               case _ => now.writers == s.writers
  {
    hide Judge, Held, ReadFault, ReadOut, Charge, OpenFault, FindRow, FindInput, DecodedLength, View, FinishFault,
      SendFault, AttachFault;
  }

  lemma WritersMeasure(g: Setting, s: Snapshot, call: GuestCall, calls: seq<GuestCall>)
    requires AllSane(s) && WritersMeasured(s, calls) && Answering(g, s, call).Done?
    ensures WritersMeasured(Answering(g, s, call).now, calls + [call])
  {
    hide Answering, Judge, FeedAll, Created, EncodingOf, Offered, FilesOf, MadeAs, ReadBy, Streamed;
    var now := Answering(g, s, call).now;
    WritersChange(g, s, call);
    WritersMove(g, s, call, calls);
    NamesNext(calls, call, 0);
    forall w: nat
      ensures Offered(w, calls + [call]) ==
              Offered(w, calls) + if call.WriteTo? && call.writer == w then call.bytes else []
      ensures EncodingOf(w, calls + [call]) ==
              if call.AllocateOne? && Created(calls) == w then call.encoding else EncodingOf(w, calls)
    {
      OfferedNext(calls, call, w);
      MeasuresNext(g, calls, call, w);
    }
    if call.WriteTo? {
      TakenFeeds(s.writers[call.writer], call.bytes, s.written);
      ChunksDoNotMatter(FRESH, Offered(call.writer, calls), call.bytes);
    }
    FreshStart();
    forall w | w in now.writers ensures WriterMeasured(now.writers[w], w, calls + [call]) {
      if w in s.writers {
        assert WriterMeasured(s.writers[w], w, calls);
        EmptyIsUnit(Offered(w, calls));
      }
    }
  }

  lemma FreshStart()
    ensures FeedAll(FRESH, []) == FRESH
  {
  }

  // Handles.

  ghost predicate HandleMeasured(g: Setting, handle: Handle, h: nat, calls: seq<GuestCall>) {
    && MadeAs(g, h, calls).Some?
    && var made := MadeAs(g, h, calls).value;
       && handle == made.(cursor := handle.cursor, digestRecorded := handle.digestRecorded)
       && handle.cursor == |ReadBy(g, h, calls)|
  }

  ghost predicate HandlesMeasured(g: Setting, s: Snapshot, calls: seq<GuestCall>) {
    && s.next == Created(calls)
    && (forall h | h in s.handles :: h < s.next && HandleMeasured(g, s.handles[h], h, calls))
    && (forall h: nat | s.next <= h :: MadeAs(g, h, calls) == None && ReadBy(g, h, calls) == [])
  }

  /** A done call opens one handle, moves one cursor, takes one away, or leaves them all as they are. */
  lemma HandlesChange(g: Setting, s: Snapshot, call: GuestCall)
    requires AllSane(s) && Answering(g, s, call).Done?
    ensures var now := Answering(g, s, call).now;
            && now.next == s.next + (if Creates(call) then 1 else 0)
            && match call
               case OpenIt(reference) =>
                 && reference.Some? && OpenedAs(g, reference.value).Some?
                 && now.handles == s.handles[s.next := OpenedAs(g, reference.value).value]
               case AttachIt(w) =>
                 && w in s.writers && s.writers[w].spool.Some?
                 && now.handles == s.handles[s.next := NewHandle(s.writers[w].encoding, s.writers[w].spool.value)]
               case StreamIt(_, response) => now.handles == s.handles[s.next := NewHandle(Identity, response)]
               case ReadNext(h, count) =>
                 && h in s.handles
                 && now.handles ==
                    s.handles[h := Digested(s.handles[h]).(
                      cursor := s.handles[h].cursor + |ReadOut(s.handles[h], s.handles[h].cursor, count)|)]
               case ReadFrom(h, _, _) => h in s.handles && now.handles == s.handles[h := Digested(s.handles[h])]
               case DropIt(h) => now.handles == s.handles - {h}
               case _ => now.handles == s.handles
  {
    hide Judge, Held, ReadFault, ReadOut, Charge, FindRow, FindInput, DecodedLength, View, FinishFault, SendFault,
      NewHandle;
  }

  lemma HandlesMeasure(g: Setting, s: Snapshot, call: GuestCall, calls: seq<GuestCall>)
    requires AllSane(s) && HandlesMeasured(g, s, calls) && WritersMeasured(s, calls) && Answering(g, s, call).Done?
    ensures HandlesMeasured(g, Answering(g, s, call).now, calls + [call])
  {
    hide Answering, Created, EncodingOf, Offered, MadeAs, ReadBy, Streamed, View, Slice, NamedBy, FindRow, FindInput,
      DecodedLength;
    var now := Answering(g, s, call).now;
    HandlesChange(g, s, call);
    NamesNext(calls, call, 0);
    forall h: nat
      ensures MadeAs(g, h, calls + [call]) ==
              if s.next == h && Creates(call) then Made(g, calls, call) else MadeAs(g, h, calls)
      ensures ReadBy(g, h, calls + [call]) ==
              if call.ReadNext? && call.handle == h && MadeAs(g, h, calls).Some?
              then ReadBy(g, h, calls) + ReadOut(MadeAs(g, h, calls).value, |ReadBy(g, h, calls)|, call.count)
              else ReadBy(g, h, calls)
    {
      MeasuresNext(g, calls, call, h);
    }
    if call.AttachIt? {
      assert WriterMeasured(s.writers[call.writer], call.writer, calls);
    }
    forall h | h in now.handles ensures h < now.next && HandleMeasured(g, now.handles[h], h, calls + [call]) {
      if h in s.handles && h != s.next {
        assert HandleMeasured(g, s.handles[h], h, calls);
      }
    }
  }

  // The charge.

  /** What one call adds to what was written. */
  lemma {:induction false} WrittenNext(g: Setting, calls: seq<GuestCall>, call: GuestCall, n: nat)
    requires n <= Created(calls) || Offered(Created(calls), calls) == []
    requires n <= Created(calls) + 1
    ensures WrittenTo(n, calls + [call]) ==
            WrittenTo(n, calls) +
            if call.WriteTo? && call.writer < n then
              Weight(EncodingOf(call.writer, calls), Offered(call.writer, calls) + call.bytes)
              - Weight(EncodingOf(call.writer, calls), Offered(call.writer, calls))
            else 0
  {
    hide Weight, Created, EncodingOf, Offered, FilesOf, MadeAs, ReadBy, Streamed;
    if 0 < n {
      WrittenNext(g, calls, call, n - 1);
      OfferedNext(calls, call, n - 1);
      MeasuresNext(g, calls, call, n - 1);
      EmptyIsUnit(Offered(n - 1, calls));
      NothingWeighs(EncodingOf(n - 1, calls));
      NothingWeighs(EncodingOf(n - 1, calls + [call]));
    }
  }

  lemma NothingWeighs(encoding: Encoding)
    ensures Weight(encoding, []) == 0
  {
  }

  /** The parts of a stream are charged what their handles were made with. */
  lemma {:induction false} ChargeIsLen(g: Setting, s: Snapshot, calls: seq<GuestCall>, parts: seq<nat>)
    requires HandlesMeasured(g, s, calls) && Charge(s.handles, parts, s.written).Charged?
    ensures Charge(s.handles, parts, s.written).total == s.written + PartsLen(g, parts, calls)
  {
    hide MadeAs, ReadBy, Created;
    if parts != [] {
      ChargeIsLen(g, s, calls, parts[..|parts| - 1]);
      var last := parts[|parts| - 1];
      assert HandleMeasured(g, s.handles[last], last, calls);
    }
  }

  /** What a done call is charged. */
  lemma ChargeChange(g: Setting, s: Snapshot, call: GuestCall)
    requires AllSane(s) && Answering(g, s, call).Done?
    ensures var now := Answering(g, s, call).now;
            match call
            case WriteTo(w, bytes) =>
              && w in s.writers && w in now.writers && s.writers[w].spool.Some? && now.writers[w].spool.Some?
              && now.written == s.written + Held(now.writers[w]) - Held(s.writers[w])
            case StreamIt(parts, _) =>
              Charge(s.handles, parts, s.written).Charged? && now.written == Charge(s.handles, parts, s.written).total
            case _ => now.written == s.written
  {
    hide Judge, Held, ReadFault, ReadOut, Charge, OpenFault, FindRow, FindInput, DecodedLength, View, FinishFault,
      SendFault, AttachFault, NewHandle;
    if call.WriteTo? {
      TakenGrows(s.writers[call.writer], call.bytes, s.written);
    }
  }

  ghost predicate ChargeMeasured(g: Setting, s: Snapshot, calls: seq<GuestCall>) {
    s.written == WrittenTo(Created(calls), calls) + Streamed(g, calls)
  }

  lemma ChargeMeasure(g: Setting, s: Snapshot, call: GuestCall, calls: seq<GuestCall>)
    requires AllSane(s) && WritersMeasured(s, calls) && HandlesMeasured(g, s, calls) && ChargeMeasured(g, s, calls)
    requires Answering(g, s, call).Done?
    ensures ChargeMeasured(g, Answering(g, s, call).now, calls + [call])
  {
    hide Answering, Created, EncodingOf, Offered, FilesOf, MadeAs, ReadBy, Streamed, Weight, Held, Charge, Made,
      NamedBy;
    var now, next := Answering(g, s, call).now, Created(calls);
    ChargeChange(g, s, call);
    NamesNext(calls, call, 0);
    MeasuresNext(g, calls, call, 0);
    WrittenNext(g, calls, call, Created(calls + [call]));
    NothingWeighs(EncodingOf(next, calls));
    if call.WriteTo? {
      WritersMeasure(g, s, call, calls);
      HeldIsWeight(s.writers[call.writer], call.writer, calls);
      HeldIsWeight(now.writers[call.writer], call.writer, calls + [call]);
      OfferedNext(calls, call, call.writer);
      MeasuresNext(g, calls, call, call.writer);
    } else if call.StreamIt? {
      ChargeIsLen(g, s, calls, call.parts);
    }
    if Creates(call) {
      assert Offered(next, calls) == [];
    }
  }

  /**
   * A clean run is charged the decoded bytes of all it wrote and of all it streamed, and each cursor
   * stands where the sequential reads of its handle ended.
   */
  lemma {:induction false} PlayMeasures(g: Setting, calls: seq<GuestCall>)
    requires Play(g, calls).Clean?
    ensures var now := Play(g, calls).now;
            && WritersMeasured(now, calls) && HandlesMeasured(g, now, calls) && ChargeMeasured(g, now, calls)
  {
    hide Answering, WritersMeasured, HandlesMeasured, ChargeMeasured;
    if calls == [] {
      NothingMeasured(g);
    } else {
      var front, last := calls[..|calls| - 1], calls[|calls| - 1];
      Split(calls);
      PlayMeasures(g, front);
      WritersMeasure(g, Play(g, front).now, last, front);
      HandlesMeasure(g, Play(g, front).now, last, front);
      ChargeMeasure(g, Play(g, front).now, last, front);
    }
  }

  lemma NothingMeasured(g: Setting)
    ensures WritersMeasured(START, []) && HandlesMeasured(g, START, []) && ChargeMeasured(g, START, [])
  {
  }

  /** Nothing is made before its number comes up, and nothing is read before it is made. */
  lemma {:induction false} MadeInTurn(g: Setting, h: nat, calls: seq<GuestCall>)
    ensures MadeAs(g, h, calls).Some? ==> h < Created(calls)
    ensures MadeAs(g, h, calls).None? ==> ReadBy(g, h, calls) == []
  {
    if calls != [] {
      MadeInTurn(g, h, calls[..|calls| - 1]);
    }
  }

  // What a guest reads.

  /**
   * Where the content of a handle comes from: the call that made it opened the first asset handed in under
   * an id, attached what was written to a writer, or streamed a request.
   */
  ghost predicate ComesFrom(
    rows: seq<Row>, inputs: seq<(nat, seq<Byte>)>, calls: seq<GuestCall>, k: nat,
    encoding: Encoding, content: seq<Byte>)
    requires k < |calls|
  {
    match calls[k]
    case OpenIt(Some(id)) =>
      exists i: nat, j: nat ::
        IsInput(inputs, id, i) && IsRow(rows, id, j) && content == inputs[i].1 && encoding == rows[j].encoding
    case AttachIt(w) => encoding == EncodingOf(w, calls[..k]) && content == Offered(w, calls[..k])
    case StreamIt(_, response) => encoding == Identity && content == response
    case _ => false
  }

  ghost predicate MadeBy(
    rows: seq<Row>, inputs: seq<(nat, seq<Byte>)>, calls: seq<GuestCall>, h: nat,
    encoding: Encoding, content: seq<Byte>)
  {
    exists k: nat :: k < |calls| && Creates(calls[k]) && Created(calls[..k]) == h
      && ComesFrom(rows, inputs, calls, k, encoding, content)
  }

  lemma {:induction false} MadeByCall(g: Setting, h: nat, calls: seq<GuestCall>)
    requires MadeAs(g, h, calls).Some?
    ensures var made := MadeAs(g, h, calls).value;
            MadeBy(g.rows, g.inputs, calls, h, made.encoding, made.content)
  {
    hide FindRow, FindInput, DecodedLength, View, EncodingOf, Offered;
    var front, last := calls[..|calls| - 1], calls[|calls| - 1];
    var made := MadeAs(g, h, calls).value;
    if Created(front) == h && Creates(last) {
      if last.OpenIt? {
        FindRowMeans(g.rows, last.reference.value);
        FindInputMeans(g.inputs, last.reference.value);
      }
      assert ComesFrom(g.rows, g.inputs, calls, |front|, made.encoding, made.content);
    } else {
      MadeByCall(g, h, front);
      var k: nat :| k < |front| && Creates(front[k]) && Created(front[..k]) == h
        && ComesFrom(g.rows, g.inputs, front, k, made.encoding, made.content);
      assert front[k] == calls[k] && front[..k] == calls[..k];
      assert ComesFrom(g.rows, g.inputs, calls, k, made.encoding, made.content);
    }
  }

  /** Sequential reads give the decoded content from its start, in order, whatever else happens between them. */
  lemma {:induction false} ReadsFromStart(g: Setting, h: nat, calls: seq<GuestCall>)
    requires MadeAs(g, h, calls).Some?
    ensures var made := MadeAs(g, h, calls).value;
            MadeBy(g.rows, g.inputs, calls, h, made.encoding, made.content)
    ensures match View(MadeAs(g, h, calls).value.encoding, MadeAs(g, h, calls).value.content)
            case Some(view) => ReadBy(g, h, calls) <= view
            case None => ReadBy(g, h, calls) == []
  {
    MadeByCall(g, h, calls);
    hide View, Made, MadeBy;
    var front := calls[..|calls| - 1];
    MadeInTurn(g, h, front);
    if MadeAs(g, h, front).Some? {
      ReadsFromStart(g, h, front);
    }
  }

  /** How much the sequential reads of a handle have given. */
  function ReadSoFar(h: nat, calls: seq<GuestCall>, readings: seq<seq<Byte>>): nat
    requires |readings| == |calls|
  {
    if calls == [] then 0
    else
      var n := |calls| - 1;
      ReadSoFar(h, calls[..n], readings[..n]) + if calls[n].ReadNext? && calls[n].handle == h then |readings[n]| else 0
  }

  lemma {:induction false} ReadSoFarIs(g: Setting, h: nat, calls: seq<GuestCall>)
    requires Play(g, calls).Clean?
    ensures ReadSoFar(h, calls, Readings(g, calls)) == |ReadBy(g, h, calls)|
  {
    hide Answering, MadeAs, WritersMeasured, ChargeMeasured, ReadOut;
    if calls != [] {
      var n := |calls| - 1;
      var front, last := calls[..n], calls[n];
      CleanParts(g, calls, n);
      ReadSoFarIs(g, h, front);
      PlayMeasures(g, front);
      if last.ReadNext? && last.handle == h {
        DoneReads(g, Play(g, front).now, last);
        ReadSame(g, Play(g, front).now, h, front);
      }
    }
  }

  /** Only a handle that is there is read. */
  lemma DoneReads(g: Setting, s: Snapshot, call: GuestCall)
    requires AllSane(s) && Answering(g, s, call).Done? && (call.ReadNext? || call.ReadFrom?)
    ensures call.handle in s.handles
  {
  }

  /** What a read gives depends on what the handle was made with and where the cursor stands. */
  lemma ReadSame(g: Setting, s: Snapshot, h: nat, calls: seq<GuestCall>)
    requires HandlesMeasured(g, s, calls) && h in s.handles
    ensures MadeAs(g, h, calls).Some? && s.handles[h].cursor == |ReadBy(g, h, calls)|
    ensures forall offset: nat, count: nat ::
              ReadOut(s.handles[h], offset, count) == ReadOut(MadeAs(g, h, calls).value, offset, count)
  {
    hide MadeAs, ReadBy, View, Slice, Created;
    assert HandleMeasured(g, s.handles[h], h, calls);
  }

  /** The part of a content that a read at an offset gives: what is there, at most `count`, at most 64 KiB. */
  ghost predicate IsPart(part: seq<Byte>, content: seq<Byte>, offset: nat, count: nat) {
    && |part| <= count && |part| <= 65536
    && (|content| <= offset ==> part == [])
    && (offset < |content| ==>
          && offset + |part| <= |content| && part == content[offset..offset + |part|]
          && (|part| == count || |part| == 65536 || offset + |part| == |content|))
  }

  /** Where the k-th call reads, if it is a read: past what was read before, or at the offset it names. */
  function ReadsAt(calls: seq<GuestCall>, readings: seq<seq<Byte>>, k: nat): nat
    requires k < |calls| == |readings|
  {
    match calls[k]
    case ReadNext(h, _) => ReadSoFar(h, calls[..k], readings[..k])
    case ReadFrom(_, offset, _) => offset
    case _ => 0
  }

  /** Every read of a run gives a part of what its handle was made with, decoded. */
  ghost predicate ReadsTruly(
    rows: seq<Row>, inputs: seq<(nat, seq<Byte>)>, calls: seq<GuestCall>, readings: seq<seq<Byte>>, k: nat)
    requires k < |calls| == |readings|
  {
    calls[k].ReadNext? || calls[k].ReadFrom? ==>
      exists encoding, content ::
        && MadeBy(rows, inputs, calls[..k], calls[k].handle, encoding, content)
        && IsPart(readings[k], Decoded(encoding, content), ReadsAt(calls, readings, k), calls[k].count)
  }

  /** The bytes a content stands for; one that does not decode stands for none. */
  function Decoded(encoding: Encoding, content: seq<Byte>): seq<Byte> {
    match View(encoding, content)
    case Some(view) => view
    case None => []
  }

  lemma OutIsPart(handle: Handle, offset: nat, count: nat)
    ensures IsPart(ReadOut(handle, offset, count), Decoded(handle.encoding, handle.content), offset, count)
  {
    hide View;
  }

  lemma PlayReads(g: Setting, calls: seq<GuestCall>, k: nat)
    requires Play(g, calls).Clean? && k < |calls|
    ensures ReadsTruly(g.rows, g.inputs, calls, Readings(g, calls), k)
  {
    hide Answering, MadeAs, WritersMeasured, HandlesMeasured, ChargeMeasured, ReadOut, Decoded, MadeBy, IsPart,
      ReadSoFar, Play, Readings;
    if calls[k].ReadNext? || calls[k].ReadFrom? {
      var before, call, h := calls[..k], calls[k], calls[k].handle;
      CleanParts(g, calls, k);
      CleanParts(g, calls, k + 1);
      TakeNext(calls, k);
      ReadingsNext(g, before, call);
      PlayNext(g, before, call);
      PlayMeasures(g, before);
      var now := Play(g, before).now;
      DoneReads(g, now, call);
      ReadSame(g, now, h, before);
      ReadSoFarIs(g, h, before);
      MadeByCall(g, h, before);
      var made, offset := MadeAs(g, h, before).value, ReadsAt(calls, Readings(g, calls), k);
      OutIsPart(made, offset, call.count);
      assert Readings(g, calls)[k] == Readings(g, calls)[..k + 1][k];
    }
  }
}
