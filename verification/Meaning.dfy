/** What the calls of a guest mean: a reference for one call, for a run of them, and read off their list. */
module Meaning {
  import opened Text
  import opened Base64
  import opened Asset

  /** A call a guest can make; what a streamed request is answered with comes from outside. */
  datatype GuestCall =
    | WriteTo(writer: nat, bytes: seq<Byte>)
    | OpenIt(reference: Option<nat>)
    | AllocateOne(encoding: Encoding)
    | AttachIt(writer: nat)
    | RemoveIt(handle: nat)
    | SendIt(handle: nat)
    | ReadNext(handle: nat, count: nat)
    | ReadFrom(handle: nat, offset: nat, count: nat)
    | StreamIt(parts: seq<nat>, response: seq<Byte>)
    | DropIt(handle: nat)
    | Abandon(writer: nat)

  /** A call of the asset interface itself, rather than the end of a resource. */
  predicate Touches(call: GuestCall) {
    !call.DropIt? && !call.Abandon?
  }

  // What a run did, read off its calls.

  /** Everything a run wrote to a writer. */
  function Offered(w: nat, calls: seq<GuestCall>): seq<Byte> {
    if calls == [] then []
    else
      var before, last := Offered(w, calls[..|calls| - 1]), calls[|calls| - 1];
      if last.WriteTo? && last.writer == w then before + last.bytes else before
  }

  /** The files a run attached. */
  function FilesOf(calls: seq<GuestCall>): seq<seq<Byte>> {
    if calls == [] then []
    else
      var before, last := calls[..|calls| - 1], calls[|calls| - 1];
      if last.AttachIt? then FilesOf(before) + [Offered(last.writer, before)] else FilesOf(before)
  }

  predicate Creates(call: GuestCall) {
    call.OpenIt? || call.AllocateOne? || call.AttachIt? || call.StreamIt?
  }

  /** How many writers and handles a run was given; they are numbered in that order. */
  function Created(calls: seq<GuestCall>): nat {
    if calls == [] then 0 else Created(calls[..|calls| - 1]) + if Creates(calls[|calls| - 1]) then 1 else 0
  }

  /** The id of the asset this handle was opened for. */
  function NamedBy(h: nat, calls: seq<GuestCall>): Option<nat> {
    if calls == [] then None
    else
      var before, last := calls[..|calls| - 1], calls[|calls| - 1];
      if last.OpenIt? && Created(before) == h then last.reference else NamedBy(h, before)
  }

  predicate SentBefore(rows: seq<Row>, id: nat) {
    FindRow(rows, id).Some? && FindRow(rows, id).value.sent
  }

  /** The assets a run sent: each once, unless it had been sent before. */
  function SentBy(calls: seq<GuestCall>, rows: seq<Row>): seq<nat> {
    if calls == [] then []
    else
      var before, last := calls[..|calls| - 1], calls[|calls| - 1];
      var sent := SentBy(before, rows);
      if !last.SendIt? || NamedBy(last.handle, before).None? then sent
      else
        var id := NamedBy(last.handle, before).value;
        if SentBefore(rows, id) then sent else With(sent, id)
  }

  function RemovedBy(calls: seq<GuestCall>): seq<nat> {
    if calls == [] then []
    else
      var before, last := calls[..|calls| - 1], calls[|calls| - 1];
      if !last.RemoveIt? || NamedBy(last.handle, before).None? then RemovedBy(before)
      else With(RemovedBy(before), NamedBy(last.handle, before).value)
  }

  // One call.

  /** What an invocation is given and does not change; `io` tells how its I/O operations end. */
  datatype Setting = Setting(
    active: bool, configured: bool, grant: Grant, rows: seq<Row>, inputs: seq<(nat, seq<Byte>)>, allowance: nat,
    io: seq<Option<Code>>)

  datatype Snapshot = Snapshot(
    writers: map<nat, Writer>, handles: map<nat, Handle>, outputs: Outputs, written: nat, next: nat, ioCalls: nat)

  const START := Snapshot(map[], map[], Outputs([], [], [], []), 0, 0, 0)

  predicate AllSane(s: Snapshot) {
    forall w | w in s.writers :: Sane(s.writers[w].validator)
  }

  /** How a call is answered: it is done, refused, or ends the guest. */
  datatype Answer = Done(now: Snapshot) | Turned(refusal: Refusal) | Ended

  function Writing(g: Setting, s: Snapshot, w: nat, bytes: seq<Byte>): (a: Answer)
    requires AllSane(s)
    ensures a.Done? ==> AllSane(a.now)
  {
    if !g.active then Ended
    else if CHUNK_BYTES < |bytes| then Turned(Refusal(TooLarge, true))
    else if w !in s.writers then Ended
    else
      match Judge(s.writers[w], bytes, s.written)
      case Turns(code, _) => Turned(Refusal(code, true))
      case Takes(grown) =>
        if Nth(g.io, s.ioCalls, None).Some? then Turned(Refusal(Nth(g.io, s.ioCalls, None).value, true))
        else
          TakenGrows(s.writers[w], bytes, s.written);
          Done(s.(writers := s.writers[w := grown], written := s.written + Held(grown) - Held(s.writers[w]),
                  ioCalls := s.ioCalls + 1))
  }

  lemma TakenGrows(writer: Writer, bytes: seq<Byte>, charged: nat)
    requires Sane(writer.validator) && Judge(writer, bytes, charged).Takes?
    ensures var grown := Judge(writer, bytes, charged).writer;
            && writer.spool.Some? && grown.spool == Some(writer.spool.value + bytes)
            && Held(writer) <= Held(grown) && Sane(grown.validator)
  {
    if writer.encoding.Base64? {
      DecodedGrows(writer.validator, bytes);
    }
  }

  function Opening(g: Setting, s: Snapshot, reference: Option<nat>): Answer {
    if !g.active then Ended
    else
      match OpenFault(g.rows, g.inputs, s.outputs.removed, g.io, s.ioCalls, reference)
      case Some(code) => Turned(Refusal(code, true))
      case None =>
        var row, content := FindRow(g.rows, reference.value).value, FindInput(g.inputs, reference.value).value;
        var len := DecodedLength(row.encoding, content).value;
        Done(s.(handles := s.handles[s.next := Handle(content, row.encoding, 0, len, reference, row.sent, false)],
                next := s.next + 1, ioCalls := s.ioCalls + if row.encoding.Base64? then 1 else 0))
  }

  function Allocating(g: Setting, s: Snapshot, encoding: Encoding): Answer {
    if !g.active then Ended
    else
      match AllocateFault(g.configured, g.io, s.ioCalls)
      case Some(code) => Turned(Refusal(code, true))
      case None =>
        Done(s.(writers := s.writers[s.next := Writer(Some([]), encoding, FRESH)], next := s.next + 1,
                ioCalls := s.ioCalls + 1))
  }

  function Attaching(g: Setting, s: Snapshot, w: nat): Answer {
    if !g.active || w !in s.writers then Ended
    else
      var writer := s.writers[w];
      if AttachFault(g.grant, |s.outputs.attached|, writer).Some? then
        Turned(Refusal(AttachFault(g.grant, |s.outputs.attached|, writer).value, true))
      else if FinishFault(g.io, s.ioCalls, writer.encoding).Some? then
        Turned(Refusal(FinishFault(g.io, s.ioCalls, writer.encoding).value, true))
      else
        var content := writer.spool.value;
        Done(s.(writers := s.writers - {w}, handles := s.handles[s.next := NewHandle(writer.encoding, content)],
                outputs := s.outputs.(
                  files := s.outputs.files + [content],
                  attached := s.outputs.attached + [NewOutput(|s.outputs.attached|, writer.encoding, content)]),
                next := s.next + 1, ioCalls := s.ioCalls + FinishOps(writer.encoding)))
  }

  function Removing(g: Setting, s: Snapshot, h: nat): Answer {
    if !g.active then Ended
    else if !g.grant.remove then Turned(Refusal(Denied, true))
    else if h !in s.handles then Ended
    else
      match RemoveFault(s.handles[h], s.outputs.sent)
      case Some(code) => Turned(Refusal(code, true))
      case None => Done(s.(outputs := s.outputs.(removed := With(s.outputs.removed, s.handles[h].id.value))))
  }

  function Sending(g: Setting, s: Snapshot, h: nat): Answer {
    if !g.active then Ended
    else if !g.grant.send then Turned(Refusal(Denied, true))
    else if h !in s.handles then Ended
    else
      match SendFault(s.handles[h], s.outputs, g.allowance <= |s.outputs.sent|)
      case Some(code) => Turned(Refusal(code, true))
      case None =>
        Done(s.(outputs := s.outputs.(
          sent := if s.handles[h].sent then s.outputs.sent else With(s.outputs.sent, s.handles[h].id.value))))
  }

  /** A read at an offset, which a sequential read also moves its cursor past. */
  function Reading(g: Setting, s: Snapshot, h: nat, offset: nat, count: nat, moves: bool): Answer {
    if !g.active || h !in s.handles then Ended
    else
      var handle := s.handles[h];
      match ReadFault(g.io, s.ioCalls, handle, offset, count)
      case Some(code) => Turned(Refusal(code, false))
      case None =>
        var moved := handle.cursor + if moves then |ReadOut(handle, offset, count)| else 0;
        Done(s.(handles := s.handles[h := Digested(handle).(cursor := moved)],
                ioCalls := s.ioCalls + ReadOps(handle, offset, count)))
  }

  function Streaming(g: Setting, s: Snapshot, parts: seq<nat>, response: seq<Byte>): Answer {
    match StreamAnswer(g.active, g.configured, g.io, s.ioCalls, s.handles, parts, s.written, s.next)
    case Trap => Ended
    case Refused(code) => Turned(Refusal(code, true))
    case Ok(h) =>
      Done(s.(handles := s.handles[h := NewHandle(Identity, response)], next := s.next + 1,
              written := Charge(s.handles, parts, s.written).total, ioCalls := s.ioCalls + 1))
  }

  function Answering(g: Setting, s: Snapshot, call: GuestCall): (a: Answer)
    requires AllSane(s)
    ensures a.Done? ==> AllSane(a.now)
  {
    match call
    case WriteTo(w, bytes) => Writing(g, s, w, bytes)
    case OpenIt(reference) => Opening(g, s, reference)
    case AllocateOne(encoding) => Allocating(g, s, encoding)
    case AttachIt(w) => Attaching(g, s, w)
    case RemoveIt(h) => Removing(g, s, h)
    case SendIt(h) => Sending(g, s, h)
    case ReadNext(h, count) => Reading(g, s, h, if h in s.handles then s.handles[h].cursor else 0, count, true)
    case ReadFrom(h, offset, count) => Reading(g, s, h, offset, count, false)
    case StreamIt(parts, response) => Streaming(g, s, parts, response)
    case DropIt(h) => if h in s.handles then Done(s.(handles := s.handles - {h})) else Ended
    case Abandon(w) => if w in s.writers then Done(s.(writers := s.writers - {w})) else Ended
  }

  // A run of calls.

  /** How a run goes: every call is done, or the first that is not is refused or ends the guest. */
  datatype Run = Clean(now: Snapshot) | Spoilt | Cut

  function Onward(answer: Answer): Run {
    match answer
    case Done(now) => Clean(now)
    case Turned(_) => Spoilt
    case Ended => Cut
  }

  function Play(g: Setting, calls: seq<GuestCall>): (r: Run)
    ensures r.Clean? ==> AllSane(r.now)
  {
    if calls == [] then Clean(START)
    else
      var before := Play(g, calls[..|calls| - 1]);
      if before.Clean? then Onward(Answering(g, before.now, calls[|calls| - 1])) else before
  }

  lemma PlayNext(g: Setting, calls: seq<GuestCall>, call: GuestCall)
    ensures Play(g, calls + [call]) ==
            if Play(g, calls).Clean? then Onward(Answering(g, Play(g, calls).now, call)) else Play(g, calls)
  {
    assert (calls + [call])[..|calls|] == calls;
  }

  /** What a done call gives the guest to read. */
  function Given(s: Snapshot, call: GuestCall): seq<Byte> {
    match call
    case ReadNext(h, count) => if h in s.handles then ReadOut(s.handles[h], s.handles[h].cursor, count) else []
    case ReadFrom(h, offset, count) => if h in s.handles then ReadOut(s.handles[h], offset, count) else []
    case _ => []
  }

  /** What each call of a clean run gave. */
  function Readings(g: Setting, calls: seq<GuestCall>): (readings: seq<seq<Byte>>)
    ensures |readings| == |calls|
  {
    if calls == [] then []
    else
      var before := Play(g, calls[..|calls| - 1]);
      Readings(g, calls[..|calls| - 1]) + [if before.Clean? then Given(before.now, calls[|calls| - 1]) else []]
  }

  lemma ReadingsNext(g: Setting, calls: seq<GuestCall>, call: GuestCall)
    ensures Readings(g, calls + [call]) ==
            Readings(g, calls) + [if Play(g, calls).Clean? then Given(Play(g, calls).now, call) else []]
  {
    assert (calls + [call])[..|calls|] == calls;
  }

  /** Every part of a clean run is clean, and its readings start those of the whole. */
  lemma {:induction false} CleanParts(g: Setting, calls: seq<GuestCall>, n: nat)
    requires n <= |calls| && Play(g, calls).Clean?
    ensures Play(g, calls[..n]).Clean? && Readings(g, calls[..n]) == Readings(g, calls)[..n]
    decreases |calls|
  {
    if n == |calls| {
      assert calls[..n] == calls;
    } else {
      assert calls[..|calls| - 1][..n] == calls[..n];
      CleanParts(g, calls[..|calls| - 1], n);
    }
  }

  /** Once a run is not clean it stays what it is. */
  lemma {:induction false} PlayStays(g: Setting, calls: seq<GuestCall>, n: nat)
    requires n <= |calls| && !Play(g, calls[..n]).Clean?
    ensures Play(g, calls) == Play(g, calls[..n])
    decreases |calls|
  {
    if n == |calls| {
      assert calls[..n] == calls;
    } else {
      assert calls[..|calls| - 1][..n] == calls[..n];
      PlayStays(g, calls[..|calls| - 1], n);
    }
  }

  // The reference agrees with what is read off the calls.

  ghost predicate WritersMatch(s: Snapshot, calls: seq<GuestCall>) {
    && s.next == Created(calls)
    && (forall w | w in s.writers :: w < s.next && s.writers[w].spool == Some(Offered(w, calls)))
    && (forall w: nat | s.next <= w :: Offered(w, calls) == [])
    && s.outputs.files == FilesOf(calls)
  }

  ghost predicate HandleMatches(handle: Handle, h: nat, rows: seq<Row>, calls: seq<GuestCall>) {
    && handle.id == NamedBy(h, calls)
    && (handle.sent <==> handle.id.Some? && SentBefore(rows, handle.id.value))
  }

  ghost predicate HandlesMatch(g: Setting, s: Snapshot, calls: seq<GuestCall>) {
    && s.next == Created(calls)
    && (forall h | h in s.handles :: h < s.next && HandleMatches(s.handles[h], h, g.rows, calls))
    && (forall h: nat | s.next <= h :: NamedBy(h, calls) == None)
    && s.outputs.sent == SentBy(calls, g.rows) && s.outputs.removed == RemovedBy(calls)
  }

  /** A done call changes writers and files in one of a few ways. */
  lemma WritersAfter(g: Setting, s: Snapshot, call: GuestCall)
    requires AllSane(s) && Answering(g, s, call).Done?
    ensures var now := Answering(g, s, call).now;
            && now.next == s.next + (if Creates(call) then 1 else 0)
            && (forall w | w in now.writers ::
                  if w in s.writers && !(w == s.next && call.AllocateOne?) then
                    && s.writers[w].spool.Some? == now.writers[w].spool.Some?
                    && (s.writers[w].spool.Some? ==>
                          now.writers[w].spool.value ==
                          s.writers[w].spool.value + if call.WriteTo? && call.writer == w then call.bytes else [])
                  else call.AllocateOne? && w == s.next && now.writers[w].spool == Some([]))
            && (call.WriteTo? ==> call.writer in s.writers)
            && (call.AttachIt? ==> call.writer in s.writers && s.writers[call.writer].spool.Some?)
            && now.outputs.files ==
               s.outputs.files + if call.AttachIt? then [s.writers[call.writer].spool.value] else []
  {
    hide Judge, Held, ReadFault, ReadOut, Charge, OpenFault, FindRow, FindInput, DecodedLength, View, FinishFault,
      SendFault;
    if call.WriteTo? {
      TakenGrows(s.writers[call.writer], call.bytes, s.written);
    }
  }

  lemma OfferedNext(calls: seq<GuestCall>, call: GuestCall, w: nat)
    ensures Offered(w, calls + [call]) ==
            Offered(w, calls) + if call.WriteTo? && call.writer == w then call.bytes else []
    ensures FilesOf(calls + [call]) == FilesOf(calls) + if call.AttachIt? then [Offered(call.writer, calls)] else []
  {
    assert (calls + [call])[..|calls|] == calls;
    EmptyIsUnit(Offered(w, calls));
    EmptyIsUnit(FilesOf(calls));
  }

  lemma WritersMove(g: Setting, s: Snapshot, call: GuestCall, calls: seq<GuestCall>)
    requires AllSane(s) && WritersMatch(s, calls) && Answering(g, s, call).Done?
    ensures WritersMatch(Answering(g, s, call).now, calls + [call])
  {
    WritersAfter(g, s, call);
    NamesNext(calls, call, 0);
    forall w: nat
      ensures Offered(w, calls + [call]) ==
              Offered(w, calls) + if call.WriteTo? && call.writer == w then call.bytes else []
    {
      OfferedNext(calls, call, w);
    }
    OfferedNext(calls, call, 0);
    hide Created, Offered, FilesOf, Answering;
  }

  /** What handles stand for only an opening changes. */
  lemma NamesNext(calls: seq<GuestCall>, call: GuestCall, h: nat)
    ensures Created(calls + [call]) == Created(calls) + if Creates(call) then 1 else 0
    ensures NamedBy(h, calls + [call]) ==
            if call.OpenIt? && Created(calls) == h then call.reference else NamedBy(h, calls)
  {
    assert (calls + [call])[..|calls|] == calls;
  }

  lemma OutputsNext(calls: seq<GuestCall>, call: GuestCall, rows: seq<Row>)
    ensures SentBy(calls + [call], rows) ==
            if !call.SendIt? || NamedBy(call.handle, calls).None? then SentBy(calls, rows)
            else if SentBefore(rows, NamedBy(call.handle, calls).value) then SentBy(calls, rows)
            else With(SentBy(calls, rows), NamedBy(call.handle, calls).value)
    ensures RemovedBy(calls + [call]) ==
            if !call.RemoveIt? || NamedBy(call.handle, calls).None? then RemovedBy(calls)
            else With(RemovedBy(calls), NamedBy(call.handle, calls).value)
  {
    assert (calls + [call])[..|calls|] == calls;
  }

  /** A done call changes handles in one of a few ways. */
  lemma HandlesAfter(g: Setting, s: Snapshot, call: GuestCall)
    requires AllSane(s) && Answering(g, s, call).Done?
    ensures var now := Answering(g, s, call).now;
            && now.next == s.next + (if Creates(call) then 1 else 0)
            && (forall h | h in now.handles ::
                  || (h in s.handles
                      && now.handles[h].id == s.handles[h].id && now.handles[h].sent == s.handles[h].sent)
                  || (h == s.next && Creates(call)
                      && now.handles[h].id == (if call.OpenIt? then call.reference else None)
                      && (now.handles[h].sent <==>
                            call.OpenIt? && call.reference.Some? && SentBefore(g.rows, call.reference.value))))
            && (!call.SendIt? ==> now.outputs.sent == s.outputs.sent)
            && (!call.RemoveIt? ==> now.outputs.removed == s.outputs.removed)
  {
    hide Judge, Held, ReadFault, ReadOut, Charge, FindRow, FindInput, DecodedLength, View, FinishFault, AttachFault;
  }

  lemma HandlesMove(g: Setting, s: Snapshot, call: GuestCall, calls: seq<GuestCall>)
    requires AllSane(s) && HandlesMatch(g, s, calls) && Answering(g, s, call).Done?
    ensures HandlesMatch(g, Answering(g, s, call).now, calls + [call])
  {
    var now := Answering(g, s, call).now;
    HandlesAfter(g, s, call);
    OutputsNext(calls, call, g.rows);
    forall h: nat
      ensures NamedBy(h, calls + [call]) == if call.OpenIt? && s.next == h then call.reference else NamedBy(h, calls)
    {
      NamesNext(calls, call, h);
    }
    NamesNext(calls, call, 0);
    if call.SendIt? {
      assert HandleMatches(s.handles[call.handle], call.handle, g.rows, calls);
    } else if call.RemoveIt? {
      assert HandleMatches(s.handles[call.handle], call.handle, g.rows, calls);
    }
    hide Created, NamedBy, SentBy, RemovedBy, SentBefore, Answering;
  }

  /** A clean run left exactly what its calls say. */
  lemma {:induction false} PlayMatches(g: Setting, calls: seq<GuestCall>)
    requires Play(g, calls).Clean?
    ensures WritersMatch(Play(g, calls).now, calls) && HandlesMatch(g, Play(g, calls).now, calls)
  {
    hide Answering, WritersMatch, HandlesMatch;
    if calls == [] {
      NothingMatches(g);
    } else {
      var front, last := calls[..|calls| - 1], calls[|calls| - 1];
      Split(calls);
      PlayMatches(g, front);
      WritersMove(g, Play(g, front).now, last, front);
      HandlesMove(g, Play(g, front).now, last, front);
    }
  }

  lemma NothingMatches(g: Setting)
    ensures WritersMatch(START, []) && HandlesMatch(g, START, [])
  {
  }
}
