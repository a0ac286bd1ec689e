/** When a guest's call is done and why it is refused, told from the state and the limits themselves. */
module Calls {
  import opened Text
  import opened Base64
  import opened Asset
  import opened Meaning

  /** How the I/O operation `k` after this state's ends, if it fails. */
  function Fails(g: Setting, s: Snapshot, k: nat): Option<Code> {
    Nth(g.io, s.ioCalls + k, None)
  }

  function Refuses(code: Code): Answer {
    Turned(Refusal(code, true))
  }

  /**
   * An asset opens exactly if one was handed in under the id and not removed, its row states a length, its
   * stored length is one its encoding allows, and looking at that does not fail.
   */
  lemma OpenMeans(g: Setting, s: Snapshot, reference: Option<nat>)
    ensures !g.active ==> Opening(g, s, reference) == Ended
    ensures g.active && Unknown(g.rows, g.inputs, s.outputs.removed, reference) ==>
      Opening(g, s, reference) == Refuses(UnknownReference)
    ensures g.active && !Unknown(g.rows, g.inputs, s.outputs.removed, reference) ==>
      exists i: nat, j: nat ::
        && IsInput(g.inputs, reference.value, i) && IsRow(g.rows, reference.value, j)
        && OpensAs(g, s, g.rows[j], g.inputs[i].1, reference, Opening(g, s, reference))
  {
    hide DecodedLength, FindRow, FindInput;
    if reference.Some? {
      FindInputMeans(g.inputs, reference.value);
      FindRowMeans(g.rows, reference.value);
    }
  }

  ghost predicate OpensAs(
    g: Setting, s: Snapshot, row: Row, content: seq<Byte>, reference: Option<nat>, answer: Answer)
  {
    if row.bytes.None? then answer == Refuses(Internal)
    else if row.encoding.Base64? && Fails(g, s, 0).Some? then answer == Refuses(Fails(g, s, 0).value)
    else
      match DecodedLength(row.encoding, content)
      case None => answer == Refuses(InvalidEncoding)
      case Some(len) =>
        answer == Done(s.(
          handles := s.handles[s.next := Handle(content, row.encoding, 0, len, reference, row.sent, false)],
          next := s.next + 1, ioCalls := s.ioCalls + if row.encoding.Base64? then 1 else 0))
  }

  lemma AllocateMeans(g: Setting, s: Snapshot, encoding: Encoding)
    ensures Allocating(g, s, encoding) ==
            if !g.active then Ended
            else if !g.configured then Refuses(Unconfigured)
            else if Fails(g, s, 0).Some? then Refuses(Fails(g, s, 0).value)
            else Done(s.(writers := s.writers[s.next := Writer(Some([]), encoding, Validator([], false, false, 0))],
                         next := s.next + 1, ioCalls := s.ioCalls + 1))
  {
  }

  /** Finishing a file is two operations, and one more to look at the end of a base64 text. */
  ghost predicate FinishFails(g: Setting, s: Snapshot, encoding: Encoding, code: Code) {
    || Fails(g, s, 0) == Some(code)
    || (Fails(g, s, 0).None? && Fails(g, s, 1) == Some(code))
    || (encoding.Base64? && Fails(g, s, 0).None? && Fails(g, s, 1).None? && Fails(g, s, 2) == Some(code))
  }

  /**
   * A writer is attached exactly if that is granted, fewer than five files are, its text is complete, nothing
   * written to it was refused and finishing it does not fail; the first of these that is not so is the reason.
   */
  lemma AttachMeans(g: Setting, s: Snapshot, w: nat)
    ensures var answer := Attaching(g, s, w);
            if !g.active || w !in s.writers then answer == Ended
            else
              var writer := s.writers[w];
              if !g.grant.attach then answer == Refuses(Denied)
              else if 5 <= |s.outputs.attached| then answer == Refuses(TooManyAssets)
              else if writer.encoding.Base64? && (writer.validator.invalid || writer.validator.quantum != []) then
                answer == Refuses(InvalidEncoding)
              else if writer.spool.None? then answer == Refuses(Io)
              else if answer.Turned? then
                answer.refusal.insists && FinishFails(g, s, writer.encoding, answer.refusal.code)
              else
                && (forall code :: !FinishFails(g, s, writer.encoding, code))
                && answer.Done? && answer.now.outputs.files == s.outputs.files + [writer.spool.value]
                && answer.now.writers == s.writers - {w}
  {
    hide View;
  }

  lemma RemoveMeans(g: Setting, s: Snapshot, h: nat)
    ensures var answer := Removing(g, s, h);
            if !g.active then answer == Ended
            else if !g.grant.remove then answer == Refuses(Denied)
            else if h !in s.handles then answer == Ended
            else if s.handles[h].id.None? then answer == Refuses(UnknownReference)
            else
              var id := s.handles[h].id.value;
              if s.handles[h].sent || id in s.outputs.sent then answer == Refuses(AlreadySent)
              else
                answer == Done(s.(outputs := s.outputs.(
                  removed := if id in s.outputs.removed then s.outputs.removed else s.outputs.removed + [id])))
  {
  }

  /** A send costs one of the allowance the first time, and nothing for what was sent before. */
  lemma SendMeans(g: Setting, s: Snapshot, h: nat)
    ensures var answer := Sending(g, s, h);
            if !g.active then answer == Ended
            else if !g.grant.send then answer == Refuses(Denied)
            else if h !in s.handles then answer == Ended
            else if s.handles[h].id.None? || s.handles[h].id.value in s.outputs.removed then
              answer == Refuses(UnknownReference)
            else
              var id := s.handles[h].id.value;
              if s.handles[h].sent || id in s.outputs.sent then answer == Done(s)
              else if g.allowance <= |s.outputs.sent| then answer == Refuses(SendsExhausted)
              else answer == Done(s.(outputs := s.outputs.(sent := s.outputs.sent + [id])))
  {
  }

  /** A read of an asset that was handed in first digests it, once; then what it gives, if anything, is read. */
  lemma ReadMeans(g: Setting, s: Snapshot, h: nat, offset: nat, count: nat, moves: bool)
    ensures var answer := Reading(g, s, h, offset, count, moves);
            if !g.active || h !in s.handles then answer == Ended
            else
              var handle, out := s.handles[h], ReadOut(s.handles[h], offset, count);
              var digests := handle.id.Some? && !handle.digestRecorded;
              var before := if digests then 1 else 0;
              if digests && Fails(g, s, 0).Some? then answer == Turned(Refusal(Fails(g, s, 0).value, false))
              else if digests && View(handle.encoding, handle.content).None? then
                answer == Turned(Refusal(InvalidEncoding, false))
              else if out != [] && Fails(g, s, before).Some? then
                answer == Turned(Refusal(Fails(g, s, before).value, false))
              else
                var cursor := handle.cursor + if moves then |out| else 0;
                var read := handle.(cursor := cursor, digestRecorded := handle.digestRecorded || handle.id.Some?);
                answer == Done(s.(handles := s.handles[h := read],
                                  ioCalls := s.ioCalls + before + if out == [] then 0 else 1))
  {
    hide View, ReadOut;
  }

  /** The lengths of these handles. */
  function Lengths(handles: map<nat, Handle>, parts: seq<nat>): nat {
    if parts == [] then 0
    else
      var last := parts[|parts| - 1];
      Lengths(handles, parts[..|parts| - 1]) + if last in handles then handles[last].len else 0
  }

  /** A request is charged for all its parts exactly if all are known and fit the 40 MiB of the invocation. */
  lemma {:induction false} ChargeMeans(handles: map<nat, Handle>, parts: seq<nat>, written: nat)
    ensures Charge(handles, parts, written).Charged? <==>
      && (forall i | 0 <= i < |parts| :: parts[i] in handles)
      && (parts == [] || written + Lengths(handles, parts) <= 41943040)
    ensures Charge(handles, parts, written).Charged? ==>
      Charge(handles, parts, written).total == written + Lengths(handles, parts)
    ensures match Charge(handles, parts, written)
            case Charged(_) => true
            case NoHandle(total) => exists i :: FirstWrong(handles, parts, written, i, total, false)
            case Exceeds(total) => exists i :: FirstWrong(handles, parts, written, i, total, true)
  {
    hide Lengths, FirstWrong;
    if parts != [] {
      var n := |parts| - 1;
      var front := parts[..n];
      ChargeMeans(handles, front, written);
      LengthsNext(handles, parts);
      assert forall i | 0 <= i < n :: front[i] == parts[i];
      var before := Charge(handles, front, written);
      if before.Charged? {
        WrongHere(handles, parts, written, n, written + Lengths(handles, front), parts[n] in handles);
      } else {
        var i :| FirstWrong(handles, front, written, i, before.total, before.Exceeds?);
        WrongStill(handles, parts, written, i, before.total, before.Exceeds?);
      }
    } else {
      NoLengths(handles);
    }
  }

  lemma NoLengths(handles: map<nat, Handle>)
    ensures Lengths(handles, []) == 0
  {
  }

  lemma LengthsNext(handles: map<nat, Handle>, parts: seq<nat>)
    requires parts != []
    ensures var n := |parts| - 1;
            Lengths(handles, parts) ==
            Lengths(handles, parts[..n]) + if parts[n] in handles then handles[parts[n]].len else 0
  {
  }

  /** The i-th part is the first that is unknown, or known and too much, and those before it come to `total`. */
  ghost predicate FirstWrong(
    handles: map<nat, Handle>, parts: seq<nat>, written: nat, i: int, total: nat, known: bool)
  {
    && 0 <= i < |parts| && (forall k | 0 <= k < i :: parts[k] in handles)
    && total == written + Lengths(handles, parts[..i]) && (i == 0 || total <= 41943040)
    && (known <==> parts[i] in handles)
    && (known ==> 41943040 < total + handles[parts[i]].len)
  }

  lemma WrongHere(handles: map<nat, Handle>, parts: seq<nat>, written: nat, i: nat, total: nat, known: bool)
    requires i < |parts| && (forall k | 0 <= k < i :: parts[k] in handles) && (known <==> parts[i] in handles)
    requires total == written + Lengths(handles, parts[..i]) && (i == 0 || total <= 41943040)
    ensures FirstWrong(handles, parts, written, i, total, known) <==>
      (known ==> 41943040 < total + handles[parts[i]].len)
  {
  }

  lemma WrongStill(handles: map<nat, Handle>, parts: seq<nat>, written: nat, i: int, total: nat, known: bool)
    requires parts != [] && FirstWrong(handles, parts[..|parts| - 1], written, i, total, known)
    ensures FirstWrong(handles, parts, written, i, total, known)
    ensures 0 <= i < |parts| && (known <==> parts[i] in handles)
    ensures known ==> 41943040 < written + Lengths(handles, parts)
  {
    var front := parts[..|parts| - 1];
    assert front[..i] == parts[..i] && front[i] == parts[i];
    LengthsGrow(handles, parts, i + 1);
    assert parts[..i + 1][..i] == parts[..i];
  }

  lemma {:induction false} LengthsGrow(handles: map<nat, Handle>, parts: seq<nat>, n: nat)
    requires n <= |parts|
    ensures Lengths(handles, parts[..n]) <= Lengths(handles, parts)
    decreases |parts|
  {
    if n < |parts| {
      assert parts[..|parts| - 1][..n] == parts[..n];
      LengthsGrow(handles, parts[..|parts| - 1], n);
    } else {
      assert parts[..n] == parts;
    }
  }

  /** A streamed request answers with a new handle to the response, or is refused for the first of these reasons. */
  lemma StreamMeans(g: Setting, s: Snapshot, parts: seq<nat>, response: seq<Byte>)
    ensures var answer := Streaming(g, s, parts, response);
            var known := forall i | 0 <= i < |parts| :: parts[i] in s.handles;
            var fit := parts == [] || s.written + Lengths(s.handles, parts) <= 41943040;
            if !g.active then answer == Ended
            else if !g.configured then answer == Refuses(Unconfigured)
            else if known && fit then
              if Fails(g, s, 0).Some? then answer == Refuses(Fails(g, s, 0).value)
              else answer == Done(s.(
                handles := s.handles[s.next := Handle(response, Identity, 0, |response|, None, false, false)],
                next := s.next + 1, ioCalls := s.ioCalls + 1, written := s.written + Lengths(s.handles, parts)))
            else if known then answer == Refuses(TooLarge)
            else
              || (answer == Ended && exists i, total :: FirstWrong(s.handles, parts, s.written, i, total, false))
              || (answer == Refuses(TooLarge)
                  && exists i, total :: FirstWrong(s.handles, parts, s.written, i, total, true))
  {
    ChargeMeans(s.handles, parts, s.written);
    hide Charge, Lengths;
  }

  // Writing.

  /** The limits of a write: a chunk, a file as stored, an asset as decoded, and all that was written. */
  lemma WriteLimits(writer: Writer, bytes: seq<Byte>, charged: nat)
    requires writer.spool.Some? && Sane(writer.validator)
    ensures Oversteps(writer, bytes, charged) <==>
      || 65536 < |bytes|
      || (if writer.encoding.Identity? then 8388608 else 11184812) < |writer.spool.value| + |bytes|
      || 8388608 < Held(Grown(writer, bytes))
      || 41943040 < charged + Held(Grown(writer, bytes)) - Held(writer)
  {
  }

  // What a run sent and removed.

  /** Some send before the n-th call was of this asset. */
  ghost predicate SentAmong(calls: seq<GuestCall>, n: nat, id: nat) {
    exists k: nat :: k < n && k < |calls| && calls[k].SendIt? && NamedBy(calls[k].handle, calls[..k]) == Some(id)
  }

  ghost predicate RemovedAmong(calls: seq<GuestCall>, id: nat) {
    exists k: nat :: k < |calls| && calls[k].RemoveIt? && NamedBy(calls[k].handle, calls[..k]) == Some(id)
  }

  /** The asset's row, the first of its id, says that it was sent before. */
  ghost predicate SentEarlier(rows: seq<Row>, id: nat) {
    exists j: nat :: IsRow(rows, id, j) && rows[j].sent
  }

  lemma EarlierMeans(rows: seq<Row>, id: nat)
    ensures SentBefore(rows, id) <==> SentEarlier(rows, id)
  {
    FindRowMeans(rows, id);
    if SentEarlier(rows, id) {
      var j: nat :| IsRow(rows, id, j) && rows[j].sent;
      if FindRow(rows, id).Some? {
        var i: nat :| IsRow(rows, id, i) && FindRow(rows, id).value == rows[i];
        assert i == j;
      }
    }
  }

  /** An asset is among those a run sent exactly if some call sent it and it had not been sent earlier. */
  lemma {:induction false} SentByMeans(calls: seq<GuestCall>, rows: seq<Row>, id: nat)
    ensures id in SentBy(calls, rows) <==> SentAmong(calls, |calls|, id) && !SentEarlier(rows, id)
  {
    hide NamedBy, SentBefore, SentEarlier;
    if calls != [] {
      var n := |calls| - 1;
      var front, last := calls[..n], calls[n];
      SentByMeans(front, rows, id);
      EarlierMeans(rows, id);
      assert forall k: nat | k < n :: front[k] == calls[k] && front[..k] == calls[..k];
      if last.SendIt? && NamedBy(last.handle, front) == Some(id) {
        assert SentAmong(calls, |calls|, id);
      } else if SentAmong(calls, |calls|, id) {
        var k: nat :| k < |calls| && calls[k].SendIt? && NamedBy(calls[k].handle, calls[..k]) == Some(id);
        assert k < n;
      }
    }
  }

  lemma {:induction false} RemovedByMeans(calls: seq<GuestCall>, id: nat)
    ensures id in RemovedBy(calls) <==> RemovedAmong(calls, id)
  {
    hide NamedBy;
    if calls != [] {
      var n := |calls| - 1;
      var front, last := calls[..n], calls[n];
      RemovedByMeans(front, id);
      assert forall k: nat | k < n :: front[k] == calls[k] && front[..k] == calls[..k];
      if last.RemoveIt? && NamedBy(last.handle, front) == Some(id) {
        assert RemovedAmong(calls, id);
      } else if RemovedAmong(calls, id) {
        var k: nat :| k < |calls| && calls[k].RemoveIt? && NamedBy(calls[k].handle, calls[..k]) == Some(id);
        assert k < n;
      }
    }
  }

  /** What was sent, and in that order, stays what was sent; and so for what was removed. */
  lemma {:induction false} SentInOrder(calls: seq<GuestCall>, rows: seq<Row>, n: nat)
    requires n <= |calls|
    ensures SentBy(calls[..n], rows) <= SentBy(calls, rows) && RemovedBy(calls[..n]) <= RemovedBy(calls)
    decreases |calls|
  {
    hide NamedBy, SentBefore;
    if n == |calls| {
      assert calls[..n] == calls;
    } else {
      assert calls[..|calls| - 1][..n] == calls[..n];
      SentInOrder(calls[..|calls| - 1], rows, n);
    }
  }
}
