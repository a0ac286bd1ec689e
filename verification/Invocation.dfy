/** Whole invocations: admission of the handed-in assets, any sequence of guest calls, and delivery. */
module Invocation {
  import opened Text
  import opened Asset
  import opened Meaning
  import opened Measures

  datatype AdmissionError = TooManyRows | DescriptorCount | DuplicateRow | InvalidDescriptor | TooMuchInput | BadInput

  /** A passed descriptor: its content, and whether it is a regular file opened for reading only. */
  datatype Descriptor = Descriptor(content: seq<Byte>, readOnlyFile: bool)

  datatype Admission = Admitted(passed: seq<(nat, seq<Byte>)>) | Rejected(error: AdmissionError)

  function RowIds(rows: seq<Row>): seq<nat> {
    seq(|rows|, i requires 0 <= i < |rows| => rows[i].id)
  }

  /** The decoded size of what was passed. */
  function InputBytes(rows: seq<Row>, descriptors: seq<Descriptor>): nat
    requires |descriptors| <= |rows|
  {
    if descriptors == [] then 0
    else
      var n := |descriptors| - 1;
      InputBytes(rows, descriptors[..n]) +
      match DecodedLength(rows[n].encoding, descriptors[n].content)
      case Some(len) => len
      case None => 0
  }

  predicate Matches(row: Row, descriptor: Descriptor) {
    && descriptor.readOnlyFile && row.bytes == Some(|descriptor.content|)
    && DecodedLength(row.encoding, descriptor.content).Some?
  }

  function Passed(rows: seq<Row>, descriptors: seq<Descriptor>): seq<(nat, seq<Byte>)>
    requires |descriptors| <= |rows|
  {
    seq(|descriptors|, i requires 0 <= i < |descriptors| => (rows[i].id, descriptors[i].content))
  }

  /** Each content is passed under the id of its own row. */
  lemma PassedByRow(rows: seq<Row>, descriptors: seq<Descriptor>, i: nat)
    requires |descriptors| <= |rows| && i < |descriptors|
    ensures |Passed(rows, descriptors)| == |descriptors|
    ensures Passed(rows, descriptors)[i] == (rows[i].id, descriptors[i].content)
  {
  }

  /** Whether an id occurs twice, found by counting distinct ids. */
  method HasDuplicates(rows: seq<Row>) returns (found: bool)
    ensures found <==> !NoDuplicates(RowIds(rows))
  {
    var ids: set<nat> := {};
    for i := 0 to |rows|
      invariant ids == set k | 0 <= k < i :: RowIds(rows)[k]
      invariant forall j, k | 0 <= j < k < i :: RowIds(rows)[j] != RowIds(rows)[k]
    {
      if RowIds(rows)[i] in ids {
        return true;
      }
      ids := ids + {RowIds(rows)[i]};
    }
    found := false;
  }

  /** What the broker accepts: rows and descriptors paired off, under distinct ids, within the input limit. */
  predicate Admissible(rows: seq<Row>, descriptors: seq<Descriptor>) {
    && |rows| <= MAX_DESCRIPTORS
    && (descriptors == [] || (|descriptors| == |rows| && NoDuplicates(RowIds(rows))))
    && (forall i | 0 <= i < |descriptors| :: Matches(rows[i], descriptors[i]))
    && InputBytes(rows, descriptors) <= MAX_INPUT_BYTES
  }

  lemma {:induction false} InputBytesGrow(rows: seq<Row>, descriptors: seq<Descriptor>, n: nat)
    requires n <= |descriptors| <= |rows|
    ensures InputBytes(rows, descriptors[..n]) <= InputBytes(rows, descriptors)
    decreases |descriptors| - n
  {
    if n == |descriptors| {
      assert descriptors[..n] == descriptors;
    } else {
      InputBytesGrow(rows, descriptors, n + 1);
      assert descriptors[..n + 1][..n] == descriptors[..n];
    }
  }

  /** The i-th pair is the first that is not in order, and why. */
  ghost predicate RejectedAt(rows: seq<Row>, descriptors: seq<Descriptor>, i: nat, error: AdmissionError)
    requires |descriptors| <= |rows| && i < |descriptors|
  {
    && (forall k | 0 <= k < i :: Matches(rows[k], descriptors[k])) && InputBytes(rows, descriptors[..i]) <= 524288000
    && if !descriptors[i].readOnlyFile || rows[i].bytes != Some(|descriptors[i].content|) then
         error == InvalidDescriptor
       else
         match DecodedLength(rows[i].encoding, descriptors[i].content)
         case None => error == BadInput
         case Some(len) => 524288000 < InputBytes(rows, descriptors[..i]) + len && error == TooMuchInput
  }

  /**
   * Admits at most five rows, with as many descriptors under distinct ids or none, each a file opened for
   * reading only whose length is as stated and decodes, of at most 500 MiB decoded together; and each content
   * goes in under the id of its row. Otherwise the first thing not in order is the reason.
   */
  method Admit(rows: seq<Row>, descriptors: seq<Descriptor>) returns (admission: Admission)
    ensures admission.Admitted? <==> Admissible(rows, descriptors)
    ensures admission.Admitted? ==> admission.passed == Passed(rows, descriptors)
    ensures admission.Admitted? <==>
      && |rows| <= 5
      && (descriptors == []
          || (|descriptors| == |rows| && forall i, j | 0 <= i < j < |rows| :: rows[i].id != rows[j].id))
      && (forall i | 0 <= i < |descriptors| ::
            && descriptors[i].readOnlyFile && rows[i].bytes == Some(|descriptors[i].content|)
            && DecodedLength(rows[i].encoding, descriptors[i].content).Some?)
      && InputBytes(rows, descriptors) <= 524288000
    ensures admission.Admitted? ==>
      && |admission.passed| == |descriptors|
      && forall i | 0 <= i < |descriptors| :: admission.passed[i] == (rows[i].id, descriptors[i].content)
    ensures admission.Rejected? ==>
      match admission.error
      case TooManyRows => 5 < |rows|
      case DescriptorCount => |rows| <= 5 && descriptors != [] && |rows| != |descriptors|
      case DuplicateRow =>
        |rows| <= 5 && |rows| == |descriptors| && exists i, j :: 0 <= i < j < |rows| && rows[i].id == rows[j].id
      case _ =>
        |rows| <= 5 && |descriptors| <= |rows|
        && exists i: nat :: i < |descriptors| && RejectedAt(rows, descriptors, i, admission.error)
  {
    if MAX_DESCRIPTORS < |rows| {
      return Rejected(TooManyRows);
    }
    if (descriptors != [] && |rows| != |descriptors|) || MAX_DESCRIPTORS < |descriptors| {
      return Rejected(DescriptorCount);
    }
    var duplicates := HasDuplicates(rows);
    DistinctRows(rows);
    if descriptors != [] && duplicates {
      return Rejected(DuplicateRow);
    }
    hide NoDuplicates, DecodedLength;
    admission := AdmitEach(rows, descriptors);
  }

  lemma DistinctRows(rows: seq<Row>)
    ensures NoDuplicates(RowIds(rows)) <==> forall i, j | 0 <= i < j < |rows| :: rows[i].id != rows[j].id
  {
    var ids := RowIds(rows);
    if NoDuplicates(ids) {
      forall i, j | 0 <= i < j < |rows| ensures rows[i].id != rows[j].id {
        assert ids[i] != ids[j];
      }
    }
  }

  method AdmitEach(rows: seq<Row>, descriptors: seq<Descriptor>) returns (admission: Admission)
    requires |descriptors| <= |rows|
    ensures admission.Admitted? <==>
      && (forall i | 0 <= i < |descriptors| :: Matches(rows[i], descriptors[i]))
      && InputBytes(rows, descriptors) <= MAX_INPUT_BYTES
    ensures admission.Admitted? ==> admission.passed == Passed(rows, descriptors)
    ensures admission.Rejected? ==>
      && admission.error in {InvalidDescriptor, BadInput, TooMuchInput}
      && exists i: nat :: i < |descriptors| && RejectedAt(rows, descriptors, i, admission.error)
  {
    hide DecodedLength;
    var passed: seq<(nat, seq<Byte>)> := [];
    var total := 0;
    for i := 0 to |descriptors|
      invariant forall k | 0 <= k < i :: Matches(rows[k], descriptors[k])
      invariant total == InputBytes(rows, descriptors[..i]) <= MAX_INPUT_BYTES
      invariant passed == Passed(rows, descriptors)[..i]
    {
      var row, descriptor := rows[i], descriptors[i];
      if !descriptor.readOnlyFile || row.bytes != Some(|descriptor.content|) {
        assert RejectedAt(rows, descriptors, i, InvalidDescriptor);
        return Rejected(InvalidDescriptor);
      }
      var decoded := DecodedLength(row.encoding, descriptor.content);
      if decoded.None? {
        assert RejectedAt(rows, descriptors, i, BadInput);
        return Rejected(BadInput);
      }
      total := total + decoded.value;
      assert descriptors[..i + 1][..i] == descriptors[..i];
      InputBytesGrow(rows, descriptors, i + 1);
      if MAX_INPUT_BYTES < total {
        assert RejectedAt(rows, descriptors, i, TooMuchInput);
        return Rejected(TooMuchInput);
      }
      passed := passed + [(row.id, descriptor.content)];
    }
    assert descriptors[..|descriptors|] == descriptors;
    admission := Admitted(passed);
  }

  function SettingOf(state: AssetState): Setting {
    Setting(state.active, state.configured, state.grant, state.rows, state.inputs, state.allowance, state.io)
  }

  function Now(state: AssetState): Snapshot
    reads state
  {
    Snapshot(state.writers, state.handles, state.outputs, state.written, state.next, state.ioCalls)
  }

  /** The state went the way of this answer. */
  ghost predicate Follows(state: AssetState, answer: Answer, refusals: seq<Refusal>, trapped: bool)
    reads state
  {
    match answer
    case Done(now) => !trapped && state.refusals == refusals && Now(state) == now
    case Turned(refusal) => !trapped && state.refusals == refusals + [refusal]
    case Ended => trapped && state.refusals == refusals
  }

  lemma ValidIsSane(state: AssetState)
    requires state.Valid()
    ensures AllSane(Now(state))
  {
  }

  /** One guest call keeps the invariant, never lowers the charge, and is answered as the reference says. */
  method Perform(state: AssetState, call: GuestCall) returns (trapped: bool, given: seq<Byte>)
    requires state.Valid() && AllSane(Now(state))
    modifies state
    ensures state.Valid() && old(state.written) <= state.written
    ensures state.attempted <==> old(state.attempted) || Touches(call)
    ensures Follows(state, old(Answering(SettingOf(state), Now(state), call)), old(state.refusals), trapped)
    ensures old(Answering(SettingOf(state), Now(state), call)).Done? ==> given == old(Given(Now(state), call))
  {
    hide Writing, Opening, Allocating, Attaching, Removing, Sending, Reading, Streaming;
    hide Verdict, AttachedOk, WritersOk, HandlesOk, SendsOk, Issued, ReadOut;
    given := [];
    match call {
      case WriteTo(w, bytes) =>
        trapped := WriteCall(state, w, bytes);
      case OpenIt(reference) =>
        trapped := OpenCall(state, reference);
      case AllocateOne(encoding) =>
        trapped := AllocateCall(state, encoding);
      case AttachIt(w) =>
        trapped := AttachCall(state, w);
      case RemoveIt(h) =>
        trapped := RemoveCall(state, h);
      case SendIt(h) =>
        trapped := SendCall(state, h);
      case ReadNext(h, count) =>
        trapped, given := ReadCall(state, h, count);
      case ReadFrom(h, offset, count) =>
        trapped, given := ReadFromCall(state, h, offset, count);
      case StreamIt(parts, response) =>
        trapped := StreamCall(state, parts, response);
      case DropIt(h) =>
        var r := state.DropHandle(h);
        trapped := r.Trap?;
      case Abandon(w) =>
        var r := state.DropWriter(w);
        trapped := r.Trap?;
    }
  }

  method WriteCall(state: AssetState, w: nat, bytes: seq<Byte>) returns (trapped: bool)
    requires state.Valid() && AllSane(Now(state))
    modifies state
    ensures state.Valid() && state.attempted && old(state.written) <= state.written
    ensures Follows(state, old(Writing(SettingOf(state), Now(state), w, bytes)), old(state.refusals), trapped)
  {
    hide Verdict, AttachedOk, WritersOk, HandlesOk, SendsOk, Issued, Judge, Held;
    var r := state.LinkedWrite(w, bytes);
    trapped := r.Trap?;
  }

  method OpenCall(state: AssetState, reference: Option<nat>) returns (trapped: bool)
    requires state.Valid()
    modifies state
    ensures state.Valid() && state.attempted && old(state.written) <= state.written
    ensures Follows(state, old(Opening(SettingOf(state), Now(state), reference)), old(state.refusals), trapped)
  {
    hide Verdict, AttachedOk, WritersOk, HandlesOk, SendsOk, Issued, DecodedLength, FindRow, FindInput;
    var r := state.Open(reference);
    trapped := r.Trap?;
  }

  method AllocateCall(state: AssetState, encoding: Encoding) returns (trapped: bool)
    requires state.Valid()
    modifies state
    ensures state.Valid() && state.attempted && old(state.written) <= state.written
    ensures Follows(state, old(Allocating(SettingOf(state), Now(state), encoding)), old(state.refusals), trapped)
  {
    hide Verdict, AttachedOk, WritersOk, HandlesOk, SendsOk, Issued;
    var r := state.Allocate(encoding);
    trapped := r.Trap?;
  }

  method AttachCall(state: AssetState, w: nat) returns (trapped: bool)
    requires state.Valid()
    modifies state
    ensures state.Valid() && state.attempted && old(state.written) <= state.written
    ensures Follows(state, old(Attaching(SettingOf(state), Now(state), w)), old(state.refusals), trapped)
  {
    hide Verdict, AttachedOk, WritersOk, HandlesOk, SendsOk, Issued, View, FinishFault, NewHandle, NewOutput;
    var r := state.Attach(w);
    trapped := r.Trap?;
  }

  method RemoveCall(state: AssetState, h: nat) returns (trapped: bool)
    requires state.Valid()
    modifies state
    ensures state.Valid() && state.attempted && old(state.written) <= state.written
    ensures Follows(state, old(Removing(SettingOf(state), Now(state), h)), old(state.refusals), trapped)
  {
    hide Verdict, AttachedOk, WritersOk, HandlesOk, SendsOk, Issued;
    var r := state.Remove(h);
    trapped := r.Trap?;
  }

  method SendCall(state: AssetState, h: nat) returns (trapped: bool)
    requires state.Valid()
    modifies state
    ensures state.Valid() && state.attempted && old(state.written) <= state.written
    ensures Follows(state, old(Sending(SettingOf(state), Now(state), h)), old(state.refusals), trapped)
  {
    assert state.sendsRemaining == 0 <==> state.allowance <= |state.outputs.sent|;
    hide Verdict, AttachedOk, WritersOk, HandlesOk, SendsOk, Issued;
    var r := state.Send(h);
    trapped := r.Trap?;
  }

  method ReadCall(state: AssetState, h: nat, count: nat) returns (trapped: bool, given: seq<Byte>)
    requires state.Valid()
    modifies state
    ensures state.Valid() && state.attempted && old(state.written) <= state.written
    ensures Follows(state,
      old(Reading(SettingOf(state), Now(state), h,
                  if h in state.handles then state.handles[h].cursor else 0, count, true)),
      old(state.refusals), trapped)
    ensures !trapped && state.refusals == old(state.refusals) ==>
      h in old(state.handles) && given == ReadOut(old(state.handles)[h], old(state.handles)[h].cursor, count)
  {
    hide Verdict, AttachedOk, WritersOk, HandlesOk, SendsOk, Issued, ReadFault, ReadOut, ReadOps;
    var r := state.Read(h, count);
    trapped, given := r.Trap?, if r.Ok? then r.value else [];
  }

  method ReadFromCall(state: AssetState, h: nat, offset: nat, count: nat) returns (trapped: bool, given: seq<Byte>)
    requires state.Valid()
    modifies state
    ensures state.Valid() && state.attempted && old(state.written) <= state.written
    ensures Follows(state, old(Reading(SettingOf(state), Now(state), h, offset, count, false)),
                    old(state.refusals), trapped)
    ensures !trapped && state.refusals == old(state.refusals) ==>
      h in old(state.handles) && given == ReadOut(old(state.handles)[h], offset, count)
  {
    hide Verdict, AttachedOk, WritersOk, HandlesOk, SendsOk, Issued, ReadFault, ReadOut, ReadOps;
    var r := state.ReadPosition(h, offset, count);
    trapped, given := r.Trap?, if r.Ok? then r.value else [];
  }

  method StreamCall(state: AssetState, parts: seq<nat>, response: seq<Byte>) returns (trapped: bool)
    requires state.Valid()
    modifies state
    ensures state.Valid() && state.attempted && old(state.written) <= state.written
    ensures Follows(state, old(Streaming(SettingOf(state), Now(state), parts, response)), old(state.refusals), trapped)
  {
    hide Verdict, AttachedOk, WritersOk, HandlesOk, SendsOk, Issued, Charge, NewHandle;
    var r := state.Stream(parts, response);
    trapped := r.Trap?;
  }

  /** Halfway through a run: clean as the reference has it, or something was refused. */
  ghost predicate Underway(state: AssetState, g: Setting, calls: seq<GuestCall>)
    reads state
  {
    match Play(g, calls)
    case Clean(now) => state.refusals == [] && Now(state) == now
    case Spoilt => state.refusals != []
    case Cut => false
  }

  /**
   * Any sequence of guest calls, up to the first that ends the guest. The invariant holds throughout,
   * and the run is clean, refused or cut short exactly as the reference says.
   */
  method RunGuest(state: AssetState, calls: seq<GuestCall>)
    returns (trapped: bool, readings: seq<seq<Byte>>)
    requires state.Valid() && state.refusals == [] && Now(state) == START
    modifies state
    ensures state.Valid() && old(state.written) <= state.written
    ensures match Play(SettingOf(state), calls)
            case Clean(now) =>
              !trapped && state.refusals == [] && Now(state) == now && readings == Readings(SettingOf(state), calls)
            case Spoilt => state.refusals != []
            case Cut => trapped && state.refusals == []
    ensures !trapped ==>
      (state.attempted <==> old(state.attempted) || exists i :: 0 <= i < |calls| && Touches(calls[i]))
  {
    hide Verdict, AttachedOk, WritersOk, HandlesOk, SendsOk, Issued, Answering, AllSane, Given, Readings;
    ghost var g := SettingOf(state);
    readings := [];
    for i := 0 to |calls|
      invariant state.Valid() && old(state.written) <= state.written && Underway(state, g, calls[..i])
      invariant Play(g, calls[..i]).Clean? ==> readings == Readings(g, calls[..i])
      invariant state.attempted <==> old(state.attempted) || exists k :: 0 <= k < i && Touches(calls[k])
    {
      assert calls[..i + 1] == calls[..i] + [calls[i]];
      PlayNext(g, calls[..i], calls[i]);
      ReadingsNext(g, calls[..i], calls[i]);
      ValidIsSane(state);
      ghost var refused := state.refusals != [];
      var given;
      trapped, given := Perform(state, calls[i]);
      readings := readings + [given];
      if trapped {
        PlayStays(g, calls, if refused then i else i + 1);
        return;
      }
    }
    assert calls[..|calls|] == calls;
    trapped := false;
  }

  datatype Ending = Delivered(outputs: Outputs) | NotAdmitted(error: AdmissionError) | Trapped | CallRejected

  /** What holds of everything a delivered invocation hands back. */
  predicate Exact(o: Outputs, rows: seq<Row>, calls: seq<GuestCall>, sends: nat) {
    && o.files == FilesOf(calls) && o.sent == SentBy(calls, rows) && o.removed == RemovedBy(calls)
    && |o.attached| == |o.files| <= MAX_DESCRIPTORS
    && (forall i | 0 <= i < |o.files| ::
          && o.attached[i].descriptor == i && o.attached[i].bytes == |o.files[i]|
          && View(o.attached[i].encoding, o.files[i]).Some?
          && o.attached[i].sha == Sha(View(o.attached[i].encoding, o.files[i]).value))
    && NoDuplicates(o.sent) && NoDuplicates(o.removed) && Disjoint(o.sent, o.removed)
    && |o.sent| <= sends
  }

  /** The ending of a run that goes like this. */
  predicate Ends(run: Run, ending: Ending) {
    match run
    case Clean(now) => ending == Delivered(now.outputs)
    case Spoilt => ending == CallRejected
    case Cut => ending == Trapped
  }

  /**
   * A whole invocation. It is delivered exactly if its assets are admissible and every call is done; a
   * refused call rejects it, whatever comes after; what is delivered is what the calls attached, sent and
   * removed; and what its reads gave is what was handed in under the ids they name, or written before.
   */
  method Invoke(
    rows: seq<Row>, descriptors: seq<Descriptor>, configured: bool, grant: Grant, sends: nat, io: seq<Option<Code>>,
    calls: seq<GuestCall>) returns (ending: Ending, readings: seq<seq<Byte>>)
    ensures ending.NotAdmitted? <==> !Admissible(rows, descriptors)
    ensures Admissible(rows, descriptors) ==>
      Ends(Play(Setting(true, configured, grant, rows, Passed(rows, descriptors), sends, io), calls), ending)
    ensures ending.Delivered? ==> Exact(ending.outputs, rows, calls, sends)
    ensures ending.Delivered? ==>
      && |readings| == |calls| && |descriptors| <= |rows|
      && forall k: nat | k < |calls| :: ReadsTruly(rows, Passed(rows, descriptors), calls, readings, k)
  {
    hide Play, ReadsTruly;
    var admission := Admit(rows, descriptors);
    if admission.Rejected? {
      return NotAdmitted(admission.error), [];
    }
    var state := new AssetState(true, configured, grant, rows, admission.passed, sends, io);
    ending, readings := RunAndFinish(state, calls);
  }

  method RunAndFinish(state: AssetState, calls: seq<GuestCall>)
    returns (ending: Ending, readings: seq<seq<Byte>>)
    requires state.Valid() && state.refusals == [] && Now(state) == START
    modifies state
    ensures Ends(Play(SettingOf(state), calls), ending)
    ensures ending.Delivered? ==> Exact(ending.outputs, state.rows, calls, state.allowance)
    ensures ending.Delivered? ==>
      && |readings| == |calls|
      && forall k: nat | k < |calls| :: ReadsTruly(state.rows, state.inputs, calls, readings, k)
  {
    var trapped;
    trapped, readings := RunGuest(state, calls);
    VerdictMeans(state.refusals);
    hide Play, ReadsTruly;
    if state.violation.Some? {
      return CallRejected, [];
    }
    if trapped {
      return Trapped, [];
    }
    PlayMatches(SettingOf(state), calls);
    forall k: nat | k < |calls| ensures ReadsTruly(state.rows, state.inputs, calls, readings, k) {
      PlayReads(SettingOf(state), calls, k);
    }
    assert AttachedOk(state.outputs, state.origins, true);
    ending := Delivered(state.outputs);
  }
}
