/** The asset state of one guest invocation: writers, handles, budgets, and what leaves it. */
module Asset {
  import opened Text
  import opened Base64

  const CHUNK_BYTES: nat := 65536
  const MAX_ASSET_BYTES: nat := 8 * 1024 * 1024
  const MAX_INVOCATION_BYTES: nat := 40 * 1024 * 1024
  const MAX_DESCRIPTORS: nat := 5
  const MAX_INPUT_BYTES: nat := MAX_DESCRIPTORS * 100 * 1024 * 1024

  datatype Encoding = Identity | Base64

  datatype Code =
    | UnknownReference | Denied | TooLarge | TooManyAssets | InvalidEncoding | Io | Internal
    | OverBudget | Unconfigured | AlreadySent | SendsExhausted

  /** What a guest call gets: a value, a refusal it can see, or a trap that ends it. */
  datatype Reply<+T> = Ok(value: T) | Refused(code: Code) | Trap

  datatype Sha = Sha(of: seq<Byte>)

  /** The bytes a stored content stands for, if it is what its encoding says. */
  function View(encoding: Encoding, content: seq<Byte>): Option<seq<Byte>> {
    match encoding
    case Identity => Some(content)
    case Base64 => Decode(content)
  }

  function DecodedLength(encoding: Encoding, content: seq<Byte>): Option<nat> {
    match encoding
    case Identity => Some(|content|)
    case Base64 => DecodedLen(|content|, Tail(content))
  }

  function ReadAt(encoding: Encoding, content: seq<Byte>, offset: nat, count: nat): Option<seq<Byte>> {
    match encoding
    case Identity => if offset + count <= |content| then Some(content[offset..offset + count]) else None
    case Base64 => ReadDecoded(content, offset, count)
  }

  lemma ViewReads(encoding: Encoding, content: seq<Byte>, offset: nat, count: nat)
    requires View(encoding, content).Some? && offset + count <= |View(encoding, content).value|
    ensures ReadAt(encoding, content, offset, count) == Some(View(encoding, content).value[offset..offset + count])
  {
    if encoding.Base64? {
      ReadDecodedIsSlice(content, offset, count);
    }
  }

  lemma ViewLength(encoding: Encoding, content: seq<Byte>)
    requires View(encoding, content).Some?
    ensures DecodedLength(encoding, content) == Some(|View(encoding, content).value|)
  {
    if encoding.Base64? {
      DecodedLenIsExact(content);
    }
  }

  /** A whole text is only ever read from its start. */
  lemma ReadFromStart(encoding: Encoding, content: seq<Byte>, count: nat)
    requires ReadAt(encoding, content, 0, count).Some?
    ensures View(encoding, content).Some? && count <= |View(encoding, content).value|
    ensures ReadAt(encoding, content, 0, count).value == View(encoding, content).value[..count]
  {
    assert content[0..] == content;
  }

  function Min(a: nat, b: nat): nat {
    if a < b then a else b
  }

  /** Hashes a content chunk by chunk through its encoding; a chunk that does not decode fails it. */
  method DigestOf(encoding: Encoding, content: seq<Byte>, len: nat) returns (digest: Option<Sha>)
    requires DecodedLength(encoding, content) == Some(len)
    ensures View(encoding, content).Some? ==> digest == Some(Sha(View(encoding, content).value))
    ensures View(encoding, content).None? && 0 < len ==> digest == None
  {
    var hashed: seq<Byte> := [];
    var cursor: nat := 0;
    if View(encoding, content).Some? {
      ViewLength(encoding, content);
    }
    while cursor < len
      invariant cursor == |hashed| <= len
      invariant View(encoding, content).Some? ==> hashed == View(encoding, content).value[..cursor]
      invariant View(encoding, content).None? ==> cursor == 0
    {
      var count := Min(len - cursor, CHUNK_BYTES);
      var bytes := ReadAt(encoding, content, cursor, count);
      if View(encoding, content).Some? {
        ViewReads(encoding, content, cursor, count);
        assert View(encoding, content).value[..cursor] + View(encoding, content).value[cursor..cursor + count]
            == View(encoding, content).value[..cursor + count];
      }
      if bytes.None? {
        return None;
      }
      if View(encoding, content).None? {
        ReadFromStart(encoding, content, count);
      }
      hashed := hashed + bytes.value;
      cursor := cursor + |bytes.value|;
    }
    assert View(encoding, content).Some? ==> View(encoding, content).value[..len] == View(encoding, content).value;
    digest := Some(Sha(hashed));
  }

  // Refusals and the violation they leave.

  /** A refusal; most overwrite with an exhausted budget, a failed read never overwrites. */
  datatype Refusal = Refusal(code: Code, insists: bool)

  function Verdict(refusals: seq<Refusal>): Option<Code> {
    if refusals == [] then None
    else
      var before, last := Verdict(refusals[..|refusals| - 1]), refusals[|refusals| - 1];
      if before.None? || (last.insists && last.code == OverBudget) then Some(last.code) else before
  }

  lemma VerdictNext(refusals: seq<Refusal>, last: Refusal)
    ensures Verdict(refusals + [last]) ==
            if Verdict(refusals).None? || (last.insists && last.code == OverBudget) then Some(last.code)
            else Verdict(refusals)
  {
    assert (refusals + [last])[..|refusals|] == refusals;
  }

  /**
   * The violation says whether anything was refused: it is the first refusal, unless a call other
   * than a read ran out of budget, which nothing replaces.
   */
  lemma {:induction false} VerdictMeans(refusals: seq<Refusal>)
    ensures Verdict(refusals) ==
            if refusals == [] then None
            else if exists i :: 0 <= i < |refusals| && refusals[i] == Refusal(OverBudget, true) then Some(OverBudget)
            else Some(refusals[0].code)
  {
    if refusals != [] {
      var front, last := refusals[..|refusals| - 1], refusals[|refusals| - 1];
      VerdictMeans(front);
      if exists i :: 0 <= i < |refusals| && refusals[i] == Refusal(OverBudget, true) {
        var i :| 0 <= i < |refusals| && refusals[i] == Refusal(OverBudget, true);
        assert i < |front| ==> front[i] == Refusal(OverBudget, true);
      }
    }
  }

  /** An exhausted budget stays the verdict whatever is refused later. */
  lemma {:induction false} OverBudgetStays(refusals: seq<Refusal>, more: seq<Refusal>)
    requires Verdict(refusals) == Some(OverBudget)
    ensures Verdict(refusals + more) == Some(OverBudget)
  {
    if more == [] {
      EmptyIsUnit(refusals);
    } else {
      var front := more[..|more| - 1];
      OverBudgetStays(refusals, front);
      Split(more);
      Associative(refusals, front, [more[|more| - 1]]);
      VerdictNext(refusals + front, more[|more| - 1]);
    }
  }

  // Resources and outputs.

  datatype Grant = Grant(attach: bool, remove: bool, send: bool)

  datatype Row = Row(id: nat, encoding: Encoding, bytes: Option<nat>, sent: bool)

  datatype Writer = Writer(spool: Option<seq<Byte>>, encoding: Encoding, validator: Validator)

  datatype Handle = Handle(
    content: seq<Byte>, encoding: Encoding, cursor: nat, len: nat, id: Option<nat>, sent: bool, digestRecorded: bool)

  datatype NewAsset = NewAsset(descriptor: nat, encoding: Encoding, bytes: nat, sha: Sha)

  datatype Outputs = Outputs(attached: seq<NewAsset>, removed: seq<nat>, sent: seq<nat>, files: seq<seq<Byte>>)

  predicate NoDuplicates(ids: seq<nat>) {
    forall i, j | 0 <= i < j < |ids| :: ids[i] != ids[j]
  }

  predicate Disjoint(a: seq<nat>, b: seq<nat>) {
    forall i, j | 0 <= i < |a| && 0 <= j < |b| :: a[i] != b[j]
  }

  /** No id is sent or removed twice, none is both, and sends are taken from the allowance. */
  predicate SendsOk(o: Outputs, remaining: nat, allowance: nat) {
    && NoDuplicates(o.sent) && NoDuplicates(o.removed) && Disjoint(o.sent, o.removed)
    && remaining + |o.sent| == allowance
  }

  /** A list of ids that holds this one too. */
  function With(ids: seq<nat>, id: nat): seq<nat> {
    if id in ids then ids else ids + [id]
  }

  /** What a writer took and what it was offered. */
  datatype Written = Written(accepted: seq<Byte>, offered: seq<Byte>)

  /** One more chunk was offered to a writer. */
  ghost function Offering(taken: map<nat, Written>, w: nat, bytes: seq<Byte>): map<nat, Written>
    requires w in taken
  {
    taken[w := taken[w].(offered := taken[w].offered + bytes)]
  }

  /** An attached file is what its writer accepted, and all it was offered if nothing was refused. */
  ghost predicate FileOk(asset: NewAsset, file: seq<Byte>, descriptor: nat, written: Written, clean: bool) {
    && asset.descriptor == descriptor
    && asset.bytes == |file|
    && View(asset.encoding, file).Some? && asset.sha == Sha(View(asset.encoding, file).value)
    && file == written.accepted
    && (clean ==> file == written.offered)
  }

  ghost predicate AttachedOk(o: Outputs, origins: seq<Written>, clean: bool) {
    && |o.attached| == |o.files| == |origins| <= MAX_DESCRIPTORS
    && forall i | 0 <= i < |o.attached| :: FileOk(o.attached[i], o.files[i], i, origins[i], clean)
  }

  ghost predicate WriterOk(writer: Writer, written: Written, clean: bool) {
    && Sane(writer.validator)
    && (writer.spool.Some? ==>
          && writer.spool.value == written.accepted
          && (writer.encoding.Base64? ==> writer.validator == FeedAll(FRESH, written.accepted)))
    && (clean ==> writer.spool == Some(written.offered))
  }

  ghost predicate WritersOk(writers: map<nat, Writer>, taken: map<nat, Written>, clean: bool) {
    forall w | w in writers :: w in taken && WriterOk(writers[w], taken[w], clean)
  }

  /** Sequential reads so far are the decoded content up to the cursor. */
  ghost predicate HandleOk(handle: Handle, read: seq<Byte>) {
    && DecodedLength(handle.encoding, handle.content) == Some(handle.len)
    && match View(handle.encoding, handle.content)
       case Some(view) => handle.cursor <= |view| && read == view[..handle.cursor]
       case None => handle.cursor == 0 && read == [] && handle.id.Some? && !handle.digestRecorded && 0 < handle.len
  }

  ghost predicate HandlesOk(handles: map<nat, Handle>, history: map<nat, seq<Byte>>) {
    forall h | h in handles :: h in history && HandleOk(handles[h], history[h])
  }

  lemma NewHandleOk(handle: Handle)
    requires DecodedLength(handle.encoding, handle.content) == Some(handle.len) && handle.cursor == 0
    requires handle.id.Some? || View(handle.encoding, handle.content).Some?
    requires !handle.digestRecorded
    ensures HandleOk(handle, [])
  {
  }

  /** What a digest needs to know of a handle, and what it may record. */
  lemma Digestible(handle: Handle, read: seq<Byte>)
    requires HandleOk(handle, read)
    ensures DecodedLength(handle.encoding, handle.content) == Some(handle.len)
    ensures handle.id.None? || handle.digestRecorded ==> View(handle.encoding, handle.content).Some?
    ensures View(handle.encoding, handle.content).None? ==> 0 < handle.len
    ensures View(handle.encoding, handle.content).Some? ==> HandleOk(handle.(digestRecorded := true), read)
  {
  }

  ghost predicate Issued(writers: map<nat, Writer>, handles: map<nat, Handle>, next: nat) {
    (forall w | w in writers :: w < next) && (forall h | h in handles :: h < next)
  }

  function StoredLimit(encoding: Encoding): nat {
    match encoding
    case Identity => MAX_ASSET_BYTES
    case Base64 => (MAX_ASSET_BYTES + 2) / 3 * 4
  }

  /** How many decoded bytes a writer holds. */
  function Held(writer: Writer): nat
    requires writer.spool.Some?
  {
    match writer.encoding
    case Identity => |writer.spool.value|
    case Base64 => writer.validator.decoded
  }

  lemma {:induction false} DecodedGrows(v: Validator, bytes: seq<Byte>)
    requires Sane(v)
    ensures v.decoded <= FeedAll(v, bytes).decoded
  {
    if bytes != [] {
      DecodedGrows(v, bytes[..|bytes| - 1]);
    }
  }

  /** A chunk is taken, growing its writer, or turned away. */
  datatype Judgement = Takes(writer: Writer) | Turns(code: Code, validator: Validator)

  /** What becomes of a chunk before any I/O, when `charged` bytes count against the invocation. */
  function Judge(writer: Writer, bytes: seq<Byte>, charged: nat): Judgement
    requires Sane(writer.validator)
  {
    if writer.spool.None? then Turns(Io, writer.validator)
    else if CHUNK_BYTES < |bytes| || StoredLimit(writer.encoding) < |writer.spool.value| + |bytes| then
      Turns(TooLarge, writer.validator)
    else
      var validator := if writer.encoding.Base64? then FeedAll(writer.validator, bytes) else writer.validator;
      if writer.encoding.Base64? && validator.invalid then Turns(InvalidEncoding, validator)
      else
        var grown := Writer(Some(writer.spool.value + bytes), writer.encoding, validator);
        if MAX_ASSET_BYTES < Held(grown) || MAX_INVOCATION_BYTES < charged + Held(grown) - Held(writer)
        then Turns(TooLarge, validator)
        else Takes(grown)
  }

  lemma WriterIsSane(writer: Writer, written: Written, clean: bool)
    requires WriterOk(writer, written, clean)
    ensures Sane(writer.validator)
  {
  }

  /** A taken chunk extends the writer, stays within every limit and never shrinks what it holds. */
  lemma TakenExtends(writer: Writer, bytes: seq<Byte>, charged: nat, written: Written, clean: bool)
    requires WriterOk(writer, written, clean)
    requires Judge(writer, bytes, charged).Takes?
    ensures var grown := Judge(writer, bytes, charged).writer;
            && writer.spool.Some? && grown.spool == Some(writer.spool.value + bytes)
            && grown.encoding == writer.encoding
            && Held(writer) <= Held(grown) <= MAX_ASSET_BYTES
            && charged + Held(grown) - Held(writer) <= MAX_INVOCATION_BYTES
            && |grown.spool.value| <= StoredLimit(writer.encoding)
            && WriterOk(grown, Written(written.accepted + bytes, written.offered + bytes), clean)
  {
    if writer.encoding.Base64? {
      DecodedGrows(writer.validator, bytes);
      ChunksDoNotMatter(FRESH, written.accepted, bytes);
    }
  }

  /** What a writer would hold with these bytes appended. */
  function Grown(writer: Writer, bytes: seq<Byte>): Writer
    requires writer.spool.Some? && Sane(writer.validator)
  {
    Writer(Some(writer.spool.value + bytes), writer.encoding,
           if writer.encoding.Base64? then FeedAll(writer.validator, bytes) else writer.validator)
  }

  /** Too much in one chunk, for the file as stored, for the asset decoded, or for the invocation. */
  predicate Oversteps(writer: Writer, bytes: seq<Byte>, charged: nat)
    requires writer.spool.Some? && Sane(writer.validator)
  {
    || CHUNK_BYTES < |bytes|
    || StoredLimit(writer.encoding) < |writer.spool.value + bytes|
    || MAX_ASSET_BYTES < Held(Grown(writer, bytes))
    || MAX_INVOCATION_BYTES < charged + Held(Grown(writer, bytes)) - Held(writer)
  }

  /**
   * Why a chunk is turned away: the writer is closed, a limit leaves no room, or a complete group of
   * the text so far is not canonical. A chunk is taken exactly if none of that is so.
   */
  lemma JudgedBy(writer: Writer, bytes: seq<Byte>, charged: nat, written: Written, clean: bool)
    requires WriterOk(writer, written, clean)
    ensures var judgement := Judge(writer, bytes, charged);
            && (judgement.Turns? && judgement.code == Io <==> writer.spool.None?)
            && (judgement.Turns? && judgement.code == InvalidEncoding ==>
                  writer.encoding.Base64? && !GroupsFine(written.accepted + bytes))
            && (judgement.Turns? && judgement.code == TooLarge ==>
                  writer.spool.Some? && Oversteps(writer, bytes, charged))
            && (judgement.Turns? ==> judgement.code in {Io, InvalidEncoding, TooLarge})
            && (judgement.Takes? <==>
                  && writer.spool.Some? && !Oversteps(writer, bytes, charged)
                  && (writer.encoding.Base64? ==> GroupsFine(written.accepted + bytes)))
  {
    if writer.spool.Some? && writer.encoding.Base64? {
      ChunksDoNotMatter(FRESH, written.accepted, bytes);
      InvalidMeans(written.accepted + bytes);
    }
  }

  method JudgeChunk(writer: Writer, bytes: seq<Byte>, charged: nat) returns (judgement: Judgement)
    requires Sane(writer.validator)
    ensures judgement == Judge(writer, bytes, charged)
    ensures judgement.Turns? ==> Sane(judgement.validator)
  {
    if writer.spool.None? {
      return Turns(Io, writer.validator);
    }
    if CHUNK_BYTES < |bytes| || StoredLimit(writer.encoding) < |writer.spool.value| + |bytes| {
      return Turns(TooLarge, writer.validator);
    }
    var validator := writer.validator;
    if writer.encoding.Base64? {
      var valid;
      validator, valid := Base64.Write(validator, bytes);
      if !valid {
        return Turns(InvalidEncoding, validator);
      }
    }
    var grown := Writer(Some(writer.spool.value + bytes), writer.encoding, validator);
    var added := Held(grown) - Held(writer);
    if MAX_ASSET_BYTES < Held(grown) || MAX_INVOCATION_BYTES < charged + added {
      return Turns(TooLarge, validator);
    }
    judgement := Takes(grown);
  }

  // What was handed in.

  /** The content handed in under an id; the first counts. */
  function FindInput(inputs: seq<(nat, seq<Byte>)>, id: nat): Option<seq<Byte>> {
    if inputs == [] then None else if inputs[0].0 == id then Some(inputs[0].1) else FindInput(inputs[1..], id)
  }

  function FindRow(rows: seq<Row>, id: nat): Option<Row> {
    if rows == [] then None else if rows[0].id == id then Some(rows[0]) else FindRow(rows[1..], id)
  }

  /** The i-th pair is the first with this id. */
  predicate IsInput(inputs: seq<(nat, seq<Byte>)>, id: nat, i: nat) {
    i < |inputs| && inputs[i].0 == id && forall k | 0 <= k < i :: inputs[k].0 != id
  }

  predicate IsRow(rows: seq<Row>, id: nat, j: nat) {
    j < |rows| && rows[j].id == id && forall k | 0 <= k < j :: rows[k].id != id
  }

  lemma {:induction false} FindInputMeans(inputs: seq<(nat, seq<Byte>)>, id: nat)
    ensures FindInput(inputs, id).None? <==> forall k | 0 <= k < |inputs| :: inputs[k].0 != id
    ensures FindInput(inputs, id).Some? ==>
      exists i: nat :: IsInput(inputs, id, i) && FindInput(inputs, id).value == inputs[i].1
  {
    if inputs != [] && inputs[0].0 != id {
      FindInputMeans(inputs[1..], id);
      if FindInput(inputs[1..], id).Some? {
        var i: nat :| IsInput(inputs[1..], id, i) && FindInput(inputs[1..], id).value == inputs[1..][i].1;
        assert forall k | 0 < k < i + 1 :: inputs[k] == inputs[1..][k - 1];
        assert IsInput(inputs, id, i + 1);
      } else {
        assert forall k | 0 < k < |inputs| :: inputs[k] == inputs[1..][k - 1];
      }
    } else if inputs != [] {
      assert IsInput(inputs, id, 0);
    }
  }

  lemma {:induction false} FindRowMeans(rows: seq<Row>, id: nat)
    ensures FindRow(rows, id).None? <==> forall k | 0 <= k < |rows| :: rows[k].id != id
    ensures FindRow(rows, id).Some? ==> exists j: nat :: IsRow(rows, id, j) && FindRow(rows, id).value == rows[j]
  {
    if rows != [] && rows[0].id != id {
      FindRowMeans(rows[1..], id);
      if FindRow(rows[1..], id).Some? {
        var j: nat :| IsRow(rows[1..], id, j) && FindRow(rows[1..], id).value == rows[1..][j];
        assert forall k | 0 < k < j + 1 :: rows[k] == rows[1..][k - 1];
        assert IsRow(rows, id, j + 1);
      } else {
        assert forall k | 0 < k < |rows| :: rows[k] == rows[1..][k - 1];
      }
    } else if rows != [] {
      assert IsRow(rows, id, 0);
    }
  }

  /** The handle is to the first content handed in under this id, as the first row of that id describes it. */
  ghost predicate HandedIn(rows: seq<Row>, inputs: seq<(nat, seq<Byte>)>, id: nat, handle: Handle) {
    exists i: nat, j: nat :: IsInput(inputs, id, i) && IsRow(rows, id, j)
      && handle.content == inputs[i].1 && handle.encoding == rows[j].encoding && handle.sent == rows[j].sent
  }

  /** There is no such asset: none is named, or none was handed in under this id, or it was removed. */
  ghost predicate Unknown(rows: seq<Row>, inputs: seq<(nat, seq<Byte>)>, removed: seq<nat>, reference: Option<nat>) {
    || reference.None?
    || (forall k | 0 <= k < |inputs| :: inputs[k].0 != reference.value)
    || (forall k | 0 <= k < |rows| :: rows[k].id != reference.value)
    || reference.value in removed
  }

  lemma UnknownMeans(rows: seq<Row>, inputs: seq<(nat, seq<Byte>)>, removed: seq<nat>, reference: Option<nat>)
    ensures Unknown(rows, inputs, removed, reference) <==>
      || reference.None? || FindInput(inputs, reference.value).None? || FindRow(rows, reference.value).None?
      || reference.value in removed
  {
    if reference.Some? {
      FindInputMeans(inputs, reference.value);
      FindRowMeans(rows, reference.value);
    }
  }

  lemma OpenedIsHandedIn(rows: seq<Row>, inputs: seq<(nat, seq<Byte>)>, id: nat, handle: Handle)
    requires FindRow(rows, id).Some? && FindInput(inputs, id).Some?
    requires handle.content == FindInput(inputs, id).value
    requires handle.encoding == FindRow(rows, id).value.encoding && handle.sent == FindRow(rows, id).value.sent
    ensures HandedIn(rows, inputs, id, handle)
  {
    FindInputMeans(inputs, id);
    FindRowMeans(rows, id);
  }

  // Why a call is refused, if it is: the first reason counts. `io` tells how I/O operations end.

  function OpenFault(
    rows: seq<Row>, inputs: seq<(nat, seq<Byte>)>, removed: seq<nat>, io: seq<Option<Code>>, n: nat,
    reference: Option<nat>)
    : Option<Code>
  {
    if || reference.None? || FindInput(inputs, reference.value).None?
       || reference.value in removed || FindRow(rows, reference.value).None?
    then Some(UnknownReference)
    else
      var row, content := FindRow(rows, reference.value).value, FindInput(inputs, reference.value).value;
      if row.bytes.None? then Some(Internal)
      else if row.encoding.Base64? && Nth(io, n, None).Some? then Nth(io, n, None)
      else if DecodedLength(row.encoding, content).None? then Some(InvalidEncoding)
      else None
  }

  function AllocateFault(configured: bool, io: seq<Option<Code>>, n: nat): Option<Code> {
    if !configured then Some(Unconfigured) else Nth(io, n, None)
  }

  function AttachFault(grant: Grant, attached: nat, writer: Writer): Option<Code> {
    if !grant.attach then Some(Denied)
    else if MAX_DESCRIPTORS <= attached then Some(TooManyAssets)
    else if writer.encoding.Base64? && !Finishes(writer.validator) then Some(InvalidEncoding)
    else if writer.spool.None? then Some(Io)
    else None
  }

  /** A file is finished, its length told, for base64 by reading its end, and its digest taken. */
  function FinishFault(io: seq<Option<Code>>, n: nat, encoding: Encoding): Option<Code> {
    if Nth(io, n, None).Some? then Nth(io, n, None)
    else if encoding.Base64? && Nth(io, n + 1, None).Some? then Nth(io, n + 1, None)
    else Nth(io, n + FinishOps(encoding) - 1, None)
  }

  function FinishOps(encoding: Encoding): nat {
    if encoding.Base64? then 3 else 2
  }

  function RemoveFault(handle: Handle, sent: seq<nat>): Option<Code> {
    if handle.id.None? then Some(UnknownReference)
    else if handle.sent || handle.id.value in sent then Some(AlreadySent)
    else None
  }

  function SendFault(handle: Handle, outputs: Outputs, exhausted: bool): Option<Code> {
    if handle.id.None? || handle.id.value in outputs.removed then Some(UnknownReference)
    else if !handle.sent && handle.id.value !in outputs.sent && exhausted then Some(SendsExhausted)
    else None
  }

  predicate NeedsDigest(handle: Handle) {
    handle.id.Some? && !handle.digestRecorded
  }

  function DigestFault(io: seq<Option<Code>>, n: nat, handle: Handle): Option<Code> {
    if !NeedsDigest(handle) then None
    else if Nth(io, n, None).Some? then Nth(io, n, None)
    else if View(handle.encoding, handle.content).None? then Some(InvalidEncoding)
    else None
  }

  function Digested(handle: Handle): Handle {
    handle.(digestRecorded := handle.digestRecorded || handle.id.Some?)
  }

  function DigestOps(handle: Handle): nat {
    if NeedsDigest(handle) then 1 else 0
  }

  /** What a read gives: at most a chunk of the decoded content. */
  function ReadOut(handle: Handle, offset: nat, count: nat): seq<Byte> {
    match View(handle.encoding, handle.content)
    case Some(view) => Slice(view, offset, count)
    case None => []
  }

  function ReadFault(io: seq<Option<Code>>, n: nat, handle: Handle, offset: nat, count: nat): Option<Code> {
    if DigestFault(io, n, handle).Some? then DigestFault(io, n, handle)
    else if ReadOut(handle, offset, count) == [] then None
    else Nth(io, n + DigestOps(handle), None)
  }

  function ReadOps(handle: Handle, offset: nat, count: nat): nat {
    DigestOps(handle) + if ReadOut(handle, offset, count) == [] then 0 else 1
  }

  /** What the parts of a streamed request come to: charged in order until one is unknown or too much. */
  datatype Charging = Charged(total: nat) | Exceeds(total: nat) | NoHandle(total: nat)

  function Charge(handles: map<nat, Handle>, parts: seq<nat>, written: nat): Charging {
    if parts == [] then Charged(written)
    else
      match Charge(handles, parts[..|parts| - 1], written)
      case Charged(total) =>
        var last := parts[|parts| - 1];
        if last !in handles then NoHandle(total)
        else if MAX_INVOCATION_BYTES < total + handles[last].len then Exceeds(total)
        else Charged(total + handles[last].len)
      case other => other
  }

  lemma {:induction false} ChargeStops(handles: map<nat, Handle>, parts: seq<nat>, written: nat, n: nat)
    requires n <= |parts| && !Charge(handles, parts[..n], written).Charged?
    ensures Charge(handles, parts, written) == Charge(handles, parts[..n], written)
    decreases |parts|
  {
    if n == |parts| {
      assert parts[..n] == parts;
    } else {
      assert parts[..|parts| - 1][..n] == parts[..n];
      ChargeStops(handles, parts[..|parts| - 1], written, n);
    }
  }

  function StreamAnswer(
    active: bool, configured: bool, io: seq<Option<Code>>, n: nat, handles: map<nat, Handle>, parts: seq<nat>,
    written: nat, next: nat): Reply<nat>
  {
    if !active then Trap
    else if !configured then Refused(Unconfigured)
    else
      match Charge(handles, parts, written)
      case NoHandle(_) => Trap
      case Exceeds(_) => Refused(TooLarge)
      case Charged(_) =>
        match Nth(io, n, None)
        case Some(code) => Refused(code)
        case None => Ok(next)
  }

  /** The handle to a file a writer leaves; it has no id yet. */
  function NewHandle(encoding: Encoding, content: seq<Byte>): Handle {
    var view := View(encoding, content);
    Handle(content, encoding, 0, if view.Some? then |view.value| else 0, None, false, false)
  }

  function NewOutput(descriptor: nat, encoding: Encoding, content: seq<Byte>): NewAsset {
    var view := View(encoding, content);
    NewAsset(descriptor, encoding, |content|, Sha(if view.Some? then view.value else []))
  }

  class AssetState {
    const active: bool
    const configured: bool
    const grant: Grant
    const rows: seq<Row>
    const inputs: seq<(nat, seq<Byte>)>
    const allowance: nat
    const io: seq<Option<Code>>

    var violation: Option<Code>
    var attempted: bool
    var sendsRemaining: nat
    var written: nat
    var outputs: Outputs
    var writers: map<nat, Writer>
    var handles: map<nat, Handle>
    var next: nat
    var ioCalls: nat

    ghost var refusals: seq<Refusal>
    ghost var taken: map<nat, Written>
    ghost var origins: seq<Written>
    ghost var history: map<nat, seq<Byte>>

    /** Holds after every sequence of guest calls. */
    ghost predicate Valid()
      reads this
    {
      && violation == Verdict(refusals)
      && written <= MAX_INVOCATION_BYTES
      && SendsOk(outputs, sendsRemaining, allowance)
      && AttachedOk(outputs, origins, violation.None?)
      && WritersOk(writers, taken, violation.None?)
      && HandlesOk(handles, history)
      && Issued(writers, handles, next)
    }

    constructor (
      active: bool, configured: bool, grant: Grant, rows: seq<Row>, inputs: seq<(nat, seq<Byte>)>, sends: nat,
      io: seq<Option<Code>>)
      ensures Valid()
      ensures this.active == active && this.configured == configured && this.grant == grant
      ensures this.rows == rows && this.inputs == inputs && allowance == sends && this.io == io
      ensures violation == None && !attempted && written == 0 && sendsRemaining == sends
      ensures outputs == Outputs([], [], [], [])
      ensures refusals == [] && writers == map[] && handles == map[] && origins == [] && next == 0 && ioCalls == 0
    {
      this.active, this.configured, this.grant := active, configured, grant;
      this.rows, this.inputs, this.io := rows, inputs, io;
      allowance, sendsRemaining := sends, sends;
      violation, attempted, written := None, false, 0;
      outputs := Outputs([], [], [], []);
      writers, handles, next, ioCalls := map[], map[], 0, 0;
      refusals, taken, origins, history := [], map[], [], map[];
    }

    /** Records a refusal: the first one stays, unless a budget ran out. */
    method Reject(code: Code)
      requires Valid()
      modifies this`violation, this`refusals
      ensures Valid() && violation.Some?
      ensures refusals == old(refusals) + [Refusal(code, true)]
    {
      VerdictNext(refusals, Refusal(code, true));
      if violation.None? || code == OverBudget {
        violation := Some(code);
      }
      refusals := refusals + [Refusal(code, true)];
    }

    /** A failed read is remembered only if nothing was before it. */
    method NoteFailedRead(code: Code)
      requires Valid()
      modifies this`violation, this`refusals
      ensures Valid() && violation.Some?
      ensures refusals == old(refusals) + [Refusal(code, false)]
    {
      VerdictNext(refusals, Refusal(code, false));
      if violation.None? {
        violation := Some(code);
      }
      refusals := refusals + [Refusal(code, false)];
    }

    /** Whether the next I/O operation fails, and how. */
    method NextIo() returns (fault: Option<Code>)
      modifies this`ioCalls
      ensures fault == Nth(io, old(ioCalls), None) && ioCalls == old(ioCalls) + 1
    {
      fault := Nth(io, ioCalls, None);
      ioCalls := ioCalls + 1;
    }

    method ChargeStream(decoded: nat) returns (reply: Reply<()>)
      requires Valid()
      modifies this`violation, this`refusals, this`written
      ensures Valid()
      ensures if old(written) + decoded <= MAX_INVOCATION_BYTES
              then
                && reply == Ok(()) && written == old(written) + decoded
                && violation == old(violation) && refusals == old(refusals)
              else
                && reply == Refused(TooLarge) && written == old(written)
                && refusals == old(refusals) + [Refusal(TooLarge, true)]
    {
      if MAX_INVOCATION_BYTES < written + decoded {
        Reject(TooLarge);
        return Refused(TooLarge);
      }
      written := written + decoded;
      reply := Ok(());
    }

    /** Refuses a write; whatever the writer held is lost and it stays closed. */
    method RefuseWrite(w: nat, bytes: seq<Byte>, validator: Validator, code: Code)
      requires Valid() && w in writers && Sane(validator)
      modifies this`violation, this`refusals, this`writers, this`taken
      ensures Valid() && refusals == old(refusals) + [Refusal(code, true)]
      ensures writers == old(writers)[w := old(writers)[w].(spool := None, validator := validator)]
      ensures taken == old(taken)[w := old(taken)[w].(offered := old(taken)[w].offered + bytes)]
    {
      hide Verdict, AttachedOk, HandlesOk, SendsOk;
      Reject(code);
      writers := writers[w := writers[w].(spool := None, validator := validator)];
      taken := taken[w := taken[w].(offered := taken[w].offered + bytes)];
    }

    /**
     * Appends a chunk. Every refusal in here closes the writer for good, so a writer that is still
     * open has taken all it was given.
     */
    method Write(w: nat, bytes: seq<Byte>) returns (reply: Reply<()>)
      requires Valid()
      modifies this`attempted, this`violation, this`refusals, this`written, this`writers, this`taken, this`ioCalls
      ensures Valid() && attempted && old(written) <= written
      ensures reply.Trap? <==> !active || w !in old(writers)
      ensures reply.Trap? ==>
        writers == old(writers) && taken == old(taken) && written == old(written) && refusals == old(refusals)
      ensures reply.Ok? ==> ioCalls == old(ioCalls) + 1
      ensures !reply.Trap? ==>
        && w in writers
        && Chunked(w, bytes, reply, old(writers), old(taken), old(written), old(refusals), Nth(io, old(ioCalls), None))
    {
      hide Verdict, AttachedOk, HandlesOk, SendsOk, Judge, WriterOk, Held;
      attempted := true;
      if !active || w !in writers {
        return Trap;
      }
      assert WriterOk(writers[w], taken[w], violation.None?);
      WriterIsSane(writers[w], taken[w], violation.None?);
      var judgement := JudgeChunk(writers[w], bytes, written);
      if judgement.Turns? {
        RefuseWrite(w, bytes, judgement.validator, judgement.code);
        return Refused(judgement.code);
      }
      reply := AcceptChunk(w, bytes, judgement.writer);
    }

    /** What a write left behind, compared with what was there before it. */
    ghost predicate Chunked(
      w: nat, bytes: seq<Byte>, reply: Reply<()>,
      writers0: map<nat, Writer>, taken0: map<nat, Written>, written0: nat, refusals0: seq<Refusal>,
      fault: Option<Code>)
      requires w in writers0 && w in taken0 && w in writers && Sane(writers0[w].validator)
      reads this
    {
      match reply
      case Trap => false
      case Ok(_) =>
        && Judge(writers0[w], bytes, written0) == Takes(writers[w]) && fault.None?
        && writers == writers0[w := writers[w]]
        && taken == taken0[w := Written(taken0[w].accepted + bytes, taken0[w].offered + bytes)]
        && refusals == refusals0
        && writers0[w].spool.Some? && writers[w].spool.Some?
        && written == written0 + Held(writers[w]) - Held(writers0[w])
      case Refused(code) =>
        && writers == writers0[w := writers0[w].(spool := None, validator := writers[w].validator)]
        && taken == taken0[w := taken0[w].(offered := taken0[w].offered + bytes)]
        && refusals == refusals0 + [Refusal(code, true)]
        && match Judge(writers0[w], bytes, written0)
           case Turns(reason, _) => code == reason
           case Takes(_) => fault == Some(code)
    }

    /** Charges and stores a chunk that fits; the storage may still fail. */
    method AcceptChunk(w: nat, bytes: seq<Byte>, grown: Writer) returns (reply: Reply<()>)
      requires Valid() && w in writers && Sane(writers[w].validator)
      requires Judge(writers[w], bytes, written) == Takes(grown)
      modifies this`violation, this`refusals, this`written, this`writers, this`taken, this`ioCalls
      ensures Valid() && old(written) <= written && w in writers && ioCalls == old(ioCalls) + 1
      ensures Chunked(w, bytes, reply, old(writers), old(taken), old(written), old(refusals),
                      Nth(io, old(ioCalls), None))
    {
      hide Verdict, AttachedOk, HandlesOk, SendsOk, Judge, WriterOk, Held;
      assert WriterOk(writers[w], taken[w], violation.None?);
      TakenExtends(writers[w], bytes, written, taken[w], violation.None?);
      WriterIsSane(grown, Written(taken[w].accepted + bytes, taken[w].offered + bytes), violation.None?);
      written := written + Held(grown) - Held(writers[w]);
      var fault := NextIo();
      if fault.Some? {
        RefuseWrite(w, bytes, grown.validator, fault.value);
        return Refused(fault.value);
      }
      writers := writers[w := grown];
      taken := taken[w := Written(taken[w].accepted + bytes, taken[w].offered + bytes)];
      reply := Ok(());
    }

    /** The linked import: an oversize list is refused before it is copied, and closes nothing. */
    method LinkedWrite(w: nat, bytes: seq<Byte>) returns (reply: Reply<()>)
      requires Valid()
      modifies this`attempted, this`violation, this`refusals, this`written, this`writers, this`taken, this`ioCalls
      ensures Valid() && attempted && old(written) <= written
      ensures reply.Trap? <==> !active || (|bytes| <= CHUNK_BYTES && w !in old(writers))
      ensures reply.Ok? ==> ioCalls == old(ioCalls) + 1
      ensures CHUNK_BYTES < |bytes| && active ==>
        && reply == Refused(TooLarge) && writers == old(writers)
        && refusals == old(refusals) + [Refusal(TooLarge, true)]
        && taken == if w in old(writers) then Offering(old(taken), w, bytes) else old(taken)
      ensures reply.Ok? ==>
        && |bytes| <= CHUNK_BYTES && w in old(writers) && w in writers && w in taken && w in old(taken)
        && writers == old(writers)[w := writers[w]] && refusals == old(refusals)
        && taken == old(taken)[w := Written(old(taken)[w].accepted + bytes, old(taken)[w].offered + bytes)]
      ensures |bytes| <= CHUNK_BYTES && !reply.Trap? ==>
        && w in old(writers) && w in writers && w in old(taken) && Sane(old(writers)[w].validator)
        && Chunked(w, bytes, reply, old(writers), old(taken), old(written), old(refusals), Nth(io, old(ioCalls), None))
      ensures reply.Refused? ==> refusals == old(refusals) + [Refusal(reply.code, true)]
      ensures reply.Trap? ==> refusals == old(refusals)
    {
      if CHUNK_BYTES < |bytes| {
        reply := RefuseOversize(w, bytes);
        return;
      }
      hide Verdict, AttachedOk, HandlesOk, SendsOk, WriterOk, Judge, Held;
      reply := Write(w, bytes);
    }

    method RefuseOversize(w: nat, bytes: seq<Byte>) returns (reply: Reply<()>)
      requires Valid()
      modifies this`attempted, this`violation, this`refusals, this`taken
      ensures Valid() && attempted && reply == if active then Refused(TooLarge) else Trap
      ensures refusals == old(refusals) + if active then [Refusal(TooLarge, true)] else []
      ensures taken == if active && w in writers then Offering(old(taken), w, bytes) else old(taken)
    {
      hide Verdict, AttachedOk, HandlesOk, SendsOk;
      attempted := true;
      if !active {
        return Trap;
      }
      Reject(TooLarge);
      if w in writers {
        taken := taken[w := taken[w].(offered := taken[w].offered + bytes)];
      }
      reply := Refused(TooLarge);
    }

    /** Adds a resource for a handle nobody has read yet. */
    method IssueHandle(handle: Handle) returns (h: nat)
      requires Valid() && HandleOk(handle, [])
      modifies this`handles, this`history, this`next
      ensures Valid() && h == old(next) && next == old(next) + 1 && h !in old(handles)
      ensures handles == old(handles)[h := handle] && history == old(history)[h := []]
    {
      hide Verdict, AttachedOk, WriterOk, SendsOk, HandleOk;
      h := next;
      handles, history, next := handles[h := handle], history[h := []], next + 1;
    }

    method IssueWriter(writer: Writer) returns (w: nat)
      requires Valid() && WriterOk(writer, Written([], []), true)
      modifies this`writers, this`taken, this`next
      ensures Valid() && w == old(next) && next == old(next) + 1 && w !in old(writers)
      ensures writers == old(writers)[w := writer] && taken == old(taken)[w := Written([], [])]
    {
      AnyTime(writer);
      hide Verdict, AttachedOk, WriterOk, SendsOk, HandleOk;
      w := next;
      writers, taken, next := writers[w := writer], taken[w := Written([], [])], next + 1;
    }

    lemma AnyTime(writer: Writer)
      requires WriterOk(writer, Written([], []), true)
      ensures forall clean :: WriterOk(writer, Written([], []), clean)
    {
    }

    method Refuse(code: Code) returns (reply: Reply<nat>)
      requires Valid()
      modifies this`violation, this`refusals
      ensures Valid() && reply == Refused(code) && refusals == old(refusals) + [Refusal(code, true)]
    {
      Reject(code);
      reply := Refused(code);
    }

    /** The content handed to this invocation under an id. */
    function InputOf(id: nat): Option<seq<Byte>> {
      FindInput(inputs, id)
    }

    function RowOf(id: nat): Option<Row> {
      FindRow(rows, id)
    }

    /** Opens an asset handed to the invocation; every opening has its own cursor. */
    method Open(reference: Option<nat>) returns (reply: Reply<nat>)
      requires Valid()
      modifies this`attempted, this`violation, this`refusals, this`handles, this`history, this`next, this`ioCalls
      ensures Valid() && attempted && next == old(next) + if reply.Ok? then 1 else 0
      ensures reply == if !active then Trap
                       else match OpenFault(rows, inputs, outputs.removed, io, old(ioCalls), reference)
                            case Some(code) => Refused(code)
                            case None => Ok(old(next))
      ensures !reply.Ok? ==> handles == old(handles)
      ensures refusals == old(refusals) + if reply.Refused? then [Refusal(reply.code, true)] else []
      ensures active && Unknown(rows, inputs, outputs.removed, reference) ==> reply == Refused(UnknownReference)
      ensures reply.Ok? ==>
        && !Unknown(rows, inputs, outputs.removed, reference)
        && reply.value in handles && HandedIn(rows, inputs, reference.value, handles[reply.value])
      ensures reply.Ok? ==>
        && reply.value !in old(handles) && reply.value in handles
        && handles == old(handles)[reply.value := handles[reply.value]]
        && handles[reply.value].content == InputOf(reference.value).value
        && handles[reply.value].id == reference && handles[reply.value].cursor == 0
        && handles[reply.value].sent == RowOf(reference.value).value.sent
        && handles[reply.value].encoding == RowOf(reference.value).value.encoding
        && !handles[reply.value].digestRecorded
        && DecodedLength(handles[reply.value].encoding, handles[reply.value].content) == Some(handles[reply.value].len)
        && ioCalls == old(ioCalls) + if handles[reply.value].encoding.Base64? then 1 else 0
    {
      hide Verdict, AttachedOk, WriterOk, SendsOk, HandleOk, DecodedLength, View, FindRow, FindInput, HandedIn, Unknown;
      attempted := true;
      if !active {
        return Trap;
      }
      UnknownMeans(rows, inputs, outputs.removed, reference);
      if || reference.None? || InputOf(reference.value).None?
         || reference.value in outputs.removed || RowOf(reference.value).None? {
        reply := Refuse(UnknownReference);
        return;
      }
      var row, content := RowOf(reference.value).value, InputOf(reference.value).value;
      if row.bytes.None? {
        reply := Refuse(Internal);
        return;
      }
      if row.encoding.Base64? {
        var fault := NextIo();
        if fault.Some? {
          reply := Refuse(fault.value);
          return;
        }
      }
      var len := DecodedLength(row.encoding, content);
      if len.None? {
        reply := Refuse(InvalidEncoding);
        return;
      }
      var handle := Handle(content, row.encoding, 0, len.value, reference, row.sent, false);
      NewHandleOk(handle);
      OpenedIsHandedIn(rows, inputs, reference.value, handle);
      var h := IssueHandle(handle);
      reply := Ok(h);
    }

    method Allocate(encoding: Encoding) returns (reply: Reply<nat>)
      requires Valid()
      modifies this`attempted, this`violation, this`refusals, this`writers, this`taken, this`next, this`ioCalls
      ensures Valid() && attempted
      ensures reply == if !active then Trap
                       else match AllocateFault(configured, io, old(ioCalls))
                            case Some(code) => Refused(code)
                            case None => Ok(old(next))
      ensures refusals == old(refusals) + if reply.Refused? then [Refusal(reply.code, true)] else []
      ensures !reply.Ok? ==> writers == old(writers) && taken == old(taken) && next == old(next)
      ensures reply.Ok? ==>
        && reply.value !in old(writers) && next == old(next) + 1 && ioCalls == old(ioCalls) + 1
        && writers == old(writers)[reply.value := Writer(Some([]), encoding, FRESH)]
        && taken == old(taken)[reply.value := Written([], [])]
    {
      assert WriterOk(Writer(Some([]), encoding, FRESH), Written([], []), true);
      hide Verdict, AttachedOk, HandleOk, SendsOk, WriterOk;
      attempted := true;
      if !active {
        return Trap;
      }
      if !configured {
        reply := Refuse(Unconfigured);
        return;
      }
      var fault := NextIo();
      if fault.Some? {
        reply := Refuse(fault.value);
        return;
      }
      var w := IssueWriter(Writer(Some([]), encoding, FRESH));
      reply := Ok(w);
    }

    /** The file a finished writer leaves is what its encoding says. */
    lemma FinishedDecodes(writer: Writer, written: Written, clean: bool)
      requires WriterOk(writer, written, clean) && writer.spool.Some?
      requires writer.encoding.Base64? ==> Finishes(writer.validator)
      ensures View(writer.encoding, writer.spool.value).Some?
      ensures writer.spool.value == written.accepted && (clean ==> written.accepted == written.offered)
    {
      if writer.encoding.Base64? {
        ValidatorDecides(written.accepted);
      }
    }

    /** Counts the I/O a finished file goes through; the first fault is reported. */
    method FinishIo(encoding: Encoding) returns (fault: Option<Code>)
      modifies this`ioCalls
      ensures old(ioCalls) < ioCalls && fault == Nth(io, ioCalls - 1, None)
      ensures fault == FinishFault(io, old(ioCalls), encoding)
      ensures fault.None? ==> ioCalls == old(ioCalls) + FinishOps(encoding)
    {
      fault := NextIo();
      if fault.None? && encoding.Base64? {
        fault := NextIo();
      }
      if fault.None? {
        fault := NextIo();
      }
    }

    function AttachAnswer(writer: Writer, attached: nat, n: nat): Option<Code> {
      if AttachFault(grant, attached, writer).Some? then AttachFault(grant, attached, writer)
      else FinishFault(io, n, writer.encoding)
    }

    /** Turns a writer into an output file and a handle to it; the writer is gone either way. */
    method Attach(w: nat) returns (reply: Reply<nat>)
      requires Valid()
      modifies this`attempted, this`violation, this`refusals, this`writers, this`outputs, this`origins
      modifies this`handles, this`history, this`next, this`ioCalls
      ensures Valid() && attempted && next == old(next) + if reply.Ok? then 1 else 0
      ensures reply.Trap? <==> !active || w !in old(writers)
      ensures reply.Trap? ==>
        outputs == old(outputs) && writers == old(writers) && handles == old(handles) && refusals == old(refusals)
      ensures !reply.Trap? ==> writers == old(writers) - {w} && w in old(taken)
      ensures !reply.Trap? ==>
        reply == match AttachAnswer(old(writers)[w], |old(outputs).attached|, old(ioCalls))
                 case Some(code) => Refused(code)
                 case None => Ok(old(next))
      ensures reply.Ok? ==>
        && grant.attach && refusals == old(refusals) && ioCalls == old(ioCalls) + FinishOps(old(writers)[w].encoding)
        && old(writers)[w].spool == Some(old(taken)[w].accepted)
        && origins == old(origins) + [old(taken)[w]]
        && handles == old(handles)[reply.value := NewHandle(old(writers)[w].encoding, old(taken)[w].accepted)]
        && outputs == old(outputs).(
             files := old(outputs).files + [old(taken)[w].accepted],
             attached := old(outputs).attached
               + [NewOutput(|old(outputs).attached|, old(writers)[w].encoding, old(taken)[w].accepted)])
      ensures reply.Refused? ==>
        && outputs == old(outputs) && origins == old(origins) && handles == old(handles)
        && refusals == old(refusals) + [Refusal(reply.code, true)]
    {
      hide Verdict, AttachedOk, WriterOk, SendsOk, HandleOk, DecodedLength, View;
      attempted := true;
      if !active || w !in writers {
        return Trap;
      }
      var writer := writers[w];
      ghost var source := taken[w];
      assert WriterOk(writer, source, violation.None?);
      writers := writers - {w};
      var fault := AttachFault(grant, |outputs.attached|, writer);
      if fault.Some? {
        reply := Refuse(fault.value);
        return;
      }
      FinishedDecodes(writer, source, violation.None?);
      reply := PublishFile(writer.encoding, writer.spool.value, source);
    }

    /** Stores a finished file as the next output and hands the guest a handle to read it. */
    method PublishFile(encoding: Encoding, content: seq<Byte>, ghost source: Written) returns (reply: Reply<nat>)
      requires Valid() && View(encoding, content).Some? && |outputs.attached| < MAX_DESCRIPTORS
      requires content == source.accepted && (violation.None? ==> content == source.offered)
      modifies this`violation, this`refusals, this`outputs, this`origins
      modifies this`handles, this`history, this`next, this`ioCalls
      ensures Valid() && next == old(next) + if reply.Ok? then 1 else 0
      ensures reply == match FinishFault(io, old(ioCalls), encoding)
                       case Some(code) => Refused(code)
                       case None => Ok(old(next))
      ensures reply.Ok? ==>
        && refusals == old(refusals) && origins == old(origins) + [source]
        && ioCalls == old(ioCalls) + FinishOps(encoding)
        && handles == old(handles)[reply.value := NewHandle(encoding, content)]
        && outputs == old(outputs).(
             files := old(outputs).files + [content],
             attached := old(outputs).attached + [NewOutput(|old(outputs).attached|, encoding, content)])
      ensures reply.Refused? ==>
        && outputs == old(outputs) && origins == old(origins) && handles == old(handles)
        && refusals == old(refusals) + [Refusal(reply.code, true)]
    {
      ViewLength(encoding, content);
      hide Verdict, WriterOk, HandleOk, DecodedLength, AttachedOk;
      var fault := FinishIo(encoding);
      if fault.Some? {
        reply := Refuse(fault.value);
        return;
      }
      var len := |View(encoding, content).value|;
      var digest := DigestOf(encoding, content, len);
      var asset := NewAsset(|outputs.attached|, encoding, |content|, digest.value);
      AttachedNext(outputs, origins, violation.None?, asset, content, source);
      var o := outputs.(files := outputs.files + [content], attached := outputs.attached + [asset]);
      outputs := o;
      origins := origins + [source];
      var handle := Handle(content, encoding, 0, len, None, false, false);
      NewHandleOk(handle);
      var h := IssueHandle(handle);
      reply := Ok(h);
    }

    /** Marks an asset for removal; one that was sent stays. */
    method Remove(h: nat) returns (reply: Reply<nat>)
      requires Valid()
      modifies this`attempted, this`violation, this`refusals, this`outputs
      ensures Valid() && attempted
      ensures reply == if !active then Trap else if !grant.remove then Refused(Denied) else if h !in handles then Trap
                       else match RemoveFault(handles[h], old(outputs).sent)
                            case Some(code) => Refused(code)
                            case None => Ok(0)
      ensures refusals == old(refusals) + if reply.Refused? then [Refusal(reply.code, true)] else []
      ensures !reply.Ok? ==> outputs == old(outputs)
      ensures reply.Ok? ==> outputs == old(outputs).(removed := With(old(outputs).removed, handles[h].id.value))
    {
      hide Verdict, WriterOk, HandleOk, FileOk;
      attempted := true;
      if !active {
        return Trap;
      }
      if !grant.remove {
        reply := Refuse(Denied);
        return;
      }
      if h !in handles {
        return Trap;
      }
      var fault := RemoveFault(handles[h], outputs.sent);
      if fault.Some? {
        reply := Refuse(fault.value);
        return;
      }
      var id := handles[h].id.value;
      if id !in outputs.removed {
        outputs := outputs.(removed := outputs.removed + [id]);
      }
      reply := Ok(0);
    }

    /** Sends an asset once, if it was not removed and the allowance is not used up. */
    method Send(h: nat) returns (reply: Reply<nat>)
      requires Valid()
      modifies this`attempted, this`violation, this`refusals, this`outputs, this`sendsRemaining
      ensures Valid() && attempted
      ensures reply == if !active then Trap else if !grant.send then Refused(Denied) else if h !in handles then Trap
                       else match SendFault(handles[h], old(outputs), old(sendsRemaining) == 0)
                            case Some(code) => Refused(code)
                            case None => Ok(0)
      ensures refusals == old(refusals) + if reply.Refused? then [Refusal(reply.code, true)] else []
      ensures !reply.Ok? ==> outputs == old(outputs)
      ensures reply.Ok? ==>
        outputs == old(outputs).(
          sent := if handles[h].sent then old(outputs).sent else With(old(outputs).sent, handles[h].id.value))
    {
      hide Verdict, WriterOk, HandleOk, FileOk;
      attempted := true;
      if !active {
        return Trap;
      }
      if !grant.send {
        reply := Refuse(Denied);
        return;
      }
      if h !in handles {
        return Trap;
      }
      var fault := SendFault(handles[h], outputs, sendsRemaining == 0);
      if fault.Some? {
        reply := Refuse(fault.value);
        return;
      }
      var id := handles[h].id.value;
      if !handles[h].sent && id !in outputs.sent {
        sendsRemaining := sendsRemaining - 1;
        outputs := outputs.(sent := outputs.sent + [id]);
      }
      reply := Ok(0);
    }

    method FailRead(code: Code) returns (reply: Reply<seq<Byte>>)
      requires Valid()
      modifies this`violation, this`refusals
      ensures Valid() && reply == Refused(code) && refusals == old(refusals) + [Refusal(code, false)]
    {
      NoteFailedRead(code);
      reply := Refused(code);
    }

    /** Digests a handed-in asset in full before its first read is answered. */
    method RecordDigest(h: nat) returns (fault: Option<Code>)
      requires Valid() && h in handles
      modifies this`handles, this`ioCalls
      ensures Valid() && h in handles && fault == DigestFault(io, old(ioCalls), old(handles)[h])
      ensures handles == if fault.None? then old(handles)[h := Digested(old(handles)[h])] else old(handles)
      ensures fault.None? ==>
        && View(handles[h].encoding, handles[h].content).Some? && ioCalls == old(ioCalls) + DigestOps(old(handles)[h])
    {
      hide Verdict, AttachedOk, WritersOk, SendsOk, HandleOk, View, DecodedLength;
      fault := None;
      var handle := handles[h];
      Digestible(handle, history[h]);
      if NeedsDigest(handle) {
        fault := NextIo();
        if fault.Some? {
          return;
        }
        var digest := DigestOf(handle.encoding, handle.content, handle.len);
        if digest.None? {
          return Some(InvalidEncoding);
        }
      }
      handles := handles[h := Digested(handle)];
    }

    /** Reads at a decoded offset; moves no cursor. */
    method ReadHandle(h: nat, offset: nat, count: nat) returns (reply: Reply<seq<Byte>>)
      requires Valid() && h in handles
      modifies this`violation, this`refusals, this`handles, this`ioCalls
      ensures Valid() && h in handles
      ensures reply == match ReadFault(io, old(ioCalls), old(handles)[h], offset, count)
                       case Some(code) => Refused(code)
                       case None => Ok(ReadOut(old(handles)[h], offset, count))
      ensures reply.Ok? ==>
        && View(handles[h].encoding, handles[h].content).Some? && refusals == old(refusals)
        && handles == old(handles)[h := Digested(old(handles)[h])]
        && ioCalls == old(ioCalls) + ReadOps(old(handles)[h], offset, count)
      ensures reply.Refused? ==>
        && refusals == old(refusals) + [Refusal(reply.code, false)]
        && handles == old(handles)[h := handles[h]] && handles[h] in {old(handles)[h], Digested(old(handles)[h])}
    {
      hide Verdict, AttachedOk, WriterOk, SendsOk, HandlesOk, View, Slice;
      var fault := RecordDigest(h);
      if fault.Some? {
        reply := FailRead(fault.value);
        return;
      }
      reply := ReadBytes(h, offset, count);
    }

    method ReadBytes(h: nat, offset: nat, count: nat) returns (reply: Reply<seq<Byte>>)
      requires Valid() && h in handles && View(handles[h].encoding, handles[h].content).Some?
      modifies this`violation, this`refusals, this`ioCalls
      ensures Valid()
      ensures var out := ReadOut(handles[h], offset, count);
              && reply == (if out == [] then Ok([])
                           else match Nth(io, old(ioCalls), None)
                                case Some(code) => Refused(code)
                                case None => Ok(out))
              && ioCalls == old(ioCalls) + if out == [] then 0 else 1
      ensures refusals == old(refusals) + if reply.Refused? then [Refusal(reply.code, false)] else []
    {
      hide Verdict, AttachedOk, WritersOk, SendsOk, HandleOk, View, DecodedLength, ReadOut, ReadAt;
      var handle := handles[h];
      ReadSize(handle, history[h], offset, count);
      var left := if handle.len < offset then 0 else handle.len - offset;
      var n := Min(Min(left, count), CHUNK_BYTES);
      if n == 0 {
        return Ok([]);
      }
      var fault := NextIo();
      if fault.Some? {
        reply := FailRead(fault.value);
        return;
      }
      reply := Ok(ReadAt(handle.encoding, handle.content, offset, n).value);
    }

    /** The guest's sequential read: what comes next, at most a chunk, and the cursor moves past it. */
    method Read(h: nat, count: nat) returns (reply: Reply<seq<Byte>>)
      requires Valid()
      modifies this`attempted, this`violation, this`refusals, this`handles, this`history, this`ioCalls
      ensures Valid() && attempted
      ensures reply == if !active || h !in old(handles) then Trap
                       else match ReadFault(io, old(ioCalls), old(handles)[h], old(handles)[h].cursor, count)
                            case Some(code) => Refused(code)
                            case None => Ok(ReadOut(old(handles)[h], old(handles)[h].cursor, count))
      ensures reply.Trap? ==> handles == old(handles) && refusals == old(refusals)
      ensures reply.Ok? ==>
        && h in old(history) && refusals == old(refusals)
        && handles == old(handles)[h := Digested(old(handles)[h]).(cursor := old(handles)[h].cursor + |reply.value|)]
        && history == old(history)[h := old(history)[h] + reply.value]
        && ioCalls == old(ioCalls) + ReadOps(old(handles)[h], old(handles)[h].cursor, count)
      ensures reply.Refused? ==>
        && h in handles && handles == old(handles)[h := handles[h]] && handles[h].cursor == old(handles)[h].cursor
        && history == old(history) && refusals == old(refusals) + [Refusal(reply.code, false)]
    {
      hide Verdict, AttachedOk, WritersOk, SendsOk, HandlesOk, Issued, View, ReadOut, ReadFault, ReadOps;
      attempted := true;
      if !active || h !in handles {
        return Trap;
      }
      reply := ReadHandle(h, handles[h].cursor, count);
      if reply.Ok? {
        SameOut(old(handles)[h], old(handles)[h].cursor, count);
        MoveCursor(h, reply.value, count);
      }
    }

    lemma SameOut(handle: Handle, offset: nat, count: nat)
      ensures ReadOut(Digested(handle), offset, count) == ReadOut(handle, offset, count)
    {
    }

    method MoveCursor(h: nat, bytes: seq<Byte>, ghost count: nat)
      requires Valid() && h in handles && View(handles[h].encoding, handles[h].content).Some?
      requires bytes == ReadOut(handles[h], handles[h].cursor, count)
      modifies this`handles, this`history
      ensures Valid() && h in old(history)
      ensures handles == old(handles)[h := old(handles)[h].(cursor := old(handles)[h].cursor + |bytes|)]
      ensures history == old(history)[h := old(history)[h] + bytes]
    {
      hide Verdict, AttachedOk, WriterOk, SendsOk, HandleOk;
      assert HandleOk(handles[h], history[h]);
      ReadMoves(handles[h], history[h], count);
      handles := handles[h := handles[h].(cursor := handles[h].cursor + |bytes|)];
      history := history[h := history[h] + bytes];
    }

    /** The guest's positional read. */
    method ReadPosition(h: nat, offset: nat, count: nat) returns (reply: Reply<seq<Byte>>)
      requires Valid()
      modifies this`attempted, this`violation, this`refusals, this`handles, this`ioCalls
      ensures Valid() && attempted
      ensures reply == if !active || h !in old(handles) then Trap
                       else match ReadFault(io, old(ioCalls), old(handles)[h], offset, count)
                            case Some(code) => Refused(code)
                            case None => Ok(ReadOut(old(handles)[h], offset, count))
      ensures reply.Trap? ==> handles == old(handles) && refusals == old(refusals)
      ensures !reply.Trap? ==>
        && h in handles && handles == old(handles)[h := handles[h]]
        && handles[h] in {old(handles)[h], Digested(old(handles)[h])}
      ensures reply.Ok? ==>
        && handles[h] == Digested(old(handles)[h]) && refusals == old(refusals)
        && ioCalls == old(ioCalls) + ReadOps(old(handles)[h], offset, count)
      ensures reply.Refused? ==> refusals == old(refusals) + [Refusal(reply.code, false)]
    {
      hide Verdict, AttachedOk, WritersOk, SendsOk, HandlesOk, Issued, View, ReadOut, ReadFault, ReadOps;
      attempted := true;
      if !active || h !in handles {
        return Trap;
      }
      reply := ReadHandle(h, offset, count);
    }

    /**
     * Streams a request made of these assets; the response comes back as a new asset. Its parts are
     * charged before it is sent, and stay charged when it is not.
     */
    method Stream(parts: seq<nat>, response: seq<Byte>) returns (reply: Reply<nat>)
      requires Valid()
      modifies this`attempted, this`violation, this`refusals, this`written
      modifies this`handles, this`history, this`next, this`ioCalls
      ensures Valid() && attempted && old(written) <= written && next == old(next) + if reply.Ok? then 1 else 0
      ensures reply == StreamAnswer(active, configured, io, old(ioCalls), old(handles), parts, old(written), old(next))
      ensures active && configured ==> written == Charge(old(handles), parts, old(written)).total
      ensures !active || !configured ==> written == old(written)
      ensures refusals == old(refusals) + if reply.Refused? then [Refusal(reply.code, true)] else []
      ensures handles == if reply.Ok? then old(handles)[reply.value := NewHandle(Identity, response)] else old(handles)
      ensures reply.Ok? ==> ioCalls == old(ioCalls) + 1
    {
      hide Verdict, AttachedOk, WritersOk, SendsOk, HandleOk, Charge;
      attempted := true;
      if !active {
        return Trap;
      }
      if !configured {
        reply := Refuse(Unconfigured);
        return;
      }
      reply := ChargeParts(parts);
      if !reply.Ok? {
        return;
      }
      var fault := NextIo();
      if fault.Some? {
        reply := Refuse(fault.value);
        return;
      }
      NewHandleOk(NewHandle(Identity, response));
      var h := IssueHandle(NewHandle(Identity, response));
      reply := Ok(h);
    }

    /** Charges the parts of a request in order. */
    method ChargeParts(parts: seq<nat>) returns (reply: Reply<nat>)
      requires Valid()
      modifies this`violation, this`refusals, this`written
      ensures Valid() && old(written) <= written && written == Charge(handles, parts, old(written)).total
      ensures refusals == old(refusals) + if reply.Refused? then [Refusal(reply.code, true)] else []
      ensures reply == match Charge(handles, parts, old(written))
                       case Charged(_) => Ok(0)
                       case Exceeds(_) => Refused(TooLarge)
                       case NoHandle(_) => Trap
    {
      hide Verdict, AttachedOk, WritersOk, SendsOk, HandlesOk;
      for i := 0 to |parts|
        invariant Valid() && old(written) <= written && refusals == old(refusals) && violation == old(violation)
        invariant Charge(handles, parts[..i], old(written)) == Charged(written)
      {
        assert parts[..i + 1][..i] == parts[..i];
        if parts[i] !in handles {
          ChargeStops(handles, parts, old(written), i + 1);
          return Trap;
        }
        var charged := ChargeStream(handles[parts[i]].len);
        if charged.Refused? {
          ChargeStops(handles, parts, old(written), i + 1);
          return Refused(TooLarge);
        }
      }
      assert parts[..|parts|] == parts;
      reply := Ok(0);
    }

    method DropHandle(h: nat) returns (reply: Reply<nat>)
      requires Valid()
      modifies this`handles
      ensures Valid() && handles == old(handles) - {h} && (reply.Trap? <==> h !in old(handles))
    {
      reply := if h in handles then Ok(0) else Trap;
      handles := handles - {h};
    }

    method DropWriter(w: nat) returns (reply: Reply<nat>)
      requires Valid()
      modifies this`writers
      ensures Valid() && writers == old(writers) - {w} && (reply.Trap? <==> w !in old(writers))
    {
      reply := if w in writers then Ok(0) else Trap;
      writers := writers - {w};
    }
  }

  /** At most a chunk of a content from an offset on; nothing past its end. */
  function Slice(view: seq<Byte>, offset: nat, count: nat): seq<Byte> {
    if |view| <= offset then [] else view[offset..offset + Min(Min(|view| - offset, count), CHUNK_BYTES)]
  }

  /** How much a read gives, told from the length alone, and that reading that much succeeds. */
  lemma ReadSize(handle: Handle, read: seq<Byte>, offset: nat, count: nat)
    requires HandleOk(handle, read) && View(handle.encoding, handle.content).Some?
    ensures var left := if handle.len < offset then 0 else handle.len - offset;
            var n := Min(Min(left, count), CHUNK_BYTES);
            && (n == 0 <==> ReadOut(handle, offset, count) == [])
            && (0 < n ==> ReadAt(handle.encoding, handle.content, offset, n) == Some(ReadOut(handle, offset, count)))
  {
    hide View, DecodedLength, ReadAt, Slice, Min, HandleOk;
    ViewLength(handle.encoding, handle.content);
    assert DecodedLength(handle.encoding, handle.content) == Some(handle.len) by { Digestible(handle, read); }
    var view := View(handle.encoding, handle.content).value;
    SliceIs(view, offset, count);
    var left := if handle.len < offset then 0 else handle.len - offset;
    var n := Min(Min(left, count), CHUNK_BYTES);
    if 0 < n {
      ViewReads(handle.encoding, handle.content, offset, n);
    }
  }

  lemma SliceIs(view: seq<Byte>, offset: nat, count: nat)
    ensures var left := if |view| < offset then 0 else |view| - offset;
            var n := Min(Min(left, count), CHUNK_BYTES);
            && (n == 0 <==> Slice(view, offset, count) == [])
            && (0 < n ==> offset + n <= |view| && Slice(view, offset, count) == view[offset..offset + n])
  {
  }

  lemma ReadMoves(handle: Handle, read: seq<Byte>, count: nat)
    requires HandleOk(handle, read) && View(handle.encoding, handle.content).Some?
    ensures var more := ReadOut(handle, handle.cursor, count);
            HandleOk(handle.(cursor := handle.cursor + |more|), read + more)
  {
    var view := View(handle.encoding, handle.content).value;
    var more := Slice(view, handle.cursor, count);
    assert view[..handle.cursor] + more == view[..handle.cursor + |more|];
  }

  lemma AttachedNext(o: Outputs, origins: seq<Written>, clean: bool, asset: NewAsset, file: seq<Byte>, source: Written)
    requires AttachedOk(o, origins, clean) && |o.attached| < MAX_DESCRIPTORS
    requires FileOk(asset, file, |o.attached|, source, clean)
    ensures AttachedOk(o.(files := o.files + [file], attached := o.attached + [asset]), origins + [source], clean)
  {
  }
}
