/** How a run's arguments become broker inputs, and how a reply's invocations share its send allowance. */
module RunAssets {
  import opened Text
  import opened Asset
  import Attachment
  import Invocation
  import Meaning

  datatype Argument = TextArgument(text: string) | AssetNumber(id: nat)

  /** An argument as it crosses to the broker: an asset by its index among the inputs. */
  datatype WireArgument = Plain(text: string) | Indexed(index: nat)

  datatype Refusal = DataUrl | PerInvocationLimit | ByteBudget | StorageFault | Unresolved

  // Data URLs.

  function TrimStart(text: string): string {
    if text != [] && IsWhitespace(text[0]) then TrimStart(text[1..]) else text
  }

  function Lower(c: char): char {
    if 'A' <= c <= 'Z' then (c as int + 32) as char else c
  }

  predicate StartsLikeData(text: string) {
    HasDataPrefix(TrimStart(text))
  }

  predicate HasDataPrefix(text: string) {
    |text| >= 5 && forall i | 0 <= i < 5 :: Lower(text[i]) == "data:"[i]
  }

  /** What follows the first equals sign, or the whole text. */
  function ValuePart(text: string): string {
    AfterEquals(text, text)
  }

  function AfterEquals(text: string, whole: string): string {
    if text == [] then whole else if text[0] == '=' then text[1..] else AfterEquals(text[1..], whole)
  }

  predicate IsDataUrl(argument: Argument) {
    argument.TextArgument? && (StartsLikeData(argument.text) || StartsLikeData(ValuePart(argument.text)))
  }

  /** Here the text reads "data:", in any case of its letters. */
  predicate DataHere(text: string, k: nat) {
    && k + 5 <= |text|
    && text[k] in "dD" && text[k + 1] in "aA" && text[k + 2] in "tT" && text[k + 3] in "aA" && text[k + 4] == ':'
  }

  ghost predicate DataFrom(text: string, k: nat) {
    DataHere(text, k) && Blank(text[..k])
  }

  /** The text starts with "data:" after nothing but white space. */
  ghost predicate ReadsData(text: string) {
    exists k: nat :: DataFrom(text, k)
  }

  lemma DataNow(text: string)
    ensures HasDataPrefix(text) <==> DataHere(text, 0)
    ensures DataHere(text, 0) ==> !IsWhitespace(text[0])
  {
    if |text| >= 5 {
      LowerIs(text[0], 'd', 'D');
      LowerIs(text[1], 'a', 'A');
      LowerIs(text[2], 't', 'T');
      LowerIs(text[3], 'a', 'A');
      assert Lower(text[4]) == ':' <==> text[4] == ':';
      assert "data:"[0] == 'd' && "data:"[1] == 'a' && "data:"[2] == 't' && "data:"[3] == 'a' && "data:"[4] == ':';
    }
  }

  lemma DataLater(text: string, k: nat)
    requires text != []
    ensures DataFrom(text, k + 1) <==> IsWhitespace(text[0]) && DataFrom(text[1..], k)
    ensures DataFrom(text, 0) <==> DataHere(text, 0)
  {
    var rest := text[1..];
    if k < |text| {
      assert text[..k + 1] == [text[0]] + rest[..k];
    }
  }

  lemma {:induction false} StartsLikeDataMeans(text: string)
    ensures StartsLikeData(text) <==> ReadsData(text)
  {
    hide DataFrom, DataHere, IsWhitespace, HasDataPrefix;
    DataNow(text);
    if text == [] {
      NoDataInNothing();
    } else {
      DataLater(text, 0);
      var rest := text[1..];
      if IsWhitespace(text[0]) {
        StartsLikeDataMeans(rest);
      }
      if ReadsData(text) {
        var k: nat :| DataFrom(text, k);
        if 0 < k {
          DataLater(text, k - 1);
        }
      }
      if IsWhitespace(text[0]) && ReadsData(rest) {
        var k: nat :| DataFrom(rest, k);
        DataLater(text, k);
      }
    }
  }

  lemma NoDataInNothing()
    ensures !DataHere("", 0) && forall k: nat :: !DataFrom("", k)
  {
  }

  lemma LowerIs(c: char, small: char, capital: char)
    requires 'a' <= small <= 'z' && capital as int + 32 == small as int
    ensures Lower(c) == small <==> c == small || c == capital
  {
  }

  /** A text is taken for a data URL if it reads as one, or what follows its first equals sign does. */
  lemma DataUrlMeans(text: string)
    ensures IsDataUrl(TextArgument(text)) <==> ReadsData(text) || exists e: nat :: ReadsDataAfter(text, e)
  {
    hide ReadsData, StartsLikeData, AfterEquals;
    StartsLikeDataMeans(text);
    StartsLikeDataMeans(ValuePart(text));
    AfterEqualsMeans(text, text);
    if '=' in text {
      var e := FirstEquals(text);
      assert ReadsDataAfter(text, e) <==> ReadsData(text[e + 1..]);
    }
  }

  ghost predicate ReadsDataAfter(text: string, e: nat) {
    e < |text| && text[e] == '=' && '=' !in text[..e] && ReadsData(text[e + 1..])
  }

  function FirstEquals(text: string): (e: nat)
    requires '=' in text
    ensures e < |text| && text[e] == '=' && '=' !in text[..e]
  {
    if text[0] == '=' then 0
    else
      assert '=' in text[1..] by { assert text == [text[0]] + text[1..]; }
      var e := FirstEquals(text[1..]) + 1;
      assert text[..e] == [text[0]] + text[1..][..e - 1];
      e
  }

  lemma {:induction false} AfterEqualsMeans(text: string, whole: string)
    ensures '=' !in text ==> AfterEquals(text, whole) == whole
    ensures forall e: nat | e < |text| && text[e] == '=' && '=' !in text[..e] ::
      AfterEquals(text, whole) == text[e + 1..]
  {
    if text != [] && text[0] != '=' {
      AfterEqualsMeans(text[1..], whole);
      forall e: nat | e < |text| && text[e] == '=' && '=' !in text[..e]
        ensures AfterEquals(text, whole) == text[e + 1..]
      {
        assert text[1..][e - 1] == '=' && text[1..][..e - 1] == text[..e][1..];
        assert text[1..][e..] == text[e + 1..];
      }
    }
  }

  // Indexing.

  /** The ids an argument list refers to, each once, in the order they first occur. */
  function Distinct(argv: seq<Argument>): seq<nat> {
    if argv == [] then []
    else
      var ids, last := Distinct(argv[..|argv| - 1]), argv[|argv| - 1];
      if last.AssetNumber? && last.id !in ids then ids + [last.id] else ids
  }

  lemma {:induction false} DistinctMeans(argv: seq<Argument>)
    ensures NoDuplicates(Distinct(argv))
    ensures forall id :: id in Distinct(argv) <==> AssetNumber(id) in argv
  {
    if argv != [] {
      DistinctMeans(argv[..|argv| - 1]);
      Split(argv);
    }
  }

  lemma {:induction false} DistinctGrows(argv: seq<Argument>, n: nat)
    requires n <= |argv|
    ensures Distinct(argv[..n]) <= Distinct(argv)
    decreases |argv| - n
  {
    if n == |argv| {
      assert argv[..n] == argv;
    } else {
      DistinctGrows(argv, n + 1);
      assert argv[..n + 1][..n] == argv[..n];
    }
  }

  /** A wire argument stands for the same thing under the given inputs. */
  predicate Resolves(argument: Argument, wire: WireArgument, ids: seq<nat>) {
    match argument
    case TextArgument(text) => wire == Plain(text)
    case AssetNumber(id) => wire.Indexed? && wire.index < |ids| && ids[wire.index] == id
  }

  predicate AllResolve(argv: seq<Argument>, wires: seq<WireArgument>, ids: seq<nat>) {
    |wires| == |argv| && forall i | 0 <= i < |argv| :: Resolves(argv[i], wires[i], ids)
  }

  datatype Arguments = Arguments(wires: seq<WireArgument>, ids: seq<nat>) | Turned(refusal: Refusal)

  method Find(ids: seq<nat>, id: nat) returns (index: Option<nat>)
    ensures index.None? <==> id !in ids
    ensures index.Some? ==> index.value < |ids| && ids[index.value] == id
  {
    for i := 0 to |ids|
      invariant id !in ids[..i]
    {
      if ids[i] == id {
        return Some(i);
      }
    }
    index := None;
  }

  /** The first thing wrong with an argument list. */
  function Fault(argv: seq<Argument>): Option<Refusal> {
    if argv == [] then None
    else
      var before := Fault(argv[..|argv| - 1]);
      if before.Some? then before
      else if IsDataUrl(argv[|argv| - 1]) then Some(DataUrl)
      else if MAX_DESCRIPTORS < |Distinct(argv)| then Some(PerInvocationLimit)
      else None
  }

  lemma {:induction false} FaultStays(argv: seq<Argument>, n: nat)
    requires n <= |argv| && Fault(argv[..n]).Some?
    ensures Fault(argv) == Fault(argv[..n])
    decreases |argv| - n
  {
    if n == |argv| {
      assert argv[..n] == argv;
    } else {
      assert argv[..n + 1][..n] == argv[..n];
      FaultStays(argv, n + 1);
    }
  }

  /** Nothing is wrong exactly if there is no data URL and there are not too many distinct assets. */
  lemma {:induction false} FaultMeans(argv: seq<Argument>)
    ensures Fault(argv).None? <==>
            (forall i | 0 <= i < |argv| :: !IsDataUrl(argv[i])) && |Distinct(argv)| <= MAX_DESCRIPTORS
  {
    hide IsDataUrl;
    if argv != [] {
      FaultMeans(argv[..|argv| - 1]);
      DistinctGrows(argv, |argv| - 1);
    }
  }

  /** The i-th argument is the first at fault: it is a data URL, or it names a sixth asset. */
  ghost predicate FaultyAt(argv: seq<Argument>, i: nat, refusal: Refusal) {
    && i < |argv| && Fault(argv[..i]).None?
    && if IsDataUrl(argv[i]) then refusal == DataUrl
       else refusal == PerInvocationLimit && |Distinct(argv[..i + 1])| == 6
  }

  lemma {:induction false} FaultIsFirst(argv: seq<Argument>)
    requires Fault(argv).Some?
    ensures exists i: nat :: FaultyAt(argv, i, Fault(argv).value)
  {
    hide IsDataUrl;
    var n := |argv| - 1;
    var front := argv[..n];
    if Fault(front).Some? {
      FaultIsFirst(front);
      var i: nat :| FaultyAt(front, i, Fault(front).value);
      assert front[..i] == argv[..i] && front[..i + 1] == argv[..i + 1];
      assert FaultyAt(argv, i, Fault(argv).value);
    } else {
      FaultMeans(front);
      assert argv[..n + 1] == argv;
      assert FaultyAt(argv, n, Fault(argv).value);
    }
  }

  lemma ResolvesMore(argv: seq<Argument>, wires: seq<WireArgument>, ids: seq<nat>, id: nat)
    requires AllResolve(argv, wires, ids)
    ensures AllResolve(argv, wires, ids + [id])
  {
  }

  lemma ResolvesNext(
    argv: seq<Argument>, wires: seq<WireArgument>, ids: seq<nat>, argument: Argument, wire: WireArgument)
    requires AllResolve(argv, wires, ids) && Resolves(argument, wire, ids)
    ensures AllResolve(argv + [argument], wires + [wire], ids)
  {
  }

  /** The index of an id among the inputs, which it joins if it is new and there is room. */
  method IndexOf(ids: seq<nat>, id: nat) returns (index: Option<nat>, now: seq<nat>)
    requires |ids| <= MAX_DESCRIPTORS
    ensures now == if id in ids then ids else ids + [id]
    ensures index.None? <==> MAX_DESCRIPTORS < |now|
    ensures index.Some? ==> index.value < |now| && now[index.value] == id
  {
    now := ids;
    index := Find(ids, id);
    if index.None? {
      now := ids + [id];
      if |ids| < MAX_DESCRIPTORS {
        index := Some(|ids|);
      }
    }
  }

  /** What translating an argument list gives. */
  predicate Translates(argv: seq<Argument>, r: Arguments) {
    match Fault(argv)
    case Some(refusal) => r == Turned(refusal)
    case None =>
      r.Arguments? && r.ids == Distinct(argv) && |r.ids| <= MAX_DESCRIPTORS && AllResolve(argv, r.wires, r.ids)
  }

  method Append(ghost argv: seq<Argument>, r: Arguments, argument: Argument) returns (longer: Arguments)
    requires Translates(argv, r) && r.Arguments?
    ensures Translates(argv + [argument], longer)
  {
    hide IsDataUrl, AllResolve;
    assert (argv + [argument])[..|argv|] == argv;
    match argument {
      case TextArgument(text) =>
        if IsDataUrl(argument) {
          return Turned(DataUrl);
        }
        ResolvesNext(argv, r.wires, r.ids, argument, Plain(text));
        longer := Arguments(r.wires + [Plain(text)], r.ids);
      case AssetNumber(id) =>
        NumbersAreNotUrls(id);
        var index, ids := IndexOf(r.ids, id);
        if index.None? {
          return Turned(PerInvocationLimit);
        }
        ResolvesMore(argv, r.wires, r.ids, id);
        ResolvesNext(argv, r.wires, ids, argument, Indexed(index.value));
        longer := Arguments(r.wires + [Indexed(index.value)], ids);
    }
  }

  /**
   * Replaces asset numbers by indices into the inputs. Every index names its own number's input, and
   * no input is passed twice or without being named. It fails exactly on the first fault.
   */
  method RunArguments(argv: seq<Argument>) returns (r: Arguments)
    ensures Translates(argv, r)
  {
    r := Arguments([], []);
    for i := 0 to |argv|
      invariant r.Arguments? && Translates(argv[..i], r)
    {
      hide IsDataUrl, AllResolve, Distinct;
      assert argv[..i + 1] == argv[..i] + [argv[i]];
      r := Append(argv[..i], r, argv[i]);
      if r.Turned? {
        FaultStays(argv, i + 1);
        return;
      }
    }
    assert argv[..|argv|] == argv;
  }

  lemma NumbersAreNotUrls(id: nat)
    ensures !IsDataUrl(AssetNumber(id))
  {
  }

  // Preparing a run.

  /** What resolving an id answers; a blob may not let itself be measured, or not be opened. */
  datatype Resolution = Resolved(row: Row, blob: seq<Byte>, measured: bool, opens: bool) | Missing

  datatype Prepared =
    | Prepared(wires: seq<WireArgument>, rows: seq<Row>, descriptors: seq<Invocation.Descriptor>)
    | NotPrepared(refusal: Refusal)

  /** The store answers for the id asked about, with the length its row states. */
  predicate Faithful(ids: seq<nat>, resolutions: seq<Resolution>) {
    forall i | 0 <= i < |ids| ::
      var r := Nth(resolutions, i, Missing);
      r.Resolved? ==> r.row.id == ids[i] && r.row.bytes == Some(|r.blob|)
  }

  /** Rows and descriptors are those the store gave for these ids. */
  predicate Gathered(n: nat, resolutions: seq<Resolution>, rows: seq<Row>, descriptors: seq<Invocation.Descriptor>) {
    && |rows| == |descriptors| == n
    && forall i | 0 <= i < n ::
         var r := Nth(resolutions, i, Missing);
         r.Resolved? && rows[i] == r.row && descriptors[i] == Invocation.Descriptor(r.blob, true)
  }

  predicate Usable(resolution: Resolution) {
    && resolution.Resolved? && resolution.measured && resolution.opens
    && DecodedLength(resolution.row.encoding, resolution.blob).Some?
  }

  predicate AllUsable(resolutions: seq<Resolution>, n: nat) {
    forall i | 0 <= i < n :: Usable(Nth(resolutions, i, Missing))
  }

  /** The decoded size of the first `n` inputs the store gave. */
  function GivenBytes(resolutions: seq<Resolution>, n: nat): nat {
    if n == 0 then 0
    else
      var last := Nth(resolutions, n - 1, Missing);
      GivenBytes(resolutions, n - 1) + if Usable(last) then DecodedLength(last.row.encoding, last.blob).value else 0
  }

  lemma {:induction false} GivenBytesGrow(resolutions: seq<Resolution>, m: nat, n: nat)
    requires m <= n
    ensures GivenBytes(resolutions, m) <= GivenBytes(resolutions, n)
  {
    if m < n { GivenBytesGrow(resolutions, m, n - 1); }
  }

  datatype Inputs = Inputs(rows: seq<Row>, descriptors: seq<Invocation.Descriptor>) | Withheld(refusal: Refusal)

  /**
   * The first input that cannot be had, and why: it is not there, it cannot be measured, it is more than 500
   * MiB with those before it, or it does not open.
   */
  ghost predicate WithheldAt(resolutions: seq<Resolution>, i: nat, refusal: Refusal) {
    && AllUsable(resolutions, i) && GivenBytes(resolutions, i) <= 524288000
    && match Nth(resolutions, i, Missing)
       case Missing => refusal == Unresolved
       case Resolved(row, blob, measured, opens) =>
         match DecodedLength(row.encoding, blob)
         case None => refusal == StorageFault
         case Some(len) =>
           if !measured then refusal == StorageFault
           else if 524288000 < GivenBytes(resolutions, i) + len then refusal == ByteBudget
           else !opens && refusal == StorageFault
  }

  /** Collects the inputs of a run, stopping at the first that is missing, unreadable or too much. */
  method Gather(resolutions: seq<Resolution>, n: nat) returns (inputs: Inputs)
    ensures inputs.Inputs? <==> AllUsable(resolutions, n) && GivenBytes(resolutions, n) <= MAX_INPUT_BYTES
    ensures inputs.Inputs? ==> Gathered(n, resolutions, inputs.rows, inputs.descriptors)
    ensures inputs.Withheld? ==> exists i: nat :: i < n && WithheldAt(resolutions, i, inputs.refusal)
  {
    hide DecodedLength;
    var rows: seq<Row>, descriptors: seq<Invocation.Descriptor>, total := [], [], 0;
    for i := 0 to n
      invariant AllUsable(resolutions, i) && Gathered(i, resolutions, rows, descriptors)
      invariant total == GivenBytes(resolutions, i) <= MAX_INPUT_BYTES
    {
      var resolution := Nth(resolutions, i, Missing);
      if resolution.Missing? {
        assert WithheldAt(resolutions, i, Unresolved);
        return Withheld(Unresolved);
      }
      var decoded := DecodedLength(resolution.row.encoding, resolution.blob);
      if !resolution.measured || decoded.None? {
        assert WithheldAt(resolutions, i, StorageFault);
        return Withheld(StorageFault);
      }
      total := total + decoded.value;
      GivenBytesGrow(resolutions, i + 1, n);
      if MAX_INPUT_BYTES < total {
        assert WithheldAt(resolutions, i, ByteBudget);
        return Withheld(ByteBudget);
      }
      if !resolution.opens {
        assert WithheldAt(resolutions, i, StorageFault);
        return Withheld(StorageFault);
      }
      rows := rows + [resolution.row];
      descriptors := descriptors + [Invocation.Descriptor(resolution.blob, true)];
    }
    inputs := Inputs(rows, descriptors);
  }

  /** A run is prepared exactly if its arguments are in order and the store has usable inputs that fit. */
  method PrepareRun(argv: seq<Argument>, resolutions: seq<Resolution>) returns (run: Prepared)
    ensures run.Prepared? <==> Preparable(argv, resolutions)
    ensures run.NotPrepared? ==>
      if Fault(argv).Some? then run.refusal == Fault(argv).value
      else exists i: nat :: i < |Distinct(argv)| && WithheldAt(resolutions, i, run.refusal)
    ensures run.Prepared? ==>
      && AllResolve(argv, run.wires, Distinct(argv))
      && Gathered(|Distinct(argv)|, resolutions, run.rows, run.descriptors)
  {
    hide Fault, AllResolve, AllUsable, GivenBytes, Gathered, WithheldAt;
    var arguments := RunArguments(argv);
    if arguments.Turned? {
      return NotPrepared(arguments.refusal);
    }
    var inputs := Gather(resolutions, |arguments.ids|);
    if inputs.Withheld? {
      return NotPrepared(inputs.refusal);
    }
    run := Prepared(arguments.wires, inputs.rows, inputs.descriptors);
  }

  predicate Preparable(argv: seq<Argument>, resolutions: seq<Resolution>) {
    && Fault(argv).None? && AllUsable(resolutions, |Distinct(argv)|)
    && GivenBytes(resolutions, |Distinct(argv)|) <= MAX_INPUT_BYTES
  }

  /** The broker counts the same bytes. */
  lemma {:induction false} GivenIsInput(
    n: nat, resolutions: seq<Resolution>, rows: seq<Row>, descriptors: seq<Invocation.Descriptor>)
    requires Gathered(n, resolutions, rows, descriptors) && AllUsable(resolutions, n)
    ensures Invocation.InputBytes(rows, descriptors) == GivenBytes(resolutions, n)
  {
    if 0 < n {
      GivenIsInput(n - 1, resolutions, rows[..n - 1], descriptors[..n - 1]);
      Split(rows);
      InputBytesOfRows(rows[..n - 1], [rows[n - 1]], descriptors[..n - 1]);
    }
  }

  lemma {:induction false} InputBytesOfRows(rows: seq<Row>, more: seq<Row>, descriptors: seq<Invocation.Descriptor>)
    requires |descriptors| <= |rows|
    ensures Invocation.InputBytes(rows + more, descriptors) == Invocation.InputBytes(rows, descriptors)
  {
    if descriptors != [] {
      InputBytesOfRows(rows, more, descriptors[..|descriptors| - 1]);
    }
  }

  /** Whatever the agent prepares from a faithful store, the broker admits. */
  lemma PreparedIsAdmissible(
    argv: seq<Argument>, resolutions: seq<Resolution>, rows: seq<Row>, descriptors: seq<Invocation.Descriptor>)
    requires Preparable(argv, resolutions) && Gathered(|Distinct(argv)|, resolutions, rows, descriptors)
    requires Faithful(Distinct(argv), resolutions)
    ensures Invocation.Admissible(rows, descriptors)
  {
    DistinctMeans(argv);
    FaultMeans(argv);
    GivenIsInput(|rows|, resolutions, rows, descriptors);
    assert Invocation.RowIds(rows) == Distinct(argv);
    assert forall i | 0 <= i < |descriptors| :: Invocation.Matches(rows[i], descriptors[i]);
  }

  // The shared allowance.

  /** One invocation of a reply: what it is called with, what its guest does, and what the store answers. */
  datatype Request = Request(
    argv: seq<Argument>, resolutions: seq<Resolution>, configured: bool, grant: Grant, io: seq<Option<Code>>,
    calls: seq<Meaning.GuestCall>, succeeds: bool, lookups: seq<Attachment.Lookup>)

  /** The setting a request's guest runs in, given this allowance. */
  function SettingOf(request: Request, allowance: nat): Meaning.Setting {
    var rows, descriptors := RowsOf(request), DescriptorsOf(request);
    Meaning.Setting(
      true, request.configured, request.grant, rows, Invocation.Passed(rows, descriptors), allowance, request.io)
  }

  /** What the broker hands back for this request, given this allowance. */
  predicate Delivers(ending: Invocation.Ending, request: Request, allowance: nat) {
    && (if Invocation.Admissible(RowsOf(request), DescriptorsOf(request))
        then Invocation.Ends(Meaning.Play(SettingOf(request, allowance), request.calls), ending)
        else ending.NotAdmitted?)
    && (ending.Delivered? ==> Invocation.Exact(ending.outputs, RowsOf(request), request.calls, allowance))
  }

  /** The files that go to the broker, opened for reading only. */
  function DescriptorsOf(request: Request): (d: seq<Invocation.Descriptor>)
    ensures |d| == |RowsOf(request)|
  {
    seq(|Distinct(request.argv)|, i requires 0 <= i < |Distinct(request.argv)| =>
      var r := Nth(request.resolutions, i, Missing);
      Invocation.Descriptor(if r.Resolved? then r.blob else [], true))
  }

  /** The rows that go to the broker: those the store gave for the assets named. */
  function RowsOf(request: Request): seq<Row> {
    seq(|Distinct(request.argv)|, i requires 0 <= i < |Distinct(request.argv)| =>
      var r := Nth(request.resolutions, i, Missing);
      if r.Resolved? then r.row else Row(0, Identity, None, false))
  }

  lemma GatheredRows(request: Request, rows: seq<Row>, descriptors: seq<Invocation.Descriptor>)
    requires Gathered(|Distinct(request.argv)|, request.resolutions, rows, descriptors)
    ensures rows == RowsOf(request) && descriptors == DescriptorsOf(request)
  {
  }

  /** A request is run exactly if it can be prepared, and then ends as its calls say. */
  ghost predicate EndsAs(request: Request, ending: Option<Invocation.Ending>, allowance: nat) {
    && (ending.Some? <==> Preparable(request.argv, request.resolutions))
    && (ending.Some? ==> Delivers(ending.value, request, allowance))
  }

  /** How many sends an invocation got through to the reply. */
  function SendsOf(request: Request, ending: Option<Invocation.Ending>): nat {
    if ending.Some? && ending.value.Delivered? && request.succeeds then |ending.value.outputs.sent| else 0
  }

  /**
   * Runs one request with the allowance that is left, and queues what it sent. Given a faithful
   * store the broker never turns down what was prepared.
   */
  method Serve(attachments: Attachment.ReplyAttachments, request: Request)
    returns (ending: Option<Invocation.Ending>, lines: seq<Attachment.Line>)
    requires attachments.Valid() && attachments.spent <= attachments.limit.count
    modifies attachments
    ensures attachments.Valid() && old(attachments.spent) <= attachments.spent <= attachments.limit.count
    ensures EndsAs(request, ending, old(attachments.Remaining())) && |lines| == SendsOf(request, ending)
    ensures ending.Some? && Faithful(Distinct(request.argv), request.resolutions) ==> !ending.value.NotAdmitted?
    ensures Received(attachments, ending, request, lines, old(attachments.accepted))
    ensures !SomeWant(lines)
  {
    hide Preparable, Gathered, Faithful, AllResolve, Distinct, Invocation.Exact, Invocation.Admissible, Invocation.Ends;
    hide RowsOf, DescriptorsOf, Meaning.Play, Invocation.Passed;
    ending, lines := None, [];
    EmptyIsUnit(attachments.accepted);
    var allowance := attachments.Remaining();
    var run := PrepareRun(request.argv, request.resolutions);
    if run.NotPrepared? {
      return;
    }
    GatheredRows(request, run.rows, run.descriptors);
    if Faithful(Distinct(request.argv), request.resolutions) {
      PreparedIsAdmissible(request.argv, request.resolutions, run.rows, run.descriptors);
    }
    var ended, readings := Invocation.Invoke(
      run.rows, run.descriptors, request.configured, request.grant, allowance, request.io, request.calls);
    ending := Some(ended);
    if ended.Delivered? && request.succeeds {
      SendsWithin(ended.outputs, run.rows, request.calls, allowance);
      lines := Queue(attachments, ended.outputs.sent, request.lookups, allowance);
    }
  }

  lemma SendsWithin(o: Outputs, rows: seq<Row>, calls: seq<Meaning.GuestCall>, allowance: nat)
    requires Invocation.Exact(o, rows, calls, allowance)
    ensures |o.sent| <= allowance
  {
  }

  /** A delivered, successful invocation has a line for each send and queues what its lines say; any other has none. */
  ghost predicate Received(
    attachments: Attachment.ReplyAttachments, ending: Option<Invocation.Ending>, request: Request,
    lines: seq<Attachment.Line>, before: seq<Attachment.Accepted>)
    reads attachments
  {
    if ending.Some? && ending.value.Delivered? && request.succeeds then
      && |lines| == |ending.value.outputs.sent|
      && attachments.accepted == before + Attachment.QueuedAmong(ending.value.outputs.sent, request.lookups, lines)
    else
      lines == [] && attachments.accepted == before
  }

  method Queue(
    attachments: Attachment.ReplyAttachments, sent: seq<nat>, lookups: seq<Attachment.Lookup>, ghost allowance: nat)
    returns (lines: seq<Attachment.Line>)
    requires attachments.Valid() && |sent| <= allowance && attachments.spent + allowance == attachments.limit.count
    modifies attachments
    ensures attachments.Valid() && |lines| == |sent|
    ensures old(attachments.spent) <= attachments.spent <= attachments.limit.count
    ensures attachments.accepted == old(attachments.accepted) + Attachment.QueuedAmong(sent, lookups, lines)
    ensures !SomeWant(lines)
  {
    lines := attachments.ReceiveSends(sent, lookups);
    Attachment.SpendsBounded(lookups, |sent|);
    forall i | 0 <= i < |lines|
      ensures !Attachment.WantsAllowance(lines[i])
    {
      Attachment.SpendsBounded(lookups, i);
    }
  }

  function AllSends(requests: seq<Request>, endings: seq<Option<Invocation.Ending>>): nat
    requires |endings| <= |requests|
  {
    if endings == [] then 0
    else
      var n := |endings| - 1;
      AllSends(requests, endings[..n]) + SendsOf(requests[n], endings[n])
  }

  lemma NothingSent(requests: seq<Request>)
    ensures AllSends(requests, []) == 0 && !SomeWant([])
  {
  }

  lemma SendsNext(requests: seq<Request>, endings: seq<Option<Invocation.Ending>>, ending: Option<Invocation.Ending>)
    requires |endings| < |requests|
    ensures AllSends(requests, endings + [ending]) == AllSends(requests, endings) + SendsOf(requests[|endings|], ending)
  {
    assert (endings + [ending])[..|endings|] == endings;
  }

  /**
   * One invocation after the other, whatever they do: every send that gets through is answered, and
   * none is ever refused for want of allowance, so what the broker let a guest send the reply has
   * room for.
   */
  method ServeAll(attachments: Attachment.ReplyAttachments, requests: seq<Request>)
    returns (endings: seq<Option<Invocation.Ending>>, lines: seq<Attachment.Line>, ghost allowances: seq<nat>)
    requires attachments.Valid() && attachments.spent <= attachments.limit.count
    modifies attachments
    ensures attachments.Valid() && |endings| == |allowances| == |requests| && |lines| == AllSends(requests, endings)
    ensures forall i | 0 <= i < |requests| :: EndsAs(requests[i], endings[i], allowances[i])
    ensures requests != [] ==> allowances[0] == old(attachments.Remaining())
    ensures forall i | 0 < i < |requests| :: allowances[i] <= allowances[i - 1]
    ensures !SomeWant(lines)
  {
    hide EndsAs, Received, SendsOf, SomeWant, AllSends, Distinct, Attachment.ReplyAttachments.Valid;
    endings, lines, allowances := [], [], [];
    NothingSent(requests);
    for i := 0 to |requests|
      invariant attachments.Valid() && attachments.spent <= attachments.limit.count
      invariant |endings| == |allowances| == i && |lines| == AllSends(requests, endings)
      invariant forall k | 0 <= k < i :: EndsAs(requests[k], endings[k], allowances[k])
      invariant if i == 0 then attachments.spent == old(attachments.spent)
                else allowances[0] == old(attachments.Remaining()) && attachments.Remaining() <= allowances[i - 1]
      invariant forall k | 0 < k < i :: allowances[k] <= allowances[k - 1]
      invariant !SomeWant(lines)
    {
      allowances := allowances + [attachments.Remaining()];
      var ending, more := Serve(attachments, requests[i]);
      EitherWants(lines, more);
      SendsNext(requests, endings, ending);
      endings, lines := endings + [ending], lines + more;
    }
  }

  // Overlapping invocations.

  /** What one invocation sent, and what the store answers for it. */
  datatype Batch = Batch(sent: seq<nat>, lookups: seq<Attachment.Lookup>)

  function AnswersFor(batch: Batch): seq<Attachment.Lookup> {
    seq(|batch.sent|, i requires 0 <= i < |batch.sent| => Nth(batch.lookups, i, Attachment.Nothing))
  }

  function AllAnswers(batches: seq<Batch>): seq<Attachment.Lookup> {
    if batches == [] then [] else AllAnswers(batches[..|batches| - 1]) + AnswersFor(batches[|batches| - 1])
  }

  lemma {:induction false} SpendsSame(a: seq<Attachment.Lookup>, b: seq<Attachment.Lookup>, n: nat)
    requires forall i | 0 <= i < n :: Nth(a, i, Attachment.Nothing) == Nth(b, i, Attachment.Nothing)
    ensures Attachment.Spends(a, n) == Attachment.Spends(b, n)
  {
    if 0 < n { SpendsSame(a, b, n - 1); }
  }

  lemma {:induction false} SpendsJoin(a: seq<Attachment.Lookup>, b: seq<Attachment.Lookup>, n: nat)
    ensures Attachment.Spends(a + b, |a| + n) == Attachment.Spends(a, |a|) + Attachment.Spends(b, n)
  {
    if n == 0 {
      SpendsSame(a + b, a, |a|);
    } else {
      SpendsJoin(a, b, n - 1);
    }
  }

  /** Refusals in one more batch fit what was spent before it. */
  lemma BatchJoins(
    lines: seq<Attachment.Line>, more: seq<Attachment.Line>, answers: seq<Attachment.Lookup>, batch: Batch,
    start: nat, spent: nat, count: nat)
    requires |lines| == |answers| && |more| == |batch.sent|
    requires Attachment.RefusedWhenSpent(lines, answers, start, count)
    requires Attachment.Counts(spent, start + Attachment.Spends(answers, |answers|), count)
    requires Attachment.RefusedWhenSpent(more, batch.lookups, spent, count)
    ensures Attachment.RefusedWhenSpent(lines + more, answers + AnswersFor(batch), start, count)
  {
    hide Attachment.Spends, Attachment.WantsAllowance;
    var joined := answers + AnswersFor(batch);
    forall i | 0 <= i < |lines + more|
      ensures Attachment.WantsAllowance((lines + more)[i]) <==>
              Nth(joined, i, Attachment.Nothing).Found? && count <= start + Attachment.Spends(joined, i)
    {
      if i < |lines| {
        SpendsSame(joined, answers, i);
      } else {
        var k := i - |lines|;
        SpendsJoin(answers, AnswersFor(batch), k);
        SpendsSame(AnswersFor(batch), batch.lookups, k);
      }
    }
  }

  /**
   * Any number of invocations that overlap, so that they may all have been given the same allowance:
   * some send wants allowance exactly if, of all their sends in the order they are received, one the
   * store finds comes after as many that cost a slot as there were slots left.
   */
  method Overlap(attachments: Attachment.ReplyAttachments, batches: seq<Batch>) returns (lines: seq<Attachment.Line>)
    requires attachments.Valid()
    modifies attachments
    ensures attachments.Valid() && |lines| == |AllAnswers(batches)|
    ensures SomeWant(lines) <==> SomeShort(AllAnswers(batches), old(attachments.Remaining()))
  {
    hide Attachment.QueuedAmong, Attachment.RefusedWhenSpent, Attachment.WantsAllowance, Attachment.Spends;
    lines := [];
    ghost var count, start := attachments.limit.count, attachments.spent;
    assert Attachment.RefusedWhenSpent([], [], start, count) by { NoneRefused(start, count); }
    NoneSpent();
    for i := 0 to |batches|
      invariant attachments.Valid() && |lines| == |AllAnswers(batches[..i])|
      invariant Attachment.RefusedWhenSpent(lines, AllAnswers(batches[..i]), start, count)
      invariant Attachment.Counts(
        attachments.spent, start + Attachment.Spends(AllAnswers(batches[..i]), |lines|), count)
    {
      assert batches[..i + 1][..i] == batches[..i];
      ghost var spent, answers := attachments.spent, AllAnswers(batches[..i]);
      var more := attachments.ReceiveSends(batches[i].sent, batches[i].lookups);
      BatchJoins(lines, more, answers, batches[i], start, spent, count);
      SpendsJoin(answers, AnswersFor(batches[i]), |more|);
      SpendsSame(AnswersFor(batches[i]), batches[i].lookups, |more|);
      lines := lines + more;
    }
    assert batches[..|batches|] == batches;
    WantsMeansShort(lines, AllAnswers(batches), start, count);
  }

  lemma NoneRefused(start: nat, count: nat)
    ensures Attachment.RefusedWhenSpent([], [], start, count)
  {
  }

  lemma NoneSpent()
    ensures Attachment.Spends([], 0) == 0
  {
  }

  /** A found send comes after at least this many that cost a slot. */
  ghost predicate SomeShort(answers: seq<Attachment.Lookup>, remaining: nat) {
    exists k :: 0 <= k < |answers| && answers[k].Found? && remaining <= Attachment.Spends(answers, k)
  }

  lemma WantsMeansShort(lines: seq<Attachment.Line>, answers: seq<Attachment.Lookup>, start: nat, count: nat)
    requires |lines| == |answers| && Attachment.RefusedWhenSpent(lines, answers, start, count)
    ensures SomeWant(lines) <==> SomeShort(answers, if start <= count then count - start else 0)
  {
    hide Attachment.Spends, Attachment.WantsAllowance;
    var remaining := if start <= count then count - start else 0;
    if SomeWant(lines) {
      var i :| 0 <= i < |lines| && Attachment.WantsAllowance(lines[i]);
      assert answers[i].Found? && remaining <= Attachment.Spends(answers, i);
    }
    if SomeShort(answers, remaining) {
      var k :| 0 <= k < |answers| && answers[k].Found? && remaining <= Attachment.Spends(answers, k);
      assert Attachment.WantsAllowance(lines[k]);
    }
  }

  /**
   * With one slot left, two invocations that each send one asset the store finds want allowance; if
   * the store knows nothing of the first, they do not.
   */
  lemma OneSlotForTwo(image: Attachment.Image)
    ensures SomeShort(
      AllAnswers([Batch([1], [Attachment.Found(image)]), Batch([2], [Attachment.Found(image)])]), 1)
    ensures !SomeShort(AllAnswers([Batch([1], [Attachment.Nothing]), Batch([2], [Attachment.Found(image)])]), 1)
  {
    var found, nothing := Batch([1], [Attachment.Found(image)]), Batch([1], [Attachment.Nothing]);
    var second := Batch([2], [Attachment.Found(image)]);
    AnswersOfTwo(found, second);
    AnswersOfTwo(nothing, second);
    var both, one := [Attachment.Found(image), Attachment.Found(image)], [Attachment.Nothing, Attachment.Found(image)];
    assert AnswersFor(found) + AnswersFor(second) == both;
    assert AnswersFor(nothing) + AnswersFor(second) == one;
    assert both[1].Found? && 1 <= Attachment.Spends(both, 1);
    assert Attachment.Spends(one, 0) == 0 && Attachment.Spends(one, 1) == 0;
  }

  lemma AnswersOfTwo(a: Batch, b: Batch)
    ensures AllAnswers([a, b]) == AnswersFor(a) + AnswersFor(b)
  {
    assert [a, b][..1] == [a] && [a][..0] == [];
    assert AllAnswers([a]) == AnswersFor(a);
  }

  ghost predicate SomeWant(lines: seq<Attachment.Line>) {
    exists i :: 0 <= i < |lines| && Attachment.WantsAllowance(lines[i])
  }

  lemma EitherWants(a: seq<Attachment.Line>, b: seq<Attachment.Line>)
    ensures SomeWant(a + b) <==> SomeWant(a) || SomeWant(b)
  {
    assert forall i | 0 <= i < |a| :: (a + b)[i] == a[i];
    assert forall i | 0 <= i < |b| :: (a + b)[|a| + i] == b[i];
  }
}
