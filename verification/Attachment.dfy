/** The attachments of one reply: which sends it takes, what it holds for them, and how they end. */
module Attachment {
  import opened Text

  /** A stored image, with what asking for its decoded length answers. */
  datatype Image = Image(key: nat, decoded: Option<nat>)

  datatype Holding = OneAtATime | AllAtOnce(bytes: nat)

  type Byte8 = n: nat | n <= 255

  datatype Limit = Limit(count: Byte8, holding: Holding)

  datatype Refusal = Allowance(limit: nat) | ByteBudget(bytes: nat) | Storage

  datatype Admitted = Position(n: nat) | Refused(refusal: Refusal)

  /** What the store answers when an asset is to be sent. */
  datatype Lookup = Found(image: Image) | Nothing | Fails

  datatype Disposition = Abandoned | Failed | Delivered | Partial(failed: seq<nat>)

  /** A line of the note the model reads about one send. */
  datatype Line = Queued(id: nat, position: nat, of: nat) | Silent | NotQueued(id: nat, refusal: Refusal)

  function LineFor(id: nat, result: Admitted, limit: nat): Line {
    match result
    case Position(n) => Queued(id, n, limit)
    case Refused(refusal) => NotQueued(id, refusal)
  }

  predicate WantsAllowance(line: Line) {
    line.NotQueued? && line.refusal.Allowance?
  }

  /** Which of these sends are refused for want of allowance when `spent` slots were spent before them. */
  predicate RefusedWhenSpent(lines: seq<Line>, lookups: seq<Lookup>, spent: nat, count: nat) {
    forall i | 0 <= i < |lines| ::
      WantsAllowance(lines[i]) <==> Nth(lookups, i, Nothing).Found? && count <= spent + Spends(lookups, i)
  }

  /** Slots in use after `used` were asked for: all of them, until the limit is reached. */
  predicate Counts(spent: nat, asked: nat, count: nat) {
    (asked <= count ==> spent == asked) && (count <= asked ==> count <= spent)
  }

  datatype Accepted = Accepted(id: nat, image: Image)

  function Ids(accepted: seq<Accepted>): seq<nat> {
    seq(|accepted|, i requires 0 <= i < |accepted| => accepted[i].id)
  }

  function Images(accepted: seq<Accepted>): seq<Image> {
    seq(|accepted|, i requires 0 <= i < |accepted| => accepted[i].image)
  }

  /** The decoded size of what was accepted. */
  function DecodedBytes(accepted: seq<Accepted>): nat {
    if accepted == [] then 0
    else
      DecodedBytes(accepted[..|accepted| - 1]) +
      match accepted[|accepted| - 1].image.decoded
      case Some(n) => n
      case None => 0
  }

  /** Sizes add up: what was accepted before, and the decoded size of each image after it. */
  lemma {:induction false} DecodedBytesAdd(accepted: seq<Accepted>, more: seq<Accepted>)
    ensures DecodedBytes(accepted + more) == DecodedBytes(accepted) + DecodedBytes(more)
    ensures forall id, key, n :: DecodedBytes([Accepted(id, Image(key, Some(n)))]) == n
  {
    if more == [] {
      EmptyIsUnit(accepted);
    } else {
      var front, last := more[..|more| - 1], more[|more| - 1];
      DecodedBytesAdd(accepted, front);
      assert (accepted + more)[..|accepted + more| - 1] == accepted + front;
    }
    assert forall id, key, n :: DecodedBytes([Accepted(id, Image(key, Some(n)))][..0]) == 0;
  }

  /**
   * What the line about a found image must say, when a slot is left or not and the accepted images decode to
   * `held` bytes: it is queued exactly with a slot, and where all are held at once only if its size is known
   * and fits the budget beside them; it is refused for bytes exactly if it is over.
   */
  ghost predicate Decided(limit: Limit, left: bool, held: nat, image: Image, line: Line) {
    match limit.holding
    case OneAtATime => if left then line.Queued? else WantsAllowance(line)
    case AllAtOnce(budget) =>
      if !left then WantsAllowance(line)
      else if image.decoded.None? then line.NotQueued? && line.refusal == Storage
      else if held + image.decoded.value <= budget then line.Queued?
      else line.NotQueued? && line.refusal == ByteBudget(budget)
  }

  /** Sends that used up a slot among the first `n` answers: all but those the store knew nothing of. */
  function Spends(lookups: seq<Lookup>, n: nat): nat {
    if n == 0 then 0 else Spends(lookups, n - 1) + if Nth(lookups, n - 1, Nothing).Nothing? then 0 else 1
  }

  lemma {:induction false} SpendsBounded(lookups: seq<Lookup>, n: nat)
    ensures Spends(lookups, n) <= n
  {
    if 0 < n { SpendsBounded(lookups, n - 1); }
  }

  predicate Undelivered(disposition: Disposition, index: nat) {
    match disposition
    case Abandoned => true
    case Failed => true
    case Delivered => false
    case Partial(failed) => index in failed
  }

  /** One of the first `n` was not delivered: there is one, and either none was delivered or it is among the failed. */
  lemma UndeliveredMeans(disposition: Disposition, n: nat)
    ensures (exists i :: 0 <= i < n && Undelivered(disposition, i)) <==>
      && 0 < n && !disposition.Delivered?
      && (disposition.Partial? ==> exists i: nat :: i < n && i in disposition.failed)
  {
    if 0 < n && (disposition.Abandoned? || disposition.Failed?) {
      assert Undelivered(disposition, 0);
    }
    if disposition.Partial? && exists i: nat :: i < n && i in disposition.failed {
      var i: nat :| i < n && i in disposition.failed;
      assert Undelivered(disposition, i);
    }
  }

  function QueuedHere(id: nat, lookup: Lookup, line: Line): seq<Accepted> {
    if line.Queued? && lookup.Found? then [Accepted(id, lookup.image)] else []
  }

  /** What these lines say was queued, in order. */
  function QueuedAmong(sent: seq<nat>, lookups: seq<Lookup>, lines: seq<Line>): seq<Accepted>
    requires |lines| <= |sent|
  {
    if lines == [] then []
    else
      var n := |lines| - 1;
      QueuedAmong(sent, lookups, lines[..n]) + QueuedHere(sent[n], Nth(lookups, n, Nothing), lines[n])
  }

  lemma NoneQueued(sent: seq<nat>, lookups: seq<Lookup>)
    ensures QueuedAmong(sent, lookups, []) == []
  {
  }

  lemma QueuedNext(sent: seq<nat>, lookups: seq<Lookup>, lines: seq<Line>, line: Line)
    requires |lines| < |sent|
    ensures QueuedAmong(sent, lookups, lines + [line]) ==
            QueuedAmong(sent, lookups, lines) + QueuedHere(sent[|lines|], Nth(lookups, |lines|, Nothing), line)
  {
    assert (lines + [line])[..|lines|] == lines;
  }

  /** The i-th line is as it must be, given the slots spent and the images accepted before it. */
  ghost predicate DecidedAt(
    limit: Limit, accepted: seq<Accepted>, spent: nat, sent: seq<nat>, lookups: seq<Lookup>, lines: seq<Line>, i: nat)
    requires i < |lines| <= |sent|
  {
    match Nth(lookups, i, Nothing)
    case Found(image) =>
      Decided(limit, spent + Spends(lookups, i) < limit.count,
              DecodedBytes(accepted + QueuedAmong(sent, lookups, lines[..i])), image, lines[i])
    case Nothing => lines[i] == Silent
    case Fails => lines[i] == NotQueued(sent[i], Storage)
  }

  lemma DecidedNext(
    limit: Limit, accepted: seq<Accepted>, spent: nat, sent: seq<nat>, lookups: seq<Lookup>, lines: seq<Line>,
    line: Line)
    requires |lines| < |sent|
    requires forall k | 0 <= k < |lines| :: DecidedAt(limit, accepted, spent, sent, lookups, lines, k)
    requires match Nth(lookups, |lines|, Nothing)
             case Found(image) =>
               Decided(limit, spent + Spends(lookups, |lines|) < limit.count,
                       DecodedBytes(accepted + QueuedAmong(sent, lookups, lines)), image, line)
             case Nothing => line == Silent
             case Fails => line == NotQueued(sent[|lines|], Storage)
    ensures forall k | 0 <= k < |lines| + 1 :: DecidedAt(limit, accepted, spent, sent, lookups, lines + [line], k)
  {
    hide Decided, QueuedAmong, DecodedBytes, Spends;
    var longer := lines + [line];
    forall k | 0 <= k < |longer| ensures DecidedAt(limit, accepted, spent, sent, lookups, longer, k) {
      if k < |lines| {
        assert DecidedAt(limit, accepted, spent, sent, lookups, lines, k);
        assert longer[..k] == lines[..k];
      } else {
        assert longer[..k] == lines;
      }
    }
  }

  class ReplyAttachments {
    const limit: Limit

    var images: seq<Image>
    var ids: seq<nat>
    var spent: Byte8
    var bytes: nat
    var finished: bool
    var failuresReported: nat

    ghost var accepted: seq<Accepted>
    ghost var taken: seq<Image>

    /** Holds between any two critical sections, whatever their order. */
    ghost predicate Valid()
      reads this
    {
      && ids == Ids(accepted)
      && taken + images == Images(accepted)
      && |accepted| <= spent && |accepted| <= limit.count
      && match limit.holding
         case OneAtATime => bytes == 0
         case AllAtOnce(budget) =>
           && bytes == DecodedBytes(accepted) <= budget
           && forall i | 0 <= i < |accepted| :: accepted[i].image.decoded.Some?
    }

    constructor (limit: Limit)
      ensures Valid() && fresh(this) && this.limit == limit
      ensures spent == 0 && ids == [] && images == [] && !finished && failuresReported == 0
    {
      this.limit := limit;
      images, ids, spent, bytes, finished, failuresReported := [], [], 0, 0, false, 0;
      accepted, taken := [], [];
    }

    function Remaining(): (n: nat)
      reads this
      ensures spent <= limit.count ==> spent + n == limit.count
      ensures limit.count < spent ==> n == 0
    {
      if spent <= limit.count then limit.count - spent else 0
    }

    /** Hands over what is queued; it is not queued any more. */
    method Take() returns (queued: seq<Image>)
      requires Valid()
      modifies this`images, this`taken
      ensures Valid() && images == [] && taken == old(taken) + queued && queued == old(images)
    {
      queued := images;
      taken := taken + images;
      images := [];
    }

    /** What becomes of an image offered in this state. */
    ghost function Fate(image: Image): Admitted
      reads this
    {
      if limit.count <= spent then Refused(Allowance(limit.count))
      else match limit.holding
           case OneAtATime => Position(|ids| + 1)
           case AllAtOnce(budget) =>
             if image.decoded.None? then Refused(Storage)
             else if budget < bytes + image.decoded.value then Refused(ByteBudget(budget))
             else Position(|ids| + 1)
    }

    /** Queues an image if a slot and the byte budget allow; any other refusal still costs the slot. */
    method Admit(id: nat, image: Image) returns (result: Admitted)
      requires Valid()
      modifies this`spent, this`bytes, this`ids, this`images, this`accepted
      ensures Valid() && result == old(Fate(image))
      ensures result.Position? <==>
        && old(spent) < limit.count
        && (limit.holding.OneAtATime?
            || (image.decoded.Some? && DecodedBytes(old(accepted)) + image.decoded.value <= limit.holding.bytes))
      ensures result.Refused? && result.refusal.ByteBudget? <==>
        && old(spent) < limit.count && limit.holding.AllAtOnce? && image.decoded.Some?
        && limit.holding.bytes < DecodedBytes(old(accepted)) + image.decoded.value
      ensures result.Refused? && result.refusal == Storage <==>
        old(spent) < limit.count && limit.holding.AllAtOnce? && image.decoded.None?
      ensures result.Position? ==> result.n == |accepted| == |old(accepted)| + 1
      ensures spent == old(spent) + if old(spent) < limit.count then 1 else 0
      ensures result.Position? ==>
        accepted == old(accepted) + [Accepted(id, image)] && ids == old(ids) + [id] && images == old(images) + [image]
      ensures result.Refused? ==>
        accepted == old(accepted) && ids == old(ids) && images == old(images) && bytes == old(bytes)
    {
      if limit.count <= spent {
        return Refused(Allowance(limit.count));
      }
      spent := spent + 1;
      match limit.holding {
        case OneAtATime =>
        case AllAtOnce(budget) =>
          if image.decoded.None? {
            return Refused(Storage);
          }
          if budget < bytes + image.decoded.value {
            return Refused(ByteBudget(budget));
          }
          bytes := bytes + image.decoded.value;
      }
      ids := ids + [id];
      images := images + [image];
      assert taken + images == taken + old(images) + [image];
      accepted := accepted + [Accepted(id, image)];
      assert accepted[..|accepted| - 1] == old(accepted);
      result := Position(|ids|);
    }

    /** A send the store failed on: it cost broker allowance all the same. */
    method SpendFailed()
      requires Valid()
      modifies this`spent
      ensures Valid() && spent == if old(spent) == 255 then 255 else old(spent) + 1
    {
      spent := if spent == 255 then 255 else spent + 1;
    }

    method ReportFailure()
      requires Valid()
      modifies this`failuresReported
      ensures Valid() && failuresReported == old(failuresReported) + 1
    {
      failuresReported := failuresReported + 1;
    }

    /** One send the broker accepted. */
    method ReceiveSend(id: nat, lookup: Lookup) returns (line: Line)
      requires Valid()
      modifies this
      ensures Valid() && taken == old(taken) && old(accepted) <= accepted && finished == old(finished)
      ensures WantsAllowance(line) <==> lookup.Found? && limit.count <= old(spent)
      ensures failuresReported == old(failuresReported) + if line.NotQueued? then 1 else 0
      ensures match lookup
              case Nothing => line == Silent && spent == old(spent) && accepted == old(accepted)
              case Fails =>
                && line == NotQueued(id, Storage) && accepted == old(accepted)
                && spent == if old(spent) == 255 then 255 else old(spent) + 1
              case Found(image) =>
                && spent == old(spent) + (if old(spent) < limit.count then 1 else 0)
                && line == LineFor(id, old(Fate(image)), limit.count)
                && Decided(limit, old(spent) < limit.count, DecodedBytes(old(accepted)), image, line)
                && (line.Queued? ==> line == Queued(id, |old(accepted)| + 1, limit.count))
                && accepted == if line.Queued? then old(accepted) + [Accepted(id, image)] else old(accepted)
      ensures accepted == old(accepted) + QueuedHere(id, lookup, line)
    {
      match lookup {
        case Nothing =>
          return Silent;
        case Fails =>
          SpendFailed();
          line := NotQueued(id, Storage);
        case Found(image) =>
          var result := Admit(id, image);
          if result.Position? {
            return Queued(id, result.n, limit.count);
          }
          line := NotQueued(id, result.refusal);
      }
      ReportFailure();
    }

    /**
     * The sends of one invocation, in order. A send is refused for want of allowance exactly when
     * the slots spent before it already reach the limit.
     */
    method ReceiveSends(sent: seq<nat>, lookups: seq<Lookup>) returns (lines: seq<Line>)
      requires Valid()
      modifies this
      ensures Valid() && |lines| == |sent| && taken == old(taken)
      ensures accepted == old(accepted) + QueuedAmong(sent, lookups, lines)
      ensures RefusedWhenSpent(lines, lookups, old(spent), limit.count)
      ensures forall i | 0 <= i < |sent| :: DecidedAt(limit, old(accepted), old(spent), sent, lookups, lines, i)
      ensures Counts(spent, old(spent) + Spends(lookups, |sent|), limit.count)
    {
      hide Ids, Images, DecodedBytes, WantsAllowance, LineFor, Fate, QueuedAmong, Decided;
      lines := [];
      NoneQueued(sent, lookups);
      EmptyIsUnit(accepted);
      for i := 0 to |sent|
        invariant Valid() && |lines| == i && taken == old(taken)
        invariant accepted == old(accepted) + QueuedAmong(sent, lookups, lines)
        invariant Counts(spent, old(spent) + Spends(lookups, i), limit.count)
        invariant RefusedWhenSpent(lines, lookups, old(spent), limit.count)
        invariant forall k | 0 <= k < i :: DecidedAt(limit, old(accepted), old(spent), sent, lookups, lines, k)
      {
        var line := ReceiveSend(sent[i], Nth(lookups, i, Nothing));
        QueuedNext(sent, lookups, lines, line);
        DecidedNext(limit, old(accepted), old(spent), sent, lookups, lines, line);
        Associative(old(accepted), QueuedAmong(sent, lookups, lines),
                    QueuedHere(sent[i], Nth(lookups, i, Nothing), line));
        lines := lines + [line];
      }
    }

    /** Ends the reply's attachments once: the store hears of it exactly if some accepted one was not delivered. */
    method Finish(disposition: Disposition)
      requires Valid()
      modifies this`finished, this`failuresReported
      ensures Valid() && finished
      ensures failuresReported == old(failuresReported) +
        if !old(finished) && (exists i :: 0 <= i < |accepted| && Undelivered(disposition, i)) then 1 else 0
      ensures !old(finished) ==>
        (failuresReported != old(failuresReported) <==>
           && accepted != [] && !disposition.Delivered?
           && (disposition.Partial? ==> exists i: nat :: i < |accepted| && i in disposition.failed))
    {
      if finished {
        return;
      }
      finished := true;
      var undelivered := false;
      for index := 0 to |ids|
        invariant undelivered <==> exists i :: 0 <= i < index && Undelivered(disposition, i)
      {
        undelivered := undelivered || Undelivered(disposition, index);
      }
      UndeliveredMeans(disposition, |accepted|);
      if undelivered {
        ReportFailure();
      }
    }
  }

  // Any interleaving of the critical sections.

  datatype Step = Sends(id: nat, lookup: Lookup) | Takes | Ends(disposition: Disposition)

  /** What the steps ask for, in order; a step that sends nothing costs nothing. */
  function SentIn(steps: seq<Step>): seq<nat> {
    seq(|steps|, i requires 0 <= i < |steps| => if steps[i].Sends? then steps[i].id else 0)
  }

  function LookupsIn(steps: seq<Step>): seq<Lookup> {
    seq(|steps|, i requires 0 <= i < |steps| => if steps[i].Sends? then steps[i].lookup else Nothing)
  }

  predicate SomeEnd(steps: seq<Step>) {
    exists i :: 0 <= i < |steps| && steps[i].Ends?
  }

  /** One critical section. */
  method TakeStep(attachments: ReplyAttachments, step: Step) returns (line: Line)
    requires attachments.Valid()
    modifies attachments
    ensures attachments.Valid() && old(attachments.taken) <= attachments.taken
    ensures attachments.finished == (old(attachments.finished) || step.Ends?)
    ensures var lookup := if step.Sends? then step.lookup else Nothing;
            var id := if step.Sends? then step.id else 0;
            && attachments.accepted == old(attachments.accepted) + QueuedHere(id, lookup, line)
            && (WantsAllowance(line) <==> lookup.Found? && attachments.limit.count <= old(attachments.spent))
            && (lookup.Nothing? ==> attachments.spent == old(attachments.spent))
            && (!lookup.Nothing? && old(attachments.spent) < attachments.limit.count ==>
                  attachments.spent == old(attachments.spent) + 1)
            && (attachments.limit.count <= old(attachments.spent) ==> attachments.limit.count <= attachments.spent)
            && match lookup
               case Found(image) =>
                 Decided(attachments.limit, old(attachments.spent) < attachments.limit.count,
                         DecodedBytes(old(attachments.accepted)), image, line)
               case Nothing => line == Silent
               case Fails => line == NotQueued(id, Storage)
    ensures step.Takes? ==>
      attachments.images == [] && attachments.taken == old(attachments.taken) + old(attachments.images)
  {
    hide Ids, Images, DecodedBytes;
    line := Silent;
    EmptyIsUnit(attachments.accepted);
    match step {
      case Sends(id, lookup) =>
        line := attachments.ReceiveSend(id, lookup);
      case Takes =>
        var queued := attachments.Take();
      case Ends(disposition) =>
        attachments.Finish(disposition);
    }
  }

  /**
   * Whatever order concurrent invocations, the delivery and the end of the turn come in: what is
   * accepted is what the lines say, in order; no more is accepted than the limit allows; queued and
   * taken images are the accepted ones; what is held stays within the byte budget; and a send wants
   * allowance exactly if the slots spent before it reach the limit.
   */
  method Interleave(attachments: ReplyAttachments, steps: seq<Step>) returns (lines: seq<Line>)
    requires attachments.Valid()
    modifies attachments
    ensures attachments.Valid() && |lines| == |steps|
    ensures |attachments.ids| <= attachments.limit.count
    ensures attachments.taken + attachments.images == Images(attachments.accepted)
    ensures old(attachments.taken) <= attachments.taken
    ensures attachments.accepted == old(attachments.accepted) + QueuedAmong(SentIn(steps), LookupsIn(steps), lines)
    ensures RefusedWhenSpent(lines, LookupsIn(steps), old(attachments.spent), attachments.limit.count)
    ensures forall i | 0 <= i < |steps| ::
      DecidedAt(attachments.limit, old(attachments.accepted), old(attachments.spent), SentIn(steps), LookupsIn(steps),
                lines, i)
    ensures attachments.finished == (old(attachments.finished) || SomeEnd(steps))
  {
    hide Ids, Images, DecodedBytes, WantsAllowance, QueuedAmong, QueuedHere, Decided;
    ghost var sent, lookups := SentIn(steps), LookupsIn(steps);
    lines := [];
    NoneQueued(sent, lookups);
    EmptyIsUnit(attachments.accepted);
    for i := 0 to |steps|
      invariant attachments.Valid() && |lines| == i && old(attachments.taken) <= attachments.taken
      invariant attachments.accepted == old(attachments.accepted) + QueuedAmong(sent, lookups, lines)
      invariant Counts(attachments.spent, old(attachments.spent) + Spends(lookups, i), attachments.limit.count)
      invariant RefusedWhenSpent(lines, lookups, old(attachments.spent), attachments.limit.count)
      invariant forall k | 0 <= k < i ::
        DecidedAt(attachments.limit, old(attachments.accepted), old(attachments.spent), sent, lookups, lines, k)
      invariant attachments.finished == (old(attachments.finished) || SomeEnd(steps[..i]))
    {
      assert steps[..i + 1] == steps[..i] + [steps[i]];
      EndsNext(steps[..i], steps[i]);
      var line := TakeStep(attachments, steps[i]);
      QueuedNext(sent, lookups, lines, line);
      DecidedNext(attachments.limit, old(attachments.accepted), old(attachments.spent), sent, lookups, lines, line);
      Associative(old(attachments.accepted), QueuedAmong(sent, lookups, lines), QueuedHere(sent[i], lookups[i], line));
      lines := lines + [line];
    }
    assert steps[..|steps|] == steps;
    QueueFits(attachments);
  }

  lemma QueueFits(attachments: ReplyAttachments)
    requires attachments.Valid()
    ensures |attachments.ids| <= attachments.limit.count
  {
  }

  lemma EndsNext(steps: seq<Step>, step: Step)
    ensures SomeEnd(steps + [step]) <==> SomeEnd(steps) || step.Ends?
  {
    assert (steps + [step])[|steps|] == step;
    assert forall i | 0 <= i < |steps| :: (steps + [step])[i] == steps[i];
  }
}
