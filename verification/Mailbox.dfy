/** The steering mailbox: messages people send while a session runs, and the seal that ends them. */
module Mailbox {
  import opened Text
  import opened Conversation
  import opened Capture

  datatype Steer = Person(prompt: string, recorded: string) | Notice(text: string)

  datatype Seal = Sealed(leftover: nat) | Stopped

  datatype Handoff = Steers(steers: seq<Steer>) | Closing(seal: Seal)

  /** A steer source, as the answer its n-th call gets, should that call be of this kind. */
  datatype SteerSource = SteerSource(take: seq<seq<Steer>>, sealOrTake: seq<Handoff>, seal: seq<Seal>)

  /**
   * A call that reached the source, with its answer; `offered` says whether the source could have
   * handed over steers instead of being sealed.
   */
  datatype Contact = Took(steers: seq<Steer>) | HandedOff(steers: seq<Steer>) | SealedWith(seal: Seal, offered: bool)

  function SteerMessage(steer: Steer): Message {
    match steer
    case Person(prompt, _) => User(prompt)
    case Notice(text) => User(text)
  }

  function SteerMessages(steers: seq<Steer>): seq<Message> {
    seq(|steers|, i requires 0 <= i < |steers| => SteerMessage(steers[i]))
  }

  /** The texts a record keeps: what people said, without notices. */
  function RecordedTexts(steers: seq<Steer>): seq<string> {
    if steers == [] then []
    else
      RecordedTexts(steers[..|steers| - 1]) +
      match steers[|steers| - 1]
      case Person(_, recorded) => [recorded]
      case Notice(_) => []
  }

  /** Every steer the source gave up over these contacts, in order. */
  function Handed(contacts: seq<Contact>): seq<Steer> {
    if contacts == [] then []
    else
      Handed(contacts[..|contacts| - 1]) +
      match contacts[|contacts| - 1]
      case Took(steers) => steers
      case HandedOff(steers) => steers
      case SealedWith(_, _) => []
  }

  lemma HandedAppend(contacts: seq<Contact>, contact: Contact)
    ensures Handed(contacts + [contact]) == Handed(contacts) + Handed([contact])
  {
    assert (contacts + [contact])[..|contacts|] == contacts;
    assert [contact][..0] == [];
  }

  /** How often the source was asked between turns, and kept a session going, and how many answers held steers. */
  datatype Asking = Asking(taken: nat, handoffs: nat, batches: nat) {
    function More(asked: nat, resumed: nat, steers: seq<Steer>): Asking {
      Asking(taken + asked, handoffs + resumed, batches + if steers == [] then 0 else 1)
    }
  }

  function Askings(contacts: seq<Contact>): Asking {
    if contacts == [] then Asking(0, 0, 0)
    else
      var before := Askings(contacts[..|contacts| - 1]);
      match contacts[|contacts| - 1]
      case Took(steers) => before.More(1, 0, steers)
      case HandedOff(steers) => before.More(0, 1, steers)
      case SealedWith(_, _) => before
  }

  lemma AskingsNext(contacts: seq<Contact>, contact: Contact)
    ensures Askings(contacts + [contact]) ==
            Askings(contacts).More(if contact.Took? then 1 else 0, if contact.HandedOff? then 1 else 0,
                                   if contact.SealedWith? then [] else contact.steers)
  {
    assert (contacts + [contact])[..|contacts|] == contacts;
  }

  predicate NeverSealed(contacts: seq<Contact>) {
    forall i | 0 <= i < |contacts| :: !contacts[i].SealedWith?
  }

  /** The source was sealed once, with this seal, and never asked again. */
  predicate SealedOnceAndLast(contacts: seq<Contact>, seal: Seal) {
    && contacts != []
    && contacts[|contacts| - 1].SealedWith? && contacts[|contacts| - 1].seal == seal
    && NeverSealed(contacts[..|contacts| - 1])
  }

  /** The answer this source gives to its n-th call, should it be of this kind. */
  function TakeAnswer(source: SteerSource, n: nat): seq<Steer> {
    Nth(source.take, n, [])
  }

  function HandoffAnswer(source: SteerSource, n: nat): Handoff {
    Nth(source.sealOrTake, n, Closing(Sealed(0)))
  }

  function SealAnswer(source: SteerSource, n: nat): Seal {
    Nth(source.seal, n, Sealed(0))
  }

  /** The contact is what this source answered to its n-th call. */
  predicate FromSource(source: SteerSource, contact: Contact, n: nat) {
    match contact
    case Took(steers) => steers == if n < |source.take| then source.take[n] else []
    case HandedOff(steers) => n < |source.sealOrTake| && source.sealOrTake[n] == Steers(steers)
    case SealedWith(seal, true) =>
      Closing(seal) == if n < |source.sealOrTake| then source.sealOrTake[n] else Closing(Sealed(0))
    case SealedWith(seal, false) => seal == if n < |source.seal| then source.seal[n] else Sealed(0)
  }

  /** Nothing was made up: every contact is the source's own answer, in order. */
  ghost predicate Genuine(source: Option<SteerSource>, contacts: seq<Contact>) {
    if source.None? then contacts == []
    else forall i | 0 <= i < |contacts| :: FromSource(source.value, contacts[i], i)
  }

  datatype State = Absent | Open | Closed(seal: Seal)

  /** The session's hold on the source. */
  class MailboxLease {
    const source: Option<SteerSource>
    var mailbox: State
    var staged: seq<string>
    var asked: nat
    ghost var contacts: seq<Contact>

    /** Every contact is genuine; open means never sealed, closed means sealed once and last. */
    ghost predicate Valid()
      reads this
    {
      && (mailbox.Absent? <==> source.None?)
      && asked == |contacts|
      && Genuine(source, contacts)
      && (mailbox.Open? ==> NeverSealed(contacts))
      && (mailbox.Closed? ==> SealedOnceAndLast(contacts, mailbox.seal))
    }

    constructor (source: Option<SteerSource>)
      ensures Valid() && this.source == source && contacts == [] && staged == []
      ensures mailbox == if source.Some? then Open else Absent
    {
      this.source := source;
      mailbox := if source.Some? then Open else Absent;
      staged := [];
      asked := 0;
      contacts := [];
    }

    predicate IsOpen()
      reads this
    {
      mailbox.Open?
    }

    /** Notes what the source answered to one more call. */
    method Note(ghost contact: Contact)
      requires Valid() && mailbox.Open? && FromSource(source.value, contact, asked)
      modifies this`contacts, this`asked
      ensures contacts == old(contacts) + [contact] && asked == |contacts| && Genuine(source, contacts)
      ensures if contact.SealedWith? then SealedOnceAndLast(contacts, contact.seal) else NeverSealed(contacts)
      ensures Handed(contacts) == old(Handed(contacts)) + if contact.SealedWith? then [] else contact.steers
      ensures Askings(contacts) ==
              old(Askings(contacts)).More(if contact.Took? then 1 else 0, if contact.HandedOff? then 1 else 0,
                                          if contact.SealedWith? then [] else contact.steers)
    {
      hide FromSource;
      HandedAppend(contacts, contact);
      AskingsNext(contacts, contact);
      ghost var before := contacts;
      contacts := contacts + [contact];
      assert contacts[..|before|] == before;
      asked := asked + 1;
    }

    /** Hands over whatever waits; a closed or absent mailbox is not asked. */
    method Take(messages: seq<Message>) returns (messages': seq<Message>, steers: seq<Steer>)
      requires Valid()
      modifies this
      ensures Valid() && mailbox == old(mailbox)
      ensures contacts == if old(mailbox).Open? then old(contacts) + [Took(steers)] else old(contacts)
      ensures Askings(contacts) == old(Askings(contacts)).More(if mailbox.Open? then 1 else 0, 0, steers)
      ensures Handed(contacts) == old(Handed(contacts)) + steers
      ensures messages' == messages + SteerMessages(steers)
      ensures staged == old(staged) + RecordedTexts(steers)
    {
      hide Genuine, Handed, Askings, NeverSealed, SealedOnceAndLast;
      if mailbox.Open? {
        var waiting := TakeAnswer(source.value, asked);
        Note(Took(waiting));
        messages' := Stage(waiting, messages);
        steers := waiting;
      } else {
        messages', steers := messages, [];
      }
    }

    /** Either takes what waits or, in the same call, closes the mailbox for good. */
    method SealOrTake(messages: seq<Message>)
      returns (seal: Option<Seal>, messages': seq<Message>, steers: seq<Steer>)
      requires Valid()
      modifies this
      ensures Valid()
      ensures Handed(contacts) == old(Handed(contacts)) + steers
      ensures Askings(contacts) == old(Askings(contacts)).More(0, if seal.None? then 1 else 0, steers)
      ensures messages' == messages + SteerMessages(steers)
      ensures staged == old(staged) + RecordedTexts(steers)
      ensures seal.None? ==> mailbox == old(mailbox) == Open && contacts == old(contacts) + [HandedOff(steers)]
      ensures seal.Some? ==>
        && steers == []
        && match old(mailbox)
           case Absent => mailbox == Absent && seal.value == Sealed(0) && contacts == old(contacts)
           case Closed(known) => mailbox == old(mailbox) && seal.value == known && contacts == old(contacts)
           case Open => mailbox == Closed(seal.value) && contacts == old(contacts) + [SealedWith(seal.value, true)]
    {
      hide Genuine, Handed, Askings, NeverSealed, SealedOnceAndLast;
      messages', steers := messages, [];
      match mailbox
      case Absent =>
        seal := Some(Sealed(0));
      case Closed(known) =>
        seal := Some(known);
      case Open =>
        match HandoffAnswer(source.value, asked)
        case Steers(waiting) =>
          Note(HandedOff(waiting));
          messages' := Stage(waiting, messages);
          steers := waiting;
          seal := None;
        case Closing(given) =>
          Note(SealedWith(given, true));
          mailbox := Closed(given);
          seal := Some(given);
    }

    /** Closes the mailbox; closing it again repeats the first answer without asking. */
    method Close() returns (seal: Seal)
      requires Valid()
      modifies this
      ensures Valid() && !mailbox.Open? && staged == old(staged)
      ensures Handed(contacts) == old(Handed(contacts)) && Askings(contacts) == old(Askings(contacts))
      ensures match old(mailbox)
              case Absent => mailbox == Absent && seal == Sealed(0) && contacts == old(contacts)
              case Closed(known) => mailbox == old(mailbox) && seal == known && contacts == old(contacts)
              case Open => mailbox == Closed(seal) && contacts == old(contacts) + [SealedWith(seal, false)]
    {
      hide Genuine, Handed, Askings, NeverSealed, SealedOnceAndLast;
      match mailbox
      case Absent =>
        seal := Sealed(0);
      case Closed(known) =>
        seal := known;
      case Open =>
        seal := SealAnswer(source.value, asked);
        Note(SealedWith(seal, false));
        mailbox := Closed(seal);
    }

    method Stage(steers: seq<Steer>, messages: seq<Message>) returns (messages': seq<Message>)
      modifies this`staged
      ensures messages' == messages + SteerMessages(steers)
      ensures staged == old(staged) + RecordedTexts(steers)
    {
      messages' := messages;
      for i := 0 to |steers|
        invariant messages' == messages + SteerMessages(steers[..i])
        invariant staged == old(staged) + RecordedTexts(steers[..i])
      {
        assert steers[..i + 1][..i] == steers[..i];
        match steers[i]
        case Person(prompt, recorded) =>
          messages' := messages' + [User(prompt)];
          staged := staged + [recorded];
        case Notice(text) =>
          messages' := messages' + [User(text)];
      }
      assert steers[..|steers|] == steers;
    }
  }

  /** The log entries a batch of steers becomes. */
  function SteerEntries(steers: seq<Steer>): seq<Entry> {
    seq(|steers|, i requires 0 <= i < |steers| => SteerEntry(steers[i]))
  }

  function SteerEntry(steer: Steer): Entry {
    match steer
    case Person(prompt, recorded) => PersonSteer(prompt, recorded)
    case Notice(text) => NoticeSteer(text)
  }

  function SteerItems(texts: seq<string>, cap: nat): seq<Item> {
    if texts == [] then []
    else SteerItems(texts[..|texts| - 1], cap) + [Capture.Steer(Keep(texts[|texts| - 1], cap))]
  }

  /** The steers of a log, in order. */
  function LoggedSteers(log: seq<Entry>): seq<Steer> {
    if log == [] then []
    else
      LoggedSteers(log[..|log| - 1]) +
      match log[|log| - 1]
      case PersonSteer(prompt, recorded) => [Person(prompt, recorded)]
      case NoticeSteer(text) => [Notice(text)]
      case _ => []
  }

  lemma LoggedSteersAppend(log: seq<Entry>, entry: Entry)
    ensures LoggedSteers(log + [entry]) == LoggedSteers(log) + LoggedSteers([entry])
  {
    assert (log + [entry])[..|log|] == log;
    assert [entry][..0] == [];
  }

  lemma SteersSplit(steers: seq<Steer>)
    requires steers != []
    ensures var front, last := steers[..|steers| - 1], steers[|steers| - 1];
            && SteerEntries(steers) == SteerEntries(front) + [SteerEntry(last)]
            && SteerMessages(steers) == SteerMessages(front) + [SteerMessage(last)]
            && steers == front + [last]
  {
  }

  /** Appending a batch of steers extends the message list by exactly that batch. */
  lemma {:induction false} StageExtendsMessages(log: seq<Entry>, steers: seq<Steer>)
    ensures Messages(log + SteerEntries(steers)) == Messages(log) + SteerMessages(steers)
    ensures LoggedSteers(log + SteerEntries(steers)) == LoggedSteers(log) + steers
  {
    if steers == [] {
      EmptyIsUnit(log);
      EmptyIsUnit(LoggedSteers(log));
    } else {
      var front, last := steers[..|steers| - 1], steers[|steers| - 1];
      StageExtendsMessages(log, front);
      SteersSplit(steers);
      Associative(log, SteerEntries(front), [SteerEntry(last)]);
      SteerAppend(log + SteerEntries(front), last, "", 0);
      Associative(Messages(log), SteerMessages(front), [SteerMessage(last)]);
      Associative(LoggedSteers(log), front, [last]);
    }
  }

  lemma SteerAppend(log: seq<Entry>, steer: Steer, key: string, cap: nat)
    ensures Messages(log + [SteerEntry(steer)]) == Messages(log) + [SteerMessage(steer)]
    ensures LoggedSteers(log + [SteerEntry(steer)]) == LoggedSteers(log) + [steer]
    ensures Items(log + [SteerEntry(steer)], key, cap)
            == Items(log, key, cap) + if steer.Person? then [Capture.Steer(Keep(steer.recorded, cap))] else []
    ensures Key(log + [SteerEntry(steer)], key) == Key(log, key)
  {
    Extend(log, SteerEntry(steer), key, cap);
    LoggedSteersAppend(log, SteerEntry(steer));
    assert [SteerEntry(steer)][..0] == [];
  }

  /** It extends the record by the texts people sent, and by nothing else. */
  lemma {:induction false} StageExtendsItems(log: seq<Entry>, steers: seq<Steer>, key: string, cap: nat)
    ensures Items(log + SteerEntries(steers), key, cap)
            == Items(log, key, cap) + SteerItems(RecordedTexts(steers), cap)
    ensures Key(log + SteerEntries(steers), key) == Key(log, key)
  {
    if steers == [] {
      EmptyIsUnit(log);
      EmptyIsUnit(Items(log, key, cap));
    } else {
      var front, last := steers[..|steers| - 1], steers[|steers| - 1];
      StageExtendsItems(log, front, key, cap);
      SteersSplit(steers);
      Associative(log, SteerEntries(front), [SteerEntry(last)]);
      SteerAppend(log + SteerEntries(front), last, key, cap);
      if last.Person? {
        SteerItemsAppend(RecordedTexts(front), last.recorded, cap);
        Associative(Items(log, key, cap), SteerItems(RecordedTexts(front), cap),
                    [Capture.Steer(Keep(last.recorded, cap))]);
      } else {
        EmptyIsUnit(RecordedTexts(front));
        EmptyIsUnit(Items(log + SteerEntries(front), key, cap));
      }
    }
  }

  lemma SteerItemsAppend(texts: seq<string>, text: string, cap: nat)
    ensures SteerItems(texts + [text], cap) == SteerItems(texts, cap) + [Capture.Steer(Keep(text, cap))]
  {
    assert (texts + [text])[..|texts|] == texts;
  }

  /** Steers owe nothing and leave nothing owed. */
  lemma {:induction false} SteersKeepNothingOwed(messages: seq<Message>, steers: seq<Steer>)
    requires Owed(messages) == Some([])
    ensures Owed(messages + SteerMessages(steers)) == Some([])
  {
    if steers == [] {
      assert messages + SteerMessages(steers) == messages;
    } else {
      var front, last := steers[..|steers| - 1], steers[|steers| - 1];
      SteersKeepNothingOwed(messages, front);
      assert messages + SteerMessages(steers) == (messages + SteerMessages(front)) + [SteerMessage(last)];
      OwedAppend(messages + SteerMessages(front), SteerMessage(last));
    }
  }
}
