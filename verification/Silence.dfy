/** What a silent ending can hide: work of scripts that nobody reported. */
module Silence {
  import opened Text
  import opened Conversation
  import opened Capture
  import opened Tools
  import opened Progress
  import opened Mailbox
  import opened Audit
  import opened Environment
  import opened Replay
  import opened PromptSession

  /** Some script among the first `n` used more capability calls than were used before it. */
  ghost predicate SomeScriptWorked(world: World, n: nat) {
    exists i: nat :: i < n && world.UsedAfter(i) < world.UsedAfter(i + 1)
  }

  ghost predicate CounterFell(world: World, n: nat) {
    exists i: nat :: i < n && world.UsedAfter(i + 1) < world.UsedAfter(i)
  }

  lemma {:induction false} NeverRoseStaysZero(world: World, n: nat)
    requires !SomeScriptWorked(world, n)
    ensures forall i: nat | i <= n :: world.UsedAfter(i) == 0
  {
    if 0 < n {
      NeverRoseStaysZero(world, n - 1);
      assert !(world.UsedAfter(n - 1) < world.UsedAfter(n - 1 + 1));
    }
  }

  lemma {:induction false} NeverFellFromZero(world: World, n: nat)
    requires !CounterFell(world, n) && world.UsedAfter(n) == 0
    ensures forall i: nat | i <= n :: world.UsedAfter(i) == 0
  {
    if 0 < n {
      assert !(world.UsedAfter(n - 1 + 1) < world.UsedAfter(n - 1));
      NeverFellFromZero(world, n - 1);
    }
  }

  /** The script results of a log. */
  function Scripts(config: Config, world: World, log: seq<Entry>): seq<Entry> {
    ResultsFrom(config, world, log, FromScript)
  }

  /**
   * Where silence is permitted only with no invocation counted, a log that ends in it hides no work of
   * the scripts in it exactly when the counter it trusts never fell over those scripts.
   */
  lemma SilenceHidesNothing(config: Config, world: World, log: seq<Entry>)
    requires Replays(config, world, log) && DueAt(config, world, PointOf(config, world, log)) == Silent
    requires config.mode == Optional
    ensures var n := |Scripts(config, world, log)|;
            !SomeScriptWorked(world, n) <==> !CounterFell(world, n)
  {
    hide DueAt, PointOf, ResultsFrom, Replays;
    ResultsInOrder(config, world, log, FromScript);
    SilentMeans(config, world, PointOf(config, world, log));
    var n := |Scripts(config, world, log)|;
    if !SomeScriptWorked(world, n) {
      NeverRoseStaysZero(world, n);
    }
    if !CounterFell(world, n) {
      NeverFellFromZero(world, n);
    }
  }

  /** Where nothing is due and no turn follows, nothing becomes due. */
  lemma {:induction false} IdleStays(config: Config, world: World, log: seq<Entry>, m: nat)
    requires m <= |log| && Replays(config, world, log) && LoggedTurns(log[..m]) == LoggedTurns(log)
    requires DueAt(config, world, PointOf(config, world, log[..m])) == Idle
    ensures DueAt(config, world, PointOf(config, world, log)) == Idle
    decreases |log|
  {
    hide DueAt;
    if m == |log| {
      assert log[..m] == log;
    } else {
      var front := log[..|log| - 1];
      assert front[..m] == log[..m];
      TurnsOnlyGrow(front, m);
      IdleStays(config, world, front, m);
    }
  }

  lemma {:induction false} TurnsOnlyGrow(log: seq<Entry>, m: nat)
    requires m <= |log|
    ensures LoggedTurns(log[..m]) <= LoggedTurns(log)
    decreases |log|
  {
    if m < |log| {
      assert log[..|log| - 1][..m] == log[..m];
      TurnsOnlyGrow(log[..|log| - 1], m);
    } else {
      assert log[..m] == log;
    }
  }

  /** A model call that fails is made, and leaves the session, where nothing is due. */
  lemma FailedWhileIdle(session: Session, s: Loop, cause: InferenceError)
    requires session.Good(s) && session.Recorded(s, s.modelCalls) && session.Explained(s, Model(cause))
    ensures session.Awaited(s) == Idle
  {
    hide AppendOnly, Followed, Reconstructs, AllPrepared, Replays, PointOf, DueAt, BytesAfter, LoggedTurns,
      CompletedCalls;
    var last := s.modelCalls - 1;
    assert BuiltAt(session.config, session.world, session.opening, s.log, s.requests[last], s.marks[last], last);
    IdleStays(session.config, session.world, s.log, s.marks[last]);
  }

  /**
   * However a session ends, unless it was stopped: it ends silent exactly if silence is due where its
   * log ends.
   */
  lemma SilentExactlyIfDue(session: Session, s: Loop, result: Result)
    requires session.Good(s) && session.Recorded(s, s.modelCalls) && result != Err(Cancelled)
    requires result.Ok? ==> session.EndedWell(s, result.outcome)
    requires result.Err? ==> session.Explained(s, result.error)
    ensures session.Awaited(s) == Due.Silent <==> result.Ok? && result.outcome.suppress
  {
    hide AppendOnly, Followed, Reconstructs, AllPrepared, Replays, DueAt, BytesAfter, LoggedTurns, CompletedCalls,
      EndsWith, Session.Declines;
    if session.Awaited(s) == Due.Silent {
      SilentMeans(session.config, session.world, session.At(s));
      if result.Err? && result.error.Model? {
        FailedWhileIdle(session, s, result.error.cause);
      }
    }
  }

  /**
   * The last turn of a session that was not stopped is a faultless request for silence: then the
   * session ends silent exactly if the mode and the work done permit it.
   */
  lemma SilenceIsGranted(session: Session, s: Loop, result: Result)
    requires session.Good(s) && session.Recorded(s, s.modelCalls) && result != Err(Cancelled)
    requires result.Ok? ==> session.EndedWell(s, result.outcome)
    requires result.Err? ==> session.Explained(s, result.error)
    requires session.config.mode != Required && s.log != [] && s.log[|s.log| - 1].ModelTurn?
    requires var calls := s.log[|s.log| - 1].turn.calls;
             && |calls| <= 10 && (exists i :: 0 <= i < |calls| && calls[i].name == "decline_chat_reply")
             && forall i | 0 <= i < |calls| :: Faultless(session.world, calls[i])
    ensures var world, at := session.world, session.At(s);
            var review, used := world.ReviewAt(at.turns), world.UsedAfter(at.used.ran);
            var permitted := match session.config.mode
                             case Required => false
                             case Optional => used == 0
                             case QuietReview => review.others == 0 && review.refreshes == used
                             case QuietDigest => true;
            && (result.Ok? && result.outcome.suppress <==> permitted)
            && (!permitted ==> result == Err(UnreportedCapabilityWork))
  {
    hide AppendOnly, AllBuilt, Followed, Reconstructs, AllPrepared, Replays, DueAt, BytesAfter, LoggedTurns,
      CompletedCalls, EndsWith, Session.Declines, Faultless;
    SilentExactlyIfDue(session, s, result);
    if result.Err? && result.error.Model? {
      FailedWhileIdle(session, s, result.error.cause);
    }
    SilenceByMode(session.config, session.world, session.At(s), s.log[|s.log| - 1].turn);
  }

  /** A turn that makes one call. */
  function Calling(name: string): Turn {
    Turn(None, None, None, [Call("c", name, "{}")])
  }

  /** The model runs two scripts and then asks for silence. */
  const TURNS := [Calling(SCRIPT), Calling(SCRIPT), Calling(DECLINE_REPLY)]

  /** That model, with a counter that falls back after the first. */
  const FORGETFUL := World(
    [Completed(TURNS[0]), Completed(TURNS[1]), Completed(TURNS[2])],
    [], [], ByUser, [], [], map[], map[], [ScriptReply("", 0, 1), ScriptReply("", 0, 0)], [], [])

  const QUIET := Config(5, Optional, Offer(false, false, false, false, false, false), false, 0, "", "", "")

  /** Everything such a session can log, in order. */
  function Story(): seq<Entry> {
    [ModelTurn(TURNS[0]), ScriptEntry(TURNS[0].calls[0], FORGETFUL.Run(0)),
     ModelTurn(TURNS[1]), ScriptEntry(TURNS[1].calls[0], FORGETFUL.Run(1)),
     ModelTurn(TURNS[2])]
  }

  /** Where the story stands after its first `k` entries. */
  function Chapter(k: nat): Point {
    if k == 0 then BEGINNING
    else if k == 1 then Point(1, Some(TURNS[0]), 0, Use(0, 0, 0, 0, None))
    else if k == 2 then Point(1, Some(TURNS[0]), 1, Use(0, 0, 1, 0, None))
    else if k == 3 then Point(2, Some(TURNS[1]), 0, Use(0, 0, 1, 0, None))
    else if k == 4 then Point(2, Some(TURNS[1]), 1, Use(0, 0, 2, 0, None))
    else Point(3, Some(TURNS[2]), 0, Use(0, 0, 2, 0, None))
  }

  /** How many turns the first `k` entries of the story hold. */
  function TurnsIn(k: nat): nat {
    if k == 0 then 0 else if k <= 2 then 1 else if k <= 4 then 2 else 3
  }

  lemma Names()
    ensures HandlerFor(QUIET.offer, SCRIPT) == ScriptRunner
    ensures !Declining(QUIET, Calling(SCRIPT)) && Declining(QUIET, Calling(DECLINE_REPLY))
    ensures !Blank("c")
  {
    assert |IMPROVEMENT| == 19 && |SCRIPT| == 4 && |DECLINE_REPLY| == 18;
    assert Calling(DECLINE_REPLY).calls[0].name == DECLINE_REPLY;
    assert "c"[0] == 'c';
  }

  /** What is due after each part of the story: the next result, a turn, and silence at its end. */
  lemma ChapterDue(k: nat)
    requires k <= 5
    ensures DueAt(QUIET, FORGETFUL, Chapter(k)) ==
            if k == 5 then Silent else if IsResult(Story()[k]) then Gives(Story()[k]) else Idle
    ensures k < 5 ==> Past(QUIET, FORGETFUL, Chapter(k), Story()[k]) == Chapter(k + 1)
  {
    hide HandlerFor, AsksSilence, Blank, ScriptText;
    Names();
    if k == 5 {
      var calls := Calling(DECLINE_REPLY).calls;
      assert calls[..0] == [] && DeclineFault(FORGETFUL, calls) == None;
      assert FORGETFUL.UsedAfter(2) == 0;
    }
  }

  /** The model's turns, in order, with nothing after them. */
  lemma {:induction false} TurnsAreThree(n: nat)
    ensures TurnsOf(FORGETFUL, n) == TURNS[..if n < 3 then n else 3]
    ensures CompletedCalls(FORGETFUL, n) == if n < 3 then n else 3
  {
    if 0 < n {
      TurnsAreThree(n - 1);
    }
  }

  /** Whatever fits next is the next entry of the story, and nothing fits after its end. */
  lemma StoryGoesOn(k: nat, entry: Entry)
    requires k <= 5 && Fits(QUIET, FORGETFUL, Chapter(k), entry) && (IsResult(entry) || entry.ModelTurn?)
    requires entry.ModelTurn? ==> TurnsIn(k) < 3 && entry.turn == TURNS[TurnsIn(k)]
    ensures k < 5 && entry == Story()[k] && Past(QUIET, FORGETFUL, Chapter(k), entry) == Chapter(k + 1)
    ensures TurnsIn(k + 1) == TurnsIn(k) + if entry.ModelTurn? then 1 else 0
  {
    hide DueAt, Past, Calling, ScriptText;
    ChapterDue(k);
  }

  /** A log without steers that replays and tells only what the model said is a part of the story. */
  lemma {:induction false} OnlyStory(log: seq<Entry>, n: nat)
    requires Replays(QUIET, FORGETFUL, log) && LoggedSteers(log) == [] && LoggedTurns(log) <= TurnsOf(FORGETFUL, n)
    ensures |log| <= 5 && log == Story()[..|log|]
    ensures PointOf(QUIET, FORGETFUL, log) == Chapter(|log|)
    ensures |LoggedTurns(log)| == TurnsIn(|log|)
    decreases |log|
  {
    hide Fits, Past, TurnsOf, Chapter, Story, TurnsIn, LoggedTurns, LoggedSteers;
    StoryLength();
    if log != [] {
      var front, entry := log[..|log| - 1], log[|log| - 1];
      Split(log);
      NextTurn(front, entry, n);
      OnlyStory(front, n);
      StoryGoesOn(|front|, entry);
      TakeNext(Story(), |front|);
    } else {
      FirstChapter();
    }
  }

  lemma FirstChapter()
    ensures Chapter(0) == BEGINNING && LoggedTurns([]) == [] && TurnsIn(0) == 0
  {
  }

  lemma StoryLength()
    ensures |Story()| == 5
  {
  }

  /** The last entry of a log without steers is none, and if it is a turn then the model's next one. */
  lemma NextTurn(front: seq<Entry>, entry: Entry, n: nat)
    requires LoggedSteers(front + [entry]) == [] && LoggedTurns(front + [entry]) <= TurnsOf(FORGETFUL, n)
    ensures LoggedSteers(front) == [] && LoggedTurns(front) <= TurnsOf(FORGETFUL, n)
    ensures var k := |LoggedTurns(front)|;
            && (IsResult(entry) || entry.ModelTurn?)
            && (entry.ModelTurn? ==> k < 3 && entry.turn == TURNS[k])
            && |LoggedTurns(front + [entry])| == k + if entry.ModelTurn? then 1 else 0
  {
    hide TurnsOf, Calling, LoggedTurns, LoggedSteers;
    TurnsNext(front, entry);
    TurnsAreThree(n);
    NoSteerLast(front, entry);
    var k := |LoggedTurns(front)|;
    if entry.ModelTurn? {
      assert entry.turn == LoggedTurns(front + [entry])[k] == TurnsOf(FORGETFUL, n)[k];
    }
  }

  lemma NoSteerLast(front: seq<Entry>, entry: Entry)
    requires LoggedSteers(front + [entry]) == []
    ensures LoggedSteers(front) == [] && (IsResult(entry) || entry.ModelTurn?)
  {
    assert (front + [entry])[..|front|] == front;
  }

  /** A fourth model call would find the request for silence unanswered. */
  lemma NeverAskedAgain(session: Session, s: Loop)
    requires session.config == QUIET && session.world == FORGETFUL
    requires session.Good(s) && LoggedSteers(s.log) == [] && LoggedTurns(s.log) <= TurnsOf(FORGETFUL, s.modelCalls)
    ensures s.modelCalls <= 3
  {
    hide AppendOnly, Reconstructs, AllPrepared, Replays, PointOf, DueAt, BytesAfter, LoggedTurns, TurnsOf,
      LoggedSteers, CompletedCalls, Session.Recorded, Session.Nearly, Session.Consistent;
    if 3 < s.modelCalls {
      var mark := s.marks[3];
      assert BuiltAt(QUIET, FORGETFUL, session.opening, s.log, s.requests[3], mark, 3);
      TurnsAreThree(3);
      PartsReplay(s.log, mark);
      OnlyStory(s.log[..mark], 3);
      ChapterDue(5);
    }
  }

  /** A part of a log that replays without steers is one itself. */
  lemma {:induction false} PartsReplay(log: seq<Entry>, n: nat)
    requires n <= |log| && Replays(QUIET, FORGETFUL, log) && LoggedSteers(log) == []
    ensures Replays(QUIET, FORGETFUL, log[..n]) && LoggedSteers(log[..n]) == []
    decreases |log|
  {
    if n < |log| {
      assert log[..|log| - 1][..n] == log[..n];
      PartsReplay(log[..|log| - 1], n);
    } else {
      assert log[..n] == log;
    }
  }

  /** Nobody stops such a session. */
  lemma NobodyStops(session: Session, s: Loop, result: Result)
    requires session.world == FORGETFUL && session.lease.source.None?
    requires session.MailboxDone(result) && session.Leaves(s, result)
    ensures result != Err(Cancelled)
  {
    hide CalllessTurns, Askings;
  }

  lemma NoSteers(session: Session, s: Loop, result: Result)
    requires session.lease.source.None? && session.MailboxDone(result)
    requires LoggedSteers(s.log) == Handed(session.lease.contacts)
    ensures LoggedSteers(s.log) == []
  {
  }

  /** The story has two scripts in it, and the counter rose over the first and fell over the second. */
  lemma WorkHidden(log: seq<Entry>)
    requires log == Story() && Replays(QUIET, FORGETFUL, log) && PointOf(QUIET, FORGETFUL, log) == Chapter(5)
    ensures |Scripts(QUIET, FORGETFUL, log)| == 2
    ensures SomeScriptWorked(FORGETFUL, 2) && CounterFell(FORGETFUL, 2)
  {
    hide Replays, PointOf, ResultsFrom, Story;
    ResultsInOrder(QUIET, FORGETFUL, log, FromScript);
    assert FORGETFUL.UsedAfter(0) < FORGETFUL.UsedAfter(0 + 1);
    assert FORGETFUL.UsedAfter(1 + 1) < FORGETFUL.UsedAfter(1);
  }

  /** Nothing in such a session goes wrong. */
  lemma NoErrorFits(session: Session, s: Loop, error: PromptError)
    requires session.config == QUIET && session.world == FORGETFUL
    requires session.Good(s) && LoggedSteers(s.log) == [] && session.Recorded(s, s.modelCalls)
    ensures session.Explained(s, error) ==> error == Cancelled
  {
    hide AppendOnly, AllBuilt, Followed, Reconstructs, AllPrepared, Replays, PointOf, DueAt, BytesAfter, TurnsOf,
      CompletedCalls, LoggedTurns, LoggedSteers, EndsWith;
    NeverAskedAgain(session, s);
    TurnsAreThree(s.modelCalls);
    OnlyStory(s.log, s.modelCalls);
    ChapterDue(|s.log|);
  }

  /** It ends silent, at the end of its story. */
  lemma OnlySilence(session: Session, s: Loop, outcome: PromptOutcome)
    requires session.config == QUIET && session.world == FORGETFUL
    requires session.Good(s) && LoggedSteers(s.log) == [] && session.Recorded(s, s.modelCalls)
    requires session.EndedWell(s, outcome)
    ensures s.log == Story() && outcome == PromptOutcome("", true, 3, 2, 0) && s.ran == 2
    ensures Replays(QUIET, FORGETFUL, s.log) && PointOf(QUIET, FORGETFUL, s.log) == Chapter(5)
  {
    hide AppendOnly, AllBuilt, Followed, Reconstructs, AllPrepared, Replays, PointOf, DueAt, BytesAfter, TurnsOf,
      CompletedCalls, LoggedTurns, LoggedSteers, EndsWith;
    TurnsAreThree(s.modelCalls);
    OnlyStory(s.log, s.modelCalls);
    ChapterDue(|s.log|);
    assert s.log[|s.log| - 1].turn.calls != [];
    assert Story()[..5] == Story();
    assert FORGETFUL.UsedAfter(2) == 0;
  }

  /**
   * A counter that falls back does hide work: this session runs two scripts, the first of which used a
   * capability call, and ends silent, whatever it was asked.
   */
  method RunForgetful(prompt: string, key: string, cap: nat) returns (result: Result, s: Loop)
    ensures result == Ok(PromptOutcome("", true, 3, 2, 0))
    ensures s.log == Story() && |Scripts(QUIET, FORGETFUL, s.log)| == 2 == s.ran
    ensures SomeScriptWorked(FORGETFUL, 2) && CounterFell(FORGETFUL, 2)
  {
    hide Session.Good, Session.Recorded, Session.EndedWell, Session.Explained, Session.Leaves, Session.MailboxDone,
      Session.Settled, Session.Reported, Messages, Items, ResultsFrom, Replays, PointOf;
    var captured, session;
    result, captured, s, session := RunPromptSession(
      Inputs(QUIET, None, None, "", None, prompt, None, key, cap, None), FORGETFUL, []);
    NobodyStops(session, s, result);
    NoSteers(session, s, result);
    if result.Err? {
      NoErrorFits(session, s, result.error);
    }
    OnlySilence(session, s, result.outcome);
    WorkHidden(s.log);
  }
}
