/** Progress notes and the streamed text of a turn. */
module Note {
  import opened Text

  const MAX_NOTE_CHARS: nat := 100
  const ELLIPSIS: char := '\U{2026}'
  const STREAM_BOUND_BYTES: nat := 8 * 1024

  /** Characters a note never shows: markup and mention signs, and invisible format characters. */
  predicate IsBanned(c: char) {
    || c in "<>@[]`"
    || 0x200B <= c as int <= 0x200F || 0x202A <= c as int <= 0x202E
    || 0x2060 <= c as int <= 0x2064 || 0x2066 <= c as int <= 0x2069 || c as int == 0xFEFF
  }

  predicate IsGap(c: char) {
    IsWhitespace(c) || IsControl(c)
  }

  // What a note is: the words of the permitted text, joined, and cut if too long.

  function Permitted(raw: string): string {
    if raw == [] then []
    else
      var front, last := Permitted(raw[..|raw| - 1]), raw[|raw| - 1];
      if IsBanned(last) then front else front + [last]
  }

  /** The maximal runs of characters between gaps. */
  function Words(text: string): seq<string> {
    if text == [] then []
    else
      var front, last := text[..|text| - 1], text[|text| - 1];
      var words := Words(front);
      if IsGap(last) then words
      else if front == [] || IsGap(front[|front| - 1]) || words == [] then words + [[last]]
      else words[..|words| - 1] + [words[|words| - 1] + [last]]
  }

  function Join(words: seq<string>): string {
    if words == [] then []
    else if |words| == 1 then words[0]
    else Join(words[..|words| - 1]) + " " + words[|words| - 1]
  }

  function TrimEnd(text: string): string {
    if text != [] && IsWhitespace(text[|text| - 1]) then TrimEnd(text[..|text| - 1]) else text
  }

  function Cut(text: string): string {
    if |text| <= MAX_NOTE_CHARS then text else TrimEnd(text[..MAX_NOTE_CHARS]) + [ELLIPSIS]
  }

  function Note(raw: string): Option<string> {
    var text := Join(Words(Permitted(raw)));
    if text == [] then None else Some(Cut(text))
  }

  // How the joined words grow by one character.

  predicate EndsInGap(text: string) {
    text != [] && IsGap(text[|text| - 1])
  }

  /** The joined words of a text and one more character. */
  lemma JoinedNext(text: string, c: char)
    ensures var joined := Join(Words(text));
            Join(Words(text + [c])) ==
            if IsGap(c) then joined
            else if joined != [] && EndsInGap(text) then joined + " " + [c]
            else joined + [c]
  {
    var words := Words(text);
    assert (text + [c])[..|text|] == text;
    WordsFilled(text);
    if !IsGap(c) {
      if text == [] || EndsInGap(text) || words == [] {
        assert (words + [[c]])[..|words|] == words;
      } else {
        var n := |words| - 1;
        var longer := words[..n] + [words[n] + [c]];
        assert longer[..n] == words[..n];
        JoinExtends(words, c);
      }
    }
  }

  lemma JoinExtends(words: seq<string>, c: char)
    requires words != []
    ensures Join(words[..|words| - 1] + [words[|words| - 1] + [c]]) == Join(words) + [c]
  {
    var n := |words| - 1;
    var longer := words[..n] + [words[n] + [c]];
    assert longer[..n] == words[..n];
    if n > 0 {
      Associative(Join(words[..n]) + " ", words[n], [c]);
    }
  }

  /** No word is empty, so only gaps join to nothing. */
  lemma {:induction false} WordsFilled(text: string)
    ensures Join(Words(text)) == [] <==> Words(text) == []
    ensures Words(text) == [] ==> text == [] || EndsInGap(text)
    ensures forall i | 0 <= i < |Words(text)| :: Words(text)[i] != []
  {
    if text != [] {
      WordsFilled(text[..|text| - 1]);
    }
    if Words(text) != [] {
      assert Words(text)[|Words(text)| - 1] != [];
    }
  }

  lemma {:induction false} JoinedGrows(text: string, n: nat)
    requires n <= |text|
    ensures Join(Words(text[..n])) <= Join(Words(text))
    decreases |text| - n
  {
    if n == |text| {
      assert text[..n] == text;
    } else {
      JoinedNext(text[..n], text[n]);
      assert text[..n] + [text[n]] == text[..n + 1];
      JoinedGrows(text, n + 1);
    }
  }

  lemma {:induction false} PermittedGrows(raw: string, n: nat)
    requires n <= |raw|
    ensures Permitted(raw[..n]) <= Permitted(raw)
    decreases |raw| - n
  {
    if n == |raw| {
      assert raw[..n] == raw;
    } else {
      assert raw[..n + 1][..n] == raw[..n];
      PermittedGrows(raw, n + 1);
    }
  }

  // Normal form.

  /** Words separated by single spaces; the last may still be followed by one. */
  predicate Spaced(text: string) {
    && (forall i | 0 <= i < |text| :: !IsBanned(text[i]) && (IsGap(text[i]) ==> text[i] == ' '))
    && (text != [] ==> !IsGap(text[0]))
    && (forall i | 0 < i < |text| :: !IsGap(text[i - 1]) || !IsGap(text[i]))
  }

  predicate Normal(text: string) {
    Spaced(text) && !EndsInGap(text)
  }

  lemma {:induction false} JoinedIsNormal(raw: string)
    ensures Normal(Join(Words(Permitted(raw))))
  {
    if raw != [] {
      var front, c := raw[..|raw| - 1], raw[|raw| - 1];
      JoinedIsNormal(front);
      JoinedNext(Permitted(front), c);
      if !IsBanned(c) && !IsGap(c) {
        NormalGrows(Join(Words(Permitted(front))), c);
      }
      hide Words, Join, IsBanned, IsGap, Normal;
    }
  }

  lemma NormalGrows(text: string, c: char)
    requires Normal(text) && !IsBanned(c) && !IsGap(c)
    ensures Normal(text + [c]) && (text != [] ==> Normal(text + " " + [c]))
  {
    assert IsGap(' ') && !IsBanned(' ');
    hide IsBanned, IsGap;
  }

  lemma {:induction false} SpacedIsKept(text: string)
    requires Spaced(text)
    ensures Permitted(text) == text
    ensures Join(Words(text)) == if EndsInGap(text) then text[..|text| - 1] else text
  {
    if text != [] {
      var front, c := text[..|text| - 1], text[|text| - 1];
      Split(text);
      SpacedIsKept(front);
      JoinedNext(front, c);
    }
  }

  lemma SpacedTrims(text: string)
    requires Spaced(text)
    ensures Normal(TrimEnd(text)) && TrimEnd(text) <= text
    ensures TrimEnd(text) == if EndsInGap(text) then text[..|text| - 1] else text
  {
    if EndsInGap(text) {
      var front := text[..|text| - 1];
      assert IsWhitespace(' ') && !EndsInGap(front);
      assert TrimEnd(text) == TrimEnd(front);
    }
  }

  lemma CutIsNormal(text: string)
    requires Normal(text)
    ensures Normal(Cut(text)) && |Cut(text)| <= MAX_NOTE_CHARS + 1 && Cut(Cut(text)) == Cut(text)
  {
    if MAX_NOTE_CHARS < |text| {
      var kept := text[..MAX_NOTE_CHARS];
      SpacedTrims(kept);
      var cut := TrimEnd(kept) + [ELLIPSIS];
      assert Normal(cut);
      if MAX_NOTE_CHARS < |cut| {
        assert cut[..MAX_NOTE_CHARS] == kept;
      }
    }
  }

  /**
   * A note is in normal form, at most 101 characters long, and making a note of it again changes
   * nothing; there is none exactly if nothing but gaps is permitted.
   */
  lemma NoteNormalForm(raw: string)
    ensures Note(raw).None? <==> forall i | 0 <= i < |raw| :: Skipped(raw[i])
    ensures Note(raw).Some? ==>
      && Normal(Note(raw).value) && 0 < |Note(raw).value| <= MAX_NOTE_CHARS + 1
      && Note(Note(raw).value) == Note(raw)
  {
    NothingKept(raw);
    JoinedIsNormal(raw);
    CutIsNormal(Join(Words(Permitted(raw))));
    if Note(raw).Some? {
      SpacedIsKept(Note(raw).value);
    }
  }

  predicate Skipped(c: char) {
    IsBanned(c) || IsGap(c)
  }

  lemma {:induction false} NothingKept(raw: string)
    ensures Join(Words(Permitted(raw))) == [] <==> forall i | 0 <= i < |raw| :: Skipped(raw[i])
  {
    if raw != [] {
      var front, c := raw[..|raw| - 1], raw[|raw| - 1];
      NothingKept(front);
      OneMore(front, c);
      hide Permitted, Words, Join, Skipped;
      Split(raw);
      assert forall i | 0 <= i < |front| :: front[i] == raw[i];
    }
  }

  lemma OneMore(raw: string, c: char)
    ensures Join(Words(Permitted(raw + [c]))) == [] <==> Join(Words(Permitted(raw))) == [] && Skipped(c)
  {
    JoinedNext(Permitted(raw), c);
    hide Words, Join, IsBanned, IsGap;
    assert (raw + [c])[..|raw|] == raw;
  }

  // The note, character by character.

  /** A visible character, and whether a gap lies between it and the visible one before it. */
  datatype Mark = Mark(c: char, gap: bool)

  /** A gap has come since the last visible character. */
  predicate GapPending(raw: string) {
    raw != [] &&
    var front, last := raw[..|raw| - 1], raw[|raw| - 1];
    if IsBanned(last) then GapPending(front) else IsGap(last)
  }

  /** The characters a note may show, each with the gap before it; banned ones are as if they were not there. */
  function Marks(raw: string): seq<Mark> {
    if raw == [] then []
    else
      var front, last := raw[..|raw| - 1], raw[|raw| - 1];
      if IsBanned(last) || IsGap(last) then Marks(front)
      else Marks(front) + [Mark(last, Marks(front) != [] && GapPending(front))]
  }

  /** The marks written out, a gap as one space. */
  function Spell(marks: seq<Mark>): string {
    if marks == [] then []
    else
      var last := marks[|marks| - 1];
      Spell(marks[..|marks| - 1]) + (if last.gap then " " else "") + [last.c]
  }

  lemma {:induction false} PendingIsEnd(raw: string)
    ensures GapPending(raw) <==> EndsInGap(Permitted(raw))
  {
    if raw != [] {
      PendingIsEnd(raw[..|raw| - 1]);
    }
  }

  lemma SpellNext(marks: seq<Mark>, mark: Mark)
    ensures Spell(marks + [mark]) == Spell(marks) + (if mark.gap then " " else "") + [mark.c]
    ensures Spell(marks) == [] <==> marks == []
  {
    assert (marks + [mark])[..|marks|] == marks;
  }

  lemma {:induction false} JoinedIsSpelt(raw: string)
    ensures Join(Words(Permitted(raw))) == Spell(Marks(raw))
  {
    hide Words, Join, Spell, IsBanned, IsGap;
    if raw == [] {
      NothingYet();
      SpellNext([], Mark(' ', false));
    } else {
      var front, c := raw[..|raw| - 1], raw[|raw| - 1];
      JoinedIsSpelt(front);
      JoinedNext(Permitted(front), c);
      PendingIsEnd(front);
      var gap := Marks(front) != [] && GapPending(front);
      SpellNext(Marks(front), Mark(c, gap));
      assert Spell(Marks(front)) + "" + [c] == Spell(Marks(front)) + [c];
    }
  }

  /** Which characters a note shows, and which it takes for a gap. */
  lemma NoteAlphabet(c: char)
    ensures IsBanned(c) <==>
      || c == '<' || c == '>' || c == '@' || c == '[' || c == ']' || c == '`'
      || 8203 <= c as int <= 8207 || 8234 <= c as int <= 8238 || 8288 <= c as int <= 8292
      || 8294 <= c as int <= 8297 || c as int == 65279
    ensures IsGap(c) <==> IsWhitespace(c) || c as int < 32 || 127 <= c as int <= 159
  {
  }

  /**
   * A note is the visible characters of the text in order, with one space for each gap between them; when
   * that is longer than 100 characters, its first 100 without a space at their end, and an ellipsis.
   */
  lemma NoteSpells(raw: string)
    ensures var text := Spell(Marks(raw));
            Note(raw) ==
            if text == "" then None
            else if |text| <= 100 then Some(text)
            else if text[99] == ' ' then Some(text[..99] + "\U{2026}")
            else Some(text[..100] + "\U{2026}")
  {
    JoinedIsSpelt(raw);
    JoinedIsNormal(raw);
    hide Words, Join, Permitted, Marks, Spell, IsBanned;
    var text := Spell(Marks(raw));
    if 100 < |text| {
      var kept := text[..100];
      SpacedPart(text, 100);
      SpacedTrims(kept);
      assert IsGap(' ') && kept[99] == text[99];
      assert kept[..99] == text[..99];
    }
  }

  lemma SpacedPart(text: string, n: nat)
    requires Spaced(text) && n <= |text|
    ensures Spaced(text[..n])
  {
  }

  /** The note is already too long once a prefix of its text is. */
  lemma TooLong(raw: string, n: nat)
    requires n <= |raw| && MAX_NOTE_CHARS < |Join(Words(Permitted(raw[..n])))|
    ensures Note(raw) == Some(Cut(Join(Words(Permitted(raw[..n])))))
  {
    var some, all := Permitted(raw[..n]), Permitted(raw);
    PermittedGrows(raw, n);
    JoinedGrows(all, |some|);
    assert all[..|some|] == some;
    assert Join(Words(some))[..MAX_NOTE_CHARS] == Join(Words(all))[..MAX_NOTE_CHARS];
  }

  /** What one more character does to the text, if it does not end the note. */
  lemma NextCharacter(raw: string, n: nat)
    requires n < |raw|
    ensures var some, c := Permitted(raw[..n]), raw[n];
            && Permitted(raw[..n + 1]) == (if IsBanned(c) then some else some + [c])
            && Normal(Join(Words(some)))
            && Join(Words(some + [c])) ==
               if IsGap(c) then Join(Words(some))
               else if Join(Words(some)) != [] && EndsInGap(some) then Join(Words(some)) + " " + [c]
               else Join(Words(some)) + [c]
  {
    assert raw[..n + 1][..n] == raw[..n];
    JoinedIsNormal(raw[..n]);
    JoinedNext(Permitted(raw[..n]), raw[n]);
  }

  /** One pass over the raw text, a character at a time, that stops as soon as the note is full. */
  method MakeNote(raw: string) returns (note: Option<string>)
    ensures note == Note(raw)
  {
    hide Permitted, Words, Join, IsBanned, IsGap;
    var text: string := [];
    var separator := false;
    NothingYet();
    assert raw[..0] == [];
    for i := 0 to |raw|
      invariant text == Join(Words(Permitted(raw[..i]))) && |text| <= MAX_NOTE_CHARS
      invariant separator <==> text != [] && EndsInGap(Permitted(raw[..i]))
    {
      NextCharacter(raw, i);
      var c := raw[i];
      if IsBanned(c) {
        continue;
      }
      if IsGap(c) {
        separator := text != [];
        continue;
      }
      var spaced := text;
      if separator && |text| < MAX_NOTE_CHARS {
        spaced := text + " ";
      }
      if |spaced| == MAX_NOTE_CHARS {
        FullNote(raw, i, text, spaced);
        return Some(TrimEnd(spaced) + [ELLIPSIS]);
      }
      text := spaced + [c];
      separator := false;
    }
    assert raw[..|raw|] == raw;
    note := if text == [] then None else Some(text);
  }

  lemma NothingYet()
    ensures Join(Words(Permitted([]))) == []
  {
  }

  /** The note that is full: what it would have held next does not fit. */
  lemma FullNote(raw: string, n: nat, text: string, spaced: string)
    requires n < |raw| && !IsBanned(raw[n]) && !IsGap(raw[n])
    requires text == Join(Words(Permitted(raw[..n]))) && |spaced| == MAX_NOTE_CHARS
    requires var separator := text != [] && EndsInGap(Permitted(raw[..n]));
             spaced == if separator && |text| < MAX_NOTE_CHARS then text + " " else text
    ensures Note(raw) == Some(TrimEnd(spaced) + [ELLIPSIS])
  {
    NextCharacter(raw, n);
    hide Permitted, Words, Join, IsBanned, IsGap;
    var longer := Join(Words(Permitted(raw[..n + 1])));
    assert longer[..MAX_NOTE_CHARS] == spaced;
    TooLong(raw, n + 1);
  }

  // The streamed text of a turn.

  function Concat(deltas: seq<string>): string {
    if deltas == [] then [] else Concat(deltas[..|deltas| - 1]) + deltas[|deltas| - 1]
  }

  /** A forwarded piece of text and how many characters the turn has streamed with it. */
  datatype Delta = Delta(turn: nat, text: string, cumulativeChars: nat)

  lemma {:induction false} Utf8LenConcat(a: string, b: string)
    ensures Utf8Len(a + b) == Utf8Len(a) + Utf8Len(b)
  {
    if b == [] {
      EmptyIsUnit(a);
    } else {
      Utf8LenConcat(a, b[..|b| - 1]);
      Split(b);
      Associative(a, b[..|b| - 1], [b[|b| - 1]]);
      assert (a + b)[..|a + b| - 1] == a + b[..|b| - 1];
    }
  }

  lemma {:induction false} ConcatBytesGrow(deltas: seq<string>, m: nat, n: nat)
    requires m <= n <= |deltas|
    ensures Utf8Len(Concat(deltas[..m])) <= Utf8Len(Concat(deltas[..n]))
  {
    if m < n {
      ConcatBytesGrow(deltas, m, n - 1);
      assert deltas[..n][..n - 1] == deltas[..n - 1];
      Utf8LenConcat(Concat(deltas[..n - 1]), deltas[n - 1]);
    }
  }

  /** The deltas were forwarded as they came, up to where the stream passes its bound and no further. */
  predicate Forwards(turn: nat, deltas: seq<string>, sent: seq<Delta>) {
    && |sent| <= |deltas|
    && (forall i | 0 <= i < |sent| :: sent[i] == Delta(turn, deltas[i], |Concat(deltas[..i + 1])|))
    && Utf8Len(Concat(deltas[..|sent|])) <= STREAM_BOUND_BYTES
    && (|sent| < |deltas| ==> STREAM_BOUND_BYTES < Utf8Len(Concat(deltas[..|sent| + 1])))
  }

  class TurnStream {
    const turn: nat
    var text: string
    var chars: nat
    var boundPassed: bool
    var sent: seq<Delta>

    ghost var deltas: seq<string>

    ghost predicate Valid()
      reads this
    {
      && text == Concat(deltas) && chars == |text|
      && Forwards(turn, deltas, sent)
      && (boundPassed <==> |sent| < |deltas|)
    }

    constructor (turn: nat)
      ensures Valid() && this.turn == turn && deltas == [] && sent == []
    {
      this.turn := turn;
      text, chars, boundPassed, sent, deltas := [], 0, false, [], [];
    }

    /** Takes a delta; whether the model is told to stop depends on the cancellation alone. */
    method Observe(delta: string, cancelled: bool) returns (stop: bool)
      requires Valid()
      modifies this
      ensures Valid() && deltas == old(deltas) + [delta] && stop == cancelled
      ensures old(sent) <= sent
    {
      Append(delta);
      stop := cancelled;
    }

    method Append(delta: string)
      requires Valid()
      modifies this
      ensures Valid() && deltas == old(deltas) + [delta] && old(sent) <= sent
    {
      hide Utf8Len, Concat;
      chars := chars + |delta|;
      text := text + delta;
      deltas := deltas + [delta];
      ConcatNext(old(deltas), delta);
      StillForwards(turn, old(deltas), delta, sent);
      if boundPassed {
        return;
      }
      if STREAM_BOUND_BYTES < Utf8Len(text) {
        boundPassed := true;
        return;
      }
      sent := sent + [Delta(turn, delta, chars)];
    }
  }

  lemma ConcatNext(deltas: seq<string>, delta: string)
    ensures Concat(deltas + [delta]) == Concat(deltas) + delta
  {
    assert (deltas + [delta])[..|deltas|] == deltas;
  }

  /** One more delta leaves what was forwarded right, or asks for it to be forwarded too. */
  lemma StillForwards(turn: nat, deltas: seq<string>, delta: string, sent: seq<Delta>)
    requires Forwards(turn, deltas, sent)
    ensures var longer := deltas + [delta];
            && longer[..|deltas|] == deltas && longer[..|longer|] == longer
            && (|sent| < |deltas| || STREAM_BOUND_BYTES < Utf8Len(Concat(longer)) ==> Forwards(turn, longer, sent))
            && (|sent| == |deltas| && Utf8Len(Concat(longer)) <= STREAM_BOUND_BYTES ==>
                  Forwards(turn, longer, sent + [Delta(turn, delta, |Concat(longer)|)]))
  {
    hide Utf8Len, Concat;
    var longer := deltas + [delta];
    assert longer[..|longer|] == longer;
    forall k | 0 <= k <= |deltas| ensures longer[..k] == deltas[..k] { }
  }

  /** What is forwarded is the longest run of deltas from the start that stays within 8 KiB, each as it came. */
  lemma ForwardsLongest(turn: nat, deltas: seq<string>, sent: seq<Delta>, n: nat)
    requires Forwards(turn, deltas, sent) && n <= |deltas|
    ensures n <= |sent| <==> Utf8Len(Concat(deltas[..n])) <= 8192
    ensures n < |sent| ==> sent[n] == Delta(turn, deltas[n], |Concat(deltas[..n + 1])|)
  {
    if n <= |sent| {
      ConcatBytesGrow(deltas, n, |sent|);
    } else {
      ConcatBytesGrow(deltas, |sent| + 1, n);
    }
  }
}
