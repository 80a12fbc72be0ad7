/**
 * The transcript normaliser shared by the report server and the call-report
 * service (report.js and test.js carry identical copies): pick the transcript
 * field of a fetched call, remove the first message, then keep only the lines
 * spoken by the candidate (`USER:`) or the agent (`AI:`).
 */
module Transcript {
  import opened JsText
  import opened Seqs

  /** The placeholder used when a fetched call carries no transcript at all. */
  const Unavailable: string := "Transcript not available yet."

  /** One element of an array transcript: a bare string or a message object. */
  datatype Entry = Line(line: string) | Message(text: Option<string>)

  /** A transcript as the voice platform delivers it. */
  datatype RawTranscript = Text(text: string) | Entries(entries: seq<Entry>)

  /** The three places a fetched call may carry its transcript, in the order they are tried. */
  datatype CallData = CallData(
    transcript: Option<RawTranscript>,          // data.transcript
    artifactTranscript: Option<RawTranscript>,  // data.artifact?.transcript
    firstCallTranscript: Option<RawTranscript>  // data.call?.transcripts?.[0]?.text
  )

  /** JavaScript truthiness of a transcript value: only the empty string is falsy. */
  predicate IsTruthy(t: Option<RawTranscript>) {
    t.Some? && (t.value.Text? ==> t.value.text != "")
  }

  /** `a || b || c || "Transcript not available yet."`. */
  function PickTranscript(d: CallData): (t: RawTranscript)
    ensures IsTruthy(d.transcript) ==> t == d.transcript.value
    ensures !IsTruthy(d.transcript) && IsTruthy(d.artifactTranscript) ==> t == d.artifactTranscript.value
    ensures !IsTruthy(d.transcript) && !IsTruthy(d.artifactTranscript) ==>
              t == if IsTruthy(d.firstCallTranscript) then d.firstCallTranscript.value else Text(Unavailable)
    ensures t.Text? ==> t.text != ""
  {
    if IsTruthy(d.transcript) then d.transcript.value
    else if IsTruthy(d.artifactTranscript) then d.artifactTranscript.value
    else if IsTruthy(d.firstCallTranscript) then d.firstCallTranscript.value
    else Text(Unavailable)
  }

  /** A line the conversation filter keeps: once trimmed, it starts with `USER:` or `AI:`. */
  predicate IsDialogueLine(line: string) {
    StartsWith(Trim(line), "USER:") || StartsWith(Trim(line), "AI:")
  }

  /** `line.trim() !== ""`. */
  predicate IsNonBlank(line: string) {
    Trim(line) != ""
  }

  /** `Boolean(s)` for a string. */
  predicate IsNonEmpty(s: string) {
    s != ""
  }

  /** `typeof msg === "string" ? msg : msg.text || ""`. */
  function EntryText(e: Entry): string {
    match e
    case Line(s) => s
    case Message(t) => if t.Some? then t.value else ""
  }

  /** The lines of a newline-joined text, reading the empty text as no lines. */
  function OutputLines(text: string): seq<string> {
    if text == "" then [] else Split(text)
  }

  /** extractUserAIConversation: the dialogue lines of `text`, untouched, joined again. */
  function ExtractUserAIConversation(text: string): string {
    Join(Filter(Split(text), IsDialogueLine))
  }

  /** The entries that survive the blank or empty filter. */
  function Survivors(t: RawTranscript): seq<string> {
    match t
    case Text(s) => Filter(Split(s), IsNonBlank)
    case Entries(es) => Filter(Map(es, EntryText), IsNonEmpty)
  }

  /** The "remove the first message" step: drop the first survivor and join the rest. */
  function RemoveFirstMessage(t: RawTranscript): string {
    Join(DropFirst(Survivors(t)))
  }

  /** The whole normaliser. */
  function Normalise(t: RawTranscript): string {
    ExtractUserAIConversation(RemoveFirstMessage(t))
  }

  /** A dialogue line is never blank. */
  lemma DialogueLineIsNonBlank(line: string)
    requires IsDialogueLine(line)
    ensures IsNonBlank(line)
  {
  }

  /** A dialogue line is never empty. */
  lemma DialogueLineIsNonEmpty(line: string)
    requires IsDialogueLine(line)
    ensures line != ""
  {
  }

  /** The empty line is not a dialogue line. */
  lemma EmptyIsNotDialogue()
    ensures !IsDialogueLine("")
  {
    if IsDialogueLine("") {
      DialogueLineIsNonEmpty("");
    }
  }

  /** Joining non-empty newline-free lines and reading the lines back is the identity. */
  lemma {:induction false} OutputLinesOfJoin(lines: seq<string>)
    requires forall k :: 0 <= k < |lines| ==> lines[k] != "" && '\n' !in lines[k]
    ensures OutputLines(Join(lines)) == lines
  {
    if lines != [] {
      JoinStartsWithFirst(lines);
      SplitJoin(lines);
    }
  }

  /**
   * Lines kept by any filter that never keeps the empty line, joined, read
   * back as the same lines, provided none holds a newline.
   */
  lemma FilteredLinesReadBack(lines: seq<string>, p: string -> bool)
    requires forall k :: 0 <= k < |lines| ==> '\n' !in lines[k]
    requires forall x :: p(x) ==> x != ""
    ensures OutputLines(Join(Filter(lines, p))) == Filter(lines, p)
  {
    var kept := Filter(lines, p);
    forall k | 0 <= k < |kept| ensures kept[k] != "" && '\n' !in kept[k] {
      assert kept[k] in kept;
      var j :| 0 <= j < |lines| && lines[j] == kept[k];
    }
    OutputLinesOfJoin(kept);
  }

  /** No dialogue line is empty. */
  lemma DialogueLinesAreNonEmpty()
    ensures forall x :: IsDialogueLine(x) ==> x != ""
  {
    forall x | IsDialogueLine(x) ensures x != "" {
      DialogueLineIsNonEmpty(x);
    }
  }

  /**
   * The conversation filter keeps exactly the dialogue lines of its input:
   * unchanged, in their original order, and nothing else.
   */
  lemma ExtractKeepsExactlyDialogueLines(text: string)
    ensures OutputLines(ExtractUserAIConversation(text)) == Filter(Split(text), IsDialogueLine)
    ensures IsSubsequence(OutputLines(ExtractUserAIConversation(text)), Split(text))
  {
    DialogueLinesAreNonEmpty();
    FilteredLinesReadBack(Split(text), IsDialogueLine);
    FilterIsSubsequence(Split(text), IsDialogueLine);
  }

  /**
   * Any filter that never keeps the empty line, applied to newline-free lines,
   * keeps each line it accepts as often as it occurs and no other line, once
   * the result is joined and read back.
   */
  lemma FilteredCountsReadBack(lines: seq<string>, p: string -> bool)
    requires forall k :: 0 <= k < |lines| ==> '\n' !in lines[k]
    requires forall x :: p(x) ==> x != ""
    ensures forall x :: multiset(OutputLines(Join(Filter(lines, p))))[x] == if p(x) then multiset(lines)[x] else 0
  {
    FilteredLinesReadBack(lines, p);
    FilterCounts(lines, p);
  }

  /** Each dialogue line is kept as often as it occurs in the input; other lines never. */
  lemma ExtractKeepsCounts(text: string)
    ensures forall line :: multiset(OutputLines(ExtractUserAIConversation(text)))[line]
              == if IsDialogueLine(line) then multiset(Split(text))[line] else 0
  {
    DialogueLinesAreNonEmpty();
    FilteredCountsReadBack(Split(text), IsDialogueLine);
  }

  /**
   * For a filter that rejects the empty line, splitting a join of newline-free
   * lines and filtering is filtering the lines themselves.
   */
  lemma FilterOfSplitJoin(lines: seq<string>, p: string -> bool)
    requires forall k :: 0 <= k < |lines| ==> '\n' !in lines[k]
    requires !p("")
    ensures Filter(Split(Join(lines)), p) == Filter(lines, p)
  {
    if lines == [] {
      assert Split("") == [""];
    } else {
      SplitJoin(lines);
    }
  }

  /**
   * For a filter that rejects the empty line, the joined survivors of
   * newline-free lines survive a second pass unchanged.
   */
  lemma JoinedFilterPassesAgain(lines: seq<string>, p: string -> bool)
    requires forall k :: 0 <= k < |lines| ==> '\n' !in lines[k]
    requires !p("")
    ensures Join(Filter(Split(Join(Filter(lines, p))), p)) == Join(Filter(lines, p))
  {
    var kept := Filter(lines, p);
    forall k | 0 <= k < |kept| ensures '\n' !in kept[k] {
      assert kept[k] in kept;
      var j :| 0 <= j < |lines| && lines[j] == kept[k];
    }
    FilterOfSplitJoin(kept, p);
    FilterIdempotent(lines, p);
  }

  /** The conversation filter applied twice is the filter applied once. */
  lemma ExtractIdempotent(text: string)
    ensures ExtractUserAIConversation(ExtractUserAIConversation(text)) == ExtractUserAIConversation(text)
  {
    EmptyIsNotDialogue();
    JoinedFilterPassesAgain(Split(text), IsDialogueLine);
  }

  /**
   * Text transcripts: blank lines are removed, then the first remaining line is
   * dropped, whatever it says. So when line `k` is the first non-blank line, the
   * result is exactly the dialogue lines that come after line `k`.
   */
  lemma NormaliseTextDropsFirstNonBlank(s: string, k: nat)
    requires k < |Split(s)| && IsNonBlank(Split(s)[k])
    requires forall i :: 0 <= i < k ==> !IsNonBlank(Split(s)[i])
    ensures OutputLines(Normalise(Text(s))) == Filter(Split(s)[k + 1..], IsDialogueLine)
  {
    var lines := Split(s);
    var rest := DropFirst(Filter(lines, IsNonBlank));
    DropFirstOfFilter(lines, IsNonBlank, k);
    assert rest == Filter(lines[k + 1..], IsNonBlank);
    forall j | 0 <= j < |rest| ensures '\n' !in rest[j] {
      assert rest[j] in lines[k + 1..];
    }
    EmptyIsNotDialogue();
    FilterOfSplitJoin(rest, IsDialogueLine);
    forall x | IsDialogueLine(x) ensures IsNonBlank(x) { DialogueLineIsNonBlank(x); }
    FilterFilterImplied(lines[k + 1..], IsNonBlank, IsDialogueLine);
    ExtractKeepsExactlyDialogueLines(Join(rest));
  }

  /** A text transcript with no non-blank line normalises to the empty text. */
  lemma NormaliseAllBlankText(s: string)
    requires forall i :: 0 <= i < |Split(s)| ==> !IsNonBlank(Split(s)[i])
    ensures Normalise(Text(s)) == ""
  {
    FilterKeepsNone(Split(s), IsNonBlank);
    NormaliseAtMostOneSurvivor(Text(s));
  }

  /**
   * Splitting a join whose first piece is `t`: the filter sees the lines of
   * `t`, then the lines of the rest, provided it rejects the empty line.
   */
  lemma FilterSplitJoinCons(t: string, ts: seq<string>, p: string -> bool)
    requires !p("")
    ensures Filter(Split(Join([t] + ts)), p) == Filter(Split(t), p) + Filter(Split(Join(ts)), p)
  {
    if ts == [] {
      assert [t] + ts == [t];
      assert Split("") == [""];
      assert Filter([""], p) == [];
      assert Filter(Split(t), p) + [] == Filter(Split(t), p);
    } else {
      assert ([t] + ts)[1..] == ts;
      assert Join([t] + ts) == t + "\n" + Join(ts);
      SplitAround(t, Join(ts));
      FilterAppend(Split(t), Split(Join(ts)), p);
    }
  }

  /**
   * Removing the empty pieces before joining only removes empty lines, which
   * a filter that rejects the empty line drops anyway.
   */
  lemma {:induction false} FilterSplitJoinSkipsEmpty(ts: seq<string>, p: string -> bool)
    requires !p("")
    ensures Filter(Split(Join(Filter(ts, IsNonEmpty))), p) == Filter(Split(Join(ts)), p)
    decreases |ts|
  {
    if ts != [] {
      var t := ts[0];
      var rest := ts[1..];
      assert ts == [t] + rest;
      FilterSplitJoinSkipsEmpty(rest, p);
      FilterSplitJoinCons(t, rest, p);
      if t == "" {
        assert Filter(ts, IsNonEmpty) == Filter(rest, IsNonEmpty);
        assert Split("") == [""];
        assert Filter([""], p) == [];
      } else {
        assert Filter(ts, IsNonEmpty) == [t] + Filter(rest, IsNonEmpty);
        FilterSplitJoinCons(t, Filter(rest, IsNonEmpty), p);
      }
    }
  }

  /**
   * Array transcripts: entries become their text, empty ones are removed, the
   * first remaining entry is dropped, and the rest are joined with line breaks
   * and split into lines again. When entry `k` is the first non-empty one, the
   * result is exactly the dialogue lines of the entries after entry `k`; an
   * entry holding line breaks contributes each of its lines. Whitespace-only
   * entries are not removed here, so such an entry can be the one dropped.
   */
  lemma NormaliseEntriesDropsFirstNonEmpty(es: seq<Entry>, k: nat)
    requires k < |es| && EntryText(es[k]) != ""
    requires forall i :: 0 <= i < k ==> EntryText(es[i]) == ""
    ensures OutputLines(Normalise(Entries(es))) == Filter(Split(Join(Map(es[k + 1..], EntryText))), IsDialogueLine)
  {
    var texts := Map(es, EntryText);
    var rest := DropFirst(Filter(texts, IsNonEmpty));
    DropFirstOfFilter(texts, IsNonEmpty, k);
    assert texts[k + 1..] == Map(es[k + 1..], EntryText);
    DialogueLinesAreNonEmpty();
    FilteredLinesReadBack(Split(Join(rest)), IsDialogueLine);
    EmptyIsNotDialogue();
    FilterSplitJoinSkipsEmpty(texts[k + 1..], IsDialogueLine);
  }

  /**
   * When no entry holds a line break, each entry is one line: the result is
   * exactly the dialogue entries after the first non-empty entry.
   */
  lemma NormaliseSingleLineEntries(es: seq<Entry>, k: nat)
    requires k < |es| && EntryText(es[k]) != ""
    requires forall i :: 0 <= i < k ==> EntryText(es[i]) == ""
    requires forall i :: 0 <= i < |es| ==> '\n' !in EntryText(es[i])
    ensures OutputLines(Normalise(Entries(es))) == Filter(Map(es[k + 1..], EntryText), IsDialogueLine)
  {
    NormaliseEntriesDropsFirstNonEmpty(es, k);
    var later := Map(es[k + 1..], EntryText);
    forall i | 0 <= i < |later| ensures '\n' !in later[i] {
      assert later[i] == EntryText(es[k + 1 + i]);
    }
    EmptyIsNotDialogue();
    FilterOfSplitJoin(later, IsDialogueLine);
  }

  /** With at most one surviving entry, nothing is left once the first is dropped. */
  lemma {:induction false} NormaliseAtMostOneSurvivor(t: RawTranscript)
    requires |Survivors(t)| <= 1
    ensures Normalise(t) == ""
  {
    assert DropFirst(Survivors(t)) == [];
    assert Split("") == [""];
    EmptyIsNotDialogue();
  }

  /** A call without any transcript normalises to the empty text. */
  lemma {:induction false} NormaliseFallback(d: CallData)
    requires !IsTruthy(d.transcript) && !IsTruthy(d.artifactTranscript) && !IsTruthy(d.firstCallTranscript)
    ensures Normalise(PickTranscript(d)) == ""
  {
    assert Split(Unavailable) == [Unavailable] by {
      SplitJoin([Unavailable]);
    }
    assert |Survivors(Text(Unavailable))| <= 1;
    NormaliseAtMostOneSurvivor(Text(Unavailable));
  }

  /** Whatever the shape, every line of the normalised transcript is a dialogue line. */
  lemma NormaliseOnlyDialogue(t: RawTranscript)
    ensures forall line :: line in OutputLines(Normalise(t)) ==> IsDialogueLine(line)
  {
    ExtractKeepsExactlyDialogueLines(RemoveFirstMessage(t));
  }
}
