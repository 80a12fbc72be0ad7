/**
 * The screening-call helper in test.js: the transcript it builds for the
 * language model, and how it reads the `status:` and `reasons:` lines out of
 * the model's answer with `text.match(/status:\s*(.+)/i)` and
 * `text.match(/reasons:\s*(.+)/i)`.
 *
 * The regular expression is modelled twice: `IsMatch` says which spans are
 * matches at all, and `FindMatch` follows the backtracking matcher (leftmost
 * start first, then the longest `\s*`, then the longest `.+`). The lemmas
 * connect the two.
 */
module FieldExtract {
  import opened JsText
  import opened Transcript
  import opened Seqs

  const StatusKey: string := "status:"
  const ReasonsKey: string := "reasons:"

  // ---------------------------------------------------------------------------
  // Which spans match `key\s*(.+)` under the `i` flag
  // ---------------------------------------------------------------------------

  /**
   * Character equality under the `i` flag of a non-unicode regular
   * expression, for the ASCII letters the keys are made of.
   */
  predicate SameIgnoringCase(a: char, b: char) {
    AsciiUpper(a) == AsciiUpper(b)
  }

  /** The key occurs at `i`, ignoring case. */
  predicate OccursAt(text: string, i: nat, key: string) {
    i + |key| <= |text| && forall k :: 0 <= k < |key| ==> SameIgnoringCase(text[i + k], key[k])
  }

  /**
   * `key\s*(.+)` matches at `i`, with the captured group spanning `[j, e)`:
   * the key, then white space (line breaks included) up to `j`, then at least
   * one character that is not a line terminator.
   */
  predicate IsMatch(text: string, key: string, i: nat, j: nat, e: nat) {
    && OccursAt(text, i, key)
    && i + |key| <= j < e <= |text|
    && (forall k :: i + |key| <= k < j ==> IsWhitespace(text[k]))
    && (forall k :: j <= k < e ==> !IsLineTerminator(text[k]))
  }

  // ---------------------------------------------------------------------------
  // How the backtracking matcher picks one
  // ---------------------------------------------------------------------------

  /** Greedy `\s*` from `q`: the end of the white-space run. */
  function WhitespaceEnd(text: string, q: nat): (w: nat)
    requires q <= |text|
    ensures q <= w <= |text|
    ensures forall k :: q <= k < w ==> IsWhitespace(text[k])
    ensures w == |text| || !IsWhitespace(text[w])
    decreases |text| - q
  {
    if q < |text| && IsWhitespace(text[q]) then WhitespaceEnd(text, q + 1) else q
  }

  /** Greedy `.+` from `j`: the first line terminator at or after `j`, or the end. */
  function LineEnd(text: string, j: nat): (e: nat)
    requires j <= |text|
    ensures j <= e <= |text|
    ensures forall k :: j <= k < e ==> !IsLineTerminator(text[k])
    ensures e == |text| || IsLineTerminator(text[e])
    decreases |text| - j
  {
    if j < |text| && !IsLineTerminator(text[j]) then LineEnd(text, j + 1) else j
  }

  /**
   * `\s*` giving characters back one at a time, from `w` down to `q`, until
   * `.` can match: the last position before `w` that is not a line terminator.
   */
  function LastNonTerminator(text: string, q: nat, w: nat): (r: Option<nat>)
    requires q <= w <= |text|
    ensures r.Some? ==> q <= r.value < w && !IsLineTerminator(text[r.value])
    ensures r.Some? ==> forall k :: r.value < k < w ==> IsLineTerminator(text[k])
    ensures r.None? ==> forall k :: q <= k < w ==> IsLineTerminator(text[k])
    decreases w - q
  {
    if w == q then None
    else if !IsLineTerminator(text[w - 1]) then Some(w - 1)
    else LastNonTerminator(text, q, w - 1)
  }

  /**
   * Where the group starts once the key has matched up to `q`: after the whole
   * white-space run when something follows it, otherwise after backtracking.
   */
  function GroupStart(text: string, q: nat): Option<nat>
    requires q <= |text|
  {
    var w := WhitespaceEnd(text, q);
    if w < |text| then Some(w) else LastNonTerminator(text, q, w)
  }

  /** The matcher at one start position: the group's span, if it matches there. */
  function MatchAt(text: string, key: string, i: nat): (r: Option<(nat, nat)>)
    requires i <= |text|
    ensures r.Some? ==> IsMatch(text, key, i, r.value.0, r.value.1)
  {
    if !OccursAt(text, i, key) then None
    else
      match GroupStart(text, i + |key|)
      case None => None
      case Some(j) => Some((j, LineEnd(text, j)))
  }

  /** Any two ends of a line from `j` coincide. */
  lemma LineEndUnique(text: string, j: nat, e: nat)
    requires j <= e <= |text|
    requires forall k :: j <= k < e ==> !IsLineTerminator(text[k])
    requires e == |text| || IsLineTerminator(text[e])
    ensures LineEnd(text, j) == e
  {
  }

  /**
   * The matcher at one start finds a match whenever there is one, and the one
   * it finds has the longest white-space run, then the longest group.
   */
  lemma MatchAtIsPreferred(text: string, key: string, i: nat, j: nat, e: nat)
    requires IsMatch(text, key, i, j, e)
    ensures MatchAt(text, key, i).Some?
    ensures var (j', e') := MatchAt(text, key, i).value;
            j < j' || (j == j' && e <= e')
  {
    var q := i + |key|;
    var w := WhitespaceEnd(text, q);
    if w == |text| {
      assert !IsLineTerminator(text[j]);
    }
  }

  /**
   * `text.match(...)` from start `i` on: the first start position where the
   * matcher succeeds. No match starts earlier, and none is missed.
   */
  function FindMatch(text: string, key: string, i: nat): (r: Option<(nat, nat, nat)>)
    requires i <= |text|
    ensures r.Some? ==> i <= r.value.0 && IsMatch(text, key, r.value.0, r.value.1, r.value.2)
    ensures r.Some? ==> MatchAt(text, key, r.value.0) == Some((r.value.1, r.value.2))
    ensures forall a, j, e :: i <= a && IsMatch(text, key, a, j, e) ==> r.Some? && r.value.0 <= a
    decreases |text| - i
  {
    match MatchAt(text, key, i)
    case Some((j, e)) => Some((i, j, e))
    case None =>
      if i == |text| then
        None
      else
        var r := FindMatch(text, key, i + 1);
        assert forall j, e :: !IsMatch(text, key, i, j, e) by {
          forall j: nat, e: nat | IsMatch(text, key, i, j, e) ensures false {
            MatchAtIsPreferred(text, key, i, j, e);
          }
        }
        r
  }

  // ---------------------------------------------------------------------------
  // extractStatus and extractReasons
  // ---------------------------------------------------------------------------

  /** `match ? match[1].trim() : null` for `key\s*(.+)`. */
  function ExtractField(text: string, key: string): Option<string> {
    match FindMatch(text, key, 0)
    case None => None
    case Some((_, j, e)) => Some(Trim(text[j..e]))
  }

  function ExtractStatus(text: string): Option<string> {
    ExtractField(text, StatusKey)
  }

  function ExtractReasons(text: string): Option<string> {
    ExtractField(text, ReasonsKey)
  }

  /** The extraction fails exactly when the expression matches nowhere. */
  lemma ExtractFieldNoneIff(text: string, key: string)
    ensures ExtractField(text, key).None? <==> forall a, j, e :: !IsMatch(text, key, a, j, e)
  {
  }

  /**
   * A found value is the trimmed group of the leftmost match, taking the
   * longest white-space run and then the longest group among the matches
   * that start there.
   */
  lemma ExtractFieldIsLeftmostLongest(text: string, key: string, a: nat, j: nat, e: nat)
    requires IsMatch(text, key, a, j, e)
    ensures ExtractField(text, key).Some?
    ensures exists a': nat, j': nat, e': nat :: && IsMatch(text, key, a', j', e')
                                 && ExtractField(text, key) == Some(Trim(text[j'..e']))
                                 && a' <= a
                                 && (a' == a ==> j < j' || (j == j' && e <= e'))
  {
    var r := FindMatch(text, key, 0);
    var (a', j', e') := r.value;
    if a' == a {
      MatchAtIsPreferred(text, key, a, j, e);
    }
  }

  /**
   * The first occurrence of the key decides when anything but white space
   * follows it: the value is the next non-blank text after the key, up to the
   * end of its line, trimmed. The value may sit on a later line than the key.
   */
  lemma {:induction false} FirstOccurrenceDecides(text: string, key: string, i: nat)
    requires OccursAt(text, i, key)
    requires forall a :: 0 <= a < i ==> !OccursAt(text, a, key)
    requires WhitespaceEnd(text, i + |key|) < |text|
    ensures var w := WhitespaceEnd(text, i + |key|);
            ExtractField(text, key) == Some(Trim(text[w..LineEnd(text, w)]))
  {
    var w := WhitespaceEnd(text, i + |key|);
    assert IsMatch(text, key, i, w, LineEnd(text, w));
    var r := FindMatch(text, key, 0);
    assert r.Some? && r.value.0 == i;
    assert GroupStart(text, i + |key|) == Some(w);
    assert MatchAt(text, key, i) == Some((w, LineEnd(text, w)));
  }

  /** Skipping the white space at the start of a line does not change the trimmed line. */
  lemma TrimmedRestOfLine(text: string, q: nat, k: nat)
    requires q <= |text|
    requires q <= k < LineEnd(text, q) && !IsWhitespace(text[k])
    ensures WhitespaceEnd(text, q) <= k
    ensures var w := WhitespaceEnd(text, q);
            Trim(text[q..LineEnd(text, q)]) == Trim(text[w..LineEnd(text, w)])
  {
    var w := WhitespaceEnd(text, q);
    var end := LineEnd(text, q);
    assert w <= k;
    LineEndUnique(text, w, end);
    SliceSplit(text, q, w, end);
    assert IsBlank(text[q..w]);
    TrimSkipsBlankPrefix(text[q..w], text[w..end]);
  }

  /**
   * When the key's own line holds more than white space, the value is the
   * rest of that line, trimmed.
   */
  lemma SameLineValue(text: string, key: string, i: nat, k: nat)
    requires OccursAt(text, i, key)
    requires forall a :: 0 <= a < i ==> !OccursAt(text, a, key)
    requires i + |key| <= k < LineEnd(text, i + |key|) && !IsWhitespace(text[k])
    ensures var q := i + |key|;
            ExtractField(text, key) == Some(Trim(text[q..LineEnd(text, q)]))
  {
    TrimmedRestOfLine(text, i + |key|, k);
    FirstOccurrenceDecides(text, key, i);
  }

  /** Where the value of `reasons:` lies in a bulleted answer. */
  lemma BulletLayout(text: string)
    requires text == "reasons:\n  - x\n  - y"
    ensures OccursAt(text, 0, ReasonsKey)
    ensures WhitespaceEnd(text, 8) == 11 && LineEnd(text, 11) == 14 && Trim(text[11..14]) == "- x"
  {
    assert text[..8] == ReasonsKey;
    assert forall k :: 0 <= k < |ReasonsKey| ==> text[k] == ReasonsKey[k];
    BulletIndent(text);
    BulletLine(text);
    assert text[11..14] == "- x";
    assert "- x"[0] == '-' && "- x"[2] == 'x';
    TrimOfTrimmed("- x");
  }

  /** The indentation before the first bullet ends where the bullet starts. */
  lemma BulletIndent(text: string)
    requires text == "reasons:\n  - x\n  - y"
    ensures WhitespaceEnd(text, 8) == 11
  {
    assert !IsWhitespace(text[11]);
    assert WhitespaceEnd(text, 11) == 11;
    assert IsWhitespace(text[10]);
    assert WhitespaceEnd(text, 10) == 11;
    assert IsWhitespace(text[9]);
    assert WhitespaceEnd(text, 9) == 11;
    assert IsWhitespace(text[8]);
  }

  /** The first bullet's line ends at the line break after it. */
  lemma BulletLine(text: string)
    requires text == "reasons:\n  - x\n  - y"
    ensures LineEnd(text, 11) == 14
  {
    assert IsLineTerminator(text[14]);
    assert !IsLineTerminator(text[11]) && !IsLineTerminator(text[12]) && !IsLineTerminator(text[13]);
    LineEndUnique(text, 11, 14);
  }

  /**
   * The answer format the prompt asks for lists the reasons as bullets on the
   * lines below `reasons:`; only the first bullet is extracted.
   */
  lemma OnlyFirstBulletExtracted(text: string)
    requires text == "reasons:\n  - x\n  - y"
    ensures ExtractReasons(text) == Some("- x")
  {
    BulletLayout(text);
    FirstOccurrenceDecides(text, ReasonsKey, 0);
  }

  /** The status key as a model may write it, in capitals. */
  const UpperStatusKey: string := "STATUS:"

  /** The key in capitals is an occurrence of the key. */
  lemma UpperKeyOccurs(text: string, i: nat)
    requires i + |UpperStatusKey| <= |text| && text[i..i + |UpperStatusKey|] == UpperStatusKey
    ensures OccursAt(text, i, StatusKey)
  {
    forall k | 0 <= k < |StatusKey| ensures SameIgnoringCase(text[i + k], StatusKey[k]) {
      assert text[i + k] == UpperStatusKey[k] by {
        assert text[i..i + |UpperStatusKey|][k] == text[i + k];
      }
      assert k == 0 || k == 1 || k == 2 || k == 3 || k == 4 || k == 5 || k == 6;
    }
  }

  /**
   * The key matches in any letter case: when its first occurrence is written
   * `STATUS:` and text follows on the same line, that text is the status.
   */
  lemma KeyIgnoresCase(text: string, i: nat, k: nat)
    requires i + |UpperStatusKey| <= |text| && text[i..i + |UpperStatusKey|] == UpperStatusKey
    requires forall a :: 0 <= a < i ==> !OccursAt(text, a, StatusKey)
    requires i + 7 <= k < LineEnd(text, i + 7) && !IsWhitespace(text[k])
    ensures ExtractStatus(text) == Some(Trim(text[i + 7..LineEnd(text, i + 7)]))
  {
    UpperKeyOccurs(text, i);
    SameLineValue(text, StatusKey, i, k);
  }

  /** A text in which the key's first letter never appears has no value for it. */
  lemma AbsentKeyHasNoValue(text: string, key: string)
    requires key != []
    requires forall k :: 0 <= k < |text| ==> !SameIgnoringCase(text[k], key[0])
    ensures ExtractField(text, key) == None
  {
  }

  /**
   * When only white space follows the first occurrence of the key, up to the
   * end of the text, the value is the empty string if that white space holds
   * a character that is not a line terminator (`\s*` gives it back to `.+`);
   * if it holds line terminators only, that occurrence does not match at all.
   */
  lemma BlankTail(text: string, key: string, i: nat)
    requires OccursAt(text, i, key)
    requires forall a :: 0 <= a < i ==> !OccursAt(text, a, key)
    requires forall c :: i + |key| <= c < |text| ==> IsWhitespace(text[c])
    ensures (exists c :: i + |key| <= c < |text| && !IsLineTerminator(text[c])) ==> ExtractField(text, key) == Some("")
    ensures (forall c :: i + |key| <= c < |text| ==> IsLineTerminator(text[c])) ==>
              forall j: nat, e: nat :: !IsMatch(text, key, i, j, e)
  {
    var q := i + |key|;
    if c :| q <= c < |text| && !IsLineTerminator(text[c]) {
      BlankTailValue(text, key, i, c);
    } else {
      forall j: nat, e: nat | IsMatch(text, key, i, j, e) ensures false {
        NotTerminatorAt(text, key, i, j, e);
      }
    }
  }

  /** The first character of a matched group is not a line terminator. */
  lemma NotTerminatorAt(text: string, key: string, i: nat, j: nat, e: nat)
    requires IsMatch(text, key, i, j, e)
    ensures i + |key| <= j < |text| && !IsLineTerminator(text[j])
  {
  }

  /** The first half of `BlankTail`, for a witness `c` that is not a line terminator. */
  lemma BlankTailValue(text: string, key: string, i: nat, c: nat)
    requires OccursAt(text, i, key)
    requires forall a :: 0 <= a < i ==> !OccursAt(text, a, key)
    requires forall k :: i + |key| <= k < |text| ==> IsWhitespace(text[k])
    requires i + |key| <= c < |text| && !IsLineTerminator(text[c])
    ensures ExtractField(text, key) == Some("")
  {
    var q := i + |key|;
    assert WhitespaceEnd(text, q) == |text|;
    var g := LastNonTerminator(text, q, |text|);
    assert g.Some?;
    var j := g.value;
    var e := LineEnd(text, j);
    assert MatchAt(text, key, i) == Some((j, e));
    var r := FindMatch(text, key, 0);
    assert r.Some? && r.value.0 == i;
    assert r.value.1 == j && r.value.2 == e;
    assert IsBlank(text[j..e]);
    TrimEmptyIff(text[j..e]);
  }

  /**
   * One instance: a key followed by spaces and a line break matches, and the
   * value is the empty string.
   */
  lemma BlankValueMatches()
    ensures ExtractStatus("Status:   \n") == Some("")
  {
    var text := "Status:   \n";
    assert OccursAt(text, 0, StatusKey);
    assert WhitespaceEnd(text, 7) == 11;
    assert LastNonTerminator(text, 7, 11) == Some(9);
    assert LineEnd(text, 9) == 10;
    assert IsBlank(text[9..10]);
  }

  // ---------------------------------------------------------------------------
  // The screening helper
  // ---------------------------------------------------------------------------

  /**
   * The transcript the screening prompt receives: the call's transcript,
   * normalised as in the report server. Only dialogue lines reach the model.
   */
  function ScreeningTranscript(d: CallData): (t: string)
    ensures forall line :: line in OutputLines(t) ==> IsDialogueLine(line)
  {
    NormaliseOnlyDialogue(PickTranscript(d));
    Normalise(PickTranscript(d))
  }

  /** The status and reasons the helper returns; `reasons` may be null. */
  datatype Verdict = Verdict(status: string, reasons: Option<string>)

  /** `completion?.choices?.[0]?.message?.content?.trim() || ""`. */
  function CompletionText(content: Option<string>): string {
    if content.Some? then Trim(content.value) else ""
  }

  /**
   * The defaulting after the model call: a missing or empty status becomes
   * "" and then so do the reasons; with a status, the reasons are whatever
   * the extraction returned, null included.
   */
  function ScreeningVerdict(content: Option<string>): (v: Verdict)
    ensures var text := CompletionText(content);
            && (v.status == "" ==> v.reasons == Some(""))
            && (v.status != "" ==> ExtractStatus(text) == Some(v.status) && v.reasons == ExtractReasons(text))
            && (ExtractStatus(text).None? ==> v == Verdict("", Some("")))
            && (ExtractStatus(text).Some? && ExtractStatus(text).value != "" ==>
                  v == Verdict(ExtractStatus(text).value, ExtractReasons(text)))
  {
    var text := CompletionText(content);
    var status := ExtractStatus(text);
    var status' := if status.None? || status.value == "" then "" else status.value;
    var reasons := ExtractReasons(text);
    var reasons' := if status' == "" then Some("") else reasons;
    Verdict(status', reasons')
  }

  /** A reported status never starts or ends with white space. */
  lemma VerdictStatusIsTrimmed(content: Option<string>)
    ensures var s := ScreeningVerdict(content).status;
            s == "" || (!IsWhitespace(s[0]) && !IsWhitespace(s[|s| - 1]))
  {
    ExtractedIsTrimmed(CompletionText(content), StatusKey);
  }

  /** An extracted value never starts or ends with white space. */
  lemma ExtractedIsTrimmed(text: string, key: string)
    ensures ExtractField(text, key).Some? ==>
              var s := ExtractField(text, key).value;
              s == "" || (!IsWhitespace(s[0]) && !IsWhitespace(s[|s| - 1]))
  {
  }

  /**
   * When the answer has a status but never mentions `reasons:`, the helper
   * returns the reasons as null rather than "".
   */
  lemma ReasonsCanStayNull(content: Option<string>, status: string)
    requires status != "" && ExtractStatus(CompletionText(content)) == Some(status)
    requires forall a :: 0 <= a <= |CompletionText(content)| ==> !OccursAt(CompletionText(content), a, ReasonsKey)
    ensures ScreeningVerdict(content) == Verdict(status, None)
  {
    ExtractFieldNoneIff(CompletionText(content), ReasonsKey);
    VerdictWithStatus(content, status);
  }

  /** With a non-empty status, the verdict carries it and the extracted reasons. */
  lemma VerdictWithStatus(content: Option<string>, status: string)
    requires status != "" && ExtractStatus(CompletionText(content)) == Some(status)
    ensures ScreeningVerdict(content) == Verdict(status, ExtractReasons(CompletionText(content)))
  {
  }
}
