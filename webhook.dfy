/**
 * The voice platform's transcript webhook in server.js: a process-wide log of
 * transcript lines, de-duplicated by a set of keys, and the dispatch that
 * decides which (speaker, text) pairs a payload offers to it.
 *
 * The log is specified on values: `logged` is the sequence of pairs that made
 * it into the log, `Offer` and `OfferAll` say how offering pairs extends it,
 * and the class keeps its two fields equal to the lines and keys of `logged`.
 */
module Webhook {
  import opened JsText
  import opened Seqs

  /** Text that marks the recruiter's own system prompt inside a message list. */
  const PromptMarker: string := "You are a professional and friendly AI recruiter"

  /** A (speaker, text) pair offered to `logLine`. */
  datatype Utterance = Utterance(speaker: string, text: string)

  /** The de-duplication key: plain concatenation around a colon. */
  function Key(u: Utterance): string {
    u.speaker + ":" + u.text
  }

  /** The log line: the speaker in capitals, in brackets, then the text. */
  function LineOf(u: Utterance): string {
    "[" + ToUpperCase(u.speaker) + "]: " + u.text
  }

  // ---------------------------------------------------------------------------
  // The log, specified on values
  // ---------------------------------------------------------------------------

  /** The keys of a sequence of pairs. */
  function KeySet(us: seq<Utterance>): set<string> {
    set u | u in us :: Key(u)
  }

  /** The keys of a sequence with one more pair at its end. */
  lemma KeySetSnoc(us: seq<Utterance>, u: Utterance)
    ensures KeySet(us + [u]) == KeySet(us) + {Key(u)}
  {
    assert u in us + [u];
    forall v | v in us ensures v in us + [u] {
    }
  }

  /** The keys of a sequence with one more pair at its front. */
  lemma KeySetCons(u: Utterance, us: seq<Utterance>)
    ensures KeySet([u] + us) == {Key(u)} + KeySet(us)
  {
    assert u in [u] + us;
    forall v | v in us ensures v in [u] + us {
    }
  }

  /** No two logged pairs share a key. */
  predicate DistinctKeys(logged: seq<Utterance>) {
    forall i, j :: 0 <= i < j < |logged| ==> Key(logged[i]) != Key(logged[j])
  }

  /** Offering one pair: it is appended unless its key was seen before. */
  function Offer(logged: seq<Utterance>, u: Utterance): seq<Utterance> {
    if Key(u) in KeySet(logged) then logged else logged + [u]
  }

  /** Offering pairs one after the other. */
  function OfferAll(logged: seq<Utterance>, us: seq<Utterance>): seq<Utterance>
    decreases |us|
  {
    if us == [] then logged else OfferAll(Offer(logged, us[0]), us[1..])
  }

  // ---------------------------------------------------------------------------
  // Payload dispatch
  // ---------------------------------------------------------------------------

  /** One entry of a `messages` list. */
  datatype WireMessage = WireMessage(role: string, message: string)

  /**
   * The parts of a webhook body the handler reads: `type`, `speaker`,
   * `transcript`, `summary.messages`, `message.type` and `message.messages`.
   */
  datatype Payload = Payload(
    kind: Option<string>,
    speaker: string,
    transcript: string,
    summaryMessages: Option<seq<WireMessage>>,
    messageKind: Option<string>,
    messageMessages: Option<seq<WireMessage>>
  )

  /** A message is logged unless it carries the recruiter prompt. */
  predicate IsConversation(m: WireMessage) {
    !Contains(m.message, PromptMarker)
  }

  function UtteranceOf(m: WireMessage): Utterance {
    Utterance(m.role, m.message)
  }

  /** The pairs a message list offers, in order. */
  function Offered(msgs: seq<WireMessage>): seq<Utterance> {
    Map(Filter(msgs, IsConversation), UtteranceOf)
  }

  /**
   * The pairs a payload offers: a single `transcript` event, else the
   * summary's messages, else the messages of a `conversation-update`.
   */
  function OfferedBy(p: Payload): seq<Utterance> {
    if p.kind == Some("transcript") then [Utterance(p.speaker, p.transcript)]
    else if p.summaryMessages.Some? then Offered(p.summaryMessages.value)
    else if p.messageKind == Some("conversation-update") && p.messageMessages.Some? then Offered(p.messageMessages.value)
    else []
  }

  // ---------------------------------------------------------------------------
  // The log object
  // ---------------------------------------------------------------------------

  /** `transcriptLog` and `loggedMessages`, which live as long as the server. */
  class TranscriptLog {
    var transcriptLog: seq<string>
    var loggedMessages: set<string>
    ghost var logged: seq<Utterance>

    /** The lines are those of the logged pairs, and the keys are theirs, all distinct. */
    ghost predicate Valid()
      reads this
    {
      && DistinctKeys(logged)
      && transcriptLog == Map(logged, LineOf)
      && loggedMessages == KeySet(logged)
    }

    constructor()
      ensures Valid() && logged == []
      ensures transcriptLog == [] && loggedMessages == {}
    {
      transcriptLog := [];
      loggedMessages := {};
      logged := [];
    }

    /**
     * `logLine`: a pair with an unseen key appends one line and records the
     * key; a pair with a seen key changes nothing. The log always holds as
     * many lines as there are keys.
     */
    method LogLine(speaker: string, text: string)
      requires Valid()
      modifies this
      ensures Valid()
      ensures logged == Offer(old(logged), Utterance(speaker, text))
      ensures Key(Utterance(speaker, text)) in old(loggedMessages) ==>
                transcriptLog == old(transcriptLog) && loggedMessages == old(loggedMessages)
      ensures Key(Utterance(speaker, text)) !in old(loggedMessages) ==>
                && transcriptLog == old(transcriptLog) + [LineOf(Utterance(speaker, text))]
                && loggedMessages == old(loggedMessages) + {Key(Utterance(speaker, text))}
      ensures |transcriptLog| == |loggedMessages|
    {
      var u := Utterance(speaker, text);
      var key := Key(u);
      if key !in loggedMessages {
        transcriptLog := transcriptLog + [LineOf(u)];
        loggedMessages := loggedMessages + {key};
        OfferNewKey(logged, u);
        MapSnoc(logged, u, LineOf);
        assert Offer(logged, u) == logged + [u];
        logged := logged + [u];
      } else {
        assert Offer(logged, u) == logged;
      }
      DistinctKeysCount(logged);
    }

    /** `messages.forEach`: every message without the prompt marker is logged, in order. */
    method LogMessages(msgs: seq<WireMessage>)
      requires Valid()
      modifies this
      ensures Valid()
      ensures logged == OfferAll(old(logged), Offered(msgs))
    {
      for i := 0 to |msgs|
        invariant Valid()
        invariant logged == OfferAll(old(logged), Offered(msgs[..i]))
      {
        OfferedAppend(msgs[..i], msgs[i]);
        assert msgs[..i + 1] == msgs[..i] + [msgs[i]];
        if !Contains(msgs[i].message, PromptMarker) {
          OfferAllAppend(old(logged), Offered(msgs[..i]), UtteranceOf(msgs[i]));
          LogLine(msgs[i].role, msgs[i].message);
        } else {
          assert Offered(msgs[..i + 1]) == Offered(msgs[..i]);
        }
      }
      assert msgs[..|msgs|] == msgs;
    }

    /** `POST /webhook/transcript`: log what the payload offers, answer 200. */
    method HandleTranscriptWebhook(p: Payload) returns (status: int)
      requires Valid()
      modifies this
      ensures Valid()
      ensures logged == OfferAll(old(logged), OfferedBy(p))
      ensures status == 200
    {
      if p.kind == Some("transcript") {
        LogLine(p.speaker, p.transcript);
      } else if p.summaryMessages.Some? {
        LogMessages(p.summaryMessages.value);
      } else if p.messageKind == Some("conversation-update") {
        if p.messageMessages.Some? {
          LogMessages(p.messageMessages.value);
        }
      }
      return 200;
    }
  }

  // ---------------------------------------------------------------------------
  // Properties of the log
  // ---------------------------------------------------------------------------

  /** Appending a pair with a fresh key keeps the keys distinct and adds its key. */
  lemma OfferNewKey(logged: seq<Utterance>, u: Utterance)
    requires DistinctKeys(logged) && Key(u) !in KeySet(logged)
    ensures DistinctKeys(logged + [u])
    ensures KeySet(logged + [u]) == KeySet(logged) + {Key(u)}
  {
    KeySetSnoc(logged, u);
    forall i | 0 <= i < |logged| ensures Key(logged[i]) != Key(u) {
      assert logged[i] in logged;
    }
  }

  /** Offering keeps the keys distinct. */
  lemma OfferKeepsDistinct(logged: seq<Utterance>, u: Utterance)
    requires DistinctKeys(logged)
    ensures DistinctKeys(Offer(logged, u))
    ensures KeySet(Offer(logged, u)) == KeySet(logged) + {Key(u)}
  {
    if Key(u) !in KeySet(logged) {
      OfferNewKey(logged, u);
    }
  }

  /** With distinct keys there are exactly as many keys as logged pairs. */
  lemma {:induction false} DistinctKeysCount(logged: seq<Utterance>)
    requires DistinctKeys(logged)
    ensures |KeySet(logged)| == |logged|
  {
    if logged != [] {
      var init := logged[..|logged| - 1];
      var last := logged[|logged| - 1];
      assert logged == init + [last];
      assert DistinctKeys(init);
      DistinctKeysCount(init);
      KeySetSnoc(init, last);
    }
  }

  /** Offering a list of pairs and then one more is offering the longer list. */
  lemma {:induction false} OfferAllAppend(logged: seq<Utterance>, us: seq<Utterance>, u: Utterance)
    ensures OfferAll(logged, us + [u]) == Offer(OfferAll(logged, us), u)
    decreases |us|
  {
    if us == [] {
      assert [u][1..] == [];
    } else {
      assert (us + [u])[0] == us[0];
      assert (us + [u])[1..] == us[1..] + [u];
      OfferAllAppend(Offer(logged, us[0]), us[1..], u);
    }
  }

  /** The pairs offered by a message list grow message by message. */
  lemma OfferedAppend(msgs: seq<WireMessage>, m: WireMessage)
    ensures Offered(msgs + [m]) == Offered(msgs) + (if IsConversation(m) then [UtteranceOf(m)] else [])
  {
    FilterMapSnoc(msgs, m, IsConversation, UtteranceOf);
  }

  /**
   * The log only grows at its end: what was logged before stays, in place,
   * whatever is offered.
   */
  lemma {:induction false} OfferAllExtends(logged: seq<Utterance>, us: seq<Utterance>)
    ensures |logged| <= |OfferAll(logged, us)|
    ensures OfferAll(logged, us)[..|logged|] == logged
    decreases |us|
  {
    if us != [] {
      var next := Offer(logged, us[0]);
      OfferAllExtends(next, us[1..]);
      assert next[..|logged|] == logged;
    }
  }

  /** Offering one pair adds its key to the logged keys, whether or not it is appended. */
  lemma OfferKeySet(logged: seq<Utterance>, u: Utterance)
    ensures KeySet(Offer(logged, u)) == KeySet(logged) + {Key(u)}
  {
    if Key(u) !in KeySet(logged) {
      KeySetSnoc(logged, u);
    }
  }

  /** After offering, the logged keys are the old keys plus the offered keys. */
  lemma {:induction false} OfferAllKeySet(logged: seq<Utterance>, us: seq<Utterance>)
    ensures KeySet(OfferAll(logged, us)) == KeySet(logged) + KeySet(us)
    decreases |us|
  {
    if us != [] {
      OfferKeySet(logged, us[0]);
      OfferAllKeySet(Offer(logged, us[0]), us[1..]);
      assert us == [us[0]] + us[1..];
      KeySetCons(us[0], us[1..]);
    }
  }

  /** Offering any pairs keeps the logged keys distinct. */
  lemma {:induction false} OfferAllDistinct(logged: seq<Utterance>, us: seq<Utterance>)
    requires DistinctKeys(logged)
    ensures DistinctKeys(OfferAll(logged, us))
    decreases |us|
  {
    if us != [] {
      OfferKeepsDistinct(logged, us[0]);
      OfferAllDistinct(Offer(logged, us[0]), us[1..]);
    }
  }

  /**
   * The newly logged pairs are offered pairs, in the order they were
   * offered.
   */
  lemma {:induction false} OfferAllKeepsOrder(logged: seq<Utterance>, us: seq<Utterance>)
    ensures |logged| <= |OfferAll(logged, us)|
    ensures IsSubsequence(OfferAll(logged, us)[|logged|..], us)
    decreases |us|
  {
    OfferAllExtends(logged, us);
    if us != [] {
      var next := Offer(logged, us[0]);
      var r := OfferAll(logged, us);
      OfferAllKeepsOrder(next, us[1..]);
      if next == logged {
        assert IsSubsequence(r[|logged|..], us[1..]);
        SubsequenceOfTail(r[|logged|..], us);
      } else {
        OfferAllExtends(next, us[1..]);
        assert r[..|next|] == next;
        assert r[|logged|] == us[0];
        assert r[|logged|..][1..] == r[|next|..];
      }
    }
  }

  /** A subsequence of the tail is a subsequence of the whole. */
  lemma SubsequenceOfTail<T>(a: seq<T>, b: seq<T>)
    requires b != [] && IsSubsequence(a, b[1..])
    ensures IsSubsequence(a, b)
  {
  }

  /**
   * Redelivering the same events logs nothing new: offering a list twice is
   * offering it once.
   */
  lemma {:induction false} RedeliveryLogsNothing(logged: seq<Utterance>, us: seq<Utterance>)
    ensures OfferAll(OfferAll(logged, us), us) == OfferAll(logged, us)
  {
    var r := OfferAll(logged, us);
    OfferAllKeysCovered(logged, us);
    AllSeenChangesNothing(r, us);
  }

  /** After offering, every offered key is among the logged keys. */
  lemma OfferAllKeysCovered(logged: seq<Utterance>, us: seq<Utterance>)
    ensures KeySet(logged) + KeySet(us) <= KeySet(OfferAll(logged, us))
  {
    OfferAllKeySet(logged, us);
  }


  /** Offering pairs whose keys are all logged already changes nothing. */
  lemma {:induction false} AllSeenChangesNothing(logged: seq<Utterance>, us: seq<Utterance>)
    requires KeySet(us) <= KeySet(logged)
    ensures OfferAll(logged, us) == logged
    decreases |us|
  {
    if us != [] {
      assert us == [us[0]] + us[1..];
      KeySetCons(us[0], us[1..]);
      AllSeenChangesNothing(logged, us[1..]);
    }
  }

  /**
   * The key is a plain concatenation, so a speaker ending in `:b` with text
   * `c` collides with speaker `a` and text `b:c`: the second is suppressed.
   */
  lemma CollidingKeysSuppressed(a: string, b: string, c: string)
    ensures var first := Utterance(a + ":" + b, c);
            OfferAll([], [first, Utterance(a, b + ":" + c)]) == [first]
  {
    var first := Utterance(a + ":" + b, c);
    var second := Utterance(a, b + ":" + c);
    assert Key(first) == Key(second);
    assert first in [first];
    assert Offer([], first) == [first];
    assert Offer([first], second) == [first];
    assert [first, second][1..] == [second];
    assert [second][1..] == [];
    assert OfferAll([first], [second]) == OfferAll([first], []);
  }

  /**
   * The key keeps the speaker's case while the line upper-cases it: `user`
   * and `USER` saying the same text are both logged, as the same line twice.
   */
  lemma CaseVariantsBothLogged(s1: string, s2: string, t: string)
    requires s1 != s2 && ToUpperCase(s1) == ToUpperCase(s2)
    ensures var r := OfferAll([], [Utterance(s1, t), Utterance(s2, t)]);
            r == [Utterance(s1, t), Utterance(s2, t)] && LineOf(r[0]) == LineOf(r[1])
  {
    var u1 := Utterance(s1, t);
    var u2 := Utterance(s2, t);
    assert KeySet([u1]) == {Key(u1)} by {
      assert u1 in [u1];
    }
    assert Key(u1) != Key(u2) by {
      assert |s1| == |s2|;
      var i :| 0 <= i < |s1| && s1[i] != s2[i];
      assert Key(u1)[i] == s1[i] && Key(u2)[i] == s2[i];
    }
    assert Offer([], u1) == [u1];
    assert Offer([u1], u2) == [u1, u2];
    assert [u1, u2][1..] == [u2];
    assert [u2][1..] == [];
    assert OfferAll([u1], [u2]) == OfferAll([u1, u2], []);
  }

  /**
   * A `transcript` event offers exactly its one pair, prompt or not. A
   * message list, from `summary.messages` or else from a `conversation-update`,
   * offers every message that does not carry the recruiter prompt, in order,
   * and nothing else. Any other payload offers nothing.
   */
  lemma DispatchShape(p: Payload)
    ensures p.kind == Some("transcript") ==> OfferedBy(p) == [Utterance(p.speaker, p.transcript)]
    ensures p.kind != Some("transcript") ==> forall u :: u in OfferedBy(p) ==> !Contains(u.text, PromptMarker)
    ensures p.kind != Some("transcript") && p.summaryMessages.Some? ==>
              && IsSubsequence(OfferedBy(p), Map(p.summaryMessages.value, UtteranceOf))
              && |OfferedBy(p)| == |Filter(p.summaryMessages.value, IsConversation)|
              && forall m :: m in p.summaryMessages.value && !Contains(m.message, PromptMarker) ==> UtteranceOf(m) in OfferedBy(p)
    ensures p.kind != Some("transcript") && p.summaryMessages.None? &&
            p.messageKind == Some("conversation-update") && p.messageMessages.Some? ==>
              && IsSubsequence(OfferedBy(p), Map(p.messageMessages.value, UtteranceOf))
              && |OfferedBy(p)| == |Filter(p.messageMessages.value, IsConversation)|
              && forall m :: m in p.messageMessages.value && !Contains(m.message, PromptMarker) ==> UtteranceOf(m) in OfferedBy(p)
    ensures p.kind != Some("transcript") && p.summaryMessages.None? &&
            !(p.messageKind == Some("conversation-update") && p.messageMessages.Some?) ==>
              OfferedBy(p) == []
  {
    if p.kind != Some("transcript") {
      if p.summaryMessages.Some? {
        OfferedNeverPrompt(p.summaryMessages.value);
        OfferedIsSubsequence(p.summaryMessages.value);
        OfferedEveryConversation(p.summaryMessages.value);
      } else if p.messageKind == Some("conversation-update") && p.messageMessages.Some? {
        OfferedNeverPrompt(p.messageMessages.value);
        OfferedIsSubsequence(p.messageMessages.value);
        OfferedEveryConversation(p.messageMessages.value);
      }
    }
  }

  /** A message list offers every message that does not carry the recruiter prompt. */
  lemma OfferedEveryConversation(msgs: seq<WireMessage>)
    ensures forall m :: m in msgs && !Contains(m.message, PromptMarker) ==> UtteranceOf(m) in Offered(msgs)
  {
    var kept := Filter(msgs, IsConversation);
    forall m | m in msgs && !Contains(m.message, PromptMarker) ensures UtteranceOf(m) in Offered(msgs) {
      assert IsConversation(m) && m in kept;
      var i :| 0 <= i < |kept| && kept[i] == m;
      assert Offered(msgs)[i] == UtteranceOf(m);
    }
  }

  /** A message list never offers a message carrying the recruiter prompt. */
  lemma OfferedNeverPrompt(msgs: seq<WireMessage>)
    ensures forall u :: u in Offered(msgs) ==> !Contains(u.text, PromptMarker)
  {
    var kept := Filter(msgs, IsConversation);
    forall u | u in Offered(msgs) ensures !Contains(u.text, PromptMarker) {
      var i :| 0 <= i < |kept| && Offered(msgs)[i] == u;
      assert kept[i] in kept;
    }
  }

  /** A message list offers its messages in their order. */
  lemma {:induction false} OfferedIsSubsequence(msgs: seq<WireMessage>)
    ensures IsSubsequence(Offered(msgs), Map(msgs, UtteranceOf))
    decreases |msgs|
  {
    if msgs != [] {
      OfferedIsSubsequence(msgs[1..]);
      assert msgs == [msgs[0]] + msgs[1..];
      OfferedAppendFront(msgs[0], msgs[1..]);
      assert Map(msgs, UtteranceOf)[1..] == Map(msgs[1..], UtteranceOf);
      if IsConversation(msgs[0]) {
        assert Offered(msgs)[1..] == Offered(msgs[1..]);
      } else {
        SubsequenceOfTail(Offered(msgs), Map(msgs, UtteranceOf));
      }
    }
  }

  /** The pairs offered by a message list, from its front. */
  lemma OfferedAppendFront(m: WireMessage, msgs: seq<WireMessage>)
    ensures Offered([m] + msgs) == (if IsConversation(m) then [UtteranceOf(m)] else []) + Offered(msgs)
  {
    FilterAppend([m], msgs, IsConversation);
    MapAppend(Filter([m], IsConversation), Filter(msgs, IsConversation), UtteranceOf);
  }
}
