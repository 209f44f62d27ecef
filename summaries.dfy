/** The summary generator (backend/server.py, lines 227-289): how a summary
    is derived from a conversation, how summaries are looked up, and the
    newest-first listings. */
module Summaries {
  import opened Wrappers
  import opened Collection
  import opened Records
  import opened Text

  function Id(x: Summary): string {
    x.id
  }

  function Ids(summs: seq<Summary>): seq<string> {
    Keys(summs, Id)
  }

  /** Position of the record `find_one({"id": id})` returns. */
  function IndexOf(summs: seq<Summary>, id: string): Option<nat> {
    IndexOfKey(summs, Id, id)
  }

  function ConversationOf(x: Summary): string {
    x.conversationId
  }

  function ConversationIds(summs: seq<Summary>): seq<string> {
    Keys(summs, ConversationOf)
  }

  /** Position of the record `find_one({"conversation_id": cid})` returns:
      the existing summary of a conversation. */
  function IndexForConversation(summs: seq<Summary>, cid: string): Option<nat> {
    IndexOfKey(summs, ConversationOf, cid)
  }

  /** Inserting a summary for a conversation that has none keeps summaries
      unique per conversation. */
  lemma InsertKeepsOnePerConversation(summs: seq<Summary>, s: Summary)
    requires Distinct(ConversationIds(summs))
    requires IndexForConversation(summs, s.conversationId).None?
    ensures Distinct(ConversationIds(summs + [s]))
  {
    var ids := ConversationIds(summs + [s]);
    forall i, j | 0 <= i < j < |ids|
      ensures ids[i] != ids[j]
    {
      if j == |summs| {
        assert ids[i] == ConversationIds(summs)[i];
      } else {
        assert ids[i] == ConversationIds(summs)[i] && ids[j] == ConversationIds(summs)[j];
      }
    }
  }

  predicate FromAvatar(m: Message) {
    m.sender == AvatarSender
  }

  predicate FromParticipant(m: Message) {
    m.sender != AvatarSender
  }

  function ParticipantMessages(msgs: seq<Message>): seq<Message> {
    Filter(msgs, FromParticipant)
  }

  function AvatarMessages(msgs: seq<Message>): seq<Message> {
    Filter(msgs, FromAvatar)
  }

  /** Every message is counted once, either as the participant's or as the
      avatar's. */
  lemma SendersPartition(msgs: seq<Message>)
    ensures |ParticipantMessages(msgs)| + |AvatarMessages(msgs)| == |msgs|
    ensures forall m :: m in ParticipantMessages(msgs) <==> m in msgs && m.sender != AvatarSender
    ensures forall m :: m in AvatarMessages(msgs) <==> m in msgs && m.sender == AvatarSender
  {
    FilterPartition(msgs, FromParticipant, FromAvatar);
  }

  /** How many characters of the first and last message a key point quotes. */
  const MessagePreview: nat := 50

  const SummaryOpening: string := "Conversation between avatar and "
  const SummaryWith: string := " with "
  const SummaryTotal: string := " total messages. Participant sent "
  const SummarySent: string := " messages, avatar responded "
  const SummaryTimes: string := " times."

  /** `text` names the participant and reports three counts as `str` writes
      them: the conversation's messages, the participant's and the avatar's,
      the last two adding up to the first. */
  ghost predicate ReportsCounts(text: string, c: Conversation) {
    exists total: string, sent: string, replied: string ::
      && IsDecimal(total) && IsDecimal(sent) && IsDecimal(replied)
      && DecimalValue(total) == |c.messages|
      && DecimalValue(sent) == |ParticipantMessages(c.messages)|
      && DecimalValue(replied) == |AvatarMessages(c.messages)|
      && DecimalValue(sent) + DecimalValue(replied) == DecimalValue(total)
      && text == SummaryOpening + c.participantName + SummaryWith + total
                 + SummaryTotal + sent + SummarySent + replied + SummaryTimes
  }

  /** The `summary_text` of a new summary. */
  function SummaryText(c: Conversation): (r: string)
    ensures ReportsCounts(r, c)
  {
    var total := DecimalText(|c.messages|);
    var sent := DecimalText(|ParticipantMessages(c.messages)|);
    var replied := DecimalText(|AvatarMessages(c.messages)|);
    DecimalRoundTrip(|c.messages|);
    DecimalRoundTrip(|ParticipantMessages(c.messages)|);
    DecimalRoundTrip(|AvatarMessages(c.messages)|);
    SendersPartition(c.messages);
    SummaryOpening + c.participantName + SummaryWith + total
      + SummaryTotal + sent + SummarySent + replied + SummaryTimes
  }

  const StartedLabel: string := "Conversation started at "
  const TotalLabel: string := "Total messages exchanged: "
  const ParticipantLabel: string := "Participant: "
  const AvatarLabel: string := "Avatar ID: "
  const FirstLabel: string := "First message: "
  const LastLabel: string := "Last message: "
  const Ellipsis: string := "..."

  /** Four fixed points, then previews of the first and last message when
      there is any message; each preview quotes `content[:50]`. */
  function KeyPoints(c: Conversation): (r: seq<string>)
    ensures |r| == if c.messages == [] then 4 else 6
    ensures r[0] == StartedLabel + DecimalText(c.startedAt)
    ensures r[1] == TotalLabel + DecimalText(|c.messages|)
    ensures r[2] == ParticipantLabel + c.participantName && r[3] == AvatarLabel + c.avatarId
    ensures c.messages != [] ==>
      exists q :: IsSlice(q, c.messages[0].content, MessagePreview) && r[4] == FirstLabel + q + Ellipsis
    ensures c.messages != [] ==>
      exists q :: IsSlice(q, c.messages[|c.messages| - 1].content, MessagePreview) && r[5] == LastLabel + q + Ellipsis
    ensures c.messages != [] ==>
      |r[4]| <= |FirstLabel| + MessagePreview + |Ellipsis| && |r[5]| <= |LastLabel| + MessagePreview + |Ellipsis|
  {
    var msgs := c.messages;
    var fixed := [
      StartedLabel + DecimalText(c.startedAt),
      TotalLabel + DecimalText(|msgs|),
      ParticipantLabel + c.participantName,
      AvatarLabel + c.avatarId
    ];
    if msgs == [] then fixed
    else
      var first := Take(msgs[0].content, MessagePreview);
      var last := Take(msgs[|msgs| - 1].content, MessagePreview);
      assert IsSlice(first, msgs[0].content, MessagePreview);
      assert IsSlice(last, msgs[|msgs| - 1].content, MessagePreview);
      fixed + [FirstLabel + first + Ellipsis, LastLabel + last + Ellipsis]
  }

  /** The message count a summary reports reads back as the conversation's
      number of messages. */
  lemma {:induction false} TotalReported(c: Conversation)
    ensures AllDigits(KeyPoints(c)[1][|TotalLabel|..])
    ensures DecimalValue(KeyPoints(c)[1][|TotalLabel|..]) == |c.messages|
  {
    assert KeyPoints(c)[1][|TotalLabel|..] == DecimalText(|c.messages|);
    DecimalRoundTrip(|c.messages|);
  }

  /** The summary `generate_summary` inserts for a conversation that has none. */
  function Summarize(c: Conversation, id: string, now: Timestamp): (s: Summary)
    ensures s.id == id && s.conversationId == c.id && s.avatarId == c.avatarId && s.generatedAt == now
    ensures ReportsCounts(s.summaryText, c)
    ensures s.keyPoints == KeyPoints(c)
  {
    Summary(id, c.avatarId, c.id, SummaryText(c), KeyPoints(c), now)
  }

  function GeneratedAt(s: Summary): int {
    s.generatedAt
  }

  /** `find({"avatar_id": avatarId}).sort("generated_at", -1)`. */
  function ForAvatar(summs: seq<Summary>, avatarId: string): (r: seq<Summary>)
    ensures SortedDesc(r, GeneratedAt)
    ensures forall s :: s in r <==> s in summs && s.avatarId == avatarId
    ensures multiset(r) == multiset(Filter(summs, (s: Summary) => s.avatarId == avatarId))
  {
    var matching := Filter(summs, (s: Summary) => s.avatarId == avatarId);
    var r := SortDesc(matching, GeneratedAt);
    assert forall s :: s in r <==> s in multiset(matching);
    r
  }

  /** The `get_summaries` query: all summaries, or those of one avatar when an
      avatar id is supplied, newest first. */
  function Listing(summs: seq<Summary>, avatarId: Option<string>): (r: seq<Summary>)
    ensures SortedDesc(r, GeneratedAt)
    ensures forall s :: s in r <==> s in summs && (Truthy(avatarId) ==> s.avatarId == avatarId.value)
    ensures multiset(r) == multiset(if Truthy(avatarId) then Filter(summs, (s: Summary) => s.avatarId == avatarId.value) else summs)
  {
    if Truthy(avatarId) then
      ForAvatar(summs, avatarId.value)
    else
      var r := SortDesc(summs, GeneratedAt);
      assert forall s :: s in r <==> s in multiset(summs);
      r
  }
}
