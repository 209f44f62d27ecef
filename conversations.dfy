/** The conversation state machine (backend/server.py, lines 156-224): the
    lookups, the canned avatar reply, what one `add_message` appends and what
    `end_conversation` changes. */
module Conversations {
  import opened Wrappers
  import opened Collection
  import opened Records
  import opened Text

  function Id(x: Conversation): string {
    x.id
  }

  function Ids(convs: seq<Conversation>): seq<string> {
    Keys(convs, Id)
  }

  /** Position of the record `find_one({"id": id})` returns. */
  function IndexOf(convs: seq<Conversation>, id: string): Option<nat> {
    IndexOfKey(convs, Id, id)
  }

  /** The `get_conversations` query: every conversation, or those of one
      avatar when an avatar id is supplied. */
  predicate Listed(avatarId: Option<string>, c: Conversation) {
    Truthy(avatarId) ==> c.avatarId == avatarId.value
  }

  function Listing(convs: seq<Conversation>, avatarId: Option<string>): (r: seq<Conversation>)
    ensures forall c :: c in r <==> c in convs && Listed(avatarId, c)
  {
    Filter(convs, (c: Conversation) => Listed(avatarId, c))
  }

  /** The record `create_conversation` inserts. */
  function NewConversation(id: string, req: ConversationCreate, now: Timestamp): (c: Conversation)
    ensures ConversationCreate(c.avatarId, c.participantName) == req
    ensures c.id == id && c.startedAt == now
    ensures c.messages == [] && c.status == Active && c.endedAt.None?
  {
    Conversation(id, req.avatarId, req.participantName, [], now, None, Active)
  }

  /** How much of the inbound message and of the personality the reply quotes. */
  const ContentPreview: nat := 50
  const PersonalityPreview: nat := 100

  const ReplyOpening: string := "As "
  const ReplyAbout: string := ", I understand your message about '"
  const ReplyBasis: string := "...'. Let me respond based on my personality: "
  const ReplyClosing: string := "..."

  /** The mock reply text: it quotes at most the first 50 characters of the
      inbound message and at most the first 100 of the personality. */
  function ReplyText(name: string, content: string, personality: string): (r: string)
    ensures |r| == |ReplyOpening| + |name| + |ReplyAbout| + |ReplyBasis| + |ReplyClosing|
                   + (if |content| <= ContentPreview then |content| else ContentPreview)
                   + (if |personality| <= PersonalityPreview then |personality| else PersonalityPreview)
    ensures r[..|ReplyOpening| + |name|] == ReplyOpening + name
    ensures exists q, p ::
      && IsSlice(q, content, ContentPreview)
      && IsSlice(p, personality, PersonalityPreview)
      && r == ReplyOpening + name + ReplyAbout + q + ReplyBasis + p + ReplyClosing
  {
    var q := Take(content, ContentPreview);
    var p := Take(personality, PersonalityPreview);
    assert IsSlice(q, content, ContentPreview) && IsSlice(p, personality, PersonalityPreview);
    ReplyOpening + name + ReplyAbout + q + ReplyBasis + p + ReplyClosing
  }

  /** The reply depends on the inbound message only through its first 50
      characters. */
  lemma ReplyIgnoresTail(name: string, c1: string, c2: string, personality: string)
    requires |c1| >= ContentPreview && |c2| >= ContentPreview
    requires c1[..ContentPreview] == c2[..ContentPreview]
    ensures ReplyText(name, c1, personality) == ReplyText(name, c2, personality)
  {
  }

  /** The reply message the avatar sends to an inbound message. */
  function Reply(a: Avatar, inbound: Message, at: Timestamp): (m: Message)
    ensures m.sender == AvatarSender && m.timestamp == at
    ensures m.content == ReplyText(a.name, inbound.content, a.personality)
  {
    Message(AvatarSender, ReplyText(a.name, inbound.content, a.personality), at)
  }

  /** The message list after one `add_message`: the inbound message, then the
      avatar's reply when the sender is not "avatar" and the avatar record was
      found. */
  function Appended(msgs: seq<Message>, m: Message, avatar: Option<Avatar>, replyAt: Timestamp): (r: seq<Message>)
    ensures |r| == |msgs| + (if m.sender != AvatarSender && avatar.Some? then 2 else 1)
    ensures r[..|msgs|] == msgs && r[|msgs|] == m
    ensures |r| == |msgs| + 2 ==> r[|msgs| + 1] == Reply(avatar.value, m, replyAt)
    ensures |r| == |msgs| + 2 ==> r[|msgs| + 1].sender == AvatarSender
  {
    var inbound := msgs + [m];
    if m.sender != AvatarSender && avatar.Some? then inbound + [Reply(avatar.value, m, replyAt)] else inbound
  }

  /** A message from the avatar, its own reply included, triggers no reply. */
  lemma AvatarMessageGetsNoReply(msgs: seq<Message>, m: Message, avatar: Option<Avatar>, t: Timestamp)
    requires m.sender == AvatarSender
    ensures Appended(msgs, m, avatar, t) == msgs + [m]
  {
  }

  /** The message list after one `add_message` call per inbound message, in
      order; `replyTimes[k]` is the clock reading for the k-th reply. */
  function Exchange(msgs: seq<Message>, inbound: seq<Message>, avatar: Option<Avatar>, replyTimes: seq<Timestamp>): seq<Message>
    requires |inbound| == |replyTimes|
    decreases |inbound|
  {
    if inbound == [] then msgs
    else Exchange(Appended(msgs, inbound[0], avatar, replyTimes[0]), inbound[1..], avatar, replyTimes[1..])
  }

  /** N participant messages leave 2N new messages behind the old ones,
      alternating message and reply. */
  lemma {:induction false} ExchangeAlternates(msgs: seq<Message>, inbound: seq<Message>, a: Avatar, replyTimes: seq<Timestamp>)
    requires |inbound| == |replyTimes|
    requires forall k :: 0 <= k < |inbound| ==> inbound[k].sender != AvatarSender
    decreases |inbound|
    ensures var r := Exchange(msgs, inbound, Some(a), replyTimes);
      && |r| == |msgs| + 2 * |inbound|
      && r[..|msgs|] == msgs
      && forall k :: 0 <= k < |inbound| ==>
           r[|msgs| + 2 * k] == inbound[k] && r[|msgs| + 2 * k + 1] == Reply(a, inbound[k], replyTimes[k])
  {
    if inbound != [] {
      var first := Appended(msgs, inbound[0], Some(a), replyTimes[0]);
      ExchangeAlternates(first, inbound[1..], a, replyTimes[1..]);
      var r := Exchange(msgs, inbound, Some(a), replyTimes);
      assert r == Exchange(first, inbound[1..], Some(a), replyTimes[1..]);
      assert r[..|msgs|] == first[..|first|][..|msgs|];
      forall k | 0 <= k < |inbound|
        ensures r[|msgs| + 2 * k] == inbound[k] && r[|msgs| + 2 * k + 1] == Reply(a, inbound[k], replyTimes[k])
      {
        if k == 0 {
          assert r[|msgs|] == r[..|first|][|msgs|];
          assert r[|msgs| + 1] == r[..|first|][|msgs| + 1];
        } else {
          assert |first| + 2 * (k - 1) == |msgs| + 2 * k;
          assert inbound[1..][k - 1] == inbound[k];
        }
      }
    }
  }

  /** The record after `$set` of `status` and `ended_at`. */
  function Closed(c: Conversation, at: Timestamp): (r: Conversation)
    ensures r.status == Ended && r.endedAt == Some(at)
    ensures r.(status := c.status, endedAt := c.endedAt) == c
  {
    c.(status := Ended, endedAt := Some(at))
  }

  /** How the conversation collection may evolve across any handler: records
      are never removed, keep their identity and participants, messages are
      only appended, and an ended conversation stays ended. */
  ghost predicate Grows(before: seq<Conversation>, after: seq<Conversation>) {
    |before| <= |after| &&
    forall i :: 0 <= i < |before| ==>
      && after[i].id == before[i].id
      && after[i].avatarId == before[i].avatarId
      && after[i].participantName == before[i].participantName
      && after[i].startedAt == before[i].startedAt
      && before[i].messages <= after[i].messages
      && (before[i].status == Ended ==> after[i].status == Ended)
  }
}
