/** The record-keeping service of backend/server.py: the document store as a
    class holding the three collections, one method per HTTP handler. The
    clock reading and the fresh uuid a handler would draw are parameters. */
module Server {
  import opened Wrappers
  import opened Collection
  import opened Records
  import Avatars
  import Conversations
  import Summaries

  /** How the avatar collection may evolve across any handler: records are
      never removed and keep their id, owner and creation time. */
  ghost predicate AvatarsKept(before: seq<Avatar>, after: seq<Avatar>) {
    |before| <= |after| &&
    forall i :: 0 <= i < |before| ==>
      after[i].id == before[i].id && after[i].ownerId == before[i].ownerId && after[i].createdAt == before[i].createdAt
  }

  class Store {
    var avatars: seq<Avatar>
    var conversations: seq<Conversation>
    var summaries: seq<Summary>

    /** Ids are unique per collection (they are fresh uuids), at most one
        summary exists per conversation, and every conversation and summary
        refers to a record that exists. */
    ghost predicate Valid()
      reads this
    {
      && Distinct(Avatars.Ids(avatars))
      && Distinct(Conversations.Ids(conversations))
      && Distinct(Summaries.Ids(summaries))
      && Distinct(Summaries.ConversationIds(summaries))
      && (forall c :: c in conversations ==> c.avatarId in Avatars.Ids(avatars))
      && (forall s :: s in summaries ==> s.conversationId in Conversations.Ids(conversations))
    }

    constructor ()
      ensures Valid()
      ensures avatars == [] && conversations == [] && summaries == []
    {
      avatars, conversations, summaries := [], [], [];
    }

    // ---------------------------------------------------------------- avatars

    /** `POST /avatars`. */
    method CreateAvatar(data: AvatarCreate, id: string, now: Timestamp) returns (a: Avatar)
      requires Valid()
      requires id !in Avatars.Ids(avatars)
      modifies this
      ensures Valid()
      ensures a.id == id && a.isActive && a.createdAt == now
      ensures a == Avatars.NewAvatar(id, data, now)
      ensures avatars == old(avatars) + [a]
      ensures conversations == old(conversations) && summaries == old(summaries)
    {
      a := Avatars.NewAvatar(id, data, now);
      assert Avatars.Ids(avatars + [a]) == Avatars.Ids(avatars) + [id];
      avatars := avatars + [a];
    }

    /** `GET /avatars`: the active avatars, of one owner when one is given. */
    method GetAvatars(owner: Option<string>) returns (r: seq<Avatar>)
      ensures r == Avatars.Listing(avatars, owner)
      ensures forall a :: a in r <==> a in avatars && a.isActive && (Truthy(owner) ==> a.ownerId == owner.value)
    {
      r := Avatars.Listing(avatars, owner);
    }

    /** `GET /avatars/{id}`: found whether active or not. */
    method GetAvatar(id: string) returns (r: Result<Avatar>)
      ensures r.NotFound? <==> id !in Avatars.Ids(avatars)
      ensures r.NotFound? ==> r.detail == "Avatar not found"
      ensures r.Ok? ==> r.value in avatars && r.value.id == id
    {
      var found := Avatars.Find(avatars, id);
      if found.None? {
        return NotFound("Avatar not found");
      }
      r := Ok(found.value);
    }

    /** `PUT /avatars/{id}`: writes the supplied fields, then reads the record
        back. */
    method UpdateAvatar(id: string, u: AvatarUpdate) returns (r: Result<Avatar>)
      requires Valid()
      modifies this
      ensures Valid()
      ensures AvatarsKept(old(avatars), avatars)
      ensures conversations == old(conversations) && summaries == old(summaries)
      ensures r.Ok? <==> Avatars.IndexOf(old(avatars), id).Some?
      ensures r.NotFound? ==> avatars == old(avatars) && r.detail == "Avatar not found"
      ensures r.Ok? ==>
        var i := Avatars.IndexOf(old(avatars), id).value;
        && avatars == old(avatars)[i := Avatars.ApplyUpdate(old(avatars)[i], u)]
        && r.value == avatars[i]
    {
      var found := Avatars.IndexOf(avatars, id);
      if found.None? {
        return NotFound("Avatar not found");
      }
      var i := found.value;
      if Avatars.HasUpdates(u) {
        var updated := Avatars.ApplyUpdate(avatars[i], u);
        assert Avatars.Ids(avatars[i := updated]) == Avatars.Ids(avatars);
        avatars := avatars[i := updated];
      } else {
        Avatars.NoUpdatesKeepsRecord(avatars[i], u);
        assert avatars == avatars[i := Avatars.ApplyUpdate(avatars[i], u)];
      }
      IndexOfKeyUnique(avatars, Avatars.Id, i);
      var reread := Avatars.Find(avatars, id);
      r := Ok(reread.value);
    }

    /** `DELETE /avatars/{id}`: a soft delete that clears `is_active`. */
    method DeleteAvatar(id: string) returns (r: Result<string>)
      requires Valid()
      modifies this
      ensures Valid()
      ensures AvatarsKept(old(avatars), avatars)
      ensures conversations == old(conversations) && summaries == old(summaries)
      ensures r.NotFound? <==> id !in Avatars.Ids(old(avatars))
      ensures avatars == Avatars.Deactivated(old(avatars), id)
      ensures r.Ok? ==> r.value == "Avatar deleted successfully"
      ensures r.NotFound? ==> r.detail == "Avatar not found"
    {
      var matched := Avatars.IndexOf(avatars, id);
      avatars := Avatars.Deactivated(avatars, id);
      if matched.None? {
        return NotFound("Avatar not found");
      }
      r := Ok("Avatar deleted successfully");
    }

    // ---------------------------------------------------------- conversations

    /** `POST /conversations`: only against an active avatar. */
    method CreateConversation(req: ConversationCreate, id: string, now: Timestamp) returns (r: Result<Conversation>)
      requires Valid()
      requires id !in Conversations.Ids(conversations)
      modifies this
      ensures Valid()
      ensures Conversations.Grows(old(conversations), conversations)
      ensures avatars == old(avatars) && summaries == old(summaries)
      ensures r.NotFound? <==> !exists i :: 0 <= i < |avatars| && avatars[i].id == req.avatarId && avatars[i].isActive
      ensures r.NotFound? ==> conversations == old(conversations) && r.detail == "Avatar not found"
      ensures r.Ok? ==>
        && r.value.id == id && r.value.avatarId == req.avatarId && r.value.participantName == req.participantName
        && r.value.messages == [] && r.value.status == Active && r.value.endedAt == None && r.value.startedAt == now
        && conversations == old(conversations) + [r.value]
    {
      var avatar := Avatars.IndexOfActive(avatars, req.avatarId);
      if avatar.None? {
        return NotFound("Avatar not found");
      }
      var c := Conversations.NewConversation(id, req, now);
      assert Conversations.Ids(conversations + [c]) == Conversations.Ids(conversations) + [id];
      assert req.avatarId == Avatars.Ids(avatars)[avatar.value];
      conversations := conversations + [c];
      r := Ok(c);
    }

    /** `GET /conversations`: all conversations, or one avatar's. */
    method GetConversations(avatarId: Option<string>) returns (r: seq<Conversation>)
      ensures r == Conversations.Listing(conversations, avatarId)
      ensures forall c :: c in r <==> c in conversations && (Truthy(avatarId) ==> c.avatarId == avatarId.value)
    {
      r := Conversations.Listing(conversations, avatarId);
    }

    /** `GET /conversations/{id}`. */
    method GetConversation(id: string) returns (r: Result<Conversation>)
      ensures r.NotFound? <==> id !in Conversations.Ids(conversations)
      ensures r.NotFound? ==> r.detail == "Conversation not found"
      ensures r.Ok? ==> r.value in conversations && r.value.id == id
    {
      var found := Conversations.IndexOf(conversations, id);
      if found.None? {
        return NotFound("Conversation not found");
      }
      r := Ok(conversations[found.value]);
    }

    /** `update_one({"id": id}, {"$push": {"messages": m}})`. */
    method PushMessage(id: string, m: Message)
      requires Valid()
      modifies this
      ensures Valid()
      ensures avatars == old(avatars) && summaries == old(summaries)
      ensures Conversations.Ids(conversations) == Conversations.Ids(old(conversations))
      ensures match Conversations.IndexOf(old(conversations), id)
        case None => conversations == old(conversations)
        case Some(i) => conversations == old(conversations)[i := old(conversations)[i].(messages := old(conversations)[i].messages + [m])]
    {
      var found := Conversations.IndexOf(conversations, id);
      if found.Some? {
        var i := found.value;
        var c := conversations[i].(messages := conversations[i].messages + [m]);
        assert Conversations.Ids(conversations[i := c]) == Conversations.Ids(conversations);
        conversations := conversations[i := c];
        forall x | x in conversations
          ensures x.avatarId in Avatars.Ids(avatars)
        {
          var k :| 0 <= k < |conversations| && conversations[k] == x;
          assert x.avatarId == old(conversations)[k].avatarId;
        }
      }
    }

    /** `POST /conversations/{id}/messages`: appends the message, and the
        avatar's reply when the sender is not "avatar" and the avatar record
        is found (active or not). */
    method AddMessage(id: string, m: Message, replyAt: Timestamp) returns (r: Result<string>)
      requires Valid()
      modifies this
      ensures Valid()
      ensures Conversations.Grows(old(conversations), conversations)
      ensures avatars == old(avatars) && summaries == old(summaries)
      ensures r.Ok? <==> Conversations.IndexOf(old(conversations), id).Some?
      ensures r.NotFound? ==> conversations == old(conversations) && r.detail == "Conversation not found"
      ensures r.Ok? ==>
        var i := Conversations.IndexOf(old(conversations), id).value;
        var c := old(conversations)[i];
        && conversations == old(conversations)[i := c.(messages := Conversations.Appended(c.messages, m, Avatars.Find(avatars, c.avatarId), replyAt))]
        && |conversations[i].messages| == |c.messages| + (if m.sender != AvatarSender then 2 else 1)
      ensures r.Ok? ==> r.value == "Message added successfully"
    {
      var found := Conversations.IndexOf(conversations, id);
      if found.None? {
        return NotFound("Conversation not found");
      }
      ghost var i := found.value;
      var conversation := conversations[found.value];
      assert conversation.avatarId in Avatars.Ids(avatars);
      PushMessage(id, m);
      if m.sender != AvatarSender {
        var avatar := Avatars.Find(avatars, conversation.avatarId);
        if avatar.Some? {
          var reply := Conversations.Reply(avatar.value, m, replyAt);
          IndexOfKeyUnique(conversations, Conversations.Id, i);
          PushMessage(id, reply);
        }
      }
      assert conversations[i].messages == Conversations.Appended(conversation.messages, m, Avatars.Find(avatars, conversation.avatarId), replyAt);
      r := Ok("Message added successfully");
    }

    /** `PUT /conversations/{id}/end`: no guard against ending twice. */
    method EndConversation(id: string, now: Timestamp) returns (r: Result<string>)
      requires Valid()
      modifies this
      ensures Valid()
      ensures Conversations.Grows(old(conversations), conversations)
      ensures avatars == old(avatars) && summaries == old(summaries)
      ensures r.NotFound? <==> id !in Conversations.Ids(old(conversations))
      ensures r.NotFound? ==> conversations == old(conversations) && r.detail == "Conversation not found"
      ensures r.Ok? ==>
        var i := Conversations.IndexOf(old(conversations), id).value;
        conversations == old(conversations)[i := Conversations.Closed(old(conversations)[i], now)]
      ensures r.Ok? ==> r.value == "Conversation ended successfully"
    {
      var matched := Conversations.IndexOf(conversations, id);
      if matched.None? {
        return NotFound("Conversation not found");
      }
      var i := matched.value;
      var c := Conversations.Closed(conversations[i], now);
      assert Conversations.Ids(conversations[i := c]) == Conversations.Ids(conversations);
      conversations := conversations[i := c];
      forall x | x in conversations
        ensures x.avatarId in Avatars.Ids(avatars)
      {
        var k :| 0 <= k < |conversations| && conversations[k] == x;
        assert x.avatarId == old(conversations)[k].avatarId;
      }
      r := Ok("Conversation ended successfully");
    }

    // -------------------------------------------------------------- summaries

    /** `POST /conversations/{id}/summary`: returns the existing summary of
        the conversation unchanged, or derives, inserts and returns one. */
    method GenerateSummary(cid: string, id: string, now: Timestamp) returns (r: Result<Summary>)
      requires Valid()
      requires id !in Summaries.Ids(summaries)
      modifies this
      ensures Valid()
      ensures avatars == old(avatars) && conversations == old(conversations)
      ensures old(summaries) <= summaries
      ensures r.NotFound? <==> cid !in Conversations.Ids(conversations)
      ensures r.NotFound? ==> summaries == old(summaries) && r.detail == "Conversation not found"
      ensures r.Ok? && cid in Summaries.ConversationIds(old(summaries)) ==>
        && r.value == old(summaries)[Summaries.IndexForConversation(old(summaries), cid).value]
        && summaries == old(summaries)
      ensures r.Ok? && cid !in Summaries.ConversationIds(old(summaries)) ==>
        && r.value == Summaries.Summarize(conversations[Conversations.IndexOf(conversations, cid).value], id, now)
        && summaries == old(summaries) + [r.value]
      ensures r.Ok? ==> r.value.conversationId == cid && r.value in summaries
    {
      var found := Conversations.IndexOf(conversations, cid);
      if found.None? {
        return NotFound("Conversation not found");
      }
      var existing := Summaries.IndexForConversation(summaries, cid);
      if existing.Some? {
        return Ok(summaries[existing.value]);
      }
      var s := Summaries.Summarize(conversations[found.value], id, now);
      Summaries.InsertKeepsOnePerConversation(summaries, s);
      assert Summaries.Ids(summaries + [s]) == Summaries.Ids(summaries) + [id];
      assert cid == Conversations.Ids(conversations)[found.value];
      summaries := summaries + [s];
      r := Ok(s);
    }

    /** `GET /summaries`: newest first, of one avatar when one is given. */
    method GetSummaries(avatarId: Option<string>) returns (r: seq<Summary>)
      ensures r == Summaries.Listing(summaries, avatarId)
      ensures SortedDesc(r, Summaries.GeneratedAt)
      ensures forall s :: s in r <==> s in summaries && (Truthy(avatarId) ==> s.avatarId == avatarId.value)
    {
      r := Summaries.Listing(summaries, avatarId);
    }

    /** `GET /summaries/{id}`. */
    method GetSummary(id: string) returns (r: Result<Summary>)
      ensures r.NotFound? <==> id !in Summaries.Ids(summaries)
      ensures r.NotFound? ==> r.detail == "Summary not found"
      ensures r.Ok? ==> r.value in summaries && r.value.id == id
    {
      var found := Summaries.IndexOf(summaries, id);
      if found.None? {
        return NotFound("Summary not found");
      }
      r := Ok(summaries[found.value]);
    }

    /** `GET /avatars/{id}/summaries`: the avatar must exist (active or not);
        its summaries, newest first. */
    method GetAvatarSummaries(avatarId: string) returns (r: Result<seq<Summary>>)
      ensures r.NotFound? <==> avatarId !in Avatars.Ids(avatars)
      ensures r.NotFound? ==> r.detail == "Avatar not found"
      ensures r.Ok? ==> r.value == Summaries.ForAvatar(summaries, avatarId)
      ensures r.Ok? ==> SortedDesc(r.value, Summaries.GeneratedAt)
      ensures r.Ok? ==> forall s :: s in r.value <==> s in summaries && s.avatarId == avatarId
    {
      var avatar := Avatars.Find(avatars, avatarId);
      if avatar.None? {
        return NotFound("Avatar not found");
      }
      r := Ok(Summaries.ForAvatar(summaries, avatarId));
    }
  }

  /** Asking twice for the summary of a conversation yields the same summary,
      and the second request inserts nothing. */
  method GenerateSummaryTwice(store: Store, cid: string, id1: string, id2: string, t1: Timestamp, t2: Timestamp)
    returns (first: Result<Summary>, second: Result<Summary>)
    requires store.Valid()
    requires id1 != id2 && id1 !in Summaries.Ids(store.summaries) && id2 !in Summaries.Ids(store.summaries)
    modifies store
    ensures store.Valid()
    ensures first.Ok? ==> second == first
    ensures first.NotFound? ==> second.NotFound?
    ensures |store.summaries| <= |old(store.summaries)| + 1
  {
    first := store.GenerateSummary(cid, id1, t1);
    ghost var between := store.summaries;
    second := store.GenerateSummary(cid, id2, t2);
    if first.Ok? {
      ghost var k := Summaries.IndexForConversation(between, cid).value;
      ghost var j :| 0 <= j < |between| && between[j] == first.value;
      assert Summaries.ConversationIds(between)[j] == Summaries.ConversationIds(between)[k];
    }
  }

  /** A soft-deleted avatar can no longer start a conversation, while the
      conversations it already has stay reachable. */
  method DeletedAvatarCannotStart(store: Store, avatarId: string, req: ConversationCreate, cid: string, now: Timestamp)
    returns (deleted: Result<string>, started: Result<Conversation>)
    requires store.Valid()
    requires avatarId in Avatars.Ids(store.avatars) && req.avatarId == avatarId
    requires cid !in Conversations.Ids(store.conversations)
    modifies store
    ensures store.Valid()
    ensures deleted.Ok? && started.NotFound?
    ensures store.conversations == old(store.conversations)
  {
    deleted := store.DeleteAvatar(avatarId);
    Avatars.DeletedIsHidden(old(store.avatars), avatarId, None);
    started := store.CreateConversation(req, cid, now);
  }
}
