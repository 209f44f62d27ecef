/** The avatar registry (backend/server.py, lines 110-153): the lookups and
    record derivations its handlers use, and what soft deletion hides. */
module Avatars {
  import opened Wrappers
  import opened Collection
  import opened Records

  function Id(a: Avatar): string {
    a.id
  }

  function Ids(avs: seq<Avatar>): seq<string> {
    Keys(avs, Id)
  }

  /** Position of the record `find_one({"id": id})` returns. */
  function IndexOf(avs: seq<Avatar>, id: string): Option<nat> {
    IndexOfKey(avs, Id, id)
  }

  /** The record `find_one({"id": id})` returns. It does not look at
      `is_active`: a soft-deleted avatar is still found. */
  function Find(avs: seq<Avatar>, id: string): (r: Option<Avatar>)
    ensures r.Some? <==> id in Ids(avs)
    ensures r.Some? ==> r.value in avs && r.value.id == id
  {
    match IndexOf(avs, id)
    case None => None
    case Some(i) => Some(avs[i])
  }

  /** Position of the record `find_one({"id": id, "is_active": True})`
      returns: the lookup that lets a conversation start. */
  function IndexOfActive(avs: seq<Avatar>, id: string): (r: Option<nat>)
    ensures r.Some? <==> exists i :: 0 <= i < |avs| && avs[i].id == id && avs[i].isActive
    ensures r.Some? ==> r.value < |avs| && avs[r.value].id == id && avs[r.value].isActive
  {
    FindFirst(avs, (a: Avatar) => a.id == id && a.isActive)
  }

  /** The record `create_avatar` inserts: a fresh id, the creation time and
      the active flag set. */
  function NewAvatar(id: string, data: AvatarCreate, now: Timestamp): (a: Avatar)
    ensures AvatarCreate(a.name, a.personality, a.description, a.ownerId, a.knowledgeBase, a.avatarImage) == data
    ensures a.id == id && a.createdAt == now && a.isActive
    ensures Listed(None, a) && Listed(Some(data.ownerId), a)
  {
    Avatar(id, data.name, data.personality, data.description, data.ownerId,
           data.knowledgeBase, data.avatarImage, now, true)
  }

  /** The `get_avatars` query: active records, of the given owner when one is
      supplied. */
  predicate Listed(owner: Option<string>, a: Avatar) {
    a.isActive && (Truthy(owner) ==> a.ownerId == owner.value)
  }

  function Listing(avs: seq<Avatar>, owner: Option<string>): (r: seq<Avatar>)
    ensures forall a :: a in r <==> a in avs && Listed(owner, a)
  {
    Filter(avs, (a: Avatar) => Listed(owner, a))
  }

  /** The `if update_data:` test: some field of the update was supplied. */
  predicate HasUpdates(u: AvatarUpdate) {
    u.name.Some? || u.personality.Some? || u.description.Some? ||
    u.knowledgeBase.Some? || u.avatarImage.Some? || u.isActive.Some?
  }

  /** The record after `$set` with the non-`None` fields of an update. */
  function ApplyUpdate(a: Avatar, u: AvatarUpdate): (r: Avatar)
    ensures r.id == a.id && r.ownerId == a.ownerId && r.createdAt == a.createdAt
    ensures (u.name.Some? ==> r.name == u.name.value) && (u.name.None? ==> r.name == a.name)
    ensures (u.personality.Some? ==> r.personality == u.personality.value) && (u.personality.None? ==> r.personality == a.personality)
    ensures (u.description.Some? ==> r.description == u.description.value) && (u.description.None? ==> r.description == a.description)
    ensures (u.knowledgeBase.Some? ==> r.knowledgeBase == u.knowledgeBase) && (u.knowledgeBase.None? ==> r.knowledgeBase == a.knowledgeBase)
    ensures (u.avatarImage.Some? ==> r.avatarImage == u.avatarImage) && (u.avatarImage.None? ==> r.avatarImage == a.avatarImage)
    ensures (u.isActive.Some? ==> r.isActive == u.isActive.value) && (u.isActive.None? ==> r.isActive == a.isActive)
  {
    Avatar(a.id,
           if u.name.Some? then u.name.value else a.name,
           if u.personality.Some? then u.personality.value else a.personality,
           if u.description.Some? then u.description.value else a.description,
           a.ownerId,
           if u.knowledgeBase.Some? then u.knowledgeBase else a.knowledgeBase,
           if u.avatarImage.Some? then u.avatarImage else a.avatarImage,
           a.createdAt,
           if u.isActive.Some? then u.isActive.value else a.isActive)
  }

  /** An update that supplies nothing changes nothing, so skipping the write
      is the same as writing it. */
  lemma NoUpdatesKeepsRecord(a: Avatar, u: AvatarUpdate)
    requires !HasUpdates(u)
    ensures ApplyUpdate(a, u) == a
  {
  }

  /** The registry after `update_one({"id": id}, {"$set": {"is_active": False}})`. */
  function Deactivated(avs: seq<Avatar>, id: string): (r: seq<Avatar>)
    ensures Ids(r) == Ids(avs)
  {
    match IndexOf(avs, id)
    case None => avs
    case Some(i) => avs[i := avs[i].(isActive := false)]
  }

  /** Soft deletion keeps the record, with only its flag cleared, and hides it
      from every listing and from starting conversations. */
  lemma {:induction false} DeletedIsHidden(avs: seq<Avatar>, id: string, owner: Option<string>)
    requires Distinct(Ids(avs)) && id in Ids(avs)
    ensures IndexOf(Deactivated(avs, id), id) == IndexOf(avs, id)
    ensures var i := IndexOf(avs, id).value;
      Deactivated(avs, id) == avs[i := avs[i].(isActive := false)]
    ensures IndexOfActive(Deactivated(avs, id), id).None?
    ensures forall a :: a in Listing(Deactivated(avs, id), owner) ==> a.id != id
  {
    var i := IndexOf(avs, id).value;
    var r := Deactivated(avs, id);
    assert r == avs[i := avs[i].(isActive := false)];
    assert r[i].id == avs[i].id;
    IndexOfKeyUnique(r, Id, i);
    forall k | 0 <= k < |r| && r[k].id == id
      ensures k == i
    {
      assert Ids(r)[k] == Ids(r)[i];
    }
  }
}
