# Avatar, conversation and summary records — a Dafny model

This project models the record-keeping service in `backend/server.py`. The
service keeps three collections in a document store:

- **avatars**: personas with an owner and an active flag;
- **conversations**: each held with one avatar, carrying an embedded,
  append-only list of messages;
- **summaries**: derived once per conversation.

The store is the class `Server.Store`. It holds one sequence per collection,
in insertion order. Every HTTP handler is one method of that class. A
`find_one` query is modelled as "the first matching record"
(`Collection.FindFirst`). A `find` query is the matching records in order
(`Collection.Filter`). `sort("generated_at", -1)` is `Collection.SortDesc`.
The handlers read the clock (`datetime.utcnow()`) and draw fresh ids
(`uuid.uuid4()`). Both are method parameters here. A fresh id is a
precondition saying the id is not yet in its collection.

The pure derivations sit in their own modules with their lemmas:

- the partial update (`Avatars.ApplyUpdate`);
- the canned avatar reply (`Conversations.ReplyText`);
- the messages one `add_message` appends (`Conversations.Appended`);
- the summary text and key points (`Summaries`);
- Python's `s[:n]` and `str(n)` (`Text`).

The store invariant `Store.Valid` says four things:

- ids are unique in each collection;
- there is at most one summary per conversation;
- every conversation names an existing avatar;
- every summary names an existing conversation.

Avatars are never removed and their ids never change. So under this invariant
the avatar lookup in `add_message` always succeeds. A message whose sender is
not `"avatar"` therefore always gets its reply (`Store.AddMessage`).

The model follows the code where it is more permissive than one might expect:

- `get_avatar` does not check `is_active`, so a soft-deleted avatar is still
  found.
- No handler checks owners. `owner_id` is only an optional listing filter.
- `update_avatar` accepts `is_active`, so an update can reactivate a deleted
  avatar.
- The authentication layer (users, tokens, admin credentials) is not in
  `backend/server.py`.

## Model

| member | source | states |
|---|---|---|
| `Collection.FindFirst` | backend/server.py:127 | `find_one` returns the first record that matches the query. If it returns nothing, no record matches. |
| `Collection.IndexOfKey` | backend/server.py:127 | `find_one({field: k})` succeeds exactly when some record carries `k` in that field, and the record found carries it. Used for avatar, conversation and summary ids and for a summary's conversation id (backend/server.py:178, 234, 277). |
| `Collection.IndexOfKeyUnique` | backend/server.py:209-211 | When a field is unique, the lookup by a record's value finds that record. So the second `$push` reaches the conversation the first one did. |
| `Collection.Filter` | backend/server.py:122 | `find` returns exactly the records that match the query. |
| `Collection.FilterConcat` | backend/server.py:122 | Filtering keeps collection order: it distributes over concatenation. |
| `Collection.FilterPartition` | backend/server.py:240-241 | A query and its negation split the collection between them with no overlap. |
| `Collection.Insert` | backend/server.py:272 | Inserting a record into a newest-first list adds exactly that record and drops none. |
| `Collection.InsertBounded` | backend/server.py:272 | Inserting a record under a bound keeps every key under that bound. |
| `Collection.InsertSorted` | backend/server.py:272 | Inserting into a list sorted newest first keeps it sorted. |
| `Collection.SortDesc` | backend/server.py:272 | `sort(field, -1)` returns a permutation of its input, ordered by the key, largest first. |
| `Text.Take` | backend/server.py:202 | Python's `s[:n]` is a prefix of `s` of length `min(n, len(s))`. |
| `Text.DecimalText` | backend/server.py:248 | `str(n)` is a non-empty string of digits with no leading zero. |
| `Text.DecimalRoundTrip` | backend/server.py:248 | Reading the rendered count back gives the count. |
| `Avatars.NewAvatar` | backend/server.py:113 | The new avatar carries the request's fields, the fresh id and the creation time. It is active, so every listing of its owner shows it. |
| `Avatars.Find` | backend/server.py:199 | The lookup by id ignores `is_active`. It finds an avatar exactly when one has the id. |
| `Avatars.IndexOfActive` | backend/server.py:158 | The lookup that gates conversations succeeds exactly when an avatar with the id is active. |
| `Avatars.Listing` | backend/server.py:117-123 | The listing holds exactly the active avatars, of the given owner when a non-empty owner id is supplied. |
| `Avatars.ApplyUpdate` | backend/server.py:138-140 | Each field given a non-`None` value is overwritten. Every other field, and the id, owner and creation time, is unchanged. |
| `Avatars.NoUpdatesKeepsRecord` | backend/server.py:139 | An update with no fields leaves the record as it was. |
| `Avatars.Deactivated` | backend/server.py:147-150 | The soft delete changes no record's id. |
| `Avatars.DeletedIsHidden` | backend/server.py:145-160 | After a soft delete, the record is kept with only `is_active` cleared. It is absent from every listing and can no longer start a conversation. |
| `Conversations.NewConversation` | backend/server.py:162-164 | The new conversation carries the request's avatar id and participant name, the fresh id and the start time. It has no messages, status active and no `ended_at`. |
| `Conversations.Listing` | backend/server.py:168-174 | The listing holds every conversation, or only those of the given avatar when a non-empty avatar id is supplied. |
| `Conversations.ReplyText` | backend/server.py:202 | The reply is the fixed text around the avatar's name, the message's `content[:50]` and the personality's `personality[:100]`, in that order. |
| `Conversations.Reply` | backend/server.py:204-207 | The reply message is sent by "avatar" at the given time and carries the reply text. |
| `Conversations.ReplyIgnoresTail` | backend/server.py:202 | Messages that agree on their first 50 characters get the same reply. |
| `Conversations.Appended` | backend/server.py:189-212 | The old messages remain an unchanged prefix, followed by the inbound message. The list grows by 2 exactly when the sender is not "avatar" and the avatar was found, otherwise by 1. The second new message is the reply, sent by "avatar". |
| `Conversations.AvatarMessageGetsNoReply` | backend/server.py:198 | Any message sent by "avatar", the avatar's own reply included, is appended alone, with no reply. |
| `Conversations.ExchangeAlternates` | backend/server.py:183-214 | N participant messages add exactly 2N messages after the old ones, alternating inbound message and its reply. |
| `Conversations.Closed` | backend/server.py:220 | Ending sets the status to ended and `ended_at` to the given time. Every other field is unchanged. |
| `Summaries.InsertKeepsOnePerConversation` | backend/server.py:233-264 | Inserting only when no summary exists keeps at most one summary per conversation. |
| `Summaries.SendersPartition` | backend/server.py:239-244 | Participant messages are exactly those not sent by "avatar", and avatar messages exactly those sent by "avatar". Their counts add up to the total. |
| `Summaries.SummaryText` | backend/server.py:239-244 | The text names the participant and reports three counts, each written as `str(n)` writes it (digits, non-empty, no leading zero). They read back as the total, the participant's and the avatar's messages, and the last two add up to the first. |
| `Summaries.KeyPoints` | backend/server.py:246-255 | There are 4 key points with no messages and 6 otherwise. They give the start time, the total count, the participant and the avatar id. The previews quote `content[:50]` of the first and of the last message, each under its own label. |
| `Summaries.TotalReported` | backend/server.py:248 | The count in the second key point reads back as the number of messages. |
| `Summaries.Summarize` | backend/server.py:257-262 | The new summary belongs to the conversation and its avatar and carries the fresh id and the generation time. Its text reports counts that add up, and its key points are exactly those `KeyPoints` gives: 4, or 6 when there are messages. |
| `Summaries.ForAvatar` | backend/server.py:288 | The listing is a permutation of the avatar's summaries, newest first. |
| `Summaries.Listing` | backend/server.py:267-273 | The listing holds all summaries, or the avatar's when a non-empty avatar id is supplied. It is a permutation of them, newest first. |
| `Server.Store.CreateAvatar` | backend/server.py:110-115 | Appends one active avatar with the fresh id and creation time. Nothing else changes. |
| `Server.Store.GetAvatars` | backend/server.py:117-123 | Returns exactly the active avatars, of the given owner when one is supplied. |
| `Server.Store.GetAvatar` | backend/server.py:125-130 | Not found exactly when no avatar has the id. Otherwise returns that avatar, active or not. |
| `Server.Store.UpdateAvatar` | backend/server.py:132-143 | Not found, and nothing changes, exactly when the id is absent. Otherwise only that record changes, by the partial update, and the re-read record is returned. |
| `Server.Store.DeleteAvatar` | backend/server.py:145-153 | Not found exactly when no avatar has the id. Otherwise only `is_active` is cleared and no record is removed. |
| `Server.Store.CreateConversation` | backend/server.py:156-166 | Not found exactly when no avatar with the id is active. Otherwise appends a conversation with no messages, status active and no `ended_at`. |
| `Server.Store.GetConversations` | backend/server.py:168-174 | Returns every conversation, or the given avatar's. |
| `Server.Store.GetConversation` | backend/server.py:176-181 | Not found exactly when no conversation has the id. |
| `Server.Store.PushMessage` | backend/server.py:192-195 | `$push` appends the message to the matching conversation only, or changes nothing when none matches. |
| `Server.Store.AddMessage` | backend/server.py:183-214 | Not found, and nothing changes, exactly when the conversation is absent. Otherwise the messages become `Appended`. Under the store invariant they grow by 2 for a non-"avatar" sender and by 1 otherwise. |
| `Server.Store.EndConversation` | backend/server.py:216-224 | Not found exactly when no conversation has the id. Otherwise only that conversation changes: ended, with `ended_at` set. Ending twice is allowed. |
| `Server.Store.GenerateSummary` | backend/server.py:227-265 | Not found exactly when the conversation is absent. An existing summary is returned unchanged with nothing inserted. Otherwise exactly one derived summary is appended. At most one summary per conversation is kept. |
| `Server.Store.GetSummaries` | backend/server.py:267-273 | Returns the matching summaries, newest first. |
| `Server.Store.GetSummary` | backend/server.py:275-280 | Not found exactly when no summary has the id. |
| `Server.Store.GetAvatarSummaries` | backend/server.py:282-289 | Not found exactly when no avatar (active or not) has the id. Otherwise returns a permutation of the avatar's summaries, newest first. |
| `Server.GenerateSummaryTwice` | backend/server.py:233-236 | Two requests for the same conversation's summary return the same summary. At most one summary is inserted. |
| `Server.DeletedAvatarCannotStart` | backend/server.py:145-160 | After a soft delete, starting a conversation with that avatar reports not found and adds nothing. |

## Left out

- Routing, request parsing and validation, CORS, logging and the database client (backend/server.py:1-27, 291-311) are not modelled. They are transport plumbing; the store is in-memory sequences.
- The `status_checks` endpoints (backend/server.py:97-107) are not modelled. They only insert and list.
- Users, passwords, tokens and admin credentials are not modelled, because `backend/server.py` has no implementation of them.
- Concurrency is not modelled. That covers the check-then-insert race in `generate_summary` and the two separate `$push` writes in `add_message`; each handler runs to completion.
- Clock readings and uuids are parameters. A fresh uuid is a precondition that the id is not already in use.
- Server.Store.GetAvatars: returns every match; the source's `to_list(1000)` cuts a listing at 1000 records. The same holds for `GetConversations`, `GetSummaries` and `GetAvatarSummaries`.
- Summaries.KeyPoints: `started_at` is rendered as the decimal tick count, not in Python's `datetime` text format.
- Collection.SortDesc: the store leaves the order of summaries with equal `generated_at` unspecified. The model fixes one order and states only sortedness and permutation.
- Conversation status: the source stores it as the strings `"active"` and `"ended"`. Only these two values are ever written, so the model uses two constructors.
