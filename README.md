# Moderation relay bot: a Dafny model

The bot takes media posts from users, holds them until an admin approves or rejects them, and
relays approved posts to a channel. All of its state lives in three process-wide dictionaries of
`main.py`:

- `pending_posts`: post id to `{user_id, message, timestamp}`;
- `user_cooldowns`: user id to the time that user's cooldown ends;
- `user_entities`: a cache of resolved user entities.

The handlers change these dictionaries in place. This project models them as follows.

- `wrappers.dfy`: `Option` and `Result`.
- `config.dfy` (module `Config`): the `ADMIN_IDS` setting of `config.py`. The raw string is split
  on commas, each piece is stripped of Python whitespace, blank pieces are dropped, and the rest
  go through `int()`. The model has Python's `str.split`, `str.strip` and `int()` as functions.
  `ParseAdminIds` fails, naming the field, where `int()` would raise.
- `moderation.dfy` (module `Moderation`): the state as a value (`State`). Each handler is a
  function from the old state and the handler's inputs to an `Outcome`: the new state, the reply
  to the sender, the notices sent to others, and the message relayed to the channel.
- `properties.dfy` (module `ModerationProperties`): facts that span several calls. These cover
  the registry invariant, post numbering, id reuse, the cooldown after a submission, and
  resolving a post at most once.
- `moderator.dfy` (module `Bot`): class `ModerationBot`. Its mutable fields are the three
  dictionaries, plus the insertion order of `pending_posts`' keys. It has one method per
  handler and per helper that changes state. Each method is proved to have exactly the effect
  of the matching `Moderation` function.

Inputs that come from outside are parameters:

- the clock: one integer `now` per handler, in seconds;
- whether `event.sender` is a `User` (`Sender`);
- whether `send_to_channel` succeeded (`relayOk`);
- which ids `client.get_entity` can resolve (`directory`).

Python dicts keep insertion order, and the invalid-id reply prints `list(pending_posts.keys())`.
So the model keeps the key order next to the map (`State.order`, `ModerationBot.pendingOrder`).
Overwriting a key keeps its place; deleting a key removes it from the order.

Behaviour of the code that the model keeps on purpose:

- A post's id is `len(pending_posts)`, not a counter. From an empty registry with no removals,
  ids come out as 0, 1, 2, … (`SubmissionsNumberedFromZero`). After a removal, the next post can
  take the id of a post that is still pending and overwrite it (`IdReuseOverwrites`). The run in
  `RejectThenSubmitLosesPost` shows this.
- Any message with media is accepted. There is no image-type check (`AnyMediaAccepted`).
- Approval removes the post only after the relay succeeds. A failed relay leaves it pending, so it
  can be approved again later (`FailedRelayCanBeRetried`).
- `get_user_entity` fills the cache. It is called by `notify_user` and by the loop that notifies
  admins, so approving, rejecting and notifying admins can add entries to `user_entities`.
- `POST_TIMEOUT_HOURS` is read but never used. Nothing expires pending posts.

So, in this code, approval does not remove the post before the relay, ids are not drawn from a
counter that is never reused, image types are not checked against an allowlist, and there are no
inline buttons and no sweeper for timed-out posts.

## Model

| member | source | states |
|---|---|---|
| `Config.Split` | config.py:13 | `str.split(',')`: one piece more than there are commas, no piece holds a comma, and joining the pieces with commas gives back the input |
| `Config.StripWith` | config.py:13 | `str.strip`: the result neither starts nor ends with a stripped character, and it is empty exactly when every character of the input is stripped |
| `Config.StripKeepsMiddle` | config.py:13 | the stripped string is a piece of the input with only stripped characters on either side of it |
| `Config.Strip` | config.py:13 | `id.strip()` is empty exactly when the piece is all Python whitespace, so `if id.strip()` drops exactly the blank pieces |
| `Config.ParseInt` | config.py:13 | `int()` without its digit-count limit: succeeds exactly on an optional sign followed by at least one ASCII decimal digit; the value's sign follows the text's sign |
| `Config.ParseShowRoundTrip` | config.py:13 | `ParseInt` of `ShowInt(n)`, the canonical decimal text of `n`, gives back `n` for every integer |
| `Config.LeadingZeroIgnored` | config.py:13 | `int()` ignores a leading zero: `"0" + d` has the value of the digit string `d` |
| `Config.PlusSignIgnored` | config.py:13 | a leading `+` does not change the value of a digit string |
| `Config.MinusSignNegates` | config.py:13 | a leading `-` negates the value of a digit string (with the round trip and the two lemmas above, this fixes the value of every literal) |
| `Config.Fields` | config.py:13 | the kept fields are no more than the pieces, and none of them is empty |
| `Config.FieldsOfOne` | config.py:13 | one piece gives its stripped text, or nothing when that is blank |
| `Config.FieldsAppend` | config.py:13 | dropping blank pieces keeps the order: the fields of a concatenation are the concatenated fields (with `FieldsOfOne` this fixes the fields of every list of pieces) |
| `Config.FieldsPickPieces` | config.py:13 | the fields are exactly the stripped pieces that are not blank: the k-th field is the stripped piece at an increasing position, and every non-blank piece is picked |
| `Config.AdminFieldsAreSegments` | config.py:13 | the fields `ADMIN_IDS` converts are its stripped non-blank comma-separated segments, in order, so there is one per non-blank segment |
| `Config.ParseFields` | config.py:13 | converts every field or fails; on success one id per field, in order, each the `int()` of its field; on failure it names the first field that is not a literal |
| `Config.ParseAdminIds` | config.py:13 | `ADMIN_IDS` succeeds exactly when every non-blank field is an integer literal; then it has one id per non-blank field in order; otherwise it fails with a non-blank field that is not a literal (`AdminFieldsAreSegments` says which fields these are) |
| `Config.BlankSettingHasNoAdmins` | config.py:13 | an empty, missing (`''`) or all-comma-and-whitespace setting gives the empty admin list |
| `Config.BlankPiecesDropped` | config.py:13 | `"1,,2, "` gives `[1, 2]` |
| `Moderation.Without` | main.py:211 | the key order after `del`: exactly the deleted key is gone, no key appears twice, and deleting a missing key changes nothing |
| `Moderation.WithoutAppend` | main.py:211 | `del` keeps the other keys in their relative order: deleting from a concatenation deletes from each part |
| `Moderation.WithoutSingle` | main.py:211 | on a single key, `del` drops it if it is the deleted key and keeps it otherwise (with `WithoutAppend` this fixes the order after `del`) |
| `Moderation.WithKey` | main.py:166 | the key order after `d[k] = v`: a new key goes last, existing keys keep their places, and no key appears twice |
| `Moderation.CanUserPost` | main.py:104-116 | no entry, or `now >= end`: may post and nothing is reported; otherwise may not post and the remaining `end - now` is strictly positive |
| `Moderation.WithCooldown` | main.py:118-120 | the user's entry becomes `now + POST_COOLDOWN_MINUTES * 60` whatever it was; every other key and entry is unchanged |
| `Moderation.WaitMinutes` | main.py:158 | `int(seconds / 60)` truncates toward zero: never negative for a non-negative wait, and within one minute below it |
| `Moderation.LookupUser` | main.py:45-57 | a cached entity is returned without a lookup; on a miss the client's answer is returned and cached if found; nothing is cached on a failed lookup; cached entries are never replaced |
| `Moderation.AdminFanOut` | main.py:179-190 | every admin the cache or the client resolves gets a notice with the post id, the sender and the forwarded message; no one else gets one; each resolved admin is cached; existing cache entries are kept |
| `Moderation.FanOutCounts` | main.py:179-190 | a resolvable admin gets one notice for each time it appears in `ADMIN_IDS`, an unresolvable one none |
| `Moderation.FanOutStep` | main.py:179-190 | covering one more admin extends the fan-out over the admins before it |
| `Moderation.Submit` | main.py:149-177 | a non-`User` sender and a sender in cooldown change nothing; in cooldown the reply is the whole minutes left, never negative; otherwise, whatever the media, the post is stored under `len(pending_posts)`, the cooldown is set, the sender is cached, other entries are kept, and every resolvable admin is notified (`SubmitFanOut` gives the cache and the notices exactly) |
| `Moderation.Resolve` | main.py:231-233 | the submitter is looked up and notified if resolvable; exactly `post_id` leaves the registry and the key order; cooldowns are unchanged |
| `Moderation.Approve` | main.py:192-216 | a non-admin, an unparsable argument, or an id that is not pending changes nothing; an unknown id is answered with the pending ids; the stored message is relayed; a failed relay changes nothing; only a successful relay removes the post, and only that post; then the submitter is looked up through the cache (and cached) and sent the approval notice if resolvable |
| `Moderation.Reject` | main.py:218-238 | the same guards as approval; a pending post is removed alone; its submitter is looked up through the cache (and cached) and sent the rejection notice if resolvable; nothing is relayed; every other outcome changes nothing |
| `ModerationProperties.SubmitKeepsValid` | main.py:164-170 | a submission keeps the key order listing every pending id exactly once |
| `ModerationProperties.ApproveKeepsValid` | main.py:201-211 | approval keeps the key order in step with the registry; an invalid id is answered with every pending id, each once |
| `ModerationProperties.RejectKeepsValid` | main.py:227-233 | rejection keeps the key order in step with the registry; an invalid id is answered with every pending id, each once |
| `ModerationProperties.SizeOfNumberedKeys` | main.py:165 | a registry whose keys are exactly 0..n-1 has size n, so `len(pending_posts)` is the next unused id |
| `ModerationProperties.NextNumber` | main.py:165-166 | storing under the size of a registry numbered 0..n-1 gives one numbered 0..n |
| `ModerationProperties.SubmitKeepsNumbering` | main.py:164-170 | while nothing is removed, an accepted post gets the next id, which is not in use |
| `ModerationProperties.SubmitAllKeepsNumbering` | main.py:164-170 | any run of submissions keeps a registry numbered from zero |
| `ModerationProperties.SubmissionsNumberedFromZero` | main.py:164-170 | from an empty registry with no removals, the posts are numbered 0..n-1 in the order they were accepted |
| `ModerationProperties.IdReuseOverwrites` | main.py:165-166 | once the size is itself a pending id, an accepted post overwrites that pending post, and the registry keeps the same keys and order |
| `ModerationProperties.RunFirstSubmission` | main.py:164-173 | the first submission to an empty registry gets id 0 and sets the sender's cooldown |
| `ModerationProperties.RunSecondSubmission` | main.py:164-173 | a second user's submission then gets id 1 |
| `ModerationProperties.RunRejectFirst` | main.py:225-233 | rejecting post 0 leaves only post 1 |
| `ModerationProperties.RunThirdSubmission` | main.py:164-170 | the next submission gets id 1 again and replaces the pending post 1 |
| `ModerationProperties.RejectThenSubmitLosesPost` | main.py:165-166 | concrete run: two submissions, a rejection of post 0, and a third submission that overwrites the second user's post, which is still pending |
| `ModerationProperties.SubmitFanOut` | main.py:164-190 | an accepted submission caches the sender, then its cache and notices are exactly those of the fan-out over `ADMIN_IDS` for the new post id, so `FanOutCounts` and the other properties of `AdminFanOut` hold of what `media_handler` sends |
| `ModerationProperties.CooldownAfterSubmit` | main.py:156-173 | after a submission accepted at `now`, the sender is blocked exactly until `now + cooldown`, with the exact remaining seconds reported before then |
| `ModerationProperties.ResubmitDuringCooldown` | main.py:156-162 | a second submission before the cooldown ends changes no state, sends no notices, and replies with the minutes left |
| `ModerationProperties.AnyMediaAccepted` | main.py:149-170 | a PDF document gets the same reply as a photo, and is stored when accepted: media are not inspected |
| `ModerationProperties.ApprovedOnlyOnce` | main.py:201-211 | after an approval, a second approve or reject of the same id by an admin gets the invalid-id reply and changes nothing |
| `ModerationProperties.RejectedOnlyOnce` | main.py:227-233 | after a rejection, a second approve or reject of the same id gets the invalid-id reply and changes nothing |
| `ModerationProperties.FailedRelayCanBeRetried` | main.py:205-211 | a failed relay leaves the state unchanged, so a later approval with a working relay succeeds |
| `Bot.ModerationBot.constructor` | main.py:26-28 | the bot starts with all three dictionaries empty |
| `Bot.ModerationBot.SetUserCooldown` | main.py:118-120 | in place: `user_cooldowns` becomes `WithCooldown` of its old value; the other dictionaries are untouched |
| `Bot.ModerationBot.GetUserEntity` | main.py:45-57 | in place: the cache and the answer are those of `LookupUser` on the old cache |
| `Bot.ModerationBot.NotifyUser` | main.py:95-102 | in place: the user is looked up through the cache, and the notice is sent only if the lookup finds them |
| `Bot.ModerationBot.NotifyAdmins` | main.py:179-190 | the loop over `ADMIN_IDS`: the cache and the notices are those of `AdminFanOut`; the other dictionaries are untouched |
| `Bot.ModerationBot.MediaHandler` | main.py:149-190 | in place: the dictionaries, the reply and the notices are exactly those of `Submit` on the old state, and the key order stays valid |
| `Bot.ModerationBot.ApproveHandler` | main.py:192-216 | in place: the dictionaries, the reply, the notices and the relayed message are exactly those of `Approve` on the old state |
| `Bot.ModerationBot.RejectHandler` | main.py:218-238 | in place: the dictionaries, the reply and the notices are exactly those of `Reject` on the old state |

## Left out

- Telethon I/O is not modelled: `TelegramClient`, `setup_commands`, `get_channel_entity`, the
  sends inside `send_to_channel` and `notify_user`, `forward_messages`, and `event.respond`. A
  relay is the boolean `relayOk`. A lookup is membership in `directory`. A reply or notice is a
  value that records what would be sent.
- Delivery failures are not modelled. A failed send to an admin (main.py:189) or to a submitter
  (main.py:101) is caught and logged, and a notice records an attempted send to a resolved
  entity. The replies through `event.respond` are not inside a `try`, and the model assumes they
  succeed. If the acknowledgement at main.py:175 raises, the admin loop at main.py:179-190 never
  runs, so no admin is notified or cached. If the reply at main.py:212 or 234 raises, the post
  has already been removed.
- Interleaving at `await` points is not modelled; each handler runs as one atomic step. In the
  code, two handlers can interleave. For example, a rejection that runs while an approval waits on
  the relay makes the approval's `del pending_posts[post_id]` raise `KeyError`.
- The clock is one integer `now` in seconds per handler. In the code, `datetime.now()` is read
  separately at main.py:110, 120 and 169, with microsecond precision.
- Moderation.WithCooldown: does not model the range of `datetime`, years 1 to 9999, because the
  model's times are unbounded integers. The same applies to `Settings.cooldownMinutes`. A
  `POST_COOLDOWN_MINUTES` of about 4.2·10⁹ or more (roughly 8000 years) makes
  `datetime.now() + timedelta(...)` raise `OverflowError` at main.py:120. `media_handler` has no
  `try` around it. By then lines 164-170 have cached the sender and stored the post. No cooldown
  is set, no acknowledgement is sent and no admin is notified. The model sets the cooldown and
  replies `PendingApproval`.
- Moderation.WaitMinutes: takes integer seconds, but the wait in main.py:158 is a float from
  `total_seconds()`. A wait under a minute still shows as 0 minutes in both.
- Event dispatch is not modelled. The decorators pick which handler runs.
  `MediaHandler` requires the message to have media, as its filter guarantees. The approve and
  reject handlers take the second whitespace-separated word of the command as `arg`.
  `str.split()` and the command regex are not modelled.
- Config.ParseInt: accepts ASCII decimal digits only. Python's `int()` also accepts `_` between
  digits and non-ASCII decimal digits. It does not model the limit on integer string conversion
  (4300 digits by default since Python 3.11, and in the 3.8.14, 3.9.14 and 3.10.7 releases). With
  that limit, `int()` raises `ValueError` on a longer decimal string, and `str()` raises on a
  longer integer. So a 4301-digit `ADMIN_IDS` field makes config.py:13 raise where
  `ParseAdminIds` succeeds. An `/approve` or `/reject` argument that long gets the usage hint
  (main.py:214-216, 236-238) where the model answers with the invalid-id reply.
- Reading the environment (`load_dotenv`, `os.getenv`) is not modelled. `ParseAdminIds` takes
  the raw string, and a missing setting is its default `''`. The `int()` parses of
  `POST_TIMEOUT_HOURS` and `POST_COOLDOWN_MINUTES` (config.py:19, 22) are left out. The cooldown
  length is a `Settings` field.
- The `/start` and `/help` handlers only send fixed text and change no state. `main()` is
  process start-up.
- `event.sender_id` and the id inside the sender's `User` entity are separate inputs. The model
  does not require them to agree.
