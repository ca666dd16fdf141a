/**
 * The moderation state of the bot and what each handler does to it, written as functions on a
 * value of that state. The class in `Bot` holds the same state in mutable fields and proves each
 * of its handler methods equal to the function here.
 *
 * Time is an integer count of seconds. The outcome of every call into the messaging client is an
 * input: whether the sender is a `User`, whether the relay to the channel succeeded, and which
 * user ids `get_entity` can resolve (`directory`).
 */
module Moderation {
  import opened Wrappers
  import Config

  /** The media attached to a message; the bot never looks inside it. */
  datatype Media = Photo | Document(mimeType: string) | OtherMedia

  datatype Message = Message(messageId: int, text: string, media: Option<Media>)

  /** What the client resolves a user id to, and what the entity cache stores. */
  datatype UserEntity = UserEntity(userId: int, username: string)

  /** `event.sender`: a `User`, or anything else (a channel, a group chat, nothing resolved). */
  datatype Sender = UserSender(user: UserEntity) | OtherSender

  /** One entry of `pending_posts`: who sent it, the message, and when it arrived. */
  datatype Post = Post(userId: int, message: Message, timestamp: int)

  /** The configuration the handlers read: `ADMIN_IDS` and `POST_COOLDOWN_MINUTES`. */
  datatype Settings = Settings(adminIds: seq<int>, cooldownMinutes: int)

  /**
   * The three process-wide dictionaries. `order` is the insertion order of the keys of
   * `pending`, which Python's dict keeps and `list(pending_posts.keys())` reports.
   */
  datatype State = State(
    pending: map<int, Post>,
    order: seq<int>,
    entities: map<int, UserEntity>,
    cooldowns: map<int, int>)

  datatype Command = ApproveCommand | RejectCommand

  /** The response a handler sends back to whoever triggered it. */
  datatype Reply =
    | NoReply
    | PleaseWait(minutes: int)
    | PendingApproval
    | AdminsOnly
    | InvalidPostId(available: seq<int>)
    | ChannelSendFailed
    | PostApproved
    | PostRejected
    | UsageHint(command: Command)

  /** A message the bot sends to someone other than the one who triggered the handler. */
  datatype Notice =
    | NewPostNotice(adminId: int, postId: int, fromUser: int, forwarded: Message)
    | ApprovedNotice(userId: int)
    | RejectedNotice(userId: int)

  /** A handler's effect: the new state, the reply, the notices sent and the message relayed. */
  datatype Outcome = Outcome(state: State, reply: Reply, notices: seq<Notice>, relayed: Option<Message>)

  const EmptyState := State(map[], [], map[], map[])

  // ---------------------------------------------------------------------------------------------
  // The pending-post registry as an insertion-ordered dictionary
  // ---------------------------------------------------------------------------------------------

  predicate NoDuplicates(s: seq<int>)
  {
    forall i, j :: 0 <= i < j < |s| ==> s[i] != s[j]
  }

  /** `order` lists every key of `pending` exactly once. */
  ghost predicate OrderMatches(pending: map<int, Post>, order: seq<int>)
  {
    NoDuplicates(order) && forall k :: k in order <==> k in pending
  }

  ghost predicate Valid(s: State)
  {
    OrderMatches(s.pending, s.order)
  }

  /** The key order after `del d[x]`: `x` is gone, nothing else is. */
  function Without(order: seq<int>, x: int): (r: seq<int>)
    ensures forall k :: k in r <==> k in order && k != x
    ensures NoDuplicates(order) ==> NoDuplicates(r)
    ensures x !in order ==> r == order
  {
    if order == [] then []
    else
      var rest := Without(order[1..], x);
      assert NoDuplicates(order) ==> order[0] !in order[1..] && NoDuplicates(order[1..]) by {
        if NoDuplicates(order) {
          forall i | 0 <= i < |order[1..]| ensures order[1..][i] != order[0] {
            assert order[1..][i] == order[i + 1];
          }
        }
      }
      (if order[0] == x then [] else [order[0]]) + rest
  }

  /** `del` keeps the other keys in their order: deleting from a concatenation deletes from each part. */
  lemma {:induction false} WithoutAppend(a: seq<int>, b: seq<int>, x: int)
    ensures Without(a + b, x) == Without(a, x) + Without(b, x)
  {
    if a == [] {
      assert a + b == b;
    } else {
      assert (a + b)[0] == a[0] && (a + b)[1..] == a[1..] + b;
      WithoutAppend(a[1..], b, x);
    }
  }

  /** On one key, `del` removes it if it is `x` and keeps it otherwise; with WithoutAppend this fixes `Without`. */
  lemma WithoutSingle(y: int, x: int)
    ensures Without([y], x) == (if y == x then [] else [y])
  {
    assert [y][1..] == [];
  }

  /** The key order after `d[k] = v`: a new key goes last, an existing key keeps its place. */
  function WithKey(order: seq<int>, k: int): (r: seq<int>)
    ensures forall j :: j in r <==> j in order || j == k
    ensures |order| <= |r| && r[..|order|] == order
    ensures NoDuplicates(order) ==> NoDuplicates(r)
  {
    if k in order then order else order + [k]
  }

  // ---------------------------------------------------------------------------------------------
  // The cooldown gate
  // ---------------------------------------------------------------------------------------------

  /** The answer of `can_user_post`: whether the user may post and, if not, the seconds left. */
  datatype Gate = Gate(canPost: bool, remaining: Option<int>)

  /**
   * `can_user_post(user_id)` at time `now`: a user without an entry, or whose cooldown has
   * ended, may post and nothing is reported; otherwise the strictly positive time left is.
   */
  function CanUserPost(cooldowns: map<int, int>, userId: int, now: int): (g: Gate)
    ensures userId !in cooldowns ==> g == Gate(true, None)
    ensures g.canPost <==> userId !in cooldowns || now >= cooldowns[userId]
    ensures g.canPost ==> g.remaining == None
    ensures !g.canPost ==> g.remaining == Some(cooldowns[userId] - now) && g.remaining.value > 0
  {
    if userId !in cooldowns then Gate(true, None)
    else
      var cooldownEnd := cooldowns[userId];
      if now >= cooldownEnd then Gate(true, None)
      else Gate(false, Some(cooldownEnd - now))
  }

  /** The end of a cooldown that starts at `now`: `now + timedelta(minutes=POST_COOLDOWN_MINUTES)`. */
  function CooldownEnd(cfg: Settings, now: int): int
  {
    now + cfg.cooldownMinutes * 60
  }

  /**
   * `set_user_cooldown(user_id)` at time `now`: the user's entry becomes `CooldownEnd`, whatever
   * it was, and every other user's entry is left as it was.
   */
  function WithCooldown(cooldowns: map<int, int>, cfg: Settings, userId: int, now: int): (m: map<int, int>)
    ensures m.Keys == cooldowns.Keys + {userId}
    ensures m[userId] == CooldownEnd(cfg, now)
    ensures forall u :: u in cooldowns && u != userId ==> m[u] == cooldowns[u]
  {
    cooldowns[userId := CooldownEnd(cfg, now)]
  }

  /**
   * `int(remaining.total_seconds() / 60)`: whole minutes, truncated toward zero, so never
   * negative for a non-negative wait and within a minute of it.
   */
  function WaitMinutes(remainingSeconds: int): (m: int)
    ensures remainingSeconds >= 0 ==> 0 <= m && m * 60 <= remainingSeconds < m * 60 + 60
    ensures remainingSeconds < 0 ==> m <= 0 && m * 60 - 60 < remainingSeconds <= m * 60
  {
    if remainingSeconds >= 0 then remainingSeconds / 60 else -((-remainingSeconds) / 60)
  }

  // ---------------------------------------------------------------------------------------------
  // The user-entity cache
  // ---------------------------------------------------------------------------------------------

  /**
   * `get_user_entity(user_id)`: a cached entity is returned as it is; otherwise the client is
   * asked, and an entity it finds is cached and returned. A failed lookup caches nothing and
   * yields `None`. Cached entries are never replaced or dropped.
   */
  function LookupUser(entities: map<int, UserEntity>, userId: int, directory: map<int, UserEntity>)
    : (r: (map<int, UserEntity>, Option<UserEntity>))
    ensures userId in entities ==> r.1 == Some(entities[userId])
    ensures userId !in entities ==> r.1 == (if userId in directory then Some(directory[userId]) else None)
    ensures r.1.Some? ==> userId in r.0 && r.0[userId] == r.1.value
    ensures r.0.Keys == entities.Keys + (if r.1.Some? then {userId} else {})
    ensures forall k :: k in entities ==> r.0[k] == entities[k]
  {
    if userId in entities then (entities, Some(entities[userId]))
    else if userId in directory then (entities[userId := directory[userId]], Some(directory[userId]))
    else (entities, None)
  }

  /**
   * The loop over `ADMIN_IDS` after a submission: each admin the cache or the client can resolve
   * is sent the new post's id and sender and the forwarded message; resolving caches the admin.
   */
  function AdminFanOut(entities: map<int, UserEntity>, admins: seq<int>, directory: map<int, UserEntity>,
                       postId: int, fromUser: int, message: Message)
    : (r: (map<int, UserEntity>, seq<Notice>))
    ensures forall k :: k in r.0 <==> k in entities || (k in admins && k in directory)
    ensures forall k :: k in entities ==> r.0[k] == entities[k]
    ensures forall k :: k in r.0 && k !in entities ==> r.0[k] == directory[k]
    ensures forall a :: a in admins && (a in entities || a in directory) ==>
                          NewPostNotice(a, postId, fromUser, message) in r.1
    ensures forall n :: n in r.1 ==> n.NewPostNotice? && n.adminId in admins
                                     && (n.adminId in entities || n.adminId in directory)
                                     && n.postId == postId && n.fromUser == fromUser && n.forwarded == message
    ensures |r.1| <= |admins|
  {
    if admins == [] then (entities, [])
    else
      var earlier := admins[..|admins| - 1];
      var a := admins[|admins| - 1];
      assert forall x :: x in admins <==> x in earlier || x == a;
      var prev := AdminFanOut(entities, earlier, directory, postId, fromUser, message);
      var (cache, found) := LookupUser(prev.0, a, directory);
      (cache, prev.1 + if found.Some? then [NewPostNotice(a, postId, fromUser, message)] else [])
  }

  /**
   * Each admin gets one notice per time it appears in `ADMIN_IDS` when the cache or the client
   * resolves it, and none otherwise.
   */
  lemma {:induction false} FanOutCounts(entities: map<int, UserEntity>, admins: seq<int>, directory: map<int, UserEntity>,
                                        postId: int, fromUser: int, message: Message, a: int)
    ensures multiset(AdminFanOut(entities, admins, directory, postId, fromUser, message).1)[NewPostNotice(a, postId, fromUser, message)]
            == if a in entities || a in directory then multiset(admins)[a] else 0
  {
    if admins != [] {
      var earlier := admins[..|admins| - 1];
      var last := admins[|admins| - 1];
      FanOutCounts(entities, earlier, directory, postId, fromUser, message, a);
      assert admins == earlier + [last];
      var prev := AdminFanOut(entities, earlier, directory, postId, fromUser, message);
      var looked := LookupUser(prev.0, last, directory);
      var extra := if looked.1.Some? then [NewPostNotice(last, postId, fromUser, message)] else [];
      assert AdminFanOut(entities, admins, directory, postId, fromUser, message).1 == prev.1 + extra;
      assert multiset(prev.1 + extra) == multiset(prev.1) + multiset(extra);
      assert multiset(admins) == multiset(earlier) + multiset{last};
      assert last in prev.0 <==> last in entities || (last in earlier && last in directory);
      assert looked.1.Some? <==> last in entities || last in directory;
    }
  }

  /** One more admin: the fan-out over the first `i + 1` admins extends that over the first `i`. */
  lemma FanOutStep(entities: map<int, UserEntity>, admins: seq<int>, i: nat, directory: map<int, UserEntity>,
                   postId: int, fromUser: int, message: Message)
    requires i < |admins|
    ensures var prev := AdminFanOut(entities, admins[..i], directory, postId, fromUser, message);
            var looked := LookupUser(prev.0, admins[i], directory);
            AdminFanOut(entities, admins[..i + 1], directory, postId, fromUser, message)
            == (looked.0, prev.1 + if looked.1.Some? then [NewPostNotice(admins[i], postId, fromUser, message)] else [])
  {
    assert admins[..i + 1][..i] == admins[..i];
  }

  // ---------------------------------------------------------------------------------------------
  // The handlers
  // ---------------------------------------------------------------------------------------------

  /** What an accepted submission leaves behind (main.py, `media_handler` past the two guards). */
  ghost predicate Accepted(s: State, t: State, cfg: Settings, senderId: int, user: UserEntity,
                           message: Message, now: int)
  {
    var postId := |s.pending|;
    && t.pending == s.pending[postId := Post(senderId, message, now)]
    && t.order == WithKey(s.order, postId)
    && t.cooldowns == WithCooldown(s.cooldowns, cfg, senderId, now)
    && senderId in t.entities && t.entities[senderId] == user
    && (forall k :: k in s.entities && k != senderId ==> k in t.entities && t.entities[k] == s.entities[k])
    && (forall k :: k in t.entities ==> k in s.entities || k == senderId || k in cfg.adminIds)
  }

  /**
   * `media_handler` for a message with media from `senderId`. A sender that is not a `User` is
   * ignored. A user in cooldown is told the whole minutes left and nothing changes. Otherwise,
   * whatever the media is, the sender is cached, the post is stored under `len(pending_posts)`,
   * the cooldown is set, the sender is acknowledged and every resolvable admin is notified.
   */
  function Submit(s: State, cfg: Settings, senderId: int, sender: Sender, message: Message, now: int,
                  directory: map<int, UserEntity>): (o: Outcome)
    requires message.media.Some?
    ensures sender.OtherSender? ==> o == Outcome(s, NoReply, [], None)
    ensures sender.UserSender? && !CanUserPost(s.cooldowns, senderId, now).canPost ==>
              o.state == s && o.notices == [] && o.relayed == None
              && o.reply == PleaseWait(WaitMinutes(s.cooldowns[senderId] - now)) && o.reply.minutes >= 0
    ensures o.reply == PendingApproval <==> sender.UserSender? && CanUserPost(s.cooldowns, senderId, now).canPost
    ensures o.reply == PendingApproval ==>
              Accepted(s, o.state, cfg, senderId, sender.user, message, now) && o.relayed == None
    ensures o.reply == PendingApproval ==>
              forall a :: a in cfg.adminIds && (a == senderId || a in s.entities || a in directory) ==>
                            NewPostNotice(a, |s.pending|, senderId, message) in o.notices
  {
    if !sender.UserSender? then Outcome(s, NoReply, [], None)
    else
      var gate := CanUserPost(s.cooldowns, senderId, now);
      if !gate.canPost then Outcome(s, PleaseWait(WaitMinutes(gate.remaining.value)), [], None)
      else
        var entities := s.entities[senderId := sender.user];
        var postId := |s.pending|;
        var (cache, notices) := AdminFanOut(entities, cfg.adminIds, directory, postId, senderId, message);
        var t := State(s.pending[postId := Post(senderId, message, now)], WithKey(s.order, postId),
                       cache, WithCooldown(s.cooldowns, cfg, senderId, now));
        Outcome(t, PendingApproval, notices, None)
  }

  /** The resolution of a pending post: `post_id` alone leaves `pending_posts` and the key order. */
  ghost predicate Removed(s: State, t: State, postId: int)
  {
    && postId !in t.pending
    && (forall k :: k != postId ==> (k in t.pending <==> k in s.pending))
    && (forall k :: k in t.pending ==> t.pending[k] == s.pending[k])
    && t.order == Without(s.order, postId)
    && t.cooldowns == s.cooldowns
  }

  /**
   * `notify_user(post['user_id'], ...)` then `del pending_posts[post_id]`: the submitter is
   * looked up (and possibly cached) and told, and the post goes.
   */
  function Resolve(s: State, postId: int, notice: int -> Notice, directory: map<int, UserEntity>)
    : (r: (State, seq<Notice>))
    requires postId in s.pending
    ensures Removed(s, r.0, postId)
    ensures var looked := LookupUser(s.entities, s.pending[postId].userId, directory);
            r.0.entities == looked.0 && r.1 == (if looked.1.Some? then [notice(s.pending[postId].userId)] else [])
  {
    var userId := s.pending[postId].userId;
    var (cache, found) := LookupUser(s.entities, userId, directory);
    (State(s.pending - {postId}, Without(s.order, postId), cache, s.cooldowns),
     if found.Some? then [notice(userId)] else [])
  }

  /**
   * `approve_handler` with the command argument `arg`. A non-admin is denied, an argument `int()`
   * rejects gets the usage hint, an id that is not pending gets the list of pending ids, and none
   * of these changes anything. A pending post is relayed; if the relay fails nothing changes and
   * the post stays pending; if it succeeds the submitter is notified and the post alone is removed.
   */
  function Approve(s: State, cfg: Settings, senderId: int, arg: string, relayOk: bool,
                   directory: map<int, UserEntity>): (o: Outcome)
    ensures senderId !in cfg.adminIds ==> o == Outcome(s, AdminsOnly, [], None)
    ensures senderId in cfg.adminIds && Config.ParseInt(arg).None? ==>
              o == Outcome(s, UsageHint(ApproveCommand), [], None)
    ensures senderId in cfg.adminIds && Config.ParseInt(arg).Some? && Config.ParseInt(arg).value !in s.pending ==>
              o == Outcome(s, InvalidPostId(s.order), [], None)
    ensures senderId in cfg.adminIds && Config.ParseInt(arg).Some? && Config.ParseInt(arg).value in s.pending ==>
              o.relayed == Some(s.pending[Config.ParseInt(arg).value].message)
    ensures o.reply == PostApproved <==>
              senderId in cfg.adminIds && Config.ParseInt(arg).Some? && Config.ParseInt(arg).value in s.pending && relayOk
    ensures o.reply == PostApproved ==> Removed(s, o.state, Config.ParseInt(arg).value)
    ensures o.reply == PostApproved ==>
              var uid := s.pending[Config.ParseInt(arg).value].userId;
              var looked := LookupUser(s.entities, uid, directory);
              o.state.entities == looked.0 && o.notices == (if looked.1.Some? then [ApprovedNotice(uid)] else [])
    ensures o.reply != PostApproved ==> o.state == s && o.notices == []
  {
    if senderId !in cfg.adminIds then Outcome(s, AdminsOnly, [], None)
    else match Config.ParseInt(arg)
      case None => Outcome(s, UsageHint(ApproveCommand), [], None)
      case Some(postId) =>
        if postId !in s.pending then Outcome(s, InvalidPostId(s.order), [], None)
        else
          var message := s.pending[postId].message;
          if !relayOk then Outcome(s, ChannelSendFailed, [], Some(message))
          else
            var (t, notices) := Resolve(s, postId, userId => ApprovedNotice(userId), directory);
            Outcome(t, PostApproved, notices, Some(message))
  }

  /**
   * `reject_handler` with the command argument `arg`: the same guards as `Approve`; a pending post
   * is removed, alone, after its submitter is notified, and nothing is relayed.
   */
  function Reject(s: State, cfg: Settings, senderId: int, arg: string, directory: map<int, UserEntity>)
    : (o: Outcome)
    ensures senderId !in cfg.adminIds ==> o == Outcome(s, AdminsOnly, [], None)
    ensures senderId in cfg.adminIds && Config.ParseInt(arg).None? ==>
              o == Outcome(s, UsageHint(RejectCommand), [], None)
    ensures senderId in cfg.adminIds && Config.ParseInt(arg).Some? && Config.ParseInt(arg).value !in s.pending ==>
              o == Outcome(s, InvalidPostId(s.order), [], None)
    ensures o.reply == PostRejected <==>
              senderId in cfg.adminIds && Config.ParseInt(arg).Some? && Config.ParseInt(arg).value in s.pending
    ensures o.reply == PostRejected ==> Removed(s, o.state, Config.ParseInt(arg).value)
    ensures o.reply == PostRejected ==>
              var uid := s.pending[Config.ParseInt(arg).value].userId;
              var looked := LookupUser(s.entities, uid, directory);
              o.state.entities == looked.0 && o.notices == (if looked.1.Some? then [RejectedNotice(uid)] else [])
    ensures o.reply != PostRejected ==> o.state == s && o.notices == []
    ensures o.relayed == None
  {
    if senderId !in cfg.adminIds then Outcome(s, AdminsOnly, [], None)
    else match Config.ParseInt(arg)
      case None => Outcome(s, UsageHint(RejectCommand), [], None)
      case Some(postId) =>
        if postId !in s.pending then Outcome(s, InvalidPostId(s.order), [], None)
        else
          var (t, notices) := Resolve(s, postId, userId => RejectedNotice(userId), directory);
          Outcome(t, PostRejected, notices, None)
  }
}
