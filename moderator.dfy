/**
 * The bot's handlers as they run: one object holds the three dictionaries of main.py as mutable
 * fields, and each handler method changes them in place. Every handler is proved to have exactly
 * the effect of the matching function of `Moderation`, whose properties are proved there and in
 * `ModerationProperties`.
 */
module Bot {
  import opened Wrappers
  import Config
  import opened Moderation
  import ModerationProperties

  class ModerationBot {
    /** `ADMIN_IDS` and `POST_COOLDOWN_MINUTES`, fixed when the process starts. */
    const settings: Settings

    /** `pending_posts`, and the insertion order of its keys. */
    var pendingPosts: map<int, Post>
    var pendingOrder: seq<int>
    /** `user_entities`. */
    var userEntities: map<int, UserEntity>
    /** `user_cooldowns`: when each user's cooldown ends, in seconds. */
    var userCooldowns: map<int, int>

    ghost predicate Valid()
      reads this
    {
      OrderMatches(pendingPosts, pendingOrder)
    }

    /** The current value of the three dictionaries. */
    function Snapshot(): State
      reads this
    {
      State(pendingPosts, pendingOrder, userEntities, userCooldowns)
    }

    /** The bot as it starts: every dictionary empty. */
    constructor (settings: Settings)
      ensures this.settings == settings
      ensures Valid() && Snapshot() == EmptyState
    {
      this.settings := settings;
      pendingPosts, pendingOrder := map[], [];
      userEntities, userCooldowns := map[], map[];
    }

    /** `set_user_cooldown`: only the user's own cooldown entry changes. */
    method SetUserCooldown(userId: int, now: int)
      modifies this
      ensures userCooldowns == WithCooldown(old(userCooldowns), settings, userId, now)
      ensures pendingPosts == old(pendingPosts) && pendingOrder == old(pendingOrder)
      ensures userEntities == old(userEntities)
    {
      userCooldowns := userCooldowns[userId := CooldownEnd(settings, now)];
    }

    /** `get_user_entity`: answers from the cache, or asks the client and caches what it finds. */
    method GetUserEntity(userId: int, directory: map<int, UserEntity>) returns (entity: Option<UserEntity>)
      modifies this
      ensures (userEntities, entity) == LookupUser(old(userEntities), userId, directory)
      ensures pendingPosts == old(pendingPosts) && pendingOrder == old(pendingOrder)
      ensures userCooldowns == old(userCooldowns)
    {
      if userId in userEntities {
        return Some(userEntities[userId]);
      }
      if userId in directory {
        userEntities := userEntities[userId := directory[userId]];
        return Some(directory[userId]);
      }
      return None;
    }

    /** `notify_user`: the notice goes out when the user can be resolved. */
    method NotifyUser(userId: int, notice: Notice, directory: map<int, UserEntity>) returns (sent: seq<Notice>)
      modifies this
      ensures var looked := LookupUser(old(userEntities), userId, directory);
              userEntities == looked.0 && sent == (if looked.1.Some? then [notice] else [])
      ensures pendingPosts == old(pendingPosts) && pendingOrder == old(pendingOrder)
      ensures userCooldowns == old(userCooldowns)
    {
      var entity := GetUserEntity(userId, directory);
      sent := if entity.Some? then [notice] else [];
    }

    /** The loop over `ADMIN_IDS` in `media_handler`: notify every admin that can be resolved. */
    method NotifyAdmins(postId: int, fromUser: int, message: Message, directory: map<int, UserEntity>)
      returns (notices: seq<Notice>)
      modifies this
      ensures (userEntities, notices)
              == AdminFanOut(old(userEntities), settings.adminIds, directory, postId, fromUser, message)
      ensures pendingPosts == old(pendingPosts) && pendingOrder == old(pendingOrder)
      ensures userCooldowns == old(userCooldowns)
    {
      var admins := settings.adminIds;
      notices := [];
      for i := 0 to |admins|
        invariant userEntities == AdminFanOut(old(userEntities), admins[..i], directory, postId, fromUser, message).0
        invariant notices == AdminFanOut(old(userEntities), admins[..i], directory, postId, fromUser, message).1
        invariant pendingPosts == old(pendingPosts) && pendingOrder == old(pendingOrder)
        invariant userCooldowns == old(userCooldowns)
      {
        var adminId := admins[i];
        FanOutStep(old(userEntities), admins, i, directory, postId, fromUser, message);
        var entity := GetUserEntity(adminId, directory);
        if entity.Some? {
          notices := notices + [NewPostNotice(adminId, postId, fromUser, message)];
        }
      }
      assert admins[..|admins|] == admins;
    }

    /** `media_handler`, for a message with media: its effect is `Moderation.Submit`. */
    method MediaHandler(senderId: int, sender: Sender, message: Message, now: int,
                        directory: map<int, UserEntity>)
      returns (reply: Reply, notices: seq<Notice>)
      requires Valid() && message.media.Some?
      modifies this
      ensures Valid()
      ensures var o := Submit(old(Snapshot()), settings, senderId, sender, message, now, directory);
              Snapshot() == o.state && reply == o.reply && notices == o.notices
    {
      ghost var before := Snapshot();
      ModerationProperties.SubmitKeepsValid(before, settings, senderId, sender, message, now, directory);
      if !sender.UserSender? {
        return NoReply, [];
      }
      var gate := CanUserPost(userCooldowns, senderId, now);
      if !gate.canPost {
        return PleaseWait(WaitMinutes(gate.remaining.value)), [];
      }
      userEntities := userEntities[senderId := sender.user];
      var postId := |pendingPosts|;
      pendingOrder := WithKey(pendingOrder, postId);
      pendingPosts := pendingPosts[postId := Post(senderId, message, now)];
      SetUserCooldown(senderId, now);
      reply := PendingApproval;
      notices := NotifyAdmins(postId, senderId, message, directory);
    }

    /** `approve_handler` with the command's argument: its effect is `Moderation.Approve`. */
    method ApproveHandler(senderId: int, arg: string, relayOk: bool, directory: map<int, UserEntity>)
      returns (reply: Reply, notices: seq<Notice>, relayed: Option<Message>)
      requires Valid()
      modifies this
      ensures Valid()
      ensures var o := Approve(old(Snapshot()), settings, senderId, arg, relayOk, directory);
              Snapshot() == o.state && reply == o.reply && notices == o.notices && relayed == o.relayed
    {
      ghost var before := Snapshot();
      ModerationProperties.ApproveKeepsValid(before, settings, senderId, arg, relayOk, directory);
      notices, relayed := [], None;
      if senderId !in settings.adminIds {
        reply := AdminsOnly;
        return;
      }
      var parsed := Config.ParseInt(arg);
      if parsed.None? {
        reply := UsageHint(ApproveCommand);
        return;
      }
      var postId := parsed.value;
      if postId !in pendingPosts {
        reply := InvalidPostId(pendingOrder);
        return;
      }
      var post := pendingPosts[postId];
      relayed := Some(post.message);
      if !relayOk {
        reply := ChannelSendFailed;
        return;
      }
      notices := NotifyUser(post.userId, ApprovedNotice(post.userId), directory);
      pendingPosts := pendingPosts - {postId};
      pendingOrder := Without(pendingOrder, postId);
      reply := PostApproved;
    }

    /** `reject_handler` with the command's argument: its effect is `Moderation.Reject`. */
    method RejectHandler(senderId: int, arg: string, directory: map<int, UserEntity>)
      returns (reply: Reply, notices: seq<Notice>)
      requires Valid()
      modifies this
      ensures Valid()
      ensures var o := Reject(old(Snapshot()), settings, senderId, arg, directory);
              Snapshot() == o.state && reply == o.reply && notices == o.notices
    {
      ghost var before := Snapshot();
      ModerationProperties.RejectKeepsValid(before, settings, senderId, arg, directory);
      notices := [];
      if senderId !in settings.adminIds {
        reply := AdminsOnly;
        return;
      }
      var parsed := Config.ParseInt(arg);
      if parsed.None? {
        reply := UsageHint(RejectCommand);
        return;
      }
      var postId := parsed.value;
      if postId !in pendingPosts {
        reply := InvalidPostId(pendingOrder);
        return;
      }
      var post := pendingPosts[postId];
      notices := NotifyUser(post.userId, RejectedNotice(post.userId), directory);
      pendingPosts := pendingPosts - {postId};
      pendingOrder := Without(pendingOrder, postId);
      reply := PostRejected;
    }
  }
}
