/**
 * Properties of the moderation transitions that relate several calls: the registry invariant,
 * how post ids are handed out (and reused), the cooldown after a submission, and resolution.
 */
module ModerationProperties {
  import opened Wrappers
  import Config
  import opened Moderation

  // ---------------------------------------------------------------------------------------------
  // The key order stays in step with the registry
  // ---------------------------------------------------------------------------------------------

  lemma SubmitKeepsValid(s: State, cfg: Settings, senderId: int, sender: Sender, message: Message,
                         now: int, directory: map<int, UserEntity>)
    requires Valid(s) && message.media.Some?
    ensures Valid(Submit(s, cfg, senderId, sender, message, now, directory).state)
  {
    var o := Submit(s, cfg, senderId, sender, message, now, directory);
    if o.reply == PendingApproval {
      var id := |s.pending|;
      if id !in s.order {
        var order := s.order + [id];
        assert forall i :: 0 <= i < |s.order| ==> order[i] == s.order[i];
        assert order[|s.order|] == id;
      }
    }
  }

  /** Approve keeps the invariant; an invalid id is answered with every pending id, once each. */
  lemma ApproveKeepsValid(s: State, cfg: Settings, senderId: int, arg: string, relayOk: bool,
                          directory: map<int, UserEntity>)
    requires Valid(s)
    ensures var o := Approve(s, cfg, senderId, arg, relayOk, directory);
            Valid(o.state)
            && (o.reply.InvalidPostId? ==> NoDuplicates(o.reply.available)
                                           && forall k :: k in o.reply.available <==> k in s.pending)
  {
  }

  /** Reject keeps the invariant; an invalid id is answered with every pending id, once each. */
  lemma RejectKeepsValid(s: State, cfg: Settings, senderId: int, arg: string,
                         directory: map<int, UserEntity>)
    requires Valid(s)
    ensures var o := Reject(s, cfg, senderId, arg, directory);
            Valid(o.state)
            && (o.reply.InvalidPostId? ==> NoDuplicates(o.reply.available)
                                           && forall k :: k in o.reply.available <==> k in s.pending)
  {
  }

  // ---------------------------------------------------------------------------------------------
  // Post ids
  // ---------------------------------------------------------------------------------------------

  /** One submission event with everything the handler reads from outside. */
  datatype Submission = Submission(senderId: int, sender: Sender, message: Message, now: int,
                                   directory: map<int, UserEntity>)

  predicate HasMedia(subs: seq<Submission>)
  {
    forall i :: 0 <= i < |subs| ==> subs[i].message.media.Some?
  }

  /** The state after handling `subs` in order, with no approval or rejection in between. */
  function SubmitAll(s: State, cfg: Settings, subs: seq<Submission>): State
    requires HasMedia(subs)
    decreases |subs|
  {
    if subs == [] then s
    else
      var e := subs[0];
      SubmitAll(Submit(s, cfg, e.senderId, e.sender, e.message, e.now, e.directory).state, cfg, subs[1..])
  }

  /** The registry holds ids 0, 1, ..., n-1, inserted in that order. */
  ghost predicate NumberedFromZero(s: State)
  {
    && s.order == seq(|s.order|, i => i)
    && forall k :: k in s.pending <==> 0 <= k < |s.order|
  }

  lemma {:induction false} SizeOfNumberedKeys(keys: set<int>, n: nat)
    requires forall k :: k in keys <==> 0 <= k < n
    ensures |keys| == n
  {
    if n == 0 {
      assert forall k :: k !in keys;
      assert keys == {};
    } else {
      var smaller := keys - {n - 1};
      SizeOfNumberedKeys(smaller, n - 1);
      assert keys == smaller + {n - 1};
    }
  }

  lemma {:induction false} NextNumber(s: State, t: State, post: Post)
    requires NumberedFromZero(s) && |s.pending| == |s.order|
    requires t.pending == s.pending[|s.pending| := post] && t.order == WithKey(s.order, |s.pending|)
    ensures NumberedFromZero(t)
  {
    var n := |s.order|;
    assert n !in s.order;
    assert t.order == s.order + [n];
    assert t.order == seq(n + 1, i => i);
  }

  /** While nothing is removed, each accepted submission gets the next id, never a used one. */
  lemma SubmitKeepsNumbering(s: State, cfg: Settings, senderId: int, sender: Sender, message: Message,
                             now: int, directory: map<int, UserEntity>)
    requires NumberedFromZero(s) && message.media.Some?
    ensures var o := Submit(s, cfg, senderId, sender, message, now, directory);
            NumberedFromZero(o.state)
            && (o.reply == PendingApproval ==> |s.pending| == |s.order| && |s.order| !in s.pending)
  {
    SizeOfNumberedKeys(s.pending.Keys, |s.order|);
    assert |s.pending| == |s.pending.Keys|;
    var o := Submit(s, cfg, senderId, sender, message, now, directory);
    if o.reply == PendingApproval {
      NextNumber(s, o.state, Post(senderId, message, now));
    }
  }

  /**
   * An accepted submission caches the sender and then notifies the admins exactly as the loop
   * over `ADMIN_IDS` does: the cache and the notices are those of `AdminFanOut`, so FanOutCounts
   * and its other properties hold of what `media_handler` sends.
   */
  lemma SubmitFanOut(s: State, cfg: Settings, senderId: int, user: UserEntity, message: Message, now: int,
                     directory: map<int, UserEntity>)
    requires message.media.Some? && CanUserPost(s.cooldowns, senderId, now).canPost
    ensures var o := Submit(s, cfg, senderId, UserSender(user), message, now, directory);
            (o.state.entities, o.notices)
            == AdminFanOut(s.entities[senderId := user], cfg.adminIds, directory, |s.pending|, senderId, message)
  {
  }

  /**
   * From an empty registry and with no deletions, the posts are numbered 0, 1, ..., n-1 in the
   * order they were accepted (SubmitKeepsNumbering gives the step: each accepted post takes an
   * id not in use, so none overwrites another).
   */
  lemma {:induction false} SubmissionsNumberedFromZero(cfg: Settings, subs: seq<Submission>)
    requires HasMedia(subs)
    ensures var t := SubmitAll(EmptyState, cfg, subs);
            t.order == seq(|t.order|, i => i) && forall k :: k in t.pending <==> 0 <= k < |t.order|
  {
    assert NumberedFromZero(EmptyState);
    SubmitAllKeepsNumbering(EmptyState, cfg, subs);
  }

  lemma {:induction false} SubmitAllKeepsNumbering(s: State, cfg: Settings, subs: seq<Submission>)
    requires HasMedia(subs) && NumberedFromZero(s)
    ensures NumberedFromZero(SubmitAll(s, cfg, subs))
    decreases |subs|
  {
    if subs != [] {
      var e := subs[0];
      SubmitKeepsNumbering(s, cfg, e.senderId, e.sender, e.message, e.now, e.directory);
      SubmitAllKeepsNumbering(Submit(s, cfg, e.senderId, e.sender, e.message, e.now, e.directory).state,
                              cfg, subs[1..]);
    }
  }

  /**
   * The id is `len(pending_posts)`, not a counter: once a removal leaves a key at or above the
   * size, the next accepted post is stored over the pending post with that key, which is lost,
   * and the registry does not grow.
   */
  lemma IdReuseOverwrites(s: State, cfg: Settings, senderId: int, user: UserEntity, message: Message,
                          now: int, directory: map<int, UserEntity>)
    requires Valid(s) && message.media.Some? && |s.pending| in s.pending
    requires CanUserPost(s.cooldowns, senderId, now).canPost
    ensures var t := Submit(s, cfg, senderId, UserSender(user), message, now, directory).state;
            t.pending.Keys == s.pending.Keys && t.order == s.order
            && t.pending[|s.pending|] == Post(senderId, message, now)
  {
  }

  /** The settings of the run below: one admin, user 1, and a 30-minute cooldown. */
  const RunSettings := Settings([1], 30)

  lemma {:induction false} RunFirstSubmission(m: Message)
    requires m.media.Some?
    ensures var s1 := Submit(EmptyState, RunSettings, 10, UserSender(UserEntity(10, "a")), m, 0, map[]).state;
            s1.pending.Keys == {0} && s1.cooldowns.Keys == {10}
  {
  }

  lemma {:induction false} RunSecondSubmission(s1: State, m: Message)
    requires m.media.Some?
    requires s1.pending.Keys == {0} && s1.cooldowns.Keys == {10}
    ensures var s2 := Submit(s1, RunSettings, 20, UserSender(UserEntity(20, "b")), m, 0, map[]).state;
            s2.pending.Keys == {0, 1} && s2.pending[1].userId == 20 && 30 !in s2.cooldowns
  {
    assert |s1.pending| == |s1.pending.Keys| == 1;
  }

  lemma {:induction false} RunRejectFirst(s2: State)
    requires s2.pending.Keys == {0, 1} && s2.pending[1].userId == 20 && 30 !in s2.cooldowns
    ensures var s3 := Reject(s2, RunSettings, 1, "0", map[]).state;
            s3.pending.Keys == {1} && s3.pending[1].userId == 20 && 30 !in s3.cooldowns
  {
    assert Config.DigitsValue("0") == 0;
    assert Config.ParseInt("0") == Some(0);
  }

  lemma {:induction false} RunThirdSubmission(s3: State, m: Message)
    requires m.media.Some?
    requires s3.pending.Keys == {1} && 30 !in s3.cooldowns
    ensures var s4 := Submit(s3, RunSettings, 30, UserSender(UserEntity(30, "c")), m, 0, map[]).state;
            s4.pending.Keys == {1} && s4.pending[1].userId == 30
  {
    assert |s3.pending| == 1;
  }

  /**
   * A run that loses a post: users 10 and 20 submit (ids 0 and 1), admin 1 rejects post 0, and
   * user 30's submission then gets id 1 again, replacing user 20's post, which was never resolved.
   */
  lemma {:induction false} RejectThenSubmitLosesPost(m: Message)
    requires m.media.Some?
    ensures var s1 := Submit(EmptyState, RunSettings, 10, UserSender(UserEntity(10, "a")), m, 0, map[]).state;
            var s2 := Submit(s1, RunSettings, 20, UserSender(UserEntity(20, "b")), m, 0, map[]).state;
            var s3 := Reject(s2, RunSettings, 1, "0", map[]).state;
            var s4 := Submit(s3, RunSettings, 30, UserSender(UserEntity(30, "c")), m, 0, map[]).state;
            && s2.pending.Keys == {0, 1} && s2.pending[1].userId == 20
            && s4.pending.Keys == {1} && s4.pending[1].userId == 30
  {
    var s1 := Submit(EmptyState, RunSettings, 10, UserSender(UserEntity(10, "a")), m, 0, map[]).state;
    RunFirstSubmission(m);
    var s2 := Submit(s1, RunSettings, 20, UserSender(UserEntity(20, "b")), m, 0, map[]).state;
    RunSecondSubmission(s1, m);
    var s3 := Reject(s2, RunSettings, 1, "0", map[]).state;
    RunRejectFirst(s2);
    RunThirdSubmission(s3, m);
  }

  // ---------------------------------------------------------------------------------------------
  // The cooldown after a submission
  // ---------------------------------------------------------------------------------------------

  /**
   * After a submission accepted at `now`, the sender is blocked exactly until `now` plus the
   * cooldown: earlier, the gate reports the seconds left; from then on it lets them post.
   */
  lemma CooldownAfterSubmit(s: State, cfg: Settings, senderId: int, user: UserEntity, message: Message,
                            now: int, directory: map<int, UserEntity>, later: int)
    requires message.media.Some?
    requires CanUserPost(s.cooldowns, senderId, now).canPost
    ensures var t := Submit(s, cfg, senderId, UserSender(user), message, now, directory).state;
            var g := CanUserPost(t.cooldowns, senderId, later);
            (g.canPost <==> later >= CooldownEnd(cfg, now))
            && (!g.canPost ==> g.remaining == Some(now + cfg.cooldownMinutes * 60 - later))
  {
  }

  /**
   * A second submission from the same user before the cooldown ends changes nothing: the
   * registry still holds only what the first left, and the user is told the minutes left.
   */
  lemma ResubmitDuringCooldown(s: State, cfg: Settings, senderId: int, user: UserEntity,
                               first: Message, second: Message, now: int, later: int,
                               directory: map<int, UserEntity>)
    requires first.media.Some? && second.media.Some?
    requires CanUserPost(s.cooldowns, senderId, now).canPost
    requires later < CooldownEnd(cfg, now)
    ensures var t := Submit(s, cfg, senderId, UserSender(user), first, now, directory).state;
            var o := Submit(t, cfg, senderId, UserSender(user), second, later, directory);
            o.state == t && o.notices == []
            && o.reply == PleaseWait(WaitMinutes(CooldownEnd(cfg, now) - later))
  {
    var t := Submit(s, cfg, senderId, UserSender(user), first, now, directory).state;
    assert t.cooldowns[senderId] == CooldownEnd(cfg, now);
  }

  // ---------------------------------------------------------------------------------------------
  // Media is not inspected
  // ---------------------------------------------------------------------------------------------

  /**
   * Whether a submission is accepted does not depend on the media: a PDF document is taken
   * exactly like a photo (there is no image-type allowlist).
   */
  lemma AnyMediaAccepted(s: State, cfg: Settings, senderId: int, user: UserEntity, now: int,
                         directory: map<int, UserEntity>, photo: Message, pdf: Message)
    requires photo.media == Some(Photo) && pdf.media == Some(Document("application/pdf"))
    ensures Submit(s, cfg, senderId, UserSender(user), pdf, now, directory).reply
            == Submit(s, cfg, senderId, UserSender(user), photo, now, directory).reply
    ensures CanUserPost(s.cooldowns, senderId, now).canPost ==>
              Submit(s, cfg, senderId, UserSender(user), pdf, now, directory).state.pending[|s.pending|].message == pdf
  {
  }

  // ---------------------------------------------------------------------------------------------
  // Resolution
  // ---------------------------------------------------------------------------------------------

  /**
   * A post is resolved at most once: after an approval, a second approve or reject of the same
   * id by an admin finds it missing and changes nothing.
   */
  lemma ApprovedOnlyOnce(s: State, cfg: Settings, admin: int, arg: string, again: int, arg2: string,
                         relayOk: bool, relayOk2: bool, directory: map<int, UserEntity>)
    requires Approve(s, cfg, admin, arg, relayOk, directory).reply == PostApproved
    requires again in cfg.adminIds && Config.ParseInt(arg2) == Config.ParseInt(arg)
    ensures var t := Approve(s, cfg, admin, arg, relayOk, directory).state;
            Approve(t, cfg, again, arg2, relayOk2, directory) == Outcome(t, InvalidPostId(t.order), [], None)
            && Reject(t, cfg, again, arg2, directory) == Outcome(t, InvalidPostId(t.order), [], None)
  {
  }

  /** After a rejection, a second approve or reject of the same id finds it missing. */
  lemma RejectedOnlyOnce(s: State, cfg: Settings, admin: int, arg: string, again: int, arg2: string,
                         relayOk: bool, directory: map<int, UserEntity>)
    requires Reject(s, cfg, admin, arg, directory).reply == PostRejected
    requires again in cfg.adminIds && Config.ParseInt(arg2) == Config.ParseInt(arg)
    ensures var t := Reject(s, cfg, admin, arg, directory).state;
            Approve(t, cfg, again, arg2, relayOk, directory) == Outcome(t, InvalidPostId(t.order), [], None)
            && Reject(t, cfg, again, arg2, directory) == Outcome(t, InvalidPostId(t.order), [], None)
  {
  }

  /** The relay failing keeps the post pending, so a later approval can still publish it. */
  lemma FailedRelayCanBeRetried(s: State, cfg: Settings, admin: int, arg: string,
                                directory: map<int, UserEntity>)
    requires admin in cfg.adminIds && Config.ParseInt(arg).Some? && Config.ParseInt(arg).value in s.pending
    ensures var o := Approve(s, cfg, admin, arg, false, directory);
            o.reply == ChannelSendFailed && o.state == s
            && Approve(o.state, cfg, admin, arg, true, directory).reply == PostApproved
  {
  }
}
