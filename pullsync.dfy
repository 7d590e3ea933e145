/**
 * `onChangePull` (app.ts:64-113): on every pull-request event, find the pull
 * request's channel among the listed channels, create it when it is missing, then
 * invite the reviewers and rewrite the bot's first message while the channel is
 * not archived, and ask for an archive once the pull request is closed.
 */
module PullSync {
  import opened Wrappers
  import opened Strings
  import opened Platform
  import opened Directory
  import opened Naming

  /**
   * What the calls of one `onChangePull` answer: the listing pages, the id
   * `conversations.create` assigns (None when it rejects), `auth.test`'s bot id,
   * `getChannelHistory` per channel id, and `slackTextFromPullRequest(pull)`.
   */
  datatype Collaborators = Collaborators(
    pages: seq<Page>,
    createdId: Option<string>,
    botId: Option<string>,
    history: string -> seq<Message>,
    pullText: string)

  /** `messages.filter(message => message.bot_id == me)`. */
  function BotMessages(messages: seq<Message>, me: Option<string>): (r: seq<Message>)
    ensures forall m :: m in r <==> m in messages && m.botId == me
  {
    if messages == [] then []
    else (if messages[0].botId == me then [messages[0]] else []) + BotMessages(messages[1..], me)
  }

  /** The filter keeps the history's order: it distributes over concatenation. */
  lemma {:induction false} BotMessagesSplits(a: seq<Message>, b: seq<Message>, me: Option<string>)
    ensures BotMessages(a + b, me) == BotMessages(a, me) + BotMessages(b, me)
  {
    if a == [] {
      assert a + b == b;
    } else {
      assert (a + b)[1..] == a[1..] + b;
      BotMessagesSplits(a[1..], b, me);
    }
  }

  /** Index of lodash `minBy(ms, m => m.ts)`: the first message of least ts. */
  function MinTsIndex(ms: seq<Message>): (k: nat)
    requires ms != []
    ensures k < |ms|
    ensures forall j :: 0 <= j < |ms| ==> !LexLess(ms[j].ts, ms[k].ts)
    ensures forall j :: 0 <= j < k ==> LexLess(ms[k].ts, ms[j].ts)
  {
    if |ms| == 1 then
      LexLessIrreflexive(ms[0].ts);
      0
    else
      var k := 1 + MinTsIndex(ms[1..]);
      assert forall j :: 1 <= j < |ms| ==> ms[1..][j - 1] == ms[j];
      if LexLess(ms[k].ts, ms[0].ts) then
        LexLessAsymmetric(ms[k].ts, ms[0].ts);
        k
      else
        LexLessIrreflexive(ms[0].ts);
        LeastStaysLeast(ms, ms[k].ts, ms[0].ts);
        0
  }

  lemma LeastStaysLeast(ms: seq<Message>, least: string, other: string)
    requires forall j :: 1 <= j < |ms| ==> !LexLess(ms[j].ts, least)
    requires !LexLess(least, other)
    ensures forall j :: 1 <= j < |ms| ==> !LexLess(ms[j].ts, other)
  {
    forall j | 1 <= j < |ms|
      ensures !LexLess(ms[j].ts, other)
    {
      LexNotLessTransitive(ms[j].ts, least, other);
    }
  }

  /** `minBy(...)` of app.ts:85-88: the bot's own message with the least ts, if any. */
  function EarliestBotMessage(messages: seq<Message>, me: Option<string>): (r: Option<Message>)
    ensures r.None? <==> forall m :: m in messages ==> m.botId != me
    ensures r.Some? ==> r.value in messages && r.value.botId == me
    ensures r.Some? ==> forall m :: m in messages && m.botId == me ==> !LexLess(m.ts, r.value.ts)
  {
    var mine := BotMessages(messages, me);
    if mine == [] then None
    else
      var k := MinTsIndex(mine);
      assert forall m :: m in mine ==> exists j :: 0 <= j < |mine| && mine[j] == m;
      Some(mine[k])
  }

  /**
   * The channel app.ts:69-78 settles on, given what the lookup `found`: that
   * channel, else the newly created one, if the platform created it.
   */
  function Settled(pull: PullRequest, found: Option<Channel>, createdId: Option<string>): Option<Channel> {
    match found
    case Some(c) => Some(c)
    case None =>
      match createdId
      case None => None
      case Some(id) => Some(Channel(id, RequestedName(pull.number), false))
  }

  /** The channel one `onChangePull` settles on. */
  function PullChannel(pull: PullRequest, env: Collaborators): Option<Channel>
    requires Exhausts(env.pages)
  {
    Settled(pull, Lookup(ListedChannels(env.pages), pull), env.createdId)
  }

  /** `createPullChannel`'s post of a truthy pull request body (slack.ts:39-44). */
  function BodyPost(channelId: string, pull: PullRequest): seq<Effect> {
    if Truthy(pull.body) then [PostMessage(channelId, pull.body.value)] else []
  }

  /**
   * The calls of app.ts:69-78: none when the lookup found the channel; otherwise
   * the create request and, when it succeeds, the body post and the initial comment.
   */
  function SetupLog(pull: PullRequest, found: Option<Channel>, createdId: Option<string>): seq<Effect> {
    if found.Some? then [] else [CreateConversation(RequestedName(pull.number))] + CreatedLog(pull, createdId)
  }

  /** The calls after a create request: the body post and the initial comment, when it succeeded. */
  function CreatedLog(pull: PullRequest, createdId: Option<string>): seq<Effect> {
    match createdId
    case None => []
    case Some(id) => BodyPost(id, pull) + [AddInitialComment(pull.number, Channel(id, RequestedName(pull.number), false))]
  }

  /**
   * The calls of app.ts:80-100 on channel c: none when it is archived; otherwise
   * reviewers, `auth.test`, the history, and the update of the bot's earliest message.
   */
  function SyncLog(pull: PullRequest, c: Channel, env: Collaborators): seq<Effect> {
    if c.isArchived then []
    else
      [AddReviewers(pull.number, c), AuthTest, FetchHistory(c.id)] +
      match EarliestBotMessage(env.history(c.id), env.botId)
      case None => []
      case Some(m) => [UpdateMessage(c.id, m.ts, env.pullText)]
  }

  /** The call of app.ts:102-112: the archive request of a closed pull request. */
  function ArchiveLog(pull: PullRequest, c: Channel): seq<Effect> {
    if pull.state == Closed then [ArchiveConversation(c.id)] else []
  }

  /** The calls after app.ts:78 on the settled channel; none when the create failed. */
  function AfterSetup(pull: PullRequest, settled: Option<Channel>, env: Collaborators): seq<Effect> {
    match settled
    case None => []
    case Some(c) => SyncLog(pull, c, env) + ArchiveLog(pull, c)
  }

  /** The calls of app.ts:69-112, after the listing, given what the lookup found. */
  function RunLog(pull: PullRequest, found: Option<Channel>, env: Collaborators): seq<Effect> {
    SetupLog(pull, found, env.createdId) + AfterSetup(pull, Settled(pull, found, env.createdId), env)
  }

  /** Every call one `onChangePull` makes, in order; the run stops after a rejected create. */
  function ChangeLog(pull: PullRequest, env: Collaborators): seq<Effect>
    requires Exhausts(env.pages)
  {
    ListRequests(env.pages) + RunLog(pull, Lookup(ListedChannels(env.pages), pull), env)
  }

  lemma SetupLogKinds(pull: PullRequest, found: Option<Channel>, createdId: Option<string>)
    ensures forall e :: e in SetupLog(pull, found, createdId) ==> e.CreateConversation? || e.PostMessage? || e.AddInitialComment?
  {
  }

  lemma AfterSetupKinds(pull: PullRequest, settled: Option<Channel>, env: Collaborators)
    ensures forall e :: e in AfterSetup(pull, settled, env) ==>
      e.AddReviewers? || e.AuthTest? || e.FetchHistory? || e.UpdateMessage? || e.ArchiveConversation?
  {
  }

  /**
   * app.ts:69-78: use the first listed channel with the derived name; when there
   * is none, create the channel and add the initial GitHub comment.
   */
  method EnsurePullChannel(pull: PullRequest, createdId: Option<string>, channels: seq<Channel>)
    returns (channel: Option<Channel>, calls: seq<Effect>)
    ensures channel == Settled(pull, Lookup(channels, pull), createdId)
    ensures calls == SetupLog(pull, Lookup(channels, pull), createdId)
  {
    channel := Lookup(channels, pull);
    calls := [];
    if channel.None? {
      var created, createRequests := CreatePullChannel(pull, createdId);
      calls := createRequests;
      if created.Some? {
        calls := calls + [AddInitialComment(pull.number, created.value)];
      }
      channel := created;
    }
  }

  /**
   * app.ts:80-100: on a channel that is not archived, invite the reviewers and
   * rewrite the bot's earliest message with the pull request's current text.
   */
  method SyncChannel(pull: PullRequest, channel: Channel, env: Collaborators) returns (calls: seq<Effect>)
    ensures calls == SyncLog(pull, channel, env)
  {
    calls := [];
    if !channel.isArchived {
      calls := [AddReviewers(pull.number, channel), AuthTest, FetchHistory(channel.id)];
      var botComment := EarliestBotMessage(env.history(channel.id), env.botId);
      if botComment.Some? {
        calls := calls + [UpdateMessage(channel.id, botComment.value.ts, env.pullText)];
      }
    }
  }

  /** One `onChangePull` (app.ts:64-113): `effects` logs the calls it makes, in order. */
  method OnChangePull(pull: PullRequest, env: Collaborators) returns (effects: seq<Effect>, outcome: Outcome, pullChannel: Option<Channel>)
    requires Exhausts(env.pages)
    ensures effects == ChangeLog(pull, env)
    ensures pullChannel == PullChannel(pull, env)
    // only a rejected creation rejects the handler
    ensures outcome == Rejected <==> pullChannel.None?
  {
    var channels, requests := GetSlackChannels(env.pages);
    var setup;
    pullChannel, setup := EnsurePullChannel(pull, env.createdId, channels);
    effects := requests + setup;
    if pullChannel.None? {
      assert AfterSetup(pull, pullChannel, env) == [];
      assert effects == requests + (setup + []);
      outcome := Rejected;
      return;
    }
    var channel := pullChannel.value;
    var sync := SyncChannel(pull, channel, env);
    var archive := [];
    if pull.state == Closed {
      // a rejected archive is caught and only logged (app.ts:105-111)
      archive := [ArchiveConversation(channel.id)];
    }
    assert AfterSetup(pull, pullChannel, env) == sync + archive;
    effects := requests + (setup + (sync + archive));
    outcome := Resolved;
  }

  /** A found channel is reused: no create request, no body post, no initial comment. */
  lemma FoundChannelIsReused(pull: PullRequest, c: Channel, env: Collaborators)
    ensures RunLog(pull, Some(c), env) == SyncLog(pull, c, env) + ArchiveLog(pull, c)
    ensures forall e :: e in RunLog(pull, Some(c), env) ==> !e.CreateConversation? && !e.PostMessage? && !e.AddInitialComment?
  {
    assert RunLog(pull, Some(c), env) == [] + AfterSetup(pull, Some(c), env);
    AfterSetupKinds(pull, Some(c), env);
  }

  /** A failed create ends the run right after the request. */
  lemma RejectedRunStopsAtCreate(pull: PullRequest, found: Option<Channel>, env: Collaborators)
    requires Settled(pull, found, env.createdId).None?
    ensures found.None? && env.createdId.None?
    ensures RunLog(pull, found, env) == [CreateConversation(RequestedName(pull.number))]
  {
    assert SetupLog(pull, found, env.createdId) == [CreateConversation(RequestedName(pull.number))] + [];
  }

  /** A log whose later entries hold no create request has at most its head as one. */
  lemma OnlyHeadCreates(log: seq<Effect>, head: Effect, later: seq<Effect>)
    requires log == [head] + later
    requires forall e :: e in later ==> !e.CreateConversation?
    ensures |log| > 0 && log[0] == head
    ensures forall k :: 0 < k < |log| ==> !log[k].CreateConversation?
  {
    assert forall k :: 0 < k < |log| ==> log[k] == later[k - 1];
  }

  /** After a missed lookup, nothing that follows the create request is another one. */
  lemma MissFollowUpCreatesNothing(pull: PullRequest, env: Collaborators)
    ensures forall e :: e in CreatedLog(pull, env.createdId) + AfterSetup(pull, Settled(pull, None, env.createdId), env) ==>
      !e.CreateConversation?
  {
    AfterSetupKinds(pull, Settled(pull, None, env.createdId), env);
    assert forall e :: e in CreatedLog(pull, env.createdId) ==> !e.CreateConversation?;
  }

  /** When the lookup missed, the create request, named `pr-<number>`, comes first and never again. */
  lemma MissingChannelIsCreatedOnce(pull: PullRequest, env: Collaborators)
    ensures var log := RunLog(pull, None, env);
      && |log| > 0 && log[0] == CreateConversation(RequestedName(pull.number))
      && forall k :: 0 < k < |log| ==> !log[k].CreateConversation?
  {
    var later := CreatedLog(pull, env.createdId) + AfterSetup(pull, Settled(pull, None, env.createdId), env);
    MissFollowUpCreatesNothing(pull, env);
    assert SetupLog(pull, None, env.createdId) == [CreateConversation(RequestedName(pull.number))] + CreatedLog(pull, env.createdId);
    OnlyHeadCreates(RunLog(pull, None, env), CreateConversation(RequestedName(pull.number)), later);
  }

  /** The setup calls post the body exactly into a channel just created, when the body is truthy. */
  lemma SetupPostsBody(pull: PullRequest, found: Option<Channel>, createdId: Option<string>)
    ensures forall e :: e in SetupLog(pull, found, createdId) && e.PostMessage? ==>
      found.None? && createdId.Some? && Truthy(pull.body) && e == PostMessage(createdId.value, pull.body.value)
    ensures found.None? && createdId.Some? && Truthy(pull.body) ==>
      PostMessage(createdId.value, pull.body.value) in SetupLog(pull, found, createdId)
  {
  }

  /** The setup calls comment on GitHub exactly when a channel was just created, naming it. */
  lemma SetupCommentsOnCreation(pull: PullRequest, found: Option<Channel>, createdId: Option<string>)
    ensures forall e :: e in SetupLog(pull, found, createdId) && e.AddInitialComment? ==>
      found.None? && createdId.Some? && e == AddInitialComment(pull.number, Settled(pull, found, createdId).value)
    ensures found.None? && createdId.Some? ==>
      AddInitialComment(pull.number, Settled(pull, found, createdId).value) in SetupLog(pull, found, createdId)
  {
  }

  /** The body is posted only into a newly created channel, and always there when it is truthy. */
  lemma BodyPostedOnlyOnCreation(pull: PullRequest, found: Option<Channel>, env: Collaborators)
    ensures forall e :: e in RunLog(pull, found, env) && e.PostMessage? ==>
      found.None? && env.createdId.Some? && Truthy(pull.body) && e == PostMessage(env.createdId.value, pull.body.value)
    ensures found.None? && env.createdId.Some? && Truthy(pull.body) ==>
      PostMessage(env.createdId.value, pull.body.value) in RunLog(pull, found, env)
  {
    SetupPostsBody(pull, found, env.createdId);
    AfterSetupKinds(pull, Settled(pull, found, env.createdId), env);
  }

  /** The initial GitHub comment names the created channel, and comes exactly when one was created. */
  lemma InitialCommentOnlyOnCreation(pull: PullRequest, found: Option<Channel>, env: Collaborators)
    ensures forall e :: e in RunLog(pull, found, env) && e.AddInitialComment? ==>
      found.None? && env.createdId.Some? && e == AddInitialComment(pull.number, Settled(pull, found, env.createdId).value)
    ensures found.None? && env.createdId.Some? ==>
      AddInitialComment(pull.number, Settled(pull, found, env.createdId).value) in RunLog(pull, found, env)
  {
    SetupCommentsOnCreation(pull, found, env.createdId);
    AfterSetupKinds(pull, Settled(pull, found, env.createdId), env);
  }

  /**
   * Only a found channel can be archived, since a created one never is; it gets no
   * reviewers, no history read and no update, at most the archive request.
   */
  lemma ArchivedChannelIsOnlyArchived(pull: PullRequest, found: Option<Channel>, env: Collaborators)
    requires Settled(pull, found, env.createdId).Some? && Settled(pull, found, env.createdId).value.isArchived
    ensures found == Settled(pull, found, env.createdId)
    ensures RunLog(pull, found, env) == ArchiveLog(pull, found.value)
  {
    assert SetupLog(pull, found, env.createdId) == [];
  }

  /** Neither the setup nor the sync of a channel archives anything. */
  lemma NothingArchivedBeforeArchive(pull: PullRequest, found: Option<Channel>, c: Channel, env: Collaborators)
    ensures forall e :: e in SetupLog(pull, found, env.createdId) + SyncLog(pull, c, env) ==> !e.ArchiveConversation?
  {
    SetupLogKinds(pull, found, env.createdId);
    assert forall e :: e in SyncLog(pull, c, env) ==> !e.ArchiveConversation?;
  }

  /** A closed pull request's channel is archived last, whether or not it is already archived; an open one never. */
  lemma ArchiveLastExactlyWhenClosed(pull: PullRequest, found: Option<Channel>, env: Collaborators)
    requires Settled(pull, found, env.createdId).Some?
    ensures var c := Settled(pull, found, env.createdId).value;
      var log := RunLog(pull, found, env);
      && (forall e :: e in log && e.ArchiveConversation? ==> pull.state == Closed && e == ArchiveConversation(c.id))
      && (pull.state == Closed ==> log[|log| - 1] == ArchiveConversation(c.id))
  {
    var c := Settled(pull, found, env.createdId).value;
    var earlier := SetupLog(pull, found, env.createdId) + SyncLog(pull, c, env);
    assert RunLog(pull, found, env) == earlier + ArchiveLog(pull, c);
    NothingArchivedBeforeArchive(pull, found, c, env);
  }

  /** The update `SyncLog` makes is of the bot's earliest message, with the pull request's text. */
  lemma SyncLogUpdates(pull: PullRequest, c: Channel, env: Collaborators)
    ensures forall e :: e in SyncLog(pull, c, env) && e.UpdateMessage? ==>
      && !c.isArchived && EarliestBotMessage(env.history(c.id), env.botId).Some?
      && e == UpdateMessage(c.id, EarliestBotMessage(env.history(c.id), env.botId).value.ts, env.pullText)
  {
  }

  /** The only message rewritten is the bot's earliest one in the settled channel. */
  lemma UpdateRewritesEarliestBotMessage(pull: PullRequest, found: Option<Channel>, env: Collaborators)
    requires Settled(pull, found, env.createdId).Some?
    ensures var c := Settled(pull, found, env.createdId).value;
      forall e :: e in RunLog(pull, found, env) && e.UpdateMessage? ==>
        && !c.isArchived && e.channelId == c.id && e.text == env.pullText
        && (exists m :: m in env.history(c.id) && m.botId == env.botId && m.ts == e.ts)
        && (forall m :: m in env.history(c.id) && m.botId == env.botId ==> !LexLess(m.ts, e.ts))
  {
    var c := Settled(pull, found, env.createdId).value;
    var sync := SyncLog(pull, c, env);
    assert RunLog(pull, found, env) == SetupLog(pull, found, env.createdId) + sync + ArchiveLog(pull, c);
    SetupLogKinds(pull, found, env.createdId);
    SyncLogUpdates(pull, c, env);
    forall e | e in RunLog(pull, found, env) && e.UpdateMessage?
      ensures e in sync
    {
    }
  }

  /** The bot's earliest message is rewritten whenever the channel is not archived and the bot wrote there. */
  lemma BotMessageIsAlwaysUpdated(pull: PullRequest, found: Option<Channel>, env: Collaborators)
    requires Settled(pull, found, env.createdId).Some?
    requires var c := Settled(pull, found, env.createdId).value;
      !c.isArchived && exists m :: m in env.history(c.id) && m.botId == env.botId
    ensures var c := Settled(pull, found, env.createdId).value;
      UpdateMessage(c.id, EarliestBotMessage(env.history(c.id), env.botId).value.ts, env.pullText) in RunLog(pull, found, env)
  {
    var c := Settled(pull, found, env.createdId).value;
    var m := EarliestBotMessage(env.history(c.id), env.botId).value;
    var sync := SyncLog(pull, c, env);
    assert sync == [AddReviewers(pull.number, c), AuthTest, FetchHistory(c.id)] + [UpdateMessage(c.id, m.ts, env.pullText)];
    assert RunLog(pull, found, env) == SetupLog(pull, found, env.createdId) + (sync + ArchiveLog(pull, c));
  }

  /**
   * A second event for the same pull request, once the listing also holds the
   * channel the first one created, misses that channel again: `onChangePull`
   * then asks for a second channel of the same name.
   */
  lemma RepeatMissesCreatedChannel(pull: PullRequest, env: Collaborators, later: Collaborators)
    requires Exhausts(env.pages) && Exhausts(later.pages)
    requires Lookup(ListedChannels(env.pages), pull).None? && env.createdId.Some?
    requires ListedChannels(later.pages) == ListedChannels(env.pages) + [PullChannel(pull, env).value]
    ensures Lookup(ListedChannels(later.pages), pull).None?
  {
    RequestedNameIsNeverDerived(pull.number, pull.number, pull.repo);
    FindByNameIgnoresAppended(ListedChannels(env.pages), PullChannel(pull, env).value,
      ChannelNameFromPull(pull.number, pull.repo));
  }
}
