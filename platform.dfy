/**
 * The slice of the chat platform and the code host that the bot reads, and the
 * log of the calls it makes into them. Every call the source awaits becomes one
 * `Effect`; what a call answers is an input of the handler that makes it.
 */
module Platform {
  import opened Wrappers

  /** A channel as `conversations.list` and `conversations.create` describe it. */
  datatype Channel = Channel(id: string, name: string, isArchived: bool)

  /** A channel message: `ts` is its identity and sort key, `botId` is absent for people. */
  datatype Message = Message(ts: string, botId: Option<string>, text: string)

  /** One answer of `conversations.list`: some channels and the cursor of the next page. */
  datatype Page = Page(channels: seq<Channel>, nextCursor: Option<string>)

  datatype PullState = Open | Closed

  /** The fields of a pull request the core reads; `repo` is `base.repo.name`. */
  datatype PullRequest = PullRequest(number: nat, repo: string, body: Option<string>, state: PullState)

  /** A review comment; `inReplyToId` is absent on a comment that starts a thread. */
  datatype ReviewComment = ReviewComment(
    id: nat, inReplyToId: Option<nat>, login: string, body: string, createdAt: string)

  /** An invocation of the `/add-pr-comment` slash command. */
  datatype SlashCommand = SlashCommand(channelName: string, userName: string, text: string)

  datatype TextKind = PlainText | Markdown

  /** A block of a rich chat message. */
  datatype Block = Section(kind: TextKind, text: string) | ContextLine(line: string) | Divider

  /** One call into Slack, GitHub or the helpers the core hands work to. */
  datatype Effect =
    | ListConversations(cursor: Option<string>)
    | CreateConversation(name: string)
    | PostMessage(channelId: string, text: string)
    | AddInitialComment(pullNumber: nat, created: Channel)
    | AddReviewers(pullNumber: nat, target: Channel)
    | AuthTest
    | FetchHistory(channelId: string)
    | UpdateMessage(channelId: string, ts: string, text: string)
    | ArchiveConversation(channelId: string)
    | FetchReviewComments(pullNumber: nat)
    | PostContext(channelId: string, text: string, blocks: seq<Block>)
    | FetchPermalink(channelId: string, ts: string)
    | ReplyToReviewComment(pullNumber: nat, replyTo: nat, text: string)
    | Acknowledge
    | RespondEphemeral(text: string)
    | AddComment(command: SlashCommand)

  /** How a handler's promise settles: `Rejected` when an awaited call throws out of it. */
  datatype Outcome = Resolved | Rejected

  /** JavaScript truthiness of a string that may be `undefined`. */
  predicate Truthy(s: Option<string>) {
    s.Some? && s.value != ""
  }
}
