# live-github bot, modelled in Dafny

This project models the core of a bot that mirrors GitHub pull requests into Slack channels. It covers four parts:

- **Pull request sync** (`onChangePull`). When a pull request event arrives, the bot reads the full, paginated Slack channel list. It looks for the channel named `pr-<number>-<repo>`. If there is none, it creates a channel named `pr-<number>` and has the initial GitHub comment posted. If the channel is not archived, it adds reviewers and rewrites the bot's own earliest message in the channel. When the pull request is closed, it archives the channel.
- **Comment bridge** (the `pull_request_review_comment.created` handler). A review comment that contains "take this to slack" (in any case) gathers its thread and keeps the last 15 comments by creation time. It posts them to the pull request's channel as text and as a block layout, then replies on GitHub with the permalink.
- **The `/add-pr-comment` gate.** The command is acknowledged. Outside a channel whose name starts with `pr`, the user also gets an ephemeral warning. The comment is forwarded either way.
- **Identity mapping** (`mapGithubUserToSlackId`). A dictionary from e-mail to Slack id is built from the member list, with later members overwriting earlier ones. Every git user in the configured table is then joined to an id through it.

There are no classes in the model. The objects the TypeScript updates are local to one call and never aliased: the e-mail dictionary written entry by entry (util.ts:16), the block list it pops (app.ts:198) and the reassigned `pullChannel` (app.ts:75). They are modelled as values updated step by step. Each Slack or GitHub call becomes an `Effect` entry in a log that the handler methods return. What the services answer is a `Collaborators` value given as input: the pages of the list call, the id of a created channel, the bot id, the channel history, the review comments, the posted message's timestamp, the permalink and the mention text. The two loops of the source are `while` loops proved against specification functions:

- the cursor loop of `getSlackChannels`;
- the `forEach` that builds the e-mail dictionary.

The log of `onChangePull` is stated phase by phase: `PullSync.ChangeLog` is the listing calls followed by `PullSync.RunLog` at the lookup's answer. That run is the setup calls for a missing channel (`SetupLog`), then, once a channel is settled, its sync calls (`SyncLog`) and the archive request when the pull request is closed (`ArchiveLog`).

Several JavaScript semantics are written out:

- **Truthiness.** A cursor or a pull request body is truthy only when present and non-empty. In `in_reply_to_id || id`, the id 0 counts as falsy.
- **String comparison.** `minBy` over `ts` and `sortBy` over `created_at` compare with JavaScript's string `<`, modelled as `Strings.LexLess`. `sortBy` is stable.
- **Missing e-mail.** A member without an e-mail is filed under the key `"undefined"`.
- **Rejected calls.** A rejected `conversations.create` ends `onChangePull` as `Rejected`. The bridge reads `pullChannel.id` from a missing channel, which throws, so that handler also ends `Rejected`, right after the review comments are fetched. A failed archive is caught and changes nothing.

Behaviours of the code that the model keeps as written:

- Channel names are not sanitised.
- The channel is created as `pr-<number>` but looked up as `pr-<number>-<repo>`, so a created channel is never found again (`PullSync.RepeatMissesCreatedChannel`).
- The slash command does not stop after rejecting.
- The bridge's filter takes every comment that shares the trigger's `in_reply_to_id`. For a reply, that means its siblings but not the thread root. For a root comment, it means every root comment of the pull request.

## Model

| member | source | states |
|---|---|---|
| Strings.Decimal | app.ts:62 | the decimal rendering of a number is a non-empty digit string |
| Strings.DecimalRoundTrip | app.ts:62 | reading the digits of a number's rendering gives the number back |
| Strings.DecimalInjective | app.ts:62 | two numbers render the same exactly when they are equal |
| Strings.SlicePrefixIsPrefixTest | slack.ts:27 | `slice(0, k) === p` with `\|p\| = k` holds exactly when the string starts with `p` |
| Strings.LexLessTransitive | app.ts:85-88 | JavaScript string ordering is transitive |
| Strings.LexLessTotal | app.ts:167 | of two distinct strings one is less than the other |
| Naming.ChannelNameFromPull | app.ts:62 | the derived name passes the `pr-` prefix filter and ends with the repository name |
| Naming.NameInjective | app.ts:62 | `pr-<number>-<repo>` names two pull requests alike exactly when their number and repository agree |
| Naming.RequestedNameIsNeverDerived | slack.ts:35-37 | the `pr-<number>` name a created channel gets is never a `pr-<number>-<repo>` name |
| Naming.Lookup | app.ts:69-71 | the channel found for a pull request is a listed channel that passes the `pr-` filter |
| Directory.PagesRead | slack.ts:11-20 | the loop stops at the first page whose cursor is falsy, and every earlier page had a truthy cursor |
| Directory.FlattenHolds | slack.ts:18 | a channel is in the accumulated list exactly when it is on one of the pages read |
| Directory.ListRequests | slack.ts:7-20 | the first list call has no cursor; each later call passes the previous page's truthy `next_cursor` |
| Directory.ListingIgnoresLaterPages | slack.ts:13-20 | pages after the first exhausted one influence neither the channels nor the calls |
| Directory.GetSlackChannels | slack.ts:4-23 | returns every channel of the pages read, in order, and makes exactly the list calls above |
| Directory.IsPrChannelName | slack.ts:27 | the `slice(0, 3) === "pr-"` test holds exactly when the name starts with `pr-` |
| Directory.GetPrChannels | slack.ts:25-29 | keeps exactly the channels whose name starts with `pr-`, never more than it was given |
| Directory.GetPrChannelsSplits | slack.ts:25-29 | the filter distributes over concatenation |
| Directory.GetPrChannelsIdempotent | slack.ts:25-29 | filtering twice is filtering once |
| Directory.RequestedName | slack.ts:36 | a created channel's name starts with `pr-`, and what follows is all digits that read back as the pull request's number |
| Directory.CreatePullChannel | slack.ts:31-47 | asks for `pr-<number>`; the body is posted to the new channel exactly when creation succeeded and the body is truthy; the result is the new, unarchived channel |
| Directory.FirstNamed | app.ts:69-71 | the index of the first channel with the given name, or the length when there is none |
| Directory.FindByName | app.ts:69-71 | `find` gives nothing exactly when no channel has the name, otherwise the first channel that has it |
| Directory.FindByNameIgnoresAppended | app.ts:69-71 | appending a channel with another name does not change what `find` gives |
| PullSync.BotMessages | app.ts:86 | keeps exactly the history messages whose bot id equals the bot's |
| PullSync.BotMessagesSplits | app.ts:86 | the bot-message filter keeps the history's order: it distributes over concatenation |
| PullSync.MinTsIndex | app.ts:85-88 | the index of a message whose timestamp no message undercuts, every earlier message being strictly later (lodash keeps the first minimum) |
| PullSync.LeastStaysLeast | app.ts:85-88 | when no later message undercuts timestamp `least` and `least` does not undercut `other`, no later message undercuts `other` either |
| PullSync.EarliestBotMessage | app.ts:83-88 | nothing exactly when the bot wrote no message; otherwise one of the bot's messages with the least timestamp |
| PullSync.EnsurePullChannel | app.ts:69-78 | the settled channel is the found one, or else the created `pr-<number>` channel when creation succeeds; the calls are nothing for a found channel, otherwise the create request, then on success the body post when the body is truthy and the initial comment naming the new channel |
| PullSync.SyncChannel | app.ts:80-100 | an archived channel gets no calls; an unarchived one gets exactly the reviewers call, the bot id query and the history read, followed by the rewrite of the bot's earliest message with the pull request's text when the bot wrote one |
| PullSync.OnChangePull | app.ts:64-113 | the calls are the channel listing calls followed by the setup calls and, when a channel was settled, its sync calls and then the archive request when the pull request is closed; the result is `Rejected` exactly when no channel was settled |
| PullSync.FoundChannelIsReused | app.ts:69-78 | with a channel found, the run is exactly its sync and archive calls, with no create, body post or initial comment |
| PullSync.RejectedRunStopsAtCreate | slack.ts:35-37 | when no channel is settled, nothing was found, creation failed, and the run is the lone create request |
| PullSync.MissingChannelIsCreatedOnce | app.ts:73-75 | when the lookup missed, the run starts with the create request for `pr-<number>` and holds no other create |
| PullSync.BodyPostedOnlyOnCreation | slack.ts:39-44 | the body is posted exactly when the channel was created, creation succeeded and the body is truthy, and then into the new channel |
| PullSync.InitialCommentOnlyOnCreation | app.ts:77 | the initial GitHub comment, naming the created channel, is made exactly when a channel was created |
| PullSync.ArchivedChannelIsOnlyArchived | app.ts:80-112 | an archived channel was found, not created, and gets at most the archive request |
| PullSync.ArchiveLastExactlyWhenClosed | app.ts:102-112 | only a closed pull request's channel is archived, and then the archive request is the last call |
| PullSync.SyncLogUpdates | app.ts:90-96 | the sync's only rewrite is of the bot's earliest message in an unarchived channel, with the pull request's text |
| PullSync.UpdateRewritesEarliestBotMessage | app.ts:83-96 | every rewrite in the run targets a message of the bot in the settled channel that no other bot message predates |
| PullSync.BotMessageIsAlwaysUpdated | app.ts:90-96 | when the channel is unarchived and the bot wrote there, the bot's earliest message is rewritten |
| PullSync.RepeatMissesCreatedChannel | app.ts:69-75 | on the next event, the channel created last time is still not found |
| CommentBridge.Triggers | app.ts:155 | a triggering body is at least as long as the trigger phrase |
| CommentBridge.TriggerIgnoresCase | app.ts:155 | upper-casing a body does not change whether it triggers |
| CommentBridge.TriggerAnywhere | app.ts:155 | a triggering text still triggers with anything written before and after it |
| CommentBridge.PhraseAloneTriggers | app.ts:155 | the phrase "take this to slack" by itself triggers |
| CommentBridge.PhraseTriggers | app.ts:155 | a body holding the phrase anywhere, as written or in capitals, triggers |
| CommentBridge.Relevant | app.ts:166 | keeps exactly the comments sharing the trigger's `in_reply_to_id`, and the trigger itself |
| CommentBridge.RelevantSplits | app.ts:166 | the thread filter keeps the fetched order: it distributes over concatenation |
| CommentBridge.ReplyThreadOmitsRoot | app.ts:166 | for a reply, the thread's root comment fails the thread filter, so no posted context holds it |
| CommentBridge.RootThreadTakesAllRoots | app.ts:166 | for a root comment, every root comment of the pull request passes the thread filter |
| CommentBridge.Insert | app.ts:167 | inserting into a sorted list gives a sorted list one longer, starting with the inserted comment or the old first one |
| CommentBridge.InsertPermutes | app.ts:167 | insertion adds exactly the inserted comment to the multiset of comments |
| CommentBridge.SortByCreated | app.ts:167 | the result is sorted by `created_at` and is a permutation of the input |
| CommentBridge.SortKeepsTies | app.ts:167 | comments created at the same time keep their original order |
| CommentBridge.SortedPairwise | app.ts:167 | in a sorted list no later comment is older than an earlier one |
| CommentBridge.LastN | app.ts:167 | for n > 0, `slice(-n)` gives the last `min(n, length)` elements |
| CommentBridge.ContextComments | app.ts:165-167 | exactly `min(15, thread size)` comments, sorted, all from the thread and a sub-multiset of it |
| CommentBridge.WindowKeepsNewest | app.ts:167 | no thread comment left out of the window is newer than one kept |
| CommentBridge.CommentLines | app.ts:171 | one `Written By` line per context comment, in order |
| CommentBridge.ContextText | app.ts:171-172 | the posted text opens with the moving banner and a blank line |
| CommentBridge.ContextTextShowsEveryComment | app.ts:171-172 | the posted text contains every context comment's login and body |
| CommentBridge.FlatMapBlocks | app.ts:174-197 | three blocks per comment |
| CommentBridge.FlatMapBlocksAt | app.ts:174-197 | the blocks of comment `i` are its plain-text body, its attribution line and a divider, at positions `3i` to `3i+2` |
| CommentBridge.LayoutHasNoTrailingDivider | app.ts:198 | after the pop the layout never ends on a divider; a non-empty one ends with the last comment's attribution line |
| CommentBridge.LayoutIsUnique | app.ts:174-207 | a context determines exactly one layout |
| CommentBridge.ComposeBlocks | app.ts:174-207 | the headline first, then each comment's body, attribution and divider, with the last divider removed |
| CommentBridge.ReplyTarget | app.ts:217 | the reply goes under the comment's own id or under its non-zero parent id |
| CommentBridge.BackLinkAnswersOmittedRoot | app.ts:166-217 | for a reply to a root comment, the back link is posted under that root, which the context omits |
| CommentBridge.RootTriggerAnswersItself | app.ts:166-217 | a root trigger is answered under its own id and passes its own thread filter |
| CommentBridge.PostThread | app.ts:171-217 | posts the context's text and its block layout to the channel, asks for that message's permalink, and replies on GitHub under the reply target with the back link |
| CommentBridge.MirrorComment | app.ts:156-217 | lists the channels and fetches the review comments first; rejects with nothing more when no channel has the pull request's name; otherwise makes exactly the posting calls |
| CommentBridge.OnReviewCommentCreated | app.ts:153-219 | without the trigger nothing is called; otherwise it lists channels and fetches comments, rejects when the channel is missing, and else posts the text and blocks, asks for the permalink and replies with it on GitHub |
| SlashGate.OnAddPrComment | app.ts:221-229 | acknowledges first, forwards the comment last, and warns in between exactly when the channel name does not start with `pr` |
| SlashGate.Accepts | app.ts:223 | every name that passes the `pr-` filter passes the gate |
| SlashGate.PullChannelsAreAccepted | app.ts:223 | every `pr-<number>-<repo>` channel passes the gate |
| SlashGate.GateIsLooserThanPrefixFilter | app.ts:223 | a channel such as `project-notes` passes the gate but not the `pr-` filter |
| Identity.EmailMap | util.ts:15-17 | every key is the e-mail key of some member, and maps to that member's id |
| Identity.BuildEmailMap | util.ts:13-17 | the loop builds exactly the dictionary of the member list |
| Identity.EmailMapKeys | util.ts:15-17 | an e-mail is a key exactly when some member has it, a missing one counting as `"undefined"` |
| Identity.EmailMapLastWins | util.ts:15-17 | a key maps to the id of the last member with that e-mail |
| Identity.JoinGitUsers | util.ts:19-25 | one entry per git user, in table order; the id is the dictionary's value for the e-mail, or absent when the e-mail is not a key |
| Identity.MapGithubUserToSlackId | util.ts:8-28 | the joined table for the dictionary built from the members |
| Identity.JoinedSlackIdIsLastMember | util.ts:15-25 | a git user gets the id of the last member sharing their e-mail |
| Identity.JoinedSlackIdAbsent | util.ts:19-25 | a git user whose e-mail no member has gets no id |
| Identity.JoinReadsTableEmails | util.ts:19-25 | two dictionaries that agree on the table's e-mails give the same join |
| Identity.UnlistedMemberIsIgnored | util.ts:19-25 | a member whose e-mail is not in the table does not change the join |

## Left out

- Server, webhook and Express setup, the GitHub App and Slack App construction, and environment variables (app.ts:1-60): configuration, no logic.
- `onSubmitPullRequestReview` (app.ts:119-151): not part of the modelled core.
- github.ts and the helpers imported from it and from elsewhere (`addInitialComment`, `addReviewersToChannel`, `getChannelHistory`, `slackTextFromPullRequest`, `getReviewComments`, `postReviewComentReply`, `addComment`, the `gitUserToSlackId` table): each appears only as the call it makes, with its answer an input. Their bodies are not part of this model.
- Failures of Slack or GitHub calls other than `conversations.create` and the caught archive: every other call is taken to succeed.
- The `emoji` and `unfurl` flags of the posted blocks and messages, and all console logging.
- Case mapping beyond ASCII letters, and the ordering of UTF-16 code units beyond single characters: strings are sequences of characters.
- JavaScript object prototype keys (an e-mail such as `"constructor"`): the dictionary is a plain map.
- Concurrency between webhook deliveries: each handler is modelled as one run on a fixed snapshot of the collaborators.
- Directory.GetSlackChannels: requires that some page has a falsy cursor, because the source's loop does not stop otherwise.
- CommentBridge.OnReviewCommentCreated: the TypeError thrown when the channel is missing is modelled as the outcome `Rejected`. The log then ends at the comment fetch, and no later call is made.
- Identity.MapGithubUserToSlackId: returns the joined table that the source only logs and discards, and takes the parsed table and the member list as inputs instead of reading the environment and calling `users.list`.
- CommentBridge.LastN: requires n > 0, because `slice(-0)` returns the whole array rather than nothing; the source only calls it with 15.
- Strings.Decimal: renders every number as plain digits. JavaScript's `${n}` uses exponent notation (`1e+21`) from 10^21 on, so the channel names, and Naming.NameInjective, match the source only for numbers below 10^21, which every pull request number is.
