/**
 * The review-comment bridge of app.ts:153-219: a review comment containing the
 * trigger phrase makes the bot gather the comment's thread from GitHub, post it
 * into the pull request's channel, and reply on GitHub with a link to the post.
 */
module CommentBridge {
  import opened Wrappers
  import opened Strings
  import opened Platform
  import opened Directory
  import opened Naming

  const TRIGGER_PHRASE := "take this to slack"
  const WINDOW := 15
  const MOVING_BANNER := ":sonic: We are moving to Slack!"
  const HEADLINE := ":sonic: We are moving to Slack! Here is the context from Github (most recent 15 comments)"
  const BACK_LINK_INTRO := "We made a thread for you! Check it out here: "

  /**
   * What the calls of one bridge run answer: the listing pages, `getReviewComments`,
   * the `ts` of the posted message, its permalink, and the text the template
   * renders for `gitUserToSlackId[login]`.
   */
  datatype Collaborators = Collaborators(
    pages: seq<Page>,
    reviewComments: seq<ReviewComment>,
    postedTs: string,
    permalink: string,
    mention: string -> string)

  /** app.ts:155: the lower-cased body contains the trigger phrase. */
  predicate Triggers(body: string)
    ensures Triggers(body) ==> |TRIGGER_PHRASE| <= |body|
  {
    Contains(ToLower(body), TRIGGER_PHRASE)
  }

  /** The trigger ignores letter case. */
  lemma TriggerIgnoresCase(body: string)
    ensures Triggers(ToUpper(body)) == Triggers(body)
  {
    LowerIgnoresUpper(body);
  }

  /** The phrase fires wherever it stands in the body. */
  lemma TriggerAnywhere(before: string, body: string, after: string)
    requires Triggers(body)
    ensures Triggers(before + body + after)
  {
    LowerConcat(before, body);
    LowerConcat(before + body, after);
    ContainsWithin(ToLower(before), ToLower(body), ToLower(after), TRIGGER_PHRASE);
  }

  /** The phrase by itself fires the bridge. */
  lemma PhraseAloneTriggers()
    ensures Triggers(TRIGGER_PHRASE)
  {
    LowerContainsItself(TRIGGER_PHRASE);
  }

  /** The phrase fires the bridge, as written or in capitals, wherever it stands. */
  lemma PhraseTriggers(before: string, after: string)
    ensures Triggers(before + TRIGGER_PHRASE + after)
    ensures Triggers(before + ToUpper(TRIGGER_PHRASE) + after)
  {
    PhraseAloneTriggers();
    TriggerAnywhere(before, TRIGGER_PHRASE, after);
    TriggerIgnoresCase(TRIGGER_PHRASE);
    TriggerAnywhere(before, ToUpper(TRIGGER_PHRASE), after);
  }

  /** The filter of app.ts:166: same `in_reply_to_id` as the trigger, or the trigger itself. */
  predicate InThread(c: ReviewComment, trigger: ReviewComment) {
    c.inReplyToId == trigger.inReplyToId || c.id == trigger.id
  }

  function Relevant(all: seq<ReviewComment>, trigger: ReviewComment): (r: seq<ReviewComment>)
    ensures |r| <= |all|
    ensures forall c :: c in r <==> c in all && InThread(c, trigger)
  {
    if all == [] then []
    else (if InThread(all[0], trigger) then [all[0]] else []) + Relevant(all[1..], trigger)
  }

  /** The filter keeps the fetched order: it distributes over concatenation. */
  lemma {:induction false} RelevantSplits(a: seq<ReviewComment>, b: seq<ReviewComment>, trigger: ReviewComment)
    ensures Relevant(a + b, trigger) == Relevant(a, trigger) + Relevant(b, trigger)
  {
    if a == [] {
      assert a + b == b;
    } else {
      assert (a + b)[1..] == a[1..] + b;
      RelevantSplits(a[1..], b, trigger);
    }
  }

  /** A reply's thread filter leaves out the thread's root, which has no `in_reply_to_id`. */
  lemma ReplyThreadOmitsRoot(all: seq<ReviewComment>, trigger: ReviewComment, root: ReviewComment)
    requires trigger.inReplyToId == Some(root.id) && root.inReplyToId.None? && root.id != trigger.id
    ensures root !in Relevant(all, trigger)
  {
  }

  /** A thread-starting trigger's filter keeps every thread-starting comment of the pull request. */
  lemma RootThreadTakesAllRoots(all: seq<ReviewComment>, trigger: ReviewComment, c: ReviewComment)
    requires trigger.inReplyToId.None? && c in all && c.inReplyToId.None?
    ensures c in Relevant(all, trigger)
  {
  }

  /** Non-decreasing by `created_at` in JavaScript's string order. */
  predicate Sorted(s: seq<ReviewComment>) {
    forall i :: 0 < i < |s| ==> !LexLess(s[i].createdAt, s[i - 1].createdAt)
  }

  /** Place x before the first comment not older than it. */
  function Insert(x: ReviewComment, t: seq<ReviewComment>): (r: seq<ReviewComment>)
    requires Sorted(t)
    ensures |r| == |t| + 1
    ensures r[0] == x || (t != [] && r[0] == t[0])
    ensures Sorted(r)
  {
    if t == [] then [x]
    else if !LexLess(t[0].createdAt, x.createdAt) then [x] + t
    else
      LexLessAsymmetric(t[0].createdAt, x.createdAt);
      SortedTail(t);
      [t[0]] + Insert(x, t[1..])
  }

  /** Insertion adds exactly x. */
  lemma {:induction false} InsertPermutes(x: ReviewComment, t: seq<ReviewComment>)
    requires Sorted(t)
    ensures multiset(Insert(x, t)) == multiset(t) + multiset{x}
  {
    if t != [] && LexLess(t[0].createdAt, x.createdAt) {
      SortedTail(t);
      InsertPermutes(x, t[1..]);
      assert t == [t[0]] + t[1..];
    }
  }

  /** lodash `sortBy(comments, c => c.created_at)`: ascending and stable. */
  function SortByCreated(s: seq<ReviewComment>): (r: seq<ReviewComment>)
    ensures |r| == |s| && multiset(r) == multiset(s)
    ensures Sorted(r)
  {
    if s == [] then []
    else
      assert s == [s[0]] + s[1..];
      InsertPermutes(s[0], SortByCreated(s[1..]));
      Insert(s[0], SortByCreated(s[1..]))
  }

  lemma SortedTail(t: seq<ReviewComment>)
    requires Sorted(t) && t != []
    ensures Sorted(t[1..])
  {
    assert forall i :: 0 < i < |t| - 1 ==> t[1..][i] == t[i + 1] && t[1..][i - 1] == t[i];
  }

  /** Comments created at `at`, in their order. */
  function CreatedAt(s: seq<ReviewComment>, at: string): seq<ReviewComment> {
    if s == [] then [] else (if s[0].createdAt == at then [s[0]] else []) + CreatedAt(s[1..], at)
  }

  lemma CreatedAtCons(h: ReviewComment, rest: seq<ReviewComment>, at: string)
    ensures CreatedAt([h] + rest, at) == (if h.createdAt == at then [h] else []) + CreatedAt(rest, at)
  {
    assert ([h] + rest)[1..] == rest;
  }

  lemma {:induction false} InsertKeepsTies(x: ReviewComment, t: seq<ReviewComment>, at: string)
    requires Sorted(t)
    ensures CreatedAt(Insert(x, t), at) == (if x.createdAt == at then [x] else []) + CreatedAt(t, at)
  {
    if t == [] {
      CreatedAtCons(x, [], at);
    } else if !LexLess(t[0].createdAt, x.createdAt) {
      CreatedAtCons(x, t, at);
    } else {
      SortedTail(t);
      var rest := Insert(x, t[1..]);
      assert Insert(x, t) == [t[0]] + rest;
      assert t == [t[0]] + t[1..];
      CreatedAtCons(t[0], rest, at);
      CreatedAtCons(t[0], t[1..], at);
      InsertKeepsTies(x, t[1..], at);
      LexLessIrreflexive(x.createdAt);
    }
  }

  /** Stability: comments with equal `created_at` keep their relative order. */
  lemma {:induction false} SortKeepsTies(s: seq<ReviewComment>, at: string)
    ensures CreatedAt(SortByCreated(s), at) == CreatedAt(s, at)
  {
    if s != [] {
      SortKeepsTies(s[1..], at);
      InsertKeepsTies(s[0], SortByCreated(s[1..]), at);
    }
  }

  /** A sorted sequence is ordered between any two positions, not just neighbours. */
  lemma {:induction false} SortedPairwise(s: seq<ReviewComment>, i: nat, j: nat)
    requires Sorted(s) && i <= j < |s|
    ensures !LexLess(s[j].createdAt, s[i].createdAt)
    decreases j - i
  {
    if i == j {
      LexLessIrreflexive(s[i].createdAt);
    } else {
      SortedPairwise(s, i, j - 1);
      LexNotLessTransitive(s[j].createdAt, s[j - 1].createdAt, s[i].createdAt);
    }
  }

  /** `s.slice(-n)` for n > 0: the last n elements, or all of s when it is shorter. */
  function LastN<T>(s: seq<T>, n: nat): (r: seq<T>)
    requires n > 0
    ensures |r| == if |s| < n then |s| else n
    ensures r == s[|s| - |r|..]
  {
    if |s| <= n then s else s[|s| - n..]
  }

  /** The kept suffix takes nothing the list does not hold. */
  lemma LastNWithin<T>(s: seq<T>, n: nat)
    requires n > 0
    ensures multiset(LastN(s, n)) <= multiset(s)
    ensures forall x :: x in LastN(s, n) ==> x in s
  {
    var r := LastN(s, n);
    assert s == s[..|s| - |r|] + r;
  }

  /** app.ts:165-167: the thread of the trigger, oldest first, at most the newest 15. */
  function ContextComments(all: seq<ReviewComment>, trigger: ReviewComment): (r: seq<ReviewComment>)
    ensures |r| == if |Relevant(all, trigger)| < WINDOW then |Relevant(all, trigger)| else WINDOW
    ensures Sorted(r)
    ensures forall c :: c in r ==> c in all && InThread(c, trigger)
    ensures multiset(r) <= multiset(Relevant(all, trigger))
  {
    var sorted := SortByCreated(Relevant(all, trigger));
    var r := LastN(sorted, WINDOW);
    assert multiset(r) <= multiset(Relevant(all, trigger)) by {
      LastNWithin(sorted, WINDOW);
    }
    assert forall c :: c in r ==> c in all && InThread(c, trigger) by {
      forall c | c in r
        ensures c in all && InThread(c, trigger)
      {
        assert c in multiset(r);
        assert c in Relevant(all, trigger);
      }
    }
    r
  }

  /** The window drops the oldest comments: every kept one is at least as new as every dropped one. */
  lemma WindowKeepsNewest(all: seq<ReviewComment>, trigger: ReviewComment, i: nat, j: nat)
    requires var sorted := SortByCreated(Relevant(all, trigger));
      i < |sorted| - |ContextComments(all, trigger)| && j < |ContextComments(all, trigger)|
    ensures !LexLess(ContextComments(all, trigger)[j].createdAt, SortByCreated(Relevant(all, trigger))[i].createdAt)
  {
    var sorted := SortByCreated(Relevant(all, trigger));
    var k := |ContextComments(all, trigger)|;
    assert ContextComments(all, trigger)[j] == sorted[|sorted| - k + j];
    SortedPairwise(sorted, i, |sorted| - k + j);
  }

  /** app.ts:171: "Written By: <login>", a line break, the body. */
  function CommentLine(c: ReviewComment): string {
    "Written By: " + c.login + "\n" + c.body
  }

  function CommentLines(ctx: seq<ReviewComment>): (r: seq<string>)
    ensures |r| == |ctx| && forall i :: 0 <= i < |ctx| ==> r[i] == CommentLine(ctx[i])
  {
    if ctx == [] then [] else [CommentLine(ctx[0])] + CommentLines(ctx[1..])
  }

  /** app.ts:171-172: the plain text of the posted message. */
  function ContextText(ctx: seq<ReviewComment>): (text: string)
    ensures StartsWith(text, MOVING_BANNER + "\n\n")
  {
    var text := MOVING_BANNER + "\n\n" + Join(CommentLines(ctx), "\n\n");
    assert text[..|MOVING_BANNER + "\n\n"|] == MOVING_BANNER + "\n\n";
    text
  }

  /** No kept comment is dropped from the text: each one's line appears in it. */
  lemma ContextTextShowsEveryComment(ctx: seq<ReviewComment>, i: nat)
    requires i < |ctx|
    ensures Contains(ContextText(ctx), CommentLine(ctx[i]))
  {
    JoinContainsPart(CommentLines(ctx), "\n\n", i);
    ContainsWithin(MOVING_BANNER + "\n\n", Join(CommentLines(ctx), "\n\n"), "", CommentLine(ctx[i]));
    assert MOVING_BANNER + "\n\n" + Join(CommentLines(ctx), "\n\n") + "" == ContextText(ctx);
  }

  /** app.ts:189: the attribution line under a comment's body. */
  function Attribution(c: ReviewComment, mention: string -> string): string {
    "Written by *" + c.login + "* " + mention(c.login)
  }

  /** app.ts:175-196: a section with the body, the attribution, a divider. */
  function CommentBlocks(c: ReviewComment, mention: string -> string): seq<Block> {
    [Section(PlainText, c.body), ContextLine(Attribution(c, mention)), Divider]
  }

  /** `flatten(contextComments.map(...))` (app.ts:174-197). */
  function FlatMapBlocks(ctx: seq<ReviewComment>, mention: string -> string): (r: seq<Block>)
    ensures |r| == 3 * |ctx|
  {
    if ctx == [] then [] else CommentBlocks(ctx[0], mention) + FlatMapBlocks(ctx[1..], mention)
  }

  /** The i-th comment's three blocks sit at positions 3i, 3i+1 and 3i+2. */
  lemma {:induction false} FlatMapBlocksAt(ctx: seq<ReviewComment>, mention: string -> string, i: nat)
    requires i < |ctx|
    ensures var r := FlatMapBlocks(ctx, mention);
      && r[3 * i] == Section(PlainText, ctx[i].body)
      && r[3 * i + 1] == ContextLine(Attribution(ctx[i], mention))
      && r[3 * i + 2] == Divider
  {
    if i > 0 {
      FlatMapBlocksAt(ctx[1..], mention, i - 1);
      assert ctx[1..][i - 1] == ctx[i];
    }
  }

  /**
   * The layout of the posted blocks: the headline, then per comment its body and
   * its attribution, with a divider between consecutive comments and none after the last.
   */
  predicate IsContextLayout(ctx: seq<ReviewComment>, mention: string -> string, blocks: seq<Block>) {
    && |blocks| == (if ctx == [] then 1 else 3 * |ctx|)
    && blocks[0] == Section(Markdown, HEADLINE)
    && (forall i :: 0 <= i < |ctx| ==>
          blocks[3 * i + 1] == Section(PlainText, ctx[i].body) && blocks[3 * i + 2] == ContextLine(Attribution(ctx[i], mention)))
    && (forall i :: 0 <= i < |ctx| - 1 ==> blocks[3 * i + 3] == Divider)
  }

  /** The layout ends on the headline or on an attribution, never on a divider. */
  lemma LayoutHasNoTrailingDivider(ctx: seq<ReviewComment>, mention: string -> string, blocks: seq<Block>)
    requires IsContextLayout(ctx, mention, blocks)
    ensures blocks[|blocks| - 1] != Divider
    ensures ctx != [] ==> blocks[|blocks| - 1] == ContextLine(Attribution(ctx[|ctx| - 1], mention))
  {
    if ctx != [] {
      assert blocks[3 * (|ctx| - 1) + 2] == ContextLine(Attribution(ctx[|ctx| - 1], mention));
    }
  }

  /** The layout fixes every block. */
  lemma LayoutIsUnique(ctx: seq<ReviewComment>, mention: string -> string, a: seq<Block>, b: seq<Block>)
    requires IsContextLayout(ctx, mention, a) && IsContextLayout(ctx, mention, b)
    ensures a == b
  {
    forall p | 0 <= p < |a|
      ensures a[p] == b[p]
    {
      if p > 0 {
        var i := (p - 1) / 3;
        assert ctx != [] && i < |ctx|;
        var c := ctx[i];
        if p == 3 * i + 1 {
          assert a[p] == Section(PlainText, c.body) == b[p];
        } else if p == 3 * i + 2 {
          assert a[p] == ContextLine(Attribution(c, mention)) == b[p];
        } else {
          assert p == 3 * i + 3 && i < |ctx| - 1;
          assert a[p] == Divider == b[p];
        }
      }
    }
  }

  /**
   * app.ts:174-207: the per-comment blocks, the trailing divider taken off with
   * `pop()`, and the headline in front.
   */
  method ComposeBlocks(ctx: seq<ReviewComment>, mention: string -> string) returns (blocks: seq<Block>)
    ensures IsContextLayout(ctx, mention, blocks)
  {
    var contextBlocks := FlatMapBlocks(ctx, mention);
    ghost var flat := contextBlocks;
    if |contextBlocks| > 0 {
      contextBlocks := contextBlocks[..|contextBlocks| - 1];
    }
    blocks := [Section(Markdown, HEADLINE)] + contextBlocks;
    forall i | 0 <= i < |ctx|
      ensures blocks[3 * i + 1] == Section(PlainText, ctx[i].body)
      ensures blocks[3 * i + 2] == ContextLine(Attribution(ctx[i], mention))
      ensures i < |ctx| - 1 ==> blocks[3 * i + 3] == Divider
    {
      FlatMapBlocksAt(ctx, mention, i);
      assert blocks[3 * i + 1] == flat[3 * i] && blocks[3 * i + 2] == flat[3 * i + 1];
      if i < |ctx| - 1 {
        assert blocks[3 * i + 3] == flat[3 * i + 2];
      }
    }
  }

  /** app.ts:217: `comment.in_reply_to_id || comment.id`, where 0 counts as absent. */
  function ReplyTarget(c: ReviewComment): (r: nat)
    ensures r == c.id || (c.inReplyToId == Some(r) && r != 0)
  {
    if c.inReplyToId.Some? && c.inReplyToId.value != 0 then c.inReplyToId.value else c.id
  }

  /**
   * A reply to a thread's root is answered under that root, which its own mirrored
   * context leaves out.
   */
  lemma BackLinkAnswersOmittedRoot(all: seq<ReviewComment>, trigger: ReviewComment, root: ReviewComment)
    requires trigger.inReplyToId == Some(root.id) && root.id != 0
    requires root.inReplyToId.None? && root.id != trigger.id
    ensures ReplyTarget(trigger) == root.id
    ensures root !in ContextComments(all, trigger)
  {
  }

  /** A thread-starting trigger is answered under itself, and passes its own thread filter. */
  lemma RootTriggerAnswersItself(all: seq<ReviewComment>, trigger: ReviewComment)
    requires trigger in all && trigger.inReplyToId.None?
    ensures ReplyTarget(trigger) == trigger.id
    ensures trigger in Relevant(all, trigger)
  {
  }

  function BackLinkText(permalink: string): string {
    BACK_LINK_INTRO + permalink
  }

  /**
   * The calls app.ts:165-217 makes once the channel is known: the context posted
   * as text and blocks, a permalink request for the posted message, and the reply
   * on GitHub that links to it.
   */
  predicate Mirrored(calls: seq<Effect>, channel: Channel, context: seq<ReviewComment>, comment: ReviewComment, pull: PullRequest, env: Collaborators) {
    && |calls| == 3
    && calls[0].PostContext?
    && calls[0].channelId == channel.id
    && calls[0].text == ContextText(context)
    && IsContextLayout(context, env.mention, calls[0].blocks)
    && calls[1] == FetchPermalink(channel.id, env.postedTs)
    && calls[2] == ReplyToReviewComment(pull.number, ReplyTarget(comment), BackLinkText(env.permalink))
  }

  method PostThread(channel: Channel, contextComments: seq<ReviewComment>, comment: ReviewComment, pull: PullRequest, env: Collaborators)
    returns (calls: seq<Effect>)
    ensures Mirrored(calls, channel, contextComments, comment, pull, env)
  {
    var firstMessageText := ContextText(contextComments);
    var blocks := ComposeBlocks(contextComments, env.mention);
    var post := PostContext(channel.id, firstMessageText, blocks);
    calls := [post, FetchPermalink(channel.id, env.postedTs), ReplyToReviewComment(pull.number, ReplyTarget(comment), BackLinkText(env.permalink))];
    assert calls[0] == post && post.blocks == blocks;
  }

  /**
   * app.ts:156-217, the triggered path: list the channels, fetch the review
   * comments, then dereference the looked-up channel, which throws when the
   * lookup missed.
   */
  method MirrorComment(comment: ReviewComment, pull: PullRequest, env: Collaborators)
    returns (effects: seq<Effect>, outcome: Outcome)
    requires Exhausts(env.pages)
    ensures |ListRequests(env.pages)| < |effects|
    ensures effects[..|ListRequests(env.pages)| + 1] == ListRequests(env.pages) + [FetchReviewComments(pull.number)]
    ensures Lookup(ListedChannels(env.pages), pull).None? ==> |effects| == |ListRequests(env.pages)| + 1 && outcome == Rejected
    ensures Lookup(ListedChannels(env.pages), pull).Some? ==>
      && outcome == Resolved
      && Mirrored(effects[|ListRequests(env.pages)| + 1..], Lookup(ListedChannels(env.pages), pull).value, ContextComments(env.reviewComments, comment), comment, pull, env)
  {
    var channels, requests := GetSlackChannels(env.pages);
    var pullChannel := Lookup(channels, pull);
    effects := requests + [FetchReviewComments(pull.number)];
    outcome := Resolved;
    if pullChannel.None? {
      // `pullChannel.id` throws a TypeError
      outcome := Rejected;
      return;
    }
    var posting := PostThread(pullChannel.value, ContextComments(env.reviewComments, comment), comment, pull, env);
    assert (effects + posting)[..|requests| + 1] == effects;
    assert (effects + posting)[|requests| + 1..] == posting;
    effects := effects + posting;
  }

  /**
   * One run of the handler of app.ts:153-219 for a created review comment: nothing
   * happens unless the body holds the trigger phrase.
   */
  method OnReviewCommentCreated(comment: ReviewComment, pull: PullRequest, env: Collaborators)
    returns (effects: seq<Effect>, outcome: Outcome)
    requires Exhausts(env.pages)
    ensures !Triggers(comment.body) ==> effects == [] && outcome == Resolved
    ensures Triggers(comment.body) ==>
      && |ListRequests(env.pages)| < |effects|
      && effects[..|ListRequests(env.pages)| + 1] == ListRequests(env.pages) + [FetchReviewComments(pull.number)]
    ensures Triggers(comment.body) && Lookup(ListedChannels(env.pages), pull).None? ==>
      |effects| == |ListRequests(env.pages)| + 1 && outcome == Rejected
    ensures Triggers(comment.body) && Lookup(ListedChannels(env.pages), pull).Some? ==>
      && outcome == Resolved
      && Mirrored(effects[|ListRequests(env.pages)| + 1..], Lookup(ListedChannels(env.pages), pull).value, ContextComments(env.reviewComments, comment), comment, pull, env)
  {
    effects := [];
    outcome := Resolved;
    if Triggers(comment.body) {
      effects, outcome := MirrorComment(comment, pull, env);
    }
  }
}
