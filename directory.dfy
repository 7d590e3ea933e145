/**
 * The channel directory of slack.ts: the paginated channel listing, the filter
 * to channels whose name starts with "pr-", the creation of a pull request's
 * channel, and the lookup by exact name that app.ts performs on the listing.
 *
 * `conversations.list` is modelled by a sequence of pages: the k-th request is
 * answered by the k-th page. The listing stops at a page whose cursor is empty
 * or absent, so a call needs such a page to exist (`Exhausts`).
 */
module Directory {
  import opened Wrappers
  import opened Strings
  import opened Platform

  /** Some page answers without a further cursor, so the listing loop ends. */
  predicate Exhausts(pages: seq<Page>) {
    exists i :: 0 <= i < |pages| && !Truthy(pages[i].nextCursor)
  }

  /** How many pages the listing loop requests: up to the first page without a cursor. */
  function PagesRead(pages: seq<Page>): (k: nat)
    requires Exhausts(pages)
    ensures 1 <= k <= |pages|
    ensures !Truthy(pages[k - 1].nextCursor)
    ensures forall i :: 0 <= i < k - 1 ==> Truthy(pages[i].nextCursor)
  {
    if !Truthy(pages[0].nextCursor) then 1
    else
      assert Exhausts(pages[1..]) by {
        var i :| 0 <= i < |pages| && !Truthy(pages[i].nextCursor);
        assert pages[1..][i - 1] == pages[i];
      }
      1 + PagesRead(pages[1..])
  }

  /** The channels of the given pages, page after page. */
  function Flatten(pages: seq<Page>): seq<Channel> {
    if pages == [] then [] else Flatten(pages[..|pages| - 1]) + pages[|pages| - 1].channels
  }

  /** A channel is listed exactly when some page carries it. */
  lemma {:induction false} FlattenHolds(pages: seq<Page>, c: Channel)
    ensures c in Flatten(pages) <==> exists i :: 0 <= i < |pages| && c in pages[i].channels
  {
    if pages != [] {
      var init := pages[..|pages| - 1];
      FlattenHolds(init, c);
      if c in Flatten(init) {
        var i :| 0 <= i < |init| && c in init[i].channels;
        assert pages[i] == init[i];
      }
      if exists i :: 0 <= i < |pages| && c in pages[i].channels {
        var i :| 0 <= i < |pages| && c in pages[i].channels;
        if i < |init| {
          assert init[i] == pages[i];
        }
      }
    }
  }

  /** What `getSlackChannels` returns. */
  function ListedChannels(pages: seq<Page>): seq<Channel>
    requires Exhausts(pages)
  {
    Flatten(pages[..PagesRead(pages)])
  }

  /** The `conversations.list` requests `getSlackChannels` makes, in order. */
  function ListRequests(pages: seq<Page>): (r: seq<Effect>)
    requires Exhausts(pages)
    ensures |r| == PagesRead(pages) && r[0] == ListConversations(None)
    ensures forall k :: 1 <= k < |r| ==> r[k] == ListConversations(pages[k - 1].nextCursor)
    ensures forall k :: 1 <= k < |r| ==> Truthy(r[k].cursor)
    ensures forall e :: e in r ==> e.ListConversations?
  {
    seq(PagesRead(pages), k requires 0 <= k < PagesRead(pages) =>
      if k == 0 then ListConversations(None) else ListConversations(pages[k - 1].nextCursor))
  }

  lemma {:induction false} PagesReadIgnoresLaterPages(pages: seq<Page>, extra: seq<Page>)
    requires Exhausts(pages)
    ensures Exhausts(pages + extra)
    ensures PagesRead(pages + extra) == PagesRead(pages)
  {
    var all := pages + extra;
    var i :| 0 <= i < |pages| && !Truthy(pages[i].nextCursor);
    assert all[i] == pages[i];
    if Truthy(pages[0].nextCursor) {
      assert all[1..] == pages[1..] + extra;
      PagesReadIgnoresLaterPages(pages[1..], extra);
    }
  }

  /** Pages after the first one without a cursor are never requested. */
  lemma ListingIgnoresLaterPages(pages: seq<Page>, extra: seq<Page>)
    requires Exhausts(pages)
    ensures Exhausts(pages + extra)
    ensures ListedChannels(pages + extra) == ListedChannels(pages)
    ensures ListRequests(pages + extra) == ListRequests(pages)
  {
    PagesReadIgnoresLaterPages(pages, extra);
    var k := PagesRead(pages);
    assert (pages + extra)[..k] == pages[..k];
  }

  /**
   * `getSlackChannels` (slack.ts:4-23): request a first page, then keep requesting
   * with the previous page's cursor while that cursor is truthy, appending each
   * page's channels. `requests` logs the calls made.
   */
  method GetSlackChannels(pages: seq<Page>) returns (all: seq<Channel>, requests: seq<Effect>)
    requires Exhausts(pages)
    ensures all == ListedChannels(pages)
    ensures requests == ListRequests(pages)
  {
    var n := PagesRead(pages);
    var first := pages[0];
    requests := [ListConversations(None)];
    all := first.channels;
    assert pages[..1] == [first];
    var nextCursor := first.nextCursor;
    var i := 1;
    while Truthy(nextCursor)
      invariant 1 <= i <= n
      invariant nextCursor == pages[i - 1].nextCursor
      invariant all == Flatten(pages[..i])
      invariant requests == ListRequests(pages)[..i]
      decreases n - i
    {
      var more := pages[i];
      requests := requests + [ListConversations(nextCursor)];
      all := all + more.channels;
      assert pages[..i + 1][..i] == pages[..i];
      nextCursor := more.nextCursor;
      i := i + 1;
    }
    assert requests == ListRequests(pages)[..n];
  }

  /** The test of slack.ts:27: the first three characters of the name are "pr-". */
  predicate IsPrChannelName(name: string)
    ensures IsPrChannelName(name) <==> StartsWith(name, "pr-")
  {
    SlicePrefixIsPrefixTest(name, "pr-");
    SlicePrefix(name, 3) == "pr-"
  }

  /** `getPrChannels` (slack.ts:25-29). */
  function GetPrChannels(channels: seq<Channel>): (r: seq<Channel>)
    ensures |r| <= |channels|
    ensures forall c :: c in r <==> c in channels && StartsWith(c.name, "pr-")
  {
    if channels == [] then []
    else
      SlicePrefixIsPrefixTest(channels[0].name, "pr-");
      (if IsPrChannelName(channels[0].name) then [channels[0]] else []) + GetPrChannels(channels[1..])
  }

  /** The filter works page by page: it keeps the original order. */
  lemma {:induction false} GetPrChannelsSplits(a: seq<Channel>, b: seq<Channel>)
    ensures GetPrChannels(a + b) == GetPrChannels(a) + GetPrChannels(b)
  {
    if a == [] {
      assert a + b == b;
    } else {
      assert (a + b)[1..] == a[1..] + b;
      GetPrChannelsSplits(a[1..], b);
    }
  }

  /** Filtering twice is filtering once. */
  lemma {:induction false} GetPrChannelsIdempotent(channels: seq<Channel>)
    ensures GetPrChannels(GetPrChannels(channels)) == GetPrChannels(channels)
  {
    if channels != [] {
      var head := if IsPrChannelName(channels[0].name) then [channels[0]] else [];
      GetPrChannelsSplits(head, GetPrChannels(channels[1..]));
      GetPrChannelsIdempotent(channels[1..]);
      if head != [] {
        assert head[1..] == [];
      }
    }
  }

  /** The name `createPullChannel` asks for: "pr-" and the number, nothing else. */
  function RequestedName(number: nat): (name: string)
    ensures StartsWith(name, "pr-")
    ensures AllDigits(name[3..]) && DigitsValue(name[3..]) == number
  {
    DecimalRoundTrip(number);
    var name := "pr-" + Decimal(number);
    assert name[3..] == Decimal(number);
    name
  }

  /**
   * `createPullChannel` (slack.ts:31-47). `assignedId` is the id the platform gives
   * the new channel, or None when `conversations.create` rejects the request (for
   * a name already taken), which rejects the call before anything is posted.
   */
  method CreatePullChannel(pull: PullRequest, assignedId: Option<string>)
    returns (channel: Option<Channel>, requests: seq<Effect>)
    ensures 1 <= |requests| <= 2 && requests[0] == CreateConversation(RequestedName(pull.number))
    ensures channel.Some? <==> assignedId.Some?
    ensures channel.Some? ==> channel.value == Channel(assignedId.value, RequestedName(pull.number), false)
    ensures |requests| == 2 <==> channel.Some? && Truthy(pull.body)
    ensures |requests| == 2 ==> requests[1] == PostMessage(channel.value.id, pull.body.value)
  {
    requests := [CreateConversation(RequestedName(pull.number))];
    if assignedId.None? {
      channel := None;
      return;
    }
    var created := Channel(assignedId.value, RequestedName(pull.number), false);
    if Truthy(pull.body) {
      requests := requests + [PostMessage(created.id, pull.body.value)];
    }
    channel := Some(created);
  }

  /** Index of the first channel named `name`, or the length when there is none. */
  function FirstNamed(channels: seq<Channel>, name: string): (k: nat)
    ensures k <= |channels|
    ensures k < |channels| ==> channels[k].name == name
    ensures forall j :: 0 <= j < k ==> channels[j].name != name
  {
    if channels == [] || channels[0].name == name then 0 else 1 + FirstNamed(channels[1..], name)
  }

  /** `channels.find(channel => channel.name === name)` (app.ts:69-71, app.ts:160-162). */
  function FindByName(channels: seq<Channel>, name: string): (r: Option<Channel>)
    ensures r.None? <==> forall c :: c in channels ==> c.name != name
    ensures r.Some? ==> r.value.name == name
    ensures r.Some? ==> exists i :: 0 <= i < |channels| && channels[i] == r.value && forall j :: 0 <= j < i ==> channels[j].name != name
  {
    var k := FirstNamed(channels, name);
    if k < |channels| then Some(channels[k]) else None
  }

  /** Appending a channel of another name leaves the lookup unchanged. */
  lemma FindByNameIgnoresAppended(channels: seq<Channel>, c: Channel, name: string)
    requires c.name != name
    ensures FindByName(channels + [c], name) == FindByName(channels, name)
  {
    var cc := channels + [c];
    var k := FirstNamed(channels, name);
    var k' := FirstNamed(cc, name);
    assert forall j :: 0 <= j < |channels| ==> cc[j] == channels[j];
    if k < |channels| {
      assert k' == k;
    } else {
      assert cc[|channels|] == c;
      assert k' == |cc|;
    }
  }
}
