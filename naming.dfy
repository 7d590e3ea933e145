/** The channel naming of app.ts:62. */
module Naming {
  import opened Wrappers
  import opened Strings
  import opened Platform
  import opened Directory

  /** `channelNameFromPull`: "pr-", the pull request's number, "-", the repository's name. */
  function ChannelNameFromPull(number: nat, repo: string): (name: string)
    ensures IsPrChannelName(name)
    ensures |repo| < |name| && name[|name| - |repo|..] == repo
  {
    var name := "pr-" + Decimal(number) + "-" + repo;
    assert name[..3] == "pr-";
    name
  }

  /**
   * The lookup of app.ts:69-71 and app.ts:160-162: the first listed channel
   * named after the pull request, which is always a `pr-` channel.
   */
  function Lookup(channels: seq<Channel>, pull: PullRequest): (r: Option<Channel>)
    ensures r.Some? ==> r.value in channels && IsPrChannelName(r.value.name)
  {
    FindByName(channels, ChannelNameFromPull(pull.number, pull.repo))
  }

  /**
   * Distinct (number, repository) pairs give distinct names: the digits of the
   * number stop at the first dash, so the name splits back unambiguously.
   */
  lemma NameInjective(n1: nat, r1: string, n2: nat, r2: string)
    ensures ChannelNameFromPull(n1, r1) == ChannelNameFromPull(n2, r2) <==> n1 == n2 && r1 == r2
  {
    var s1, s2 := ChannelNameFromPull(n1, r1), ChannelNameFromPull(n2, r2);
    if s1 == s2 {
      assert s1[3..] == Decimal(n1) + "-" + r1;
      assert s2[3..] == Decimal(n2) + "-" + r2;
      SplitAfterDigits(Decimal(n1), r1, Decimal(n2), r2);
      DecimalInjective(n1, n2);
    }
  }

  /**
   * No name `createPullChannel` requests is a name app.ts looks up: the requested
   * name is digits after "pr-", the derived one has a dash after its digits.
   */
  lemma RequestedNameIsNeverDerived(m: nat, n: nat, repo: string)
    ensures RequestedName(m) != ChannelNameFromPull(n, repo)
  {
    var requested, derived := Decimal(m), Decimal(n) + ("-" + repo);
    assert RequestedName(m)[3..] == requested;
    assert ChannelNameFromPull(n, repo)[3..] == derived;
    assert requested + [] == requested;
    DigitRunStopsAfterDigits(Decimal(m), []);
    DigitRunStopsAfterDigits(Decimal(n), "-" + repo);
  }
}
