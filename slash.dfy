/** The `/add-pr-comment` slash command of app.ts:221-229. */
module SlashGate {
  import opened Strings
  import opened Platform
  import opened Directory
  import opened Naming

  const REJECTION := "This slash command can only be used in Pull Request Channels"

  /** app.ts:223: the only test is that the channel name starts with "pr". */
  predicate Accepts(channelName: string)
    ensures IsPrChannelName(channelName) ==> Accepts(channelName)
  {
    assert StartsWith(channelName, "pr-") ==> channelName[..2] == "pr";
    StartsWith(channelName, "pr")
  }

  /**
   * One invocation: acknowledge, send the ephemeral notice when the channel does
   * not pass the test, and hand the command to `addComment` in both cases, since
   * the handler does not return after the notice.
   */
  method OnAddPrComment(command: SlashCommand) returns (effects: seq<Effect>)
    ensures |effects| >= 2 && effects[0] == Acknowledge && effects[|effects| - 1] == AddComment(command)
    ensures RespondEphemeral(REJECTION) in effects <==> !Accepts(command.channelName)
    ensures |effects| == if Accepts(command.channelName) then 2 else 3
    ensures forall e :: e in effects && e.AddComment? ==> e == AddComment(command)
  {
    effects := [Acknowledge];
    if !Accepts(command.channelName) {
      effects := effects + [RespondEphemeral(REJECTION)];
    }
    effects := effects + [AddComment(command)];
  }

  /** Channels named after a pull request pass the test. */
  lemma PullChannelsAreAccepted(number: nat, repo: string)
    ensures Accepts(ChannelNameFromPull(number, repo))
    ensures Accepts(RequestedName(number))
  {
    assert ChannelNameFromPull(number, repo)[..2] == "pr";
    assert RequestedName(number)[..2] == "pr";
  }

  /** The test is looser than the "pr-" filter: "project-notes" passes it. */
  lemma GateIsLooserThanPrefixFilter()
    ensures Accepts("project-notes") && !IsPrChannelName("project-notes")
  {
    assert "project-notes"[..2] == "pr";
    assert SlicePrefix("project-notes", 3) == "pro";
  }
}
