/**
 * `mapGithubUserToSlackId` of util.ts:8-28: index the workspace's members by
 * e-mail, then give every git user of the configured git-user-to-e-mail table
 * the Slack id of the member with that e-mail.
 */
module Identity {
  import opened Wrappers

  /** A workspace member of `users.list`; `email` is `profile.email`. */
  datatype Member = Member(id: string, email: Option<string>)

  /** One key of the git-user-to-e-mail table, in `Object.keys` order. */
  datatype GitUserEmail = GitUserEmail(gitUser: string, email: string)

  /** One element of the joined list: `{ gitUser, slackId }`. */
  datatype GitUserSlackId = GitUserSlackId(gitUser: string, slackId: Option<string>)

  /** The property key an e-mail becomes: a missing one becomes the key "undefined". */
  function EmailKey(email: Option<string>): string {
    if email.Some? then email.value else "undefined"
  }

  /** The dictionary after writing every member's id under its e-mail, in list order. */
  function EmailMap(members: seq<Member>): (r: map<string, string>)
    ensures forall k :: k in r ==> exists i :: 0 <= i < |members| && EmailKey(members[i].email) == k && members[i].id == r[k]
  {
    if members == [] then map[]
    else
      var init := members[..|members| - 1];
      var last := members[|members| - 1];
      assert forall i :: 0 <= i < |init| ==> init[i] == members[i];
      EmailMap(init)[EmailKey(last.email) := last.id]
  }

  /** The `forEach` of util.ts:15-17. */
  method BuildEmailMap(members: seq<Member>) returns (emailToSlackId: map<string, string>)
    ensures emailToSlackId == EmailMap(members)
  {
    emailToSlackId := map[];
    var i := 0;
    while i < |members|
      invariant 0 <= i <= |members|
      invariant emailToSlackId == EmailMap(members[..i])
    {
      assert members[..i + 1][..i] == members[..i];
      emailToSlackId := emailToSlackId[EmailKey(members[i].email) := members[i].id];
      i := i + 1;
    }
    assert members[..i] == members;
  }

  /** Every e-mail of a member is a key, and every key is a member's e-mail. */
  lemma {:induction false} EmailMapKeys(members: seq<Member>, key: string)
    ensures key in EmailMap(members) <==> exists i :: 0 <= i < |members| && EmailKey(members[i].email) == key
  {
    if members != [] {
      var init := members[..|members| - 1];
      EmailMapKeys(init, key);
      if exists i :: 0 <= i < |init| && EmailKey(init[i].email) == key {
        var i :| 0 <= i < |init| && EmailKey(init[i].email) == key;
        assert members[i] == init[i];
      }
      if exists i :: 0 <= i < |members| && EmailKey(members[i].email) == key {
        var i :| 0 <= i < |members| && EmailKey(members[i].email) == key;
        if i < |init| {
          assert init[i] == members[i];
        }
      }
    }
  }

  /** Each e-mail maps to the id of the last member listed with it. */
  lemma {:induction false} EmailMapLastWins(members: seq<Member>, i: nat)
    requires i < |members|
    requires forall j :: i < j < |members| ==> EmailKey(members[j].email) != EmailKey(members[i].email)
    ensures EmailKey(members[i].email) in EmailMap(members)
    ensures EmailMap(members)[EmailKey(members[i].email)] == members[i].id
  {
    var init := members[..|members| - 1];
    if i < |members| - 1 {
      assert init[i] == members[i];
      EmailMapLastWins(init, i);
    }
  }

  /** `Object.keys(gitUserToSlackEmail).map(...)` (util.ts:19-25). */
  function JoinGitUsers(table: seq<GitUserEmail>, emailToSlackId: map<string, string>): (r: seq<GitUserSlackId>)
    ensures |r| == |table|
    ensures forall i :: 0 <= i < |table| ==> r[i].gitUser == table[i].gitUser
    ensures forall i :: 0 <= i < |table| ==>
      (r[i].slackId.Some? <==> table[i].email in emailToSlackId) &&
      (r[i].slackId.Some? ==> r[i].slackId.value == emailToSlackId[table[i].email])
  {
    if table == [] then []
    else
      var email := table[0].email;
      var slackId := if email in emailToSlackId then Some(emailToSlackId[email]) else None;
      [GitUserSlackId(table[0].gitUser, slackId)] + JoinGitUsers(table[1..], emailToSlackId)
  }

  /** util.ts:8-28, with the joined list as its result. */
  method MapGithubUserToSlackId(table: seq<GitUserEmail>, members: seq<Member>) returns (gitUserToSlackId: seq<GitUserSlackId>)
    ensures gitUserToSlackId == JoinGitUsers(table, EmailMap(members))
  {
    var emailToSlackId := BuildEmailMap(members);
    gitUserToSlackId := JoinGitUsers(table, emailToSlackId);
  }

  /** A git user whose e-mail some member has gets the id of the last such member. */
  lemma JoinedSlackIdIsLastMember(table: seq<GitUserEmail>, members: seq<Member>, i: nat, j: nat)
    requires i < |table| && j < |members| && EmailKey(members[j].email) == table[i].email
    requires forall k :: j < k < |members| ==> EmailKey(members[k].email) != table[i].email
    ensures JoinGitUsers(table, EmailMap(members))[i] == GitUserSlackId(table[i].gitUser, Some(members[j].id))
  {
    EmailMapLastWins(members, j);
  }

  /** A git user whose e-mail no member has gets no id. */
  lemma JoinedSlackIdAbsent(table: seq<GitUserEmail>, members: seq<Member>, i: nat)
    requires i < |table|
    requires forall k :: 0 <= k < |members| ==> EmailKey(members[k].email) != table[i].email
    ensures JoinGitUsers(table, EmailMap(members))[i] == GitUserSlackId(table[i].gitUser, None)
  {
    EmailMapKeys(members, table[i].email);
  }

  /** The join reads the dictionary only at the table's e-mails. */
  lemma JoinReadsTableEmails(table: seq<GitUserEmail>, m1: map<string, string>, m2: map<string, string>)
    requires forall i :: 0 <= i < |table| ==>
      (table[i].email in m1 <==> table[i].email in m2) &&
      (table[i].email in m1 ==> m1[table[i].email] == m2[table[i].email])
    ensures JoinGitUsers(table, m1) == JoinGitUsers(table, m2)
  {
    var r1, r2 := JoinGitUsers(table, m1), JoinGitUsers(table, m2);
    forall i | 0 <= i < |table|
      ensures r1[i] == r2[i]
    {
    }
  }

  /** Removing one member changes the dictionary at that member's e-mail only. */
  lemma {:induction false} EmailMapWithout(before: seq<Member>, x: Member, after: seq<Member>, key: string)
    requires key != EmailKey(x.email)
    ensures key in EmailMap(before + [x] + after) <==> key in EmailMap(before + after)
    ensures key in EmailMap(before + after) ==> EmailMap(before + [x] + after)[key] == EmailMap(before + after)[key]
  {
    if after == [] {
      assert before + [x] + after == before + [x];
      assert (before + [x])[..|before|] == before;
      assert before + after == before;
    } else {
      var init := after[..|after| - 1];
      var last := after[|after| - 1];
      assert (before + [x] + after)[..|before + [x] + after| - 1] == before + [x] + init;
      assert (before + after)[..|before + after| - 1] == before + init;
      EmailMapWithout(before, x, init, key);
    }
  }

  /** A member whose e-mail is no git user's e-mail has no effect on the join. */
  lemma UnlistedMemberIsIgnored(table: seq<GitUserEmail>, before: seq<Member>, x: Member, after: seq<Member>)
    requires forall i :: 0 <= i < |table| ==> table[i].email != EmailKey(x.email)
    ensures JoinGitUsers(table, EmailMap(before + [x] + after)) == JoinGitUsers(table, EmailMap(before + after))
  {
    forall i | 0 <= i < |table|
      ensures table[i].email in EmailMap(before + [x] + after) <==> table[i].email in EmailMap(before + after)
      ensures table[i].email in EmailMap(before + after) ==>
        EmailMap(before + [x] + after)[table[i].email] == EmailMap(before + after)[table[i].email]
    {
      EmailMapWithout(before, x, after, table[i].email);
    }
    JoinReadsTableEmails(table, EmailMap(before + [x] + after), EmailMap(before + after));
  }
}
