/** The decisions the chat screen makes before showing a conversation:
    whether it is a group chat, which group it belongs to, whether the
    current user may open it, and which messages are drawn as the user's
    own. The repository's group lookup is a parameter (the repository
    interface allows it to answer "no group"); `RepoLookup` is the value
    the in-memory repository's lookup delivers.

    As written, the check reads the lookup with `collect`, which never
    returns on the in-memory repository's never-completing flow, so the
    comparison after it is never reached for a signed-in user
    (`AuthorizeInMemory`). `Authorize` is the rule the screen evidently
    intends, applied once the lookup has delivered its value. */
module ChatScreen {
  import opened Wrappers
  import opened Text
  import opened ChatModels
  import opened AuthViewModel
  import opened FakeChatRepository

  const GroupDeniedMessage := "Você não tem permissão para ver o chat deste grupo"
  const PeerDeniedMessage := "Você só pode conversar com membros do seu grupo"

  /** The sender id used when no user is signed in. */
  const LocalUserId := "me"

  /** A chat is a group chat when either id carries its group prefix. */
  predicate IsGroupChat(conversationId: string, peerUserId: string) {
    StartsWith(conversationId, GroupConversationPrefix) || StartsWith(peerUserId, GroupPeerPrefix)
  }

  /** The group a group chat is about: the peer id without its prefix, or,
      when that is empty, the conversation id without its prefix. */
  function TargetGroupId(conversationId: string, peerUserId: string): (g: string)
    ensures StartsWith(peerUserId, GroupPeerPrefix) && |peerUserId| > |GroupPeerPrefix| ==>
      peerUserId == GroupPeerPrefix + g
    ensures !StartsWith(peerUserId, GroupPeerPrefix) && |peerUserId| > 0 ==> g == peerUserId
    ensures (peerUserId == "" || peerUserId == GroupPeerPrefix) ==>
      (StartsWith(conversationId, GroupConversationPrefix) ==> conversationId == GroupConversationPrefix + g)
      && (!StartsWith(conversationId, GroupConversationPrefix) ==> g == conversationId)
  {
    var fromPeer := RemovePrefix(peerUserId, GroupPeerPrefix);
    if |fromPeer| == 0 then RemovePrefix(conversationId, GroupConversationPrefix) else fromPeer
  }

  datatype Decision = Allowed | Denied(reason: string)

  /** Whether the current user may open the chat, by the rule the screen
      applies once the lookup has delivered its value.
      Group chat: operators always may; anyone else only when the lookup of
      their id (none when signed out) is exactly the target group.
      One-to-one chat: only a signed-in client is checked, and is refused
      unless both their group and the peer's are known and equal. */
  function Authorize(conversationId: string, peerUserId: string, currentUserId: Option<string>,
                     userType: UserType, lookup: string -> Option<string>): (d: Decision)
    ensures IsGroupChat(conversationId, peerUserId) ==>
      (d.Allowed? <==>
         (userType == Operator
          || (currentUserId.Some? && lookup(currentUserId.value) == Some(TargetGroupId(conversationId, peerUserId)))))
    ensures IsGroupChat(conversationId, peerUserId) && d.Denied? ==> d.reason == GroupDeniedMessage
    ensures !IsGroupChat(conversationId, peerUserId) ==>
      (d.Denied? <==>
         (userType == Client && currentUserId.Some?
          && (lookup(currentUserId.value).None? || lookup(peerUserId).None?
              || lookup(currentUserId.value) != lookup(peerUserId))))
    ensures !IsGroupChat(conversationId, peerUserId) && d.Denied? ==> d.reason == PeerDeniedMessage
  {
    if IsGroupChat(conversationId, peerUserId) then
      var groupId := TargetGroupId(conversationId, peerUserId);
      var gid := if currentUserId.Some? then lookup(currentUserId.value) else None;
      if gid != Some(groupId) && userType != Operator then Denied(GroupDeniedMessage) else Allowed
    else if userType == Client && currentUserId.Some? then
      var gid := lookup(currentUserId.value);
      var peerGid := lookup(peerUserId);
      if gid.None? || peerGid.None? || gid != peerGid then Denied(PeerDeniedMessage) else Allowed
    else
      Allowed
  }

  /** The value the in-memory repository's lookup delivers: the recorded
      group, else the default group. It is never "no group". */
  function RepoLookup(r: Repo): (lookup: string -> Option<string>)
    ensures forall u :: RawGroupOf(r, u).Some? ==> lookup(u) == RawGroupOf(r, u)
    ensures forall u :: RawGroupOf(r, u).None? ==> lookup(u) == Some(DefaultGroupId)
  {
    (u: string) => Some(GetUserGroupId(r, u))
  }

  /** A lookup that is never started: what a signed-out screen has. */
  function NoLookup(u: string): Option<string> {
    None
  }

  /** The check as written, with the in-memory repository. A signed-in
      user's check suspends in `collect` on the lookup's flow, which never
      completes, so nothing after it runs and the screen stays authorized.
      Only a signed-out user starts no lookup, and so only a signed-out
      non-operator in a group chat is refused. */
  function AuthorizeInMemory(conversationId: string, peerUserId: string, currentUserId: Option<string>,
                             userType: UserType): (d: Decision)
    ensures d.Denied? <==>
      IsGroupChat(conversationId, peerUserId) && currentUserId.None? && userType != Operator
    ensures d.Denied? ==> d.reason == GroupDeniedMessage
  {
    if currentUserId.None? then Authorize(conversationId, peerUserId, None, userType, NoLookup)
    else Allowed
  }

  /** The screen's remembered authorization state. It starts authorized and
      is not reset when the check runs again with new inputs. */
  datatype Access = Access(authorized: bool, errorMessage: Option<string>)

  const InitialAccess := Access(true, None)

  /** One run of the check: its inputs and the repository lookup at that time. */
  datatype CheckRun = CheckRun(conversationId: string, peerUserId: string, currentUserId: Option<string>,
                               userType: UserType, lookup: string -> Option<string>)

  function Decide(run: CheckRun): Decision {
    Authorize(run.conversationId, run.peerUserId, run.currentUserId, run.userType, run.lookup)
  }

  /** A run only ever takes authorization away, recording the refusal's message. */
  function RunCheck(a: Access, run: CheckRun): (b: Access)
    ensures b.authorized <==> a.authorized && Decide(run).Allowed?
    ensures Decide(run).Denied? ==> b.errorMessage == Some(Decide(run).reason)
    ensures Decide(run).Allowed? ==> b == a
  {
    match Decide(run)
    case Allowed => a
    case Denied(reason) => Access(false, Some(reason))
  }

  /** The state after a series of runs. */
  function RunChecks(a: Access, runs: seq<CheckRun>): (b: Access)
    ensures b.authorized <==> a.authorized && forall i :: 0 <= i < |runs| ==> Decide(runs[i]).Allowed?
    ensures (forall i :: 0 <= i < |runs| ==> Decide(runs[i]).Allowed?) ==> b == a
    ensures (exists i :: 0 <= i < |runs| && Decide(runs[i]).Denied?) ==> b.errorMessage.Some?
    ensures a.errorMessage.Some? ==> b.errorMessage.Some?
    decreases |runs|
  {
    if |runs| == 0 then a else RunChecks(RunCheck(a, runs[0]), runs[1..])
  }

  /** Once refused, the screen stays refused whatever runs follow. */
  lemma RefusalIsPermanent(a: Access, runs: seq<CheckRun>, more: seq<CheckRun>)
    requires !RunChecks(a, runs).authorized
    ensures !RunChecks(a, runs + more).authorized
  {
    if a.authorized {
      var i :| 0 <= i < |runs| && Decide(runs[i]).Denied?;
      assert (runs + more)[i] == runs[i];
    }
  }

  /** The sender id this screen sends as: the signed-in user, else the local id. */
  function EffectiveUserId(currentUserId: Option<string>): (id: string)
    ensures currentUserId.Some? ==> id == currentUserId.value
    ensures currentUserId.None? ==> id == LocalUserId
  {
    currentUserId.GetOr(LocalUserId)
  }

  /** A message is drawn as the user's own when its sender is the effective user. */
  function IsMine(m: Message, currentUserId: Option<string>): (mine: bool)
    ensures currentUserId.Some? ==> (mine <==> m.senderId == currentUserId.value)
    ensures currentUserId.None? ==> (mine <==> m.senderId == LocalUserId)
  {
    m.senderId == EffectiveUserId(currentUserId)
  }

  /** What the user sends from this screen is drawn as their own, and it is
      the last message of the conversation. */
  lemma SentMessageIsMine(r: Repo, conversationId: string, content: string, currentUserId: Option<string>,
                          now: int, freshId: string)
    ensures var s := SendMessage(r, conversationId, content, EffectiveUserId(currentUserId), now, freshId);
      var ms := MessagesOf(s.repo, conversationId);
      |ms| > 0 && IsMine(ms[|ms| - 1], currentUserId) && ms[|ms| - 1].content == content
  {
  }

  /** With the value the in-memory repository's lookup delivers, the
      intended rule admits a non-operator to a group chat exactly when
      `GetUserGroupId` names the target group. */
  lemma RepoGroupChatAccess(r: Repo, conversationId: string, peerUserId: string, userId: string, userType: UserType)
    requires IsGroupChat(conversationId, peerUserId)
    ensures Authorize(conversationId, peerUserId, Some(userId), userType, RepoLookup(r)).Allowed?
        <==> userType == Operator || GetUserGroupId(r, userId) == TargetGroupId(conversationId, peerUserId)
  {
  }

  /** With the value the in-memory repository's lookup delivers, the
      intended rule lets a client open a one-to-one chat exactly when both
      parties resolve to the same group (after fallback). */
  lemma RepoDirectChatAccess(r: Repo, conversationId: string, peerUserId: string, userId: string)
    requires !IsGroupChat(conversationId, peerUserId)
    ensures Authorize(conversationId, peerUserId, Some(userId), Client, RepoLookup(r)).Allowed?
        <==> GetUserGroupId(r, userId) == GetUserGroupId(r, peerUserId)
  {
  }

  /** A signed-out non-operator never gets into a group chat. */
  lemma SignedOutClientDeniedGroupChat(conversationId: string, peerUserId: string, lookup: string -> Option<string>)
    requires IsGroupChat(conversationId, peerUserId)
    ensures Authorize(conversationId, peerUserId, None, Client, lookup) == Denied(GroupDeniedMessage)
  {
  }

  /** The gap as written, on the seeded store: a client of the default group
      opening group "g1"'s chat is refused by the intended rule, yet the
      screen as written lets them in. */
  lemma InMemoryGroupChatGap(now: int)
    ensures var r := Init(LocalUserId, None, now);
      AuthorizeInMemory("group_g1", "group:g1", Some(LocalUserId), Client) == Allowed
      && Authorize("group_g1", "group:g1", Some(LocalUserId), Client, RepoLookup(r)) == Denied(GroupDeniedMessage)
  {
    var r := Init(LocalUserId, None, now);
    var i :| 0 <= i < |r.users| && r.users[i].id == LocalUserId;
    assert RawGroupOf(r, r.users[i].id) == Some(DefaultGroupId);
    assert "group:g1" == GroupPeerPrefix + "g1";
    RemovePrefixOfConcat(GroupPeerPrefix, "g1");
    assert StartsWith("group:g1", GroupPeerPrefix);
  }

  /** The same gap in one-to-one chats: whenever a client and the peer
      resolve to different groups, the intended rule refuses and the screen
      as written lets them in. */
  lemma InMemoryDirectChatGap(r: Repo, conversationId: string, peerUserId: string, userId: string)
    requires !IsGroupChat(conversationId, peerUserId)
    requires GetUserGroupId(r, userId) != GetUserGroupId(r, peerUserId)
    ensures AuthorizeInMemory(conversationId, peerUserId, Some(userId), Client) == Allowed
    ensures Authorize(conversationId, peerUserId, Some(userId), Client, RepoLookup(r)) == Denied(PeerDeniedMessage)
  {
  }

  /** Signed out, the check as written and the intended rule agree, whatever
      the lookup would have answered. */
  lemma SignedOutChecksAgree(conversationId: string, peerUserId: string, userType: UserType,
                             lookup: string -> Option<string>)
    ensures AuthorizeInMemory(conversationId, peerUserId, None, userType)
         == Authorize(conversationId, peerUserId, None, userType, lookup)
  {
  }
}
