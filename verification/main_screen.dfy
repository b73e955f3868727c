/** The main screen's bottom navigation, the arguments it passes when
    opening a group chat, and the shared in-memory repository it builds
    for the signed-in user. */
module MainScreen {
  import opened Wrappers
  import opened Text
  import opened AuthViewModel
  import opened FakeChatRepository
  import opened ChatScreen

  datatype Tab = Chat | Campaigns | Clients | Groups | Profile

  function Route(t: Tab): string {
    match t
    case Chat => "chat"
    case Campaigns => "campaigns"
    case Clients => "clients"
    case Groups => "groups"
    case Profile => "profile"
  }

  /** No two tabs share a route. */
  lemma RoutesAreDistinct(a: Tab, b: Tab)
    ensures Route(a) == Route(b) ==> a == b
  {
    if a != b {
      assert Route(a)[0] != Route(b)[0] || Route(a)[1] != Route(b)[1] || |Route(a)| != |Route(b)|;
    }
  }

  /** The bottom bar: chat, campaigns, then clients for an operator or groups
      for anyone else, then profile. */
  function BottomNavItems(userType: UserType): (items: seq<Tab>)
    ensures |items| == 4
    ensures items[0] == Chat && items[1] == Campaigns && items[3] == Profile
    ensures (Clients in items <==> userType == Operator) && (Groups in items <==> userType == Client)
  {
    [Chat, Campaigns] + (if userType == Operator then [Clients] else [Groups]) + [Profile]
  }

  /** The bar never shows two items with the same route. */
  lemma BottomNavRoutesDistinct(userType: UserType)
    ensures forall i, j :: 0 <= i < j < 4 ==>
      Route(BottomNavItems(userType)[i]) != Route(BottomNavItems(userType)[j])
  {
    var items := BottomNavItems(userType);
    forall i, j | 0 <= i < j < 4
      ensures Route(items[i]) != Route(items[j])
    {
      RoutesAreDistinct(items[i], items[j]);
    }
  }

  /** The conversation id and peer id the group-chat route opens the chat screen with. */
  function GroupChatArgs(groupId: string): (args: (string, string))
    ensures StartsWith(args.0, GroupConversationPrefix) && StartsWith(args.1, GroupPeerPrefix)
    ensures RemovePrefix(args.0, GroupConversationPrefix) == groupId
    ensures RemovePrefix(args.1, GroupPeerPrefix) == groupId
  {
    RemovePrefixOfConcat(GroupConversationPrefix, groupId);
    RemovePrefixOfConcat(GroupPeerPrefix, groupId);
    (GroupConversationPrefix + groupId, GroupPeerPrefix + groupId)
  }

  /** The chat screen decodes the group-chat route back to the group it was
      built from, and treats it as a group chat. */
  lemma {:induction false} GroupRouteRoundTrip(groupId: string)
    ensures IsGroupChat(GroupChatArgs(groupId).0, GroupChatArgs(groupId).1)
    ensures TargetGroupId(GroupChatArgs(groupId).0, GroupChatArgs(groupId).1) == groupId
  {
    var (c, p) := GroupChatArgs(groupId);
    if |groupId| == 0 {
      assert p == GroupPeerPrefix;
    }
  }

  /** Through the group-chat route, with the value the in-memory
      repository's lookup delivers, the intended rule admits a non-operator
      exactly when their group (after fallback) is that group. */
  lemma GroupRouteAccess(r: Repo, groupId: string, userId: string, userType: UserType)
    ensures var (c, p) := GroupChatArgs(groupId);
      (Authorize(c, p, Some(userId), userType, RepoLookup(r)).Allowed?
       <==> userType == Operator || GetUserGroupId(r, userId) == groupId)
  {
    GroupRouteRoundTrip(groupId);
  }

  /** The user id the shared repository is built for. */
  function SharedRepoUserId(userId: Option<string>): (id: string)
    ensures userId.Some? ==> id == userId.value
    ensures userId.None? ==> id == "me"
  {
    userId.GetOr("me")
  }

  /** The repository shared by the list, chat and groups screens, built for
      the signed-in user (or the local user): it holds the seed groups and
      that user, reported in the default group. */
  function SharedRepo(auth: AuthState, now: int): (r: Repo)
    ensures r.groups == SeedGroups
    ensures exists i :: 0 <= i < |r.users| && r.users[i].id == SharedRepoUserId(auth.userId)
    ensures GetUserGroupId(r, SharedRepoUserId(auth.userId)) == DefaultGroupId
  {
    var r := Init(SharedRepoUserId(auth.userId), auth.userEmail, now);
    var i :| 0 <= i < |r.users| && r.users[i].id == SharedRepoUserId(auth.userId);
    assert RawGroupOf(r, r.users[i].id) == Some(DefaultGroupId);
    r
  }

  /** The chat screen gets the signed-in user's id as is (none when signed
      out). With the shared repository the intended rule then lets a
      signed-in user into the default group's chat, and a signed-out one
      only as an operator. */
  lemma SharedRepoAdmitsUserToDefaultGroup(auth: AuthState, now: int)
    ensures var r := SharedRepo(auth, now);
      var (c, p) := GroupChatArgs(DefaultGroupId);
      (Authorize(c, p, auth.userId, auth.userType, RepoLookup(r)).Allowed?
       <==> auth.userId.Some? || auth.userType == Operator)
  {
    var r := SharedRepo(auth, now);
    GroupRouteRoundTrip(DefaultGroupId);
    if auth.userId.Some? {
      GroupRouteAccess(r, DefaultGroupId, auth.userId.value, auth.userType);
    }
  }

  /** The surprising consequence of the default-group fallback: a client
      removed from the default group can still open its chat. */
  lemma RemovedClientStillOpensDefaultGroupChat(r: Repo, userId: string)
    requires RawGroupOf(r, userId) == Some(DefaultGroupId)
    ensures var s := RemoveUserFromGroup(r, DefaultGroupId, userId);
      var (c, p) := GroupChatArgs(DefaultGroupId);
      s.outcome == Success && Authorize(c, p, Some(userId), Client, RepoLookup(s.repo)).Allowed?
  {
    var s := RemoveUserFromGroup(r, DefaultGroupId, userId);
    GroupRouteAccess(s.repo, DefaultGroupId, userId, Client);
  }
}
