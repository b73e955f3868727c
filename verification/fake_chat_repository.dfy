/** The in-memory chat store: users, groups, a single-valued user-to-group
    membership map, a conversation list and one message list per
    conversation. Every operation is a pure function from the store (and
    the arguments the caller passes, including the fresh id and the clock
    reading the repository draws itself) to an outcome and the new store. */
module FakeChatRepository {
  import opened Wrappers
  import opened Seqs
  import opened Text
  import opened ChatModels

  /** The group every unassigned user is reported to belong to. */
  const DefaultGroupId := "g0"
  const DefaultGroupName := "WTC Connect"
  const NotAMemberError := "Usuário não pertence a este grupo"

  /** Conversation ids of group chats start with this ... */
  const GroupConversationPrefix := "group_"
  /** ... and the placeholder peer of a group chat has an id starting with this. */
  const GroupPeerPrefix := "group:"

  datatype Repo = Repo(
    conversations: seq<Conversation>,
    messages: map<string, seq<Message>>,
    groups: seq<Group>,
    users: seq<User>,
    /** A missing key and a `None` value both read back as "no group". */
    userGroup: map<string, Option<string>>)

  /** The outcome of a mutating call together with the store after it. */
  datatype Step = Step(outcome: Outcome, repo: Repo)

  // ---------------------------------------------------------------- queries

  /** The raw membership of `userId`: the map lookup, with no fallback. */
  function RawGroupOf(r: Repo, userId: string): Option<string> {
    if userId in r.userGroup then r.userGroup[userId] else None
  }

  /** The message list of a conversation; an unknown conversation has none. */
  function MessagesOf(r: Repo, conversationId: string): seq<Message> {
    if conversationId in r.messages then r.messages[conversationId] else []
  }

  predicate HasConversation(convs: seq<Conversation>, conversationId: string) {
    Any(convs, (c: Conversation) => c.id == conversationId)
  }

  function GroupById(r: Repo, groupId: string): Option<Group> {
    Find(r.groups, (g: Group) => g.id == groupId)
  }

  /** The group a user is in, falling back to the default group when the user
      has none (including users the store has never heard of). */
  function GetUserGroupId(r: Repo, userId: string): (g: string)
    ensures RawGroupOf(r, userId).Some? ==> g == RawGroupOf(r, userId).value
    ensures RawGroupOf(r, userId).None? ==> g == DefaultGroupId
  {
    RawGroupOf(r, userId).GetOr(DefaultGroupId)
  }

  predicate IsMemberOf(r: Repo, u: User, groupId: string) {
    RawGroupOf(r, u.id) == Some(groupId)
  }

  /** The users whose raw membership is exactly `groupId`, in user-list order. */
  function GetGroupMembers(r: Repo, groupId: string): (m: seq<User>)
    ensures forall i :: 0 <= i < |m| ==> m[i] in r.users && RawGroupOf(r, m[i].id) == Some(groupId)
    ensures forall i :: 0 <= i < |r.users| && RawGroupOf(r, r.users[i].id) == Some(groupId) ==> r.users[i] in m
  {
    Filter(r.users, (u: User) => IsMemberOf(r, u, groupId))
  }

  /** The first user with the given id, if any. */
  function GetUserById(r: Repo, userId: string): (u: Option<User>)
    ensures u.Some? ==> u.value in r.users && u.value.id == userId
    ensures u.Some? ==> exists i :: (0 <= i < |r.users| && r.users[i] == u.value
                                     && forall j :: 0 <= j < i ==> r.users[j].id != userId)
    ensures u.None? ==> forall i :: 0 <= i < |r.users| ==> r.users[i].id != userId
  {
    Find(r.users, (x: User) => x.id == userId)
  }

  /** A user matches a (trimmed) query when the query is empty or occurs,
      ignoring case, in the user's name or email. */
  predicate MatchesQuery(u: User, q: string) {
    |q| == 0 || ContainsIgnoreCase(u.name, q) || (u.email.Some? && ContainsIgnoreCase(u.email.value, q))
  }

  /** With no group given every user qualifies; otherwise the raw membership
      must equal it (no default-group fallback). */
  predicate InGroup(r: Repo, u: User, withinGroupId: Option<string>) {
    withinGroupId.None? || RawGroupOf(r, u.id) == withinGroupId
  }

  function SearchUsers(r: Repo, query: string, withinGroupId: Option<string>): (found: seq<User>)
    ensures forall i :: 0 <= i < |found| ==>
      found[i] in r.users && MatchesQuery(found[i], Trim(query)) && InGroup(r, found[i], withinGroupId)
    ensures forall i :: 0 <= i < |r.users| && MatchesQuery(r.users[i], Trim(query)) && InGroup(r, r.users[i], withinGroupId) ==>
      r.users[i] in found
  {
    var q := Trim(query);
    Filter(r.users, (u: User) => MatchesQuery(u, q) && InGroup(r, u, withinGroupId))
  }

  // -------------------------------------------------------------- invariant

  /** Every listed conversation has a message list. */
  ghost predicate ConversationsHaveHistory(r: Repo) {
    forall i :: 0 <= i < |r.conversations| ==> r.conversations[i].id in r.messages
  }

  /** Every user has an entry (possibly `None`) in the membership map. */
  ghost predicate EveryUserHasEntry(r: Repo) {
    forall i :: 0 <= i < |r.users| ==> r.users[i].id in r.userGroup
  }

  ghost predicate Valid(r: Repo) {
    ConversationsHaveHistory(r) && EveryUserHasEntry(r)
  }

  // ----------------------------------------------------------------- seeding

  function SeedUsers(currentUserEmail: Option<string>): seq<User> {
    [ User("me", "Eu (local)", currentUserEmail, None),
      User("u1", "Leonardo", Some("leo@example.com"), None),
      User("u2", "Raul", Some("raul@example.com"), None),
      User("u3", "Cynthia", Some("cynthia@example.com"), None),
      User("u4", "Ana", Some("ana@example.com"), None) ]
  }

  const SeedGroups := [Group(DefaultGroupId, DefaultGroupName), Group("g1", "Comercial"), Group("g2", "Eventos")]

  /** The demo store built by the constructor. `now` stands for the clock
      reading; the current user is added (named after their email, or
      "Usuário") when their id is not one of the seed ids, and every user,
      the current one included, starts in the default group. */
  function Init(currentUserId: string, currentUserEmail: Option<string>, now: int): (r: Repo)
    ensures r.groups == SeedGroups
    ensures exists i :: 0 <= i < |r.users| && r.users[i].id == currentUserId
    ensures forall i :: 0 <= i < |r.users| ==> RawGroupOf(r, r.users[i].id) == Some(DefaultGroupId)
    ensures |r.conversations| == 4 && r.conversations[3].id == GroupConversationPrefix + DefaultGroupId
    ensures Valid(r)
  {
    var seed := SeedUsers(currentUserEmail);
    var users :=
      if Any(seed, (u: User) => u.id == currentUserId) then seed
      else seed + [User(currentUserId, currentUserEmail.GetOr("Usuário"), currentUserEmail, None)];
    assert exists i :: 0 <= i < |users| && users[i].id == currentUserId by {
      if !Any(seed, (u: User) => u.id == currentUserId) {
        assert users[|seed|].id == currentUserId;
      }
    }
    var userGroup := map["me" := Some(DefaultGroupId), "u1" := Some(DefaultGroupId),
                         "u2" := Some(DefaultGroupId), "u3" := Some(DefaultGroupId),
                         "u4" := Some(DefaultGroupId)][currentUserId := Some(DefaultGroupId)];
    var groupConvId := GroupConversationPrefix + DefaultGroupId;
    var conv1 := Conversation("c1", seed[1], "Podemos conversar?", now - 1000 * 60 * 60, 1);
    var conv2 := Conversation("c2", seed[2], "Preciso da sua ajuda", now - 1000 * 60 * 30, 0);
    var conv3 := Conversation("c3", seed[3], "Reunião amanhã às 11:00", now - 1000 * 60 * 5, 2);
    var groupConv := Conversation(groupConvId, User(groupConvId, DefaultGroupName, None, None),
                                  "Bem-vindo ao grupo " + DefaultGroupName, now, 0);
    var messages := map[
      "c1" := [ Message("m1", "c1", "u1", "Oi", now - 1000 * 60 * 60, true),
                Message("m2", "c1", currentUserId, "Tudo bem?", now - 1000 * 60 * 50, true) ],
      "c2" := [ Message("m3", "c2", "u2", "Olá, pode me ajudar?", now - 1000 * 60 * 30, true) ],
      "c3" := [ Message("m4", "c3", "u3", "Agenda enviada", now - 1000 * 60 * 10, true) ],
      groupConvId := [ Message("gm1", groupConvId, "u1", "Bem-vindos ao WTC Connect!", now - 1000 * 60 * 60, true),
                       Message("gm2", groupConvId, "u3", "Olá a todos!", now - 1000 * 60 * 30, true) ]];
    Repo([conv1, conv2, conv3, groupConv], messages, SeedGroups, users, userGroup)
  }

  // --------------------------------------------------------------- messages

  /** The summary of `c` after a message `content` was sent at `now`. */
  function Touch(c: Conversation, content: string, now: int): Conversation {
    c.(lastMessage := content, lastTimestamp := now, unreadCount := 0)
  }

  /** The placeholder conversation row created for a group chat on its first message. */
  function GroupConversation(conversationId: string, g: Group, content: string, now: int): Conversation {
    Conversation(conversationId, User(GroupPeerPrefix + g.id, g.name, None, None), content, now, 0)
  }

  /** Appends one delivered message to the conversation's list and refreshes
      its summary row; a first message into a group chat of a known group
      creates the row. Never fails. */
  function SendMessage(r: Repo, conversationId: string, content: string, senderId: string,
                       now: int, freshId: string): (s: Step)
    ensures s.outcome == Success
    ensures MessagesOf(s.repo, conversationId)
         == MessagesOf(r, conversationId) + [Message(freshId, conversationId, senderId, content, now, true)]
    ensures forall k :: k != conversationId ==> MessagesOf(s.repo, k) == MessagesOf(r, k)
    ensures s.repo.users == r.users && s.repo.groups == r.groups && s.repo.userGroup == r.userGroup
    ensures HasConversation(r.conversations, conversationId) ==>
      |s.repo.conversations| == |r.conversations| &&
      forall i :: 0 <= i < |r.conversations| ==>
        s.repo.conversations[i] ==
          (if r.conversations[i].id == conversationId then Touch(r.conversations[i], content, now)
           else r.conversations[i])
    ensures !HasConversation(r.conversations, conversationId) ==>
      var groupId := RemovePrefix(conversationId, GroupConversationPrefix);
      if StartsWith(conversationId, GroupConversationPrefix) && GroupById(r, groupId).Some? then
        s.repo.conversations == r.conversations + [GroupConversation(conversationId, GroupById(r, groupId).value, content, now)]
        && GroupById(r, groupId).value.id == groupId
      else
        s.repo.conversations == r.conversations
    ensures Valid(r) ==> Valid(s.repo)
  {
    var msg := Message(freshId, conversationId, senderId, content, now, true);
    var messages := r.messages[conversationId := MessagesOf(r, conversationId) + [msg]];
    var updated := seq(|r.conversations|, i requires 0 <= i < |r.conversations| =>
      if r.conversations[i].id == conversationId then Touch(r.conversations[i], content, now)
      else r.conversations[i]);
    assert forall i :: 0 <= i < |updated| ==> updated[i].id == r.conversations[i].id;
    assert HasConversation(updated, conversationId) <==> HasConversation(r.conversations, conversationId);
    var conversations :=
      if !HasConversation(updated, conversationId) then
        if StartsWith(conversationId, GroupConversationPrefix) then
          match GroupById(r, RemovePrefix(conversationId, GroupConversationPrefix))
          case Some(g) => r.conversations + [GroupConversation(conversationId, g, content, now)]
          case None => r.conversations
        else r.conversations
      else updated;
    Step(Success, r.(messages := messages, conversations := conversations))
  }

  // ------------------------------------------------------------- membership

  predicate EmailMatches(u: User, email: string) {
    u.email.Some? && EqualsIgnoreCase(u.email.value, email)
  }

  /** Index of the first user whose email equals `email` ignoring case. */
  function FirstUserByEmail(r: Repo, email: string): Option<nat> {
    FindIndex(r.users, (u: User) => EmailMatches(u, email))
  }

  /** The name given to a user created from an email: the part before "@",
      dots turned into spaces, first letter capitalised. */
  function NameFromEmail(email: string): (name: string)
    ensures |name| == |SubstringBefore(email, '@')|
    ensures forall i :: 0 <= i < |name| ==>
      var c := if SubstringBefore(email, '@')[i] == '.' then ' ' else SubstringBefore(email, '@')[i];
      name[i] == (if i == 0 then ToUpperChar(c) else c)
    ensures '@' !in name && '.' !in name
  {
    var local := ReplaceChar(SubstringBefore(email, '@'), '.', ' ');
    var name := CapitalizeFirst(local);
    assert forall i :: 0 <= i < |name| ==> name[i] != '@' && name[i] != '.' by {
      forall i | 0 <= i < |name| ensures name[i] != '@' && name[i] != '.' {
        if i > 0 { assert name[i] == local[i]; }
      }
    }
    name
  }

  /** Puts the first user with a matching email into `groupId` (whatever group
      they were in), or creates a user with that email and puts them there.
      Never fails, and never checks that the group exists. */
  function AddUserToGroupByEmail(r: Repo, groupId: string, email: string, freshId: string): (s: Step)
    ensures s.outcome == Success
    ensures s.repo.conversations == r.conversations && s.repo.messages == r.messages
    ensures s.repo.groups == r.groups
    ensures FirstUserByEmail(r, email).Some? ==>
      var i := FirstUserByEmail(r, email).value;
      i < |r.users| && EmailMatches(r.users[i], email)
      && (forall j :: 0 <= j < i ==> !EmailMatches(r.users[j], email))
      && s.repo.users == r.users
      && RawGroupOf(s.repo, r.users[i].id) == Some(groupId)
      && forall k :: k != r.users[i].id ==> RawGroupOf(s.repo, k) == RawGroupOf(r, k)
    ensures FirstUserByEmail(r, email).None? ==>
      (forall j :: 0 <= j < |r.users| ==> !EmailMatches(r.users[j], email))
      && s.repo.users == r.users + [User(freshId, NameFromEmail(email), Some(email), None)]
      && RawGroupOf(s.repo, freshId) == Some(groupId)
      && forall k :: k != freshId ==> RawGroupOf(s.repo, k) == RawGroupOf(r, k)
    ensures Valid(r) ==> Valid(s.repo)
  {
    match FirstUserByEmail(r, email)
    case Some(i) =>
      Step(Success, r.(userGroup := r.userGroup[r.users[i].id := Some(groupId)]))
    case None =>
      var newUser := User(freshId, NameFromEmail(email), Some(email), None);
      Step(Success, r.(users := r.users + [newUser], userGroup := r.userGroup[freshId := Some(groupId)]))
  }

  /** Clears a user's membership, but only when it is exactly `groupId`;
      otherwise fails and leaves the store as it was. */
  function RemoveUserFromGroup(r: Repo, groupId: string, userId: string): (s: Step)
    ensures RawGroupOf(r, userId) != Some(groupId) ==>
      s.outcome == Failure(NotAMemberError) && s.repo == r
    ensures RawGroupOf(r, userId) == Some(groupId) ==>
      s.outcome == Success && RawGroupOf(s.repo, userId) == None
      && (forall k :: k != userId ==> RawGroupOf(s.repo, k) == RawGroupOf(r, k))
      && s.repo.users == r.users && s.repo.groups == r.groups
      && s.repo.conversations == r.conversations && s.repo.messages == r.messages
    ensures Valid(r) ==> Valid(s.repo)
  {
    if RawGroupOf(r, userId) != Some(groupId) then Step(Failure(NotAMemberError), r)
    else Step(Success, r.(userGroup := r.userGroup[userId := None]))
  }

  // ----------------------------------------------------------------- lemmas

  /** `GetUserById` returns the first user listed with that id, whatever
      users with the same id follow it. */
  lemma GetUserByIdIsFirst(r: Repo, i: nat)
    requires i < |r.users|
    requires forall j :: 0 <= j < i ==> r.users[j].id != r.users[i].id
    ensures GetUserById(r, r.users[i].id) == Some(r.users[i])
  {
    FindIsFirst(r.users, (x: User) => x.id == r.users[i].id, i);
  }

  /** An address whose local part has no dots and does not start with a
      lower-case letter names its new user after that local part verbatim. */
  lemma NameFromEmailOfAddress(local: string, domain: string)
    requires '@' !in local && '.' !in local
    requires |local| > 0 ==> !IsLower(local[0])
    ensures NameFromEmail(local + "@" + domain) == local
  {
    SubstringBeforeOfAddress(local, domain);
  }

  /** Group members and search results are listed in user-list order. */
  lemma MembersAndSearchKeepUserOrder(r: Repo, groupId: string, query: string, withinGroupId: Option<string>)
    ensures IsSubsequence(GetGroupMembers(r, groupId), r.users)
    ensures IsSubsequence(SearchUsers(r, query, withinGroupId), r.users)
  {
    FilterIsSubsequence(r.users, (u: User) => IsMemberOf(r, u, groupId));
    var q := Trim(query);
    FilterIsSubsequence(r.users, (u: User) => MatchesQuery(u, q) && InGroup(r, u, withinGroupId));
  }

  /** A blank query restricted to a group lists exactly that group's members:
      the search filter and `GetGroupMembers` use the same raw membership test. */
  lemma BlankSearchWithinGroupIsMembers(r: Repo, query: string, groupId: string)
    requires IsBlank(query)
    ensures SearchUsers(r, query, Some(groupId)) == GetGroupMembers(r, groupId)
  {
    TrimEmptyIffBlank(query);
    var q := Trim(query);
    FilterExtensional(r.users, (u: User) => MatchesQuery(u, q) && InGroup(r, u, Some(groupId)),
                      (u: User) => IsMemberOf(r, u, groupId));
  }

  /** A blank query with no group restriction lists every user. */
  lemma BlankSearchListsEveryone(r: Repo, query: string)
    requires IsBlank(query)
    ensures SearchUsers(r, query, None) == r.users
  {
    TrimEmptyIffBlank(query);
    var q := Trim(query);
    FilterAll(r.users, (u: User) => MatchesQuery(u, q) && InGroup(r, u, None));
  }

  /** Removing a user from the default group leaves them out of its member
      list, yet `GetUserGroupId` still reports the default group. */
  lemma RemovedFromDefaultStillReportsDefault(r: Repo, u: User)
    requires u in r.users && RawGroupOf(r, u.id) == Some(DefaultGroupId)
    ensures RemoveUserFromGroup(r, DefaultGroupId, u.id).outcome == Success
    ensures u !in GetGroupMembers(RemoveUserFromGroup(r, DefaultGroupId, u.id).repo, DefaultGroupId)
    ensures GetUserGroupId(RemoveUserFromGroup(r, DefaultGroupId, u.id).repo, u.id) == DefaultGroupId
  {
  }

  /** A successful removal cannot be repeated: the second one fails. */
  lemma RemoveTwiceFails(r: Repo, groupId: string, userId: string)
    ensures RemoveUserFromGroup(RemoveUserFromGroup(r, groupId, userId).repo, groupId, userId).outcome
         == Failure(NotAMemberError)
  {
  }

  /** After adding by email, some user with that email is a member of the
      group, and the group id is what `GetUserGroupId` reports for them. */
  lemma AddedUserIsMember(r: Repo, groupId: string, email: string, freshId: string)
    ensures var s := AddUserToGroupByEmail(r, groupId, email, freshId);
      exists i :: 0 <= i < |s.repo.users| && EmailMatches(s.repo.users[i], email)
        && s.repo.users[i] in GetGroupMembers(s.repo, groupId)
        && GetUserGroupId(s.repo, s.repo.users[i].id) == groupId
  {
    var s := AddUserToGroupByEmail(r, groupId, email, freshId);
    match FirstUserByEmail(r, email)
    case Some(i) =>
      assert EmailMatches(s.repo.users[i], email);
    case None =>
      var n := |r.users|;
      assert s.repo.users[n].id == freshId;
      assert EmailMatches(s.repo.users[n], email);
  }

  /** An email nobody has yields a new user that a search for any part of
      that email finds (the repository test "creates user when not exists"). */
  lemma NewUserIsFoundBySearch(r: Repo, groupId: string, email: string, freshId: string, query: string)
    requires FirstUserByEmail(r, email).None?
    requires ContainsIgnoreCase(email, Trim(query))
    ensures var s := AddUserToGroupByEmail(r, groupId, email, freshId);
      exists i :: 0 <= i < |SearchUsers(s.repo, query, None)|
        && SearchUsers(s.repo, query, None)[i].email == Some(email)
  {
    var s := AddUserToGroupByEmail(r, groupId, email, freshId);
    var n := |r.users|;
    assert s.repo.users[n].email == Some(email);
    assert MatchesQuery(s.repo.users[n], Trim(query));
    var found := SearchUsers(s.repo, query, None);
    assert s.repo.users[n] in found;
  }

  /** A user created by `AddUserToGroupByEmail` can be removed from that group again. */
  lemma AddNewThenRemove(r: Repo, groupId: string, email: string, freshId: string)
    requires FirstUserByEmail(r, email).None?
    ensures var s := AddUserToGroupByEmail(r, groupId, email, freshId);
      var t := RemoveUserFromGroup(s.repo, groupId, freshId);
      t.outcome == Success && RawGroupOf(t.repo, freshId) == None
      && t.repo.users == r.users + [User(freshId, NameFromEmail(email), Some(email), None)]
  {
  }

  /** The seeded scenario: after removing "u2" from the default group it is
      no longer listed as a member, but is still reported as being in "g0". */
  lemma SeedRemoveScenario(currentUserId: string, currentUserEmail: Option<string>, now: int)
    ensures var r := Init(currentUserId, currentUserEmail, now);
      var s := RemoveUserFromGroup(r, DefaultGroupId, "u2");
      s.outcome == Success && GetUserGroupId(s.repo, "u2") == DefaultGroupId
      && forall i :: 0 <= i < |GetGroupMembers(s.repo, DefaultGroupId)| ==>
           GetGroupMembers(s.repo, DefaultGroupId)[i].id != "u2"
  {
    var r := Init(currentUserId, currentUserEmail, now);
    assert r.users[2].id == "u2";
  }

  /** Membership is single-valued: no user is listed in two different groups. */
  lemma MemberListsAreDisjoint(r: Repo, g1: string, g2: string, u: User)
    requires g1 != g2
    ensures !(u in GetGroupMembers(r, g1) && u in GetGroupMembers(r, g2))
  {
    var m1 := GetGroupMembers(r, g1);
    if u in m1 {
      var i :| 0 <= i < |m1| && m1[i] == u;
      assert RawGroupOf(r, u.id) == Some(g1);
    }
  }
}
