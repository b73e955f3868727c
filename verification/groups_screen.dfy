/** The groups screen's decisions: which group is the default, which group
    a user is shown (their own, else the default), which members are
    listed, the avatar initials, and the add-member-by-email action. The
    repository's group lookup is a parameter, as on the chat screen. */
module GroupsScreen {
  import opened Wrappers
  import opened Seqs
  import opened Text
  import opened ChatModels
  import opened FakeChatRepository
  import opened ChatScreen

  /** The first group with the default id, else the first with the default name. */
  function DefaultGroup(groups: seq<Group>): (d: Option<Group>)
    ensures d.Some? ==> d.value in groups
    ensures (exists i :: 0 <= i < |groups| && groups[i].id == DefaultGroupId) ==>
      d.Some? && d.value.id == DefaultGroupId
    ensures (exists i :: 0 <= i < |groups| && groups[i].id == DefaultGroupId) ==>
      exists i :: (0 <= i < |groups| && groups[i] == d.value
                   && forall j :: 0 <= j < i ==> groups[j].id != DefaultGroupId)
    ensures (forall i :: 0 <= i < |groups| ==> groups[i].id != DefaultGroupId) && d.Some? ==>
      exists i :: (0 <= i < |groups| && groups[i] == d.value
                   && forall j :: 0 <= j < i ==> groups[j].name != DefaultGroupName)
    ensures (forall i :: 0 <= i < |groups| ==> groups[i].id != DefaultGroupId) ==>
      (d.Some? ==> d.value.name == DefaultGroupName)
      && (d.None? <==> forall i :: 0 <= i < |groups| ==> groups[i].name != DefaultGroupName)
  {
    match Find(groups, (g: Group) => g.id == DefaultGroupId)
    case Some(g) => Some(g)
    case None => Find(groups, (g: Group) => g.name == DefaultGroupName)
  }

  /** The user's group as observed on this screen: none when signed out,
      otherwise the repository's answer. */
  function MyGroupId(currentUserId: Option<string>, lookup: string -> Option<string>): (g: Option<string>)
    ensures currentUserId.None? ==> g.None?
    ensures currentUserId.Some? ==> g == lookup(currentUserId.value)
  {
    match currentUserId
    case None => None
    case Some(u) => lookup(u)
  }

  /** The group whose members and chat are shown: the user's own when known,
      else the default group's. */
  function EffectiveGroupId(myGroupId: Option<string>, groups: seq<Group>): (g: Option<string>)
    ensures myGroupId.Some? ==> g == myGroupId
    ensures myGroupId.None? && DefaultGroup(groups).Some? ==> g == Some(DefaultGroup(groups).value.id)
    ensures g.None? <==> myGroupId.None? && DefaultGroup(groups).None?
  {
    match myGroupId
    case Some(id) => Some(id)
    case None =>
      match DefaultGroup(groups)
      case Some(d) => Some(d.id)
      case None => None
  }

  /** The members listed to a client: those with an email, in order. */
  function LoggedMembers(members: seq<User>): (shown: seq<User>)
    ensures forall i :: 0 <= i < |shown| ==> shown[i] in members && shown[i].email.Some?
    ensures forall i :: 0 <= i < |members| && members[i].email.Some? ==> members[i] in shown
  {
    Filter(members, (u: User) => u.email.Some?)
  }

  lemma LoggedMembersKeepOrder(members: seq<User>)
    ensures IsSubsequence(LoggedMembers(members), members)
  {
    FilterIsSubsequence(members, (u: User) => u.email.Some?);
  }

  /** The avatar text: the name's first character, else the email's, else "U". */
  function Initials(u: User): (r: string)
    ensures |r| == 1
    ensures |u.name| > 0 ==> r[0] == u.name[0]
    ensures |u.name| == 0 && u.email.Some? && |u.email.value| > 0 ==> r[0] == u.email.value[0]
    ensures |u.name| == 0 && (u.email.None? || |u.email.value| == 0) ==> r == "U"
  {
    if |u.name| > 0 then [u.name[0]]
    else if u.email.Some? && |u.email.value| > 0 then [u.email.value[0]]
    else "U"
  }

  /** A user created from an email shows its first character, capitalised
      (a leading '.' becomes a space, as in the name). */
  lemma InitialsOfCreatedUser(freshId: string, email: string)
    requires |SubstringBefore(email, '@')| > 0
    ensures Initials(User(freshId, NameFromEmail(email), Some(email), None))
         == [ToUpperChar(if email[0] == '.' then ' ' else email[0])]
  {
    assert SubstringBefore(email, '@')[0] == email[0];
  }

  // ------------------------------------------------------ add member by email

  const InvalidGroupMessage := "Grupo inválido"
  const EmptyEmailMessage := "Informe um e-mail válido"
  const AddedMessage := "Usuário adicionado ao grupo"

  /** The manage-members dialog: the group being managed and the email field. */
  datatype ManageForm = ManageForm(managingGroupId: Option<string>, email: string)

  /** The outcome of pressing "Adicionar": the store, the form and the snackbar text. */
  datatype AddResult = AddResult(repo: Repo, form: ManageForm, snackbar: string)

  /** Without a managed group, or with a blank email, nothing reaches the
      store. Otherwise the trimmed email is added to the managed group; on
      success the field is cleared, on failure the error is shown. */
  function SubmitAddByEmail(r: Repo, f: ManageForm, freshId: string): (res: AddResult)
    ensures f.managingGroupId.None? ==> res == AddResult(r, f, InvalidGroupMessage)
    ensures f.managingGroupId.Some? && IsBlank(f.email) ==> res == AddResult(r, f, EmptyEmailMessage)
    ensures f.managingGroupId.Some? && !IsBlank(f.email) ==>
      var s := AddUserToGroupByEmail(r, f.managingGroupId.value, Trim(f.email), freshId);
      res.repo == s.repo
      && (s.outcome == Success ==> res.form.email == "" && res.snackbar == AddedMessage)
      && (s.outcome.Failure? ==> res.form == f && res.snackbar == "Falha: " + s.outcome.message)
    ensures res.form.managingGroupId == f.managingGroupId
  {
    match f.managingGroupId
    case None => AddResult(r, f, InvalidGroupMessage)
    case Some(g) =>
      var email := Trim(f.email);
      TrimEmptyIffBlank(f.email);
      if |email| == 0 then AddResult(r, f, EmptyEmailMessage)
      else
        var s := AddUserToGroupByEmail(r, g, email, freshId);
        match s.outcome
        case Success => AddResult(s.repo, f.(email := ""), AddedMessage)
        case Failure(m) => AddResult(s.repo, f, "Falha: " + m)
  }

  // -------------------------------------------------------------- lemmas

  /** In the seeded repository the default group is "g0", named "WTC Connect". */
  lemma SeedDefaultGroup()
    ensures DefaultGroup(SeedGroups) == Some(Group(DefaultGroupId, DefaultGroupName))
  {
    assert SeedGroups[0].id == DefaultGroupId;
  }

  /** Groups added after the one with the default id never change the
      default group. */
  lemma {:induction false} DefaultGroupStableUnderAppend(groups: seq<Group>, more: seq<Group>)
    requires exists i :: 0 <= i < |groups| && groups[i].id == DefaultGroupId
    ensures DefaultGroup(groups + more) == DefaultGroup(groups)
  {
    FindAppend(groups, more, (g: Group) => g.id == DefaultGroupId);
  }

  /** With the in-memory repository a signed-in user is always shown a group
      (their own, after the default fallback), and a signed-out one the
      default group whenever the group list has it. */
  lemma EffectiveGroupWithRepo(r: Repo, currentUserId: Option<string>)
    ensures currentUserId.Some? ==>
      EffectiveGroupId(MyGroupId(currentUserId, RepoLookup(r)), r.groups)
        == Some(GetUserGroupId(r, currentUserId.value))
    ensures currentUserId.None? && r.groups == SeedGroups ==>
      EffectiveGroupId(MyGroupId(currentUserId, RepoLookup(r)), r.groups) == Some(DefaultGroupId)
  {
    if currentUserId.None? && r.groups == SeedGroups {
      SeedDefaultGroup();
    }
  }

  /** Adding an email nobody has creates a user carrying the trimmed email,
      lists them among the managed group's members and clears the field. */
  lemma {:induction false} AddByEmailStoresTrimmed(r: Repo, g: string, email: string, freshId: string)
    requires !IsBlank(email)
    requires FirstUserByEmail(r, Trim(email)).None?
    ensures var res := SubmitAddByEmail(r, ManageForm(Some(g), email), freshId);
      res.form.email == "" && res.snackbar == AddedMessage
      && res.repo.users == r.users + [User(freshId, NameFromEmail(Trim(email)), Some(Trim(email)), None)]
      && User(freshId, NameFromEmail(Trim(email)), Some(Trim(email)), None) in LoggedMembers(GetGroupMembers(res.repo, g))
  {
    var res := SubmitAddByEmail(r, ManageForm(Some(g), email), freshId);
    var u := User(freshId, NameFromEmail(Trim(email)), Some(Trim(email)), None);
    assert res.repo.users[|r.users|] == u;
    assert u in GetGroupMembers(res.repo, g);
  }
}
