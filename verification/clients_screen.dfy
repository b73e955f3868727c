/** The operator's client list: the fixed mock clients, the filter combining
    a name query, status and tag chips and a minimum score, the chip
    toggles, and the per-client quick notes kept in memory. */
module ClientsScreen {
  import opened Wrappers
  import opened Seqs
  import opened Text

  datatype Client = Client(id: int, name: string, status: string, tags: seq<string>, score: int)

  const MockClients := [
    Client(1, "Empresa Alpha", "Ativo", ["VIP", "Lead Quente"], 95),
    Client(2, "Soluções Beta", "Inativo", ["Ex-cliente"], 30),
    Client(3, "Inovações Gamma", "Em prospecção", ["Follow-up"], 70),
    Client(4, "Tech Delta", "Ativo", ["Contrato Anual"], 88)]

  /** The filter controls. `minScore` is the slider value already truncated
      to an integer. */
  datatype ClientFilter = ClientFilter(query: string, statuses: set<string>, tags: set<string>, minScore: int)

  const NoFilter := ClientFilter("", {}, {}, 0)

  /** A client is shown when its name contains the query ignoring case, its
      status is selected (or none is), it carries every selected tag, and
      its score reaches the minimum. */
  predicate Keeps(f: ClientFilter, c: Client) {
    ContainsIgnoreCase(c.name, f.query)
    && (f.statuses == {} || c.status in f.statuses)
    && (f.tags == {} || forall t :: t in f.tags ==> t in c.tags)
    && c.score >= f.minScore
  }

  function Filtered(f: ClientFilter): (shown: seq<Client>)
    ensures forall i :: 0 <= i < |shown| ==> shown[i] in MockClients && Keeps(f, shown[i])
    ensures forall i :: 0 <= i < |MockClients| && Keeps(f, MockClients[i]) ==> MockClients[i] in shown
  {
    Filter(MockClients, c => Keeps(f, c))
  }

  /** The list keeps the mock clients' order. */
  lemma FilteredKeepsOrder(f: ClientFilter)
    ensures IsSubsequence(Filtered(f), MockClients)
  {
    FilterIsSubsequence(MockClients, c => Keeps(f, c));
  }

  /** With no query, no chips and a zero minimum every client is listed. */
  lemma NoFilterListsAll()
    ensures Filtered(NoFilter) == MockClients
  {
    forall i | 0 <= i < |MockClients| ensures Keeps(NoFilter, MockClients[i]) {
      ContainsEmpty(MockClients[i].name);
    }
    FilterAll(MockClients, c => Keeps(NoFilter, c));
  }

  /** Selecting one more tag never adds a client: tags combine with AND. */
  lemma AddingTagNarrows(f: ClientFilter, tag: string)
    ensures IsSubsequence(Filtered(f.(tags := f.tags + {tag})), Filtered(f))
  {
    var g := f.(tags := f.tags + {tag});
    forall c | c in MockClients && Keeps(g, c) ensures Keeps(f, c) {
      assert forall t :: t in f.tags ==> t in g.tags;
    }
    FilterNarrows(MockClients, c => Keeps(g, c), c => Keeps(f, c));
  }

  /** A chip click: removes a selected value, adds an unselected one. */
  function Toggle(selected: set<string>, value: string): (r: set<string>)
    ensures value in r <==> value !in selected
    ensures forall v :: v != value ==> (v in r <==> v in selected)
  {
    if value in selected then selected - {value} else selected + {value}
  }

  /** Two clicks on the same chip restore the selection. */
  lemma ToggleTwice(selected: set<string>, value: string)
    ensures Toggle(Toggle(selected, value), value) == selected
  {
  }

  /** The notes state: the notes per client id, the client whose note
      dialog is open, and the dialog's text. */
  datatype Notes = Notes(byClient: map<int, seq<string>>, dialogFor: Option<int>, text: string)

  /** The number of notes shown on a client's row. */
  function NoteCount(n: Notes, clientId: int): (count: nat)
    ensures clientId !in n.byClient ==> count == 0
    ensures clientId in n.byClient ==> count == |n.byClient[clientId]|
  {
    if clientId in n.byClient then |n.byClient[clientId]| else 0
  }

  /** "Salvar" in the note dialog: the trimmed text is appended to the open
      client's notes unless it is blank; then the text is cleared and the
      dialog closed. */
  function SaveNote(n: Notes): (m: Notes)
    ensures m.dialogFor.None? && m.text == ""
    ensures n.dialogFor.None? || IsBlank(n.text) ==> m.byClient == n.byClient
    ensures n.dialogFor.Some? && !IsBlank(n.text) ==>
      var id := n.dialogFor.value;
      (m.byClient.Keys == n.byClient.Keys + {id}
       && (forall k :: k in n.byClient && k != id ==> m.byClient[k] == n.byClient[k])
       && m.byClient[id] == (if id in n.byClient then n.byClient[id] else []) + [Trim(n.text)])
  {
    var byClient :=
      if n.dialogFor.Some? && !IsBlank(n.text) then
        var id := n.dialogFor.value;
        var before := if id in n.byClient then n.byClient[id] else [];
        n.byClient[id := before + [Trim(n.text)]]
      else n.byClient;
    Notes(byClient, None, "")
  }

  /** Cancelling (or dismissing) the dialog drops the text and keeps the notes. */
  function CancelNote(n: Notes): (m: Notes)
    ensures m.byClient == n.byClient && m.dialogFor.None? && m.text == ""
  {
    Notes(n.byClient, None, "")
  }

  /** Saving a non-blank note adds exactly one to that client's count, and
      the saved note has no surrounding whitespace and is not empty. */
  lemma SavedNoteCounts(n: Notes)
    requires n.dialogFor.Some? && !IsBlank(n.text)
    ensures NoteCount(SaveNote(n), n.dialogFor.value) == NoteCount(n, n.dialogFor.value) + 1
    ensures var ns := SaveNote(n).byClient[n.dialogFor.value];
      ns[|ns| - 1] == Trim(n.text) && |Trim(n.text)| > 0
  {
    TrimEmptyIffBlank(n.text);
  }
}
