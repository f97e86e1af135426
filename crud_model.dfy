/**
 * The `Crud` component's seven pieces of state as one value, and each event
 * handler as a pure transition on it. A handler together with the outcome
 * of its network call is one step: `ok` says whether the call completed with
 * a success status, and the payload (user list, token) is a parameter.
 */
module CrudModel {
  import opened Options
  import opened Users

  /** A snapshot of the seven `useState` variables. */
  datatype State = State(
    showModal: bool,
    newUser: Draft,
    data: seq<User>,
    isEditing: bool,
    editingUserId: Option<UserId>,
    showTokenModal: bool,
    jwttoken: string)

  /** The values the component mounts with. */
  const Initial: State := State(false, EmptyDraft, [], false, None, false, "")

  /** Edit mode and the edited id are only ever set and cleared together. */
  predicate Consistent(s: State)
  {
    s.isEditing <==> s.editingUserId.Some?
  }

  /** The request a submit sends: none, a create, or an update of one id. */
  datatype Request = NoRequest | Post(body: Draft) | Put(id: UserId, body: Draft)

  /** What a submit yields: the new state, the request sent, and whether the list is reloaded. */
  datatype SubmitResult = SubmitResult(state: State, request: Request, reload: bool)

  /** `fetchUsers`: a successful list response replaces the records wholesale. */
  function Load(s: State, ok: bool, users: seq<User>): (r: State)
    ensures ok ==> r.data == users
    ensures !ok ==> r == s
    ensures r.(data := s.data) == s
    ensures Consistent(s) ==> Consistent(r)
  {
    if ok then s.(data := users) else s
  }

  /** `handleInputChange`: one named draft field takes the typed value. */
  function InputChange(s: State, f: Field, v: string): (r: State)
    ensures FieldOf(r.newUser, f) == v
    ensures forall g :: g != f ==> FieldOf(r.newUser, g) == FieldOf(s.newUser, g)
    ensures r.(newUser := s.newUser) == s
    ensures Consistent(s) ==> Consistent(r)
  {
    s.(newUser := WithField(s.newUser, f, v))
  }

  /**
   * `handleAddUser`: with an empty field nothing happens; otherwise the draft
   * is sent (update when editing, create otherwise) and, whatever the
   * outcome, the dialog closes and the draft and edit mode are reset. Only a
   * successful response asks for a reload of the list.
   */
  function Submit(s: State, ok: bool): (r: SubmitResult)
    requires Consistent(s)
    ensures !IsComplete(s.newUser) ==> r.state == s && r.request == NoRequest && !r.reload
    ensures IsComplete(s.newUser) && s.isEditing ==> r.request == Put(s.editingUserId.value, s.newUser)
    ensures IsComplete(s.newUser) && !s.isEditing ==> r.request == Post(s.newUser)
    ensures IsComplete(s.newUser) ==>
      r.state.newUser == EmptyDraft && !r.state.showModal &&
      !r.state.isEditing && r.state.editingUserId == None
    ensures r.state.data == s.data
    ensures r.state.showTokenModal == s.showTokenModal && r.state.jwttoken == s.jwttoken
    ensures r.reload <==> IsComplete(s.newUser) && ok
    ensures Consistent(r.state)
  {
    if !IsComplete(s.newUser) then
      SubmitResult(s, NoRequest, false)
    else
      var request := if s.isEditing then Put(s.editingUserId.value, s.newUser) else Post(s.newUser);
      var closed := s.(newUser := EmptyDraft, showModal := false, isEditing := false, editingUserId := None);
      SubmitResult(closed, request, ok)
  }

  /**
   * `handleEdit`: opens the dialog in edit mode on the first record with the
   * id. With no such record the handler throws before touching any state,
   * which is the `None` outcome.
   */
  function Edit(s: State, id: UserId): (r: Option<State>)
    ensures r.None? <==> !HasId(s.data, id)
    ensures r.Some? ==> FindById(s.data, id).Some? && r.value.newUser == DraftOf(FindById(s.data, id).value)
    ensures r.Some? ==> r.value.editingUserId == Some(id) && r.value.isEditing && r.value.showModal
    ensures r.Some? ==> r.value.data == s.data && r.value.showTokenModal == s.showTokenModal &&
                        r.value.jwttoken == s.jwttoken
    ensures r.Some? ==> Consistent(r.value)
  {
    match FindById(s.data, id)
    case None => None
    case Some(u) =>
      Some(s.(newUser := DraftOf(u), editingUserId := Some(id), isEditing := true, showModal := true))
  }

  /** `handleDelete`: on success every record with the id leaves the list. */
  function Delete(s: State, id: UserId, ok: bool): (r: State)
    ensures ok ==> forall u :: u in r.data <==> u in s.data && u.id != id
    ensures ok ==> r.data == RemoveById(s.data, id)
    ensures !ok ==> r == s
    ensures r.(data := s.data) == s
    ensures Consistent(s) ==> Consistent(r)
  {
    if ok then s.(data := RemoveById(s.data, id)) else s
  }

  /** `handleGenerateToken`: a successful response's token is stored and shown. */
  function GenerateToken(s: State, ok: bool, token: string): (r: State)
    ensures ok ==> r.jwttoken == token && r.showTokenModal
    ensures !ok ==> r == s
    ensures r.(jwttoken := s.jwttoken, showTokenModal := s.showTokenModal) == s
    ensures Consistent(s) ==> Consistent(r)
  {
    if ok then s.(jwttoken := token, showTokenModal := true) else s
  }

  /** The "+ Add User" button: opens the dialog and nothing else. */
  function OpenAdd(s: State): (r: State)
    ensures r.showModal
    ensures r.(showModal := s.showModal) == s
    ensures Consistent(s) ==> Consistent(r)
  {
    s.(showModal := true)
  }

  /** Either Close button of the dialog: hides it; draft and edit mode stay. */
  function CloseModal(s: State): (r: State)
    ensures !r.showModal
    ensures r.newUser == s.newUser && r.isEditing == s.isEditing && r.editingUserId == s.editingUserId
    ensures r.(showModal := s.showModal) == s
    ensures Consistent(s) ==> Consistent(r)
  {
    s.(showModal := false)
  }

  /** The token dialog's close button: hides it; the token is kept. */
  function CloseTokenModal(s: State): (r: State)
    ensures !r.showTokenModal
    ensures r.jwttoken == s.jwttoken
    ensures r.(showTokenModal := s.showTokenModal) == s
    ensures Consistent(s) ==> Consistent(r)
  {
    s.(showTokenModal := false)
  }

  /** One user action or network callback, with the outcome of its call. */
  datatype Event =
    | Loaded(ok: bool, users: seq<User>)
    | FieldChanged(field: Field, value: string)
    | Submitted(saved: bool)
    | EditClicked(id: UserId)
    | DeleteClicked(id: UserId, deleted: bool)
    | TokenRequested(issued: bool, token: string)
    | AddClicked
    | CloseClicked
    | TokenCloseClicked
    | CopyClicked

  /** The state after one event; an edit of a missing id leaves the state as it was. */
  function Step(s: State, e: Event): (r: State)
    requires Consistent(s)
    ensures Consistent(r)
  {
    match e
    case Loaded(ok, users) => Load(s, ok, users)
    case FieldChanged(f, v) => InputChange(s, f, v)
    case Submitted(saved) => Submit(s, saved).state
    case EditClicked(id) => (match Edit(s, id) case None => s case Some(t) => t)
    case DeleteClicked(id, deleted) => Delete(s, id, deleted)
    case TokenRequested(issued, token) => GenerateToken(s, issued, token)
    case AddClicked => OpenAdd(s)
    case CloseClicked => CloseModal(s)
    case TokenCloseClicked => CloseTokenModal(s)
    case CopyClicked => s
  }

  /** The state after a whole sequence of events, handled one at a time. */
  function Run(s: State, es: seq<Event>): (r: State)
    requires Consistent(s)
    ensures Consistent(r)
    decreases |es|
  {
    if es == [] then s else Run(Step(s, es[0]), es[1..])
  }

  /** The events that can change the record list. */
  predicate ChangesData(e: Event)
  {
    (e.Loaded? && e.ok) || (e.DeleteClicked? && e.deleted)
  }

  /**
   * Re-fetch discipline: the list changes only through a successful load or
   * a successful delete; submits, edits and dialog buttons never touch it.
   */
  lemma {:induction false} DataOnlyChangedByLoadOrDelete(s: State, es: seq<Event>)
    requires Consistent(s)
    requires forall i :: 0 <= i < |es| ==> !ChangesData(es[i])
    ensures Run(s, es).data == s.data
    decreases |es|
  {
    if es != [] {
      assert !ChangesData(es[0]);
      DataOnlyChangedByLoadOrDelete(Step(s, es[0]), es[1..]);
    }
  }

  /**
   * The token changes only through a successful token response: if none
   * occurs, the token (and the token dialog being hidden) survive any run.
   */
  lemma {:induction false} TokenOnlyChangedByIssue(s: State, es: seq<Event>)
    requires Consistent(s)
    requires forall i :: 0 <= i < |es| ==> !(es[i].TokenRequested? && es[i].issued)
    ensures Run(s, es).jwttoken == s.jwttoken
    ensures !s.showTokenModal ==> !Run(s, es).showTokenModal
    decreases |es|
  {
    if es != [] {
      TokenOnlyChangedByIssue(Step(s, es[0]), es[1..]);
    }
  }

  /**
   * Because Close keeps edit mode, "+ Add User" after closing an edit dialog
   * reopens it in edit mode, and a submit then updates the record that was
   * being edited rather than creating a new one.
   */
  lemma AddAfterClosedEditUpdates(s: State, id: UserId, saved: bool)
    requires Consistent(s) && HasId(s.data, id)
    requires IsComplete(DraftOf(FindById(s.data, id).value))
    ensures Submit(OpenAdd(CloseModal(Edit(s, id).value)), saved).request
            == Put(id, DraftOf(FindById(s.data, id).value))
  {
  }
}
