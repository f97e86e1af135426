/**
 * The `Crud` component itself: its seven `useState` variables are fields,
 * and each handler updates them setter by setter. Every method states its
 * whole new state as the matching CrudModel transition of the old state.
 */
module CrudComponent {
  import opened Options
  import opened Users
  import CrudModel

  class Crud {
    var showModal: bool
    var newUser: Draft
    var data: seq<User>
    var isEditing: bool
    var showTokenModal: bool
    var editingUserId: Option<UserId>
    var jwttoken: string

    /** The current values of the seven state variables. */
    function Snapshot(): CrudModel.State
      reads this
    {
      CrudModel.State(showModal, newUser, data, isEditing, editingUserId, showTokenModal, jwttoken)
    }

    ghost predicate Valid()
      reads this
    {
      CrudModel.Consistent(Snapshot())
    }

    /** The `useState` initial values. */
    constructor ()
      ensures Valid()
      ensures Snapshot() == CrudModel.Initial
    {
      showModal := false;
      newUser := EmptyDraft;
      data := [];
      isEditing := false;
      showTokenModal := false;
      editingUserId := None;
      jwttoken := "";
    }

    /** `fetchUsers`, also run once on mount; `ok` is `response.ok` with no exception. */
    method FetchUsers(ok: bool, users: seq<User>)
      requires Valid()
      modifies this
      ensures Valid()
      ensures Snapshot() == CrudModel.Load(old(Snapshot()), ok, users)
    {
      if ok {
        data := users;
      }
    }

    /** `handleInputChange` for the input named `field`. */
    method HandleInputChange(field: Field, value: string)
      requires Valid()
      modifies this
      ensures Valid()
      ensures Snapshot() == CrudModel.InputChange(old(Snapshot()), field, value)
    {
      newUser := WithField(newUser, field, value);
    }

    /**
     * `handleAddUser`; `ok` is whether the create/update call succeeded.
     * Returns the request sent and whether `fetchUsers` is started, which the
     * caller then runs as a FetchUsers step of its own.
     */
    method HandleAddUser(ok: bool) returns (request: CrudModel.Request, reload: bool)
      requires Valid()
      modifies this
      ensures Valid()
      ensures CrudModel.Submit(old(Snapshot()), ok) == CrudModel.SubmitResult(Snapshot(), request, reload)
    {
      request, reload := CrudModel.NoRequest, false;
      if newUser.name != "" && newUser.age != "" && newUser.email != "" {
        if isEditing {
          request := CrudModel.Put(editingUserId.value, newUser);
        } else {
          request := CrudModel.Post(newUser);
        }
        reload := ok;
        newUser := EmptyDraft;
        showModal := false;
        isEditing := false;
        editingUserId := None;
      }
    }

    /**
     * `handleEdit`; `found` is false when no record has the id, where the
     * source throws before any setter runs.
     */
    method HandleEdit(id: UserId) returns (found: bool)
      requires Valid()
      modifies this
      ensures Valid()
      ensures found == CrudModel.Edit(old(Snapshot()), id).Some?
      ensures Snapshot() == if found then CrudModel.Edit(old(Snapshot()), id).value else old(Snapshot())
    {
      var userToEdit := FindById(data, id);
      if userToEdit.None? {
        return false;
      }
      var u := userToEdit.value;
      newUser := Draft(u.name, u.age, u.email);
      editingUserId := Some(id);
      isEditing := true;
      showModal := true;
      found := true;
    }

    /** `handleDelete`; `ok` is whether the delete call succeeded. */
    method HandleDelete(id: UserId, ok: bool)
      requires Valid()
      modifies this
      ensures Valid()
      ensures Snapshot() == CrudModel.Delete(old(Snapshot()), id, ok)
    {
      if ok {
        data := RemoveById(data, id);
      }
    }

    /** `handleGenerateToken`; `ok` and `token` are the call's outcome and its `token` field. */
    method HandleGenerateToken(ok: bool, token: string)
      requires Valid()
      modifies this
      ensures Valid()
      ensures Snapshot() == CrudModel.GenerateToken(old(Snapshot()), ok, token)
    {
      if ok {
        jwttoken := token;
        showTokenModal := true;
      }
    }

    /** `copyToClipboard`: returns the text written to the clipboard and changes nothing. */
    method CopyToClipboard() returns (text: string)
      ensures text == jwttoken
    {
      text := jwttoken;
    }

    /** The "+ Add User" button. */
    method OpenAddModal()
      requires Valid()
      modifies this
      ensures Valid()
      ensures Snapshot() == CrudModel.OpenAdd(old(Snapshot()))
    {
      showModal := true;
    }

    /** The dialog's header and footer Close buttons. */
    method CloseModal()
      requires Valid()
      modifies this
      ensures Valid()
      ensures Snapshot() == CrudModel.CloseModal(old(Snapshot()))
    {
      showModal := false;
    }

    /** The token dialog's close button. */
    method CloseTokenModal()
      requires Valid()
      modifies this
      ensures Valid()
      ensures Snapshot() == CrudModel.CloseTokenModal(old(Snapshot()))
    {
      showTokenModal := false;
    }
  }

  /**
   * Editing a record and submitting it unchanged when the update call fails:
   * the update request goes out, yet the dialog still closes, the draft is
   * reset and the list is neither changed nor reloaded.
   */
  method UpdateFailureStillCloses(c: Crud, id: UserId) returns (request: CrudModel.Request)
    requires c.Valid() && HasId(c.data, id)
    requires IsComplete(DraftOf(FindById(c.data, id).value))
    modifies c
    ensures c.Valid()
    ensures request == CrudModel.Put(id, DraftOf(FindById(old(c.data), id).value))
    ensures !c.showModal && !c.isEditing && c.newUser == EmptyDraft && c.data == old(c.data)
  {
    var found := c.HandleEdit(id);
    assert found;
    var reload;
    request, reload := c.HandleAddUser(false);
    assert !reload;
  }
}
