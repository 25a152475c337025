/** The `UserList` component as an object whose handlers update its state fields in place. */
module UserListComponent {
  import opened Users
  import opened Api
  import S = UserListState

  class UserList {
    var users: seq<User>
    var showAddModal: bool
    var showEditModal: bool
    var currentUser: Option<User>
    var userName: string
    var userEmail: string
    var userDob: string
    var userPassword: string

    /** The fields as a state value, the form the handlers' specifications take. */
    ghost function View(): S.State
      reads this
    {
      S.State(users, showAddModal, showEditModal, currentUser, userName, userEmail, userDob, userPassword)
    }

    /** The `useState` initial values. */
    constructor ()
      ensures View() == S.Initial()
    {
      users := [];
      showAddModal := false;
      showEditModal := false;
      currentUser := None;
      userName := "";
      userEmail := "";
      userDob := "";
      userPassword := "";
    }

    /** The mount effect, given the outcome of `GET /users`; a failure is only logged. */
    method LoadUsers(fetched: Reply<seq<User>>)
      modifies this
      ensures View() == S.Loaded(old(View()), fetched)
    {
      if fetched.Ok? {
        users := fetched.data;
      }
    }

    /** `resetForm`. */
    method ResetForm()
      modifies this
      ensures View() == S.ResetForm(old(View()))
    {
      userName := "";
      userEmail := "";
      userDob := "";
      userPassword := "";
      currentUser := None;
    }

    /** `handleAddButtonClick`: `resetForm`, then open the add modal. */
    method HandleAddButtonClick()
      modifies this
      ensures View() == S.AddButtonClick(old(View()))
    {
      ResetForm();
      showAddModal := true;
    }

    /** `handleEdit(user)`, run from a table row's Edit button. */
    method HandleEdit(user: User)
      modifies this
      ensures View() == S.Edit(old(View()), user)
    {
      currentUser := Some(user);
      userName := user.name;
      userEmail := user.email;
      userDob := user.dob;
      userPassword := "";
      showEditModal := true;
    }

    /** `handleDelete(userId)`, given the confirm dialog's answer and the outcome of the
        delete call; `called` tells whether `DELETE /users/{userId}` was issued. */
    method HandleDelete(userId: Id, confirmed: bool, outcome: Ack) returns (called: bool)
      modifies this
      ensures called == confirmed
      ensures View() == S.Delete(old(View()), userId, confirmed, outcome)
    {
      called := false;
      if confirmed {
        called := true;
        if outcome == Acked {
          users := WithoutId(users, userId);
        }
      }
    }

    /** `handlecreateUser`, given the outcome of the create call; `sent` is the posted body. */
    method HandleCreateUser(created: Reply<User>) returns (sent: Fields)
      modifies this
      ensures sent == S.CreateRequest(old(View()))
      ensures View() == S.Create(old(View()), created)
    {
      var newUser := Fields(userName, userEmail, userDob, userPassword);
      sent := newUser;
      if created.Ok? {
        users := users + [created.data];
        showAddModal := false;
        ResetForm();
      }
    }

    /** `handleSubmitEdit`, given the outcome of the update call; `sent` is the request issued,
        `None` when there is no `currentUser` and the handler throws before calling. */
    method HandleSubmitEdit(outcome: Ack) returns (sent: Option<UpdateRequest>)
      modifies this
      ensures sent == S.EditRequest(old(View()))
      ensures View() == S.SubmitEdit(old(View()), outcome)
    {
      if currentUser.None? {
        sent := None;
        return;
      }
      var current := currentUser.value;
      var updatedUser := Fields(userName, userEmail, userDob, PasswordToSend(userPassword, current));
      sent := Some(UpdateRequest(current.id, updatedUser));
      if outcome == Acked {
        users := ApplyEdit(users, current.id, updatedUser);
        showEditModal := false;
        ResetForm();
      }
    }

    /** The add modal's Cancel button. */
    method CancelAdd()
      modifies this
      ensures View() == S.CancelAdd(old(View()))
    {
      showAddModal := false;
    }

    /** The edit modal's Cancel button. */
    method CancelEdit()
      modifies this
      ensures View() == S.CancelEdit(old(View()))
    {
      showEditModal := false;
    }

    /** The name input's change handler (both forms). */
    method SetUserName(text: string)
      modifies this
      ensures View() == old(View()).(userName := text)
    {
      userName := text;
    }

    /** The email input's change handler (both forms). */
    method SetUserEmail(text: string)
      modifies this
      ensures View() == old(View()).(userEmail := text)
    {
      userEmail := text;
    }

    /** The date-of-birth input's change handler (both forms). */
    method SetUserDob(text: string)
      modifies this
      ensures View() == old(View()).(userDob := text)
    {
      userDob := text;
    }

    /** The password input's change handler (add form only). */
    method SetUserPassword(text: string)
      modifies this
      ensures View() == old(View()).(userPassword := text)
    {
      userPassword := text;
    }
  }
}
