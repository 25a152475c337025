/** The state of the user list component as a value, one function per handler, and the
    sequences of interactions the rendered page lets a user perform. */
module UserListState {
  import opened Users
  import opened Api

  /** The component's eight pieces of state (`useState` slots). */
  datatype State = State(
    users: seq<User>,
    showAddModal: bool,
    showEditModal: bool,
    currentUser: Option<User>,
    userName: string,
    userEmail: string,
    userDob: string,
    userPassword: string)

  /** The state on first render: an empty list, both modals closed, a blank form. */
  function Initial(): (r: State)
    ensures r.users == [] && !r.showAddModal && !r.showEditModal && FormCleared(r)
  {
    State([], false, false, None, "", "", "", "")
  }

  /** The four form strings are empty and no record is being edited. */
  predicate FormCleared(s: State) {
    s.currentUser == None && s.userName == "" && s.userEmail == "" && s.userDob == "" && s.userPassword == ""
  }

  /** `resetForm`: clears the form and `currentUser`, nothing else. */
  function ResetForm(s: State): (r: State)
    ensures FormCleared(r)
    ensures r.users == s.users && r.showAddModal == s.showAddModal && r.showEditModal == s.showEditModal
  {
    s.(currentUser := None, userName := "", userEmail := "", userDob := "", userPassword := "")
  }

  /** `handleAddButtonClick`: a blank form in an open add modal. */
  function AddButtonClick(s: State): (r: State)
    ensures FormCleared(r) && r.showAddModal
    ensures r.users == s.users && r.showEditModal == s.showEditModal
  {
    ResetForm(s).(showAddModal := true)
  }

  /** `handleEdit(user)`: the edit modal opens on a form filled from `user`, password left blank. */
  function Edit(s: State, user: User): (r: State)
    ensures r.currentUser == Some(user) && r.showEditModal
    ensures r.userName == user.name && r.userEmail == user.email && r.userDob == user.dob
    ensures r.userPassword == ""
    ensures r.users == s.users && r.showAddModal == s.showAddModal
  {
    s.(currentUser := Some(user), userName := user.name, userEmail := user.email, userDob := user.dob,
       userPassword := "", showEditModal := true)
  }

  /** `handleDelete(id)` with the confirm answer and the outcome of `DELETE /users/{id}`:
      only the list can change, and only when the user confirmed and the server acknowledged. */
  function Delete(s: State, id: Id, confirmed: bool, outcome: Ack): (r: State)
    ensures r.(users := s.users) == s
    ensures confirmed && outcome == Acked ==> r.users == WithoutId(s.users, id)
    ensures !confirmed || outcome == Rejected ==> r == s
  {
    if confirmed && outcome == Acked then s.(users := WithoutId(s.users, id)) else s
  }

  /** The body `handlecreateUser` posts: the form as it stands. */
  function CreateRequest(s: State): (r: Fields)
    ensures r.name == s.userName && r.email == s.userEmail && r.dob == s.userDob
    ensures r.password == s.userPassword
  {
    Fields(s.userName, s.userEmail, s.userDob, s.userPassword)
  }

  /** `handlecreateUser` with the outcome of `POST /users`: on success the server's record is
      appended, the add modal closes and the form is reset; on failure nothing changes. */
  function Create(s: State, created: Reply<User>): (r: State)
    ensures created.Ok? ==>
              && |r.users| == |s.users| + 1
              && r.users[..|s.users|] == s.users
              && r.users[|s.users|] == created.data
              && !r.showAddModal && r.showEditModal == s.showEditModal
              && FormCleared(r)
    ensures created.Error? ==> r == s
  {
    match created
    case Ok(record) => ResetForm(s.(users := s.users + [record], showAddModal := false))
    case Error => s
  }

  /** The request `handleSubmitEdit` issues, or `None` when `currentUser` is `null`
      (reading `currentUser.password` or `currentUser.id` throws before any call is made). */
  function EditRequest(s: State): (r: Option<UpdateRequest>)
    ensures r.Some? <==> s.currentUser.Some?
    ensures r.Some? ==>
              && r.value.id == s.currentUser.value.id
              && r.value.body.name == s.userName && r.value.body.email == s.userEmail
              && r.value.body.dob == s.userDob
              && r.value.body.password == PasswordToSend(s.userPassword, s.currentUser.value)
  {
    match s.currentUser
    case None => None
    case Some(current) =>
      Some(UpdateRequest(current.id, Fields(s.userName, s.userEmail, s.userDob,
                                            PasswordToSend(s.userPassword, current))))
  }

  /** `handleSubmitEdit` with the outcome of `PUT /users/{id}`: on success the submitted fields
      are merged into every record with that id, the edit modal closes and the form is reset;
      when no call is made or it fails nothing changes. */
  function SubmitEdit(s: State, outcome: Ack): (r: State)
    ensures EditRequest(s).None? || outcome == Rejected ==> r == s
    ensures EditRequest(s).Some? && outcome == Acked ==>
              && r.users == ApplyEdit(s.users, s.currentUser.value.id, EditRequest(s).value.body)
              && !r.showEditModal && r.showAddModal == s.showAddModal
              && FormCleared(r)
  {
    match EditRequest(s)
    case None => s
    case Some(request) =>
      if outcome == Rejected then s
      else ResetForm(s.(users := ApplyEdit(s.users, request.id, request.body), showEditModal := false))
  }

  /** The add modal's Cancel button: closes that modal and touches nothing else. */
  function CancelAdd(s: State): (r: State)
    ensures !r.showAddModal && r.(showAddModal := s.showAddModal) == s
  {
    s.(showAddModal := false)
  }

  /** The edit modal's Cancel button: closes that modal and touches nothing else. */
  function CancelEdit(s: State): (r: State)
    ensures !r.showEditModal && r.(showEditModal := s.showEditModal) == s
  {
    s.(showEditModal := false)
  }

  /** The mount effect with the outcome of `GET /users`: the fetched list replaces the local one. */
  function Loaded(s: State, fetched: Reply<seq<User>>): (r: State)
    ensures r.(users := s.users) == s
    ensures fetched.Ok? ==> r.users == fetched.data
    ensures fetched.Error? ==> r == s
  {
    match fetched
    case Ok(list) => s.(users := list)
    case Error => s
  }

  /** One user interaction, or the arrival of the initial list, with the answers the
      browser and the server give to it. */
  datatype Event =
    | LoadFinished(fetched: Reply<seq<User>>)
    | AddClicked
    | EditClicked(user: User)
    | DeleteClicked(row: User, confirmed: bool, outcome: Ack)
    | NameTyped(text: string)
    | EmailTyped(text: string)
    | DobTyped(text: string)
    | PasswordTyped(text: string)
    | AddSubmitted(created: Reply<User>)
    | EditSubmitted(outcome: Ack)
    | AddCancelled
    | EditCancelled

  /** The handler each interaction runs. */
  function Step(s: State, e: Event): State {
    match e
    case LoadFinished(fetched) => Loaded(s, fetched)
    case AddClicked => AddButtonClick(s)
    case EditClicked(user) => Edit(s, user)
    case DeleteClicked(row, confirmed, outcome) => Delete(s, row.id, confirmed, outcome)
    case NameTyped(text) => s.(userName := text)
    case EmailTyped(text) => s.(userEmail := text)
    case DobTyped(text) => s.(userDob := text)
    case PasswordTyped(text) => s.(userPassword := text)
    case AddSubmitted(created) => Create(s, created)
    case EditSubmitted(outcome) => SubmitEdit(s, outcome)
    case AddCancelled => CancelAdd(s)
    case EditCancelled => CancelEdit(s)
  }

  /** Whether the model lets a visitor perform `e` in state `s`, following what the markup
      offers to pointer input. Each open modal lies over a full-screen backdrop, so the Add
      button and the table's row buttons are allowed only while both modals are closed; the edit
      modal is rendered after the add modal, so it is the one on top. The edit form has no
      password input. A row button acts on a listed record. Keyboard focus, which the backdrops
      do not trap, is not covered. */
  predicate Enabled(s: State, e: Event) {
    match e
    case LoadFinished(_) => true
    case AddClicked => !s.showAddModal && !s.showEditModal
    case EditClicked(user) => !s.showAddModal && !s.showEditModal && user in s.users
    case DeleteClicked(row, _, _) => !s.showAddModal && !s.showEditModal && row in s.users
    case NameTyped(_) => s.showAddModal || s.showEditModal
    case EmailTyped(_) => s.showAddModal || s.showEditModal
    case DobTyped(_) => s.showAddModal || s.showEditModal
    case PasswordTyped(_) => s.showAddModal && !s.showEditModal
    case AddSubmitted(_) => s.showAddModal && !s.showEditModal
    case AddCancelled => s.showAddModal && !s.showEditModal
    case EditSubmitted(_) => s.showEditModal
    case EditCancelled => s.showEditModal
  }

  /** The state after the interactions `events`, in order. */
  function Run(s: State, events: seq<Event>): State
    decreases |events|
  {
    if events == [] then s else Run(Step(s, events[0]), events[1..])
  }

  /** Every interaction of `events` is possible at the point where it happens. */
  predicate Admissible(s: State, events: seq<Event>)
    decreases |events|
  {
    events == [] || (Enabled(s, events[0]) && Admissible(Step(s, events[0]), events[1..]))
  }

  /** At most one modal is open, and an open edit modal has a record to edit and a blank password. */
  predicate Consistent(s: State) {
    && !(s.showAddModal && s.showEditModal)
    && (s.showEditModal ==> s.currentUser.Some? && s.userPassword == "")
  }

  /** Every possible interaction keeps the state consistent. */
  lemma StepKeepsConsistent(s: State, e: Event)
    requires Consistent(s) && Enabled(s, e)
    ensures Consistent(Step(s, e))
  {
  }

  /** Every possible sequence of interactions keeps the state consistent. */
  lemma {:induction false} RunKeepsConsistent(s: State, events: seq<Event>)
    requires Consistent(s) && Admissible(s, events)
    ensures Consistent(Run(s, events))
    decreases |events|
  {
    if events != [] {
      StepKeepsConsistent(s, events[0]);
      RunKeepsConsistent(Step(s, events[0]), events[1..]);
    }
  }

  /** In any state reached by a run that `Enabled` admits, submitting the edit form issues an update for the
      record being edited whose password is that record's stored password. */
  lemma EditSubmitSendsStoredPassword(events: seq<Event>)
    requires Admissible(Initial(), events)
    requires Run(Initial(), events).showEditModal
    ensures var s := Run(Initial(), events);
            && s.currentUser.Some?
            && EditRequest(s) == Some(UpdateRequest(s.currentUser.value.id,
                 Fields(s.userName, s.userEmail, s.userDob, s.currentUser.value.password)))
  {
    RunKeepsConsistent(Initial(), events);
  }

  /** Saving right after opening the edit modal sends the record's own fields back. */
  lemma EditThenSubmitSendsRecord(s: State, user: User)
    ensures EditRequest(Edit(s, user)) ==
            Some(UpdateRequest(user.id, Fields(user.name, user.email, user.dob, user.password)))
  {
  }
}
