/** The add-member dialog: a select of the users not yet in the group and a
    submit that hands the chosen id, as the option's text, to the page. */
module AddMemberModal {
  import opened Common
  import opened Domain
  import opened Numbers

  /** One `<option>`: its value attribute and its label. */
  datatype UserOption = UserOption(value: string, username: string, email: string)

  /** The options after the "Choose a user..." placeholder, whose value is "". */
  function Options(availableUsers: seq<User>): (r: seq<UserOption>)
    ensures |r| == |availableUsers|
    ensures forall i :: 0 <= i < |r| ==>
      r[i].value != "" && ParseInt(r[i].value) == Some(availableUsers[i].id) &&
      r[i].username == availableUsers[i].username && r[i].email == availableUsers[i].email
    // different users never share a value, so the chosen value names one user
    ensures forall i, j :: 0 <= i < |r| && 0 <= j < |r| && availableUsers[i].id != availableUsers[j].id ==>
      r[i].value != r[j].value
  {
    if availableUsers == [] then []
    else
      var u := availableUsers[0];
      ParseIntOfIntToString(u.id);
      [UserOption(IntToString(u.id), u.username, u.email)] + Options(availableUsers[1..])
  }

  /** "All users are already members of this group." is shown exactly when
      nobody is left to add. */
  function AllMembersNotice(availableUsers: seq<User>): (shown: bool)
    ensures shown <==> Options(availableUsers) == []
  {
    |availableUsers| == 0
  }

  /** The submit button is enabled only when a real option is selected,
      nothing is in flight and somebody is left to add. */
  function SubmitDisabledFor(selected: string, isLoading: bool, availableUsers: seq<User>): (disabled: bool)
    ensures disabled <==> selected == "" || isLoading || Options(availableUsers) == []
  {
    selected == "" || isLoading || |availableUsers| == 0
  }

  /** Picking any listed user while idle enables the button, and the value
      it then submits reads back as that user's id. */
  lemma {:induction false} ChoosingAnOptionEnablesSubmit(availableUsers: seq<User>, i: nat)
    requires i < |availableUsers|
    ensures !SubmitDisabledFor(Options(availableUsers)[i].value, false, availableUsers)
    ensures ParseInt(Options(availableUsers)[i].value) == Some(availableUsers[i].id)
  {
    var o := Options(availableUsers);
    assert o[i].value != "";
  }

  class Dialog {
    var selectedUserId: string
    var isLoading: bool

    constructor ()
      ensures selectedUserId == "" && !isLoading
    {
      selectedUserId, isLoading := "", false;
    }

    /** The select's `onChange`. */
    method Select(value: string)
      modifies this`selectedUserId
      ensures selectedUserId == value
    {
      selectedUserId := value;
    }

    /** The submit button's `disabled` attribute. */
    predicate SubmitDisabled(availableUsers: seq<User>)
      reads this
    {
      SubmitDisabledFor(selectedUserId, isLoading, availableUsers)
    }

    /** A click on the submit button: a disabled button does nothing, an
        enabled one runs `handleSubmit`, so the page's `onAddMember` always
        receives the selection that enabled the button. */
    method ClickSubmit(availableUsers: seq<User>, addition: Outcome) returns (called: Option<string>)
      modifies this
      ensures old(SubmitDisabled(availableUsers)) ==>
        called.None? && selectedUserId == old(selectedUserId) && isLoading == old(isLoading)
      ensures !old(SubmitDisabled(availableUsers)) ==>
        called == Some(old(selectedUserId)) && !isLoading &&
        selectedUserId == (if addition.Returned? then "" else old(selectedUserId))
    {
      if SubmitDisabled(availableUsers) {
        return None;
      }
      called := HandleSubmit(addition);
    }

    /** `handleSubmit`: with no selection nothing is sent; otherwise the
        selection is handed to `onAddMember` (whose outcome is the parameter),
        cleared if that returned and kept if it threw, and loading ends. */
    method HandleSubmit(addition: Outcome) returns (called: Option<string>)
      modifies this
      ensures old(selectedUserId) == "" ==>
        called.None? && selectedUserId == old(selectedUserId) && isLoading == old(isLoading)
      ensures old(selectedUserId) != "" ==>
        called == Some(old(selectedUserId)) && !isLoading &&
        selectedUserId == (if addition.Returned? then "" else old(selectedUserId))
    {
      if selectedUserId == "" {
        return None;
      }
      isLoading := true;
      called := Some(selectedUserId);
      if addition.Returned? {
        selectedUserId := "";
      }
      isLoading := false;
    }
  }
}
