/** The group workspace page: four independent loaders, the expense and
    member mutations with their targeted reloads, the edit slot and the
    expense dialog's visibility, and the settlement panel with its cached
    snapshot. */
module GroupDetail {
  import opened Common
  import opened Domain
  import opened Numbers
  import opened Seqs
  import CreateExpenseModal

  /** The expense opened for editing: its own fields plus the shares of the
      matching loaded entry. */
  datatype EditingExpense = EditingExpense(id: ExpenseId, description: string, amount: real, paidBy: UserId, expenseType: string, shares: seq<ShareRow>)

  /** `POST /expenses/create/{strategy}`: the dialog's payload with the
      group id added. `parseFloat` of a number and `parseInt` of an integer
      give it back, so amount and payer pass through unchanged. */
  datatype CreateRequest = CreateRequest(strategy: CreateExpenseModal.ExpenseType, payload: CreateExpenseModal.ExpensePayload, groupId: Option<int>)

  /** `PUT /expenses/{id}/update/{strategy}`. */
  datatype UpdateRequest = UpdateRequest(expenseId: ExpenseId, strategy: CreateExpenseModal.ExpenseType, payload: CreateExpenseModal.ExpensePayload, groupId: Option<int>)

  /** `POST /settlements/groups/{id}/mark-paid`. */
  datatype MarkPaidRequest = MarkPaidRequest(groupRoute: string, body: Payment)

  /** `POST /groups/{id}/members?user_id={userId}`: the id goes out as the
      dialog's option text. */
  datatype AddMemberRequest = AddMemberRequest(groupRoute: string, userId: string)

  /** `DELETE /groups/{id}/members/{userId}`. */
  datatype RemoveMemberRequest = RemoveMemberRequest(groupRoute: string, userId: UserId)

  /** `DELETE /expenses/{expenseId}`. */
  datatype DeleteExpenseRequest = DeleteExpenseRequest(expenseId: ExpenseId)

  predicate IsMemberUser(members: seq<Member>, u: User) {
    exists m :: m in members && m.userId == u.id
  }

  /** `availableUsers`: the directory entries that are not yet members, in
      directory order. */
  function AvailableUsers(allUsers: seq<User>, members: seq<Member>): (r: seq<User>)
    ensures forall u :: u in r <==> u in allUsers && forall m :: m in members ==> m.userId != u.id
    ensures forall u :: multiset(r)[u] == if IsMemberUser(members, u) then 0 else multiset(allUsers)[u]
    ensures IsSubsequence(r, allUsers)
  {
    FilterIsSubsequence(allUsers, u => !IsMemberUser(members, u));
    FilterCounts(allUsers, u => !IsMemberUser(members, u));
    Filter(allUsers, u => !IsMemberUser(members, u))
  }

  /** A group without members offers the whole directory. */
  lemma NoMembersOffersEveryone(allUsers: seq<User>)
    ensures AvailableUsers(allUsers, []) == allUsers
  {
    FilterKeepsAll(allUsers, u => !IsMemberUser([], u));
  }

  predicate IsOtherExpense(expenseId: ExpenseId, e: ExpenseEntry) {
    e.expense.id != expenseId
  }

  /** The local update after a successful delete: every entry with that id
      goes, the others stay in order. */
  function WithoutExpense(expenses: seq<ExpenseEntry>, expenseId: ExpenseId): (r: seq<ExpenseEntry>)
    ensures forall e :: e in r <==> e in expenses && e.expense.id != expenseId
    ensures forall e :: multiset(r)[e] == if e.expense.id == expenseId then 0 else multiset(expenses)[e]
    ensures IsSubsequence(r, expenses)
  {
    FilterIsSubsequence(expenses, e => IsOtherExpense(expenseId, e));
    FilterCounts(expenses, e => IsOtherExpense(expenseId, e));
    Filter(expenses, e => IsOtherExpense(expenseId, e))
  }

  /** Deleting an id that is not loaded leaves the list as it is. */
  lemma WithoutAbsentExpense(expenses: seq<ExpenseEntry>, expenseId: ExpenseId)
    requires forall e :: e in expenses ==> e.expense.id != expenseId
    ensures WithoutExpense(expenses, expenseId) == expenses
  {
    FilterKeepsAll(expenses, e => IsOtherExpense(expenseId, e));
  }

  /** Deleting twice is deleting once. */
  lemma WithoutExpenseIdempotent(expenses: seq<ExpenseEntry>, expenseId: ExpenseId)
    ensures WithoutExpense(WithoutExpense(expenses, expenseId), expenseId) == WithoutExpense(expenses, expenseId)
  {
    FilterIdempotent(expenses, e => IsOtherExpense(expenseId, e));
  }

  predicate IsExpense(expenseId: ExpenseId, e: ExpenseEntry) {
    e.expense.id == expenseId
  }

  /** `handleEditExpense`'s slot: the clicked expense's fields, with the
      shares of the first loaded entry with that id, or none. */
  function EditSlotFor(expenses: seq<ExpenseEntry>, item: Expense): (slot: EditingExpense)
    ensures slot.id == item.id && slot.description == item.description && slot.amount == item.amount
    ensures slot.paidBy == item.paidBy && slot.expenseType == item.expenseType
    ensures (forall e :: e in expenses ==> e.expense.id != item.id) ==> slot.shares == []
    ensures (exists e :: e in expenses && e.expense.id == item.id) ==>
              exists e :: e in expenses && e.expense.id == item.id && slot.shares == e.shares
  {
    var shares := match Find(expenses, e => IsExpense(item.id, e)) case Some(e) => e.shares case None => [];
    EditingExpense(item.id, item.description, item.amount, item.paidBy, item.expenseType, shares)
  }

  lemma EditSlotFirstMatch(expenses: seq<ExpenseEntry>, item: Expense, k: nat)
    requires k < |expenses| && expenses[k].expense.id == item.id
    requires forall j :: 0 <= j < k ==> expenses[j].expense.id != item.id
    ensures EditSlotFor(expenses, item).shares == expenses[k].shares
  {
    FindFirst(expenses, e => IsExpense(item.id, e), k);
  }

  /** The state of one group page. */
  class Workspace {
    const routeId: string
    var expenses: seq<ExpenseEntry>
    var group: Option<Group>
    var members: seq<Member>
    var allUsers: seq<User>
    var loading: bool
    var showAddMember: bool
    var showCreateExpense: bool
    var editingExpense: Option<EditingExpense>
    var settlements: Option<GroupSnapshot>
    var showSettlements: bool

    constructor (routeId: string)
      ensures this.routeId == routeId
      ensures expenses == [] && group.None? && members == [] && allUsers == []
      ensures loading && !showAddMember && !showCreateExpense && editingExpense.None?
      ensures settlements.None? && !showSettlements
    {
      this.routeId := routeId;
      expenses, group, members, allUsers := [], None, [], [];
      loading, showAddMember, showCreateExpense := true, false, false;
      editingExpense, settlements, showSettlements := None, None, false;
    }

    /** `loadGroup`: only this slice, and only on an ok reply. */
    method LoadGroup(reply: Response<Group>)
      modifies this`group
      ensures group == if reply.Ok? then Some(reply.data) else old(group)
    {
      if reply.Ok? {
        group := Some(reply.data);
      }
    }

    method LoadExpenses(reply: Response<seq<ExpenseEntry>>)
      modifies this`expenses
      ensures expenses == if reply.Ok? then reply.data else old(expenses)
    {
      if reply.Ok? {
        expenses := reply.data;
      }
    }

    method LoadMembers(reply: Response<seq<Member>>)
      modifies this`members
      ensures members == if reply.Ok? then reply.data else old(members)
    {
      if reply.Ok? {
        members := reply.data;
      }
    }

    method LoadAllUsers(reply: Response<seq<User>>)
      modifies this`allUsers
      ensures allUsers == if reply.Ok? then reply.data else old(allUsers)
    {
      if reply.Ok? {
        allUsers := reply.data;
      }
    }

    /** `loadGroupData`: the four loaders touch disjoint slices, so any order
        of completion gives this state; the page stops loading whatever
        failed. */
    method LoadGroupData(g: Response<Group>, e: Response<seq<ExpenseEntry>>, m: Response<seq<Member>>, u: Response<seq<User>>)
      modifies this`loading, this`group, this`expenses, this`members, this`allUsers
      ensures group == if g.Ok? then Some(g.data) else old(group)
      ensures expenses == if e.Ok? then e.data else old(expenses)
      ensures members == if m.Ok? then m.data else old(members)
      ensures allUsers == if u.Ok? then u.data else old(allUsers)
      ensures !loading
    {
      loading := true;
      LoadGroup(g);
      LoadExpenses(e);
      LoadMembers(m);
      LoadAllUsers(u);
      loading := false;
    }

    /** The mount effect: data is loaded only with a route id and a session. */
    method Mount(signedIn: bool, g: Response<Group>, e: Response<seq<ExpenseEntry>>, m: Response<seq<Member>>, u: Response<seq<User>>)
      modifies this`loading, this`group, this`expenses, this`members, this`allUsers
      ensures routeId == "" || !signedIn ==>
                loading == old(loading) && group == old(group) && expenses == old(expenses) &&
                members == old(members) && allUsers == old(allUsers)
      ensures routeId != "" && signedIn ==>
                !loading && group == (if g.Ok? then Some(g.data) else old(group)) &&
                expenses == (if e.Ok? then e.data else old(expenses)) &&
                members == (if m.Ok? then m.data else old(members)) &&
                allUsers == (if u.Ok? then u.data else old(allUsers))
    {
      if routeId != "" && signedIn {
        LoadGroupData(g, e, m, u);
      }
    }

    /** `handleAddMember`: on success the member list is reloaded and the
        add dialog closes; on failure the error reaches the dialog and
        nothing changes. */
    method HandleAddMember(userId: string, reply: Response<()>, reload: Response<seq<Member>>)
      returns (request: AddMemberRequest, r: Outcome)
      modifies this`members, this`showAddMember
      ensures request == AddMemberRequest(routeId, userId)
      ensures r.Returned? <==> reply.Ok?
      ensures reply.Ok? ==> members == (if reload.Ok? then reload.data else old(members)) && !showAddMember
      ensures !reply.Ok? ==> members == old(members) && showAddMember == old(showAddMember)
    {
      request := AddMemberRequest(routeId, userId);
      if reply.Ok? {
        LoadMembers(reload);
        showAddMember := false;
        r := Returned;
      } else {
        r := Raised;
      }
    }

    /** `handleRemoveMember`: on success the member list is reloaded. */
    method HandleRemoveMember(userId: UserId, reply: Response<()>, reload: Response<seq<Member>>)
      returns (request: RemoveMemberRequest, r: Outcome)
      modifies this`members
      ensures request == RemoveMemberRequest(routeId, userId)
      ensures r.Returned? <==> reply.Ok?
      ensures members == if reply.Ok? && reload.Ok? then reload.data else old(members)
    {
      request := RemoveMemberRequest(routeId, userId);
      if reply.Ok? {
        LoadMembers(reload);
        r := Returned;
      } else {
        r := Raised;
      }
    }

    /** `handleCreateExpense`: sends the payload to the endpoint of its own
        strategy with the route's group id; on success reloads the expenses
        and closes the dialog, on failure changes nothing and throws. */
    method HandleCreateExpense(data: CreateExpenseModal.ExpensePayload, reply: Response<()>, reload: Response<seq<ExpenseEntry>>)
      returns (request: CreateRequest, r: Outcome)
      modifies this`expenses, this`showCreateExpense
      ensures request.strategy == data.expenseType && request.payload == data && request.groupId == ParseInt(routeId)
      ensures r.Returned? <==> reply.Ok?
      ensures reply.Ok? ==> expenses == (if reload.Ok? then reload.data else old(expenses)) && !showCreateExpense
      ensures !reply.Ok? ==> expenses == old(expenses) && showCreateExpense == old(showCreateExpense)
    {
      request := CreateRequest(data.expenseType, data, ParseInt(routeId));
      if reply.Ok? {
        LoadExpenses(reload);
        showCreateExpense := false;
        r := Returned;
      } else {
        r := Raised;
      }
    }

    /** `handleEditExpense`: fills the edit slot and opens the dialog. */
    method HandleEditExpense(item: Expense)
      modifies this`editingExpense, this`showCreateExpense
      ensures editingExpense == Some(EditSlotFor(expenses, item)) && showCreateExpense
    {
      editingExpense := Some(EditSlotFor(expenses, item));
      showCreateExpense := true;
    }

    /** `handleUpdateExpense`: a no-op without an edit slot; otherwise sends
        the update for the slot's expense, and on success reloads the
        expenses, closes the dialog and clears the slot. A failed update
        throws and leaves everything as it was. */
    method HandleUpdateExpense(payload: CreateExpenseModal.ExpensePayload, reply: Response<()>, reload: Response<seq<ExpenseEntry>>)
      returns (request: Option<UpdateRequest>, r: Outcome)
      modifies this`expenses, this`showCreateExpense, this`editingExpense
      ensures old(editingExpense).None? ==>
                request.None? && r.Returned? && expenses == old(expenses) &&
                showCreateExpense == old(showCreateExpense) && editingExpense.None?
      ensures old(editingExpense).Some? ==>
                request == Some(UpdateRequest(old(editingExpense).value.id, payload.expenseType, payload, ParseInt(routeId)))
      ensures old(editingExpense).Some? && reply.Ok? ==>
                r.Returned? && expenses == (if reload.Ok? then reload.data else old(expenses)) &&
                !showCreateExpense && editingExpense.None?
      ensures old(editingExpense).Some? && !reply.Ok? ==>
                r.Raised? && expenses == old(expenses) &&
                showCreateExpense == old(showCreateExpense) && editingExpense == old(editingExpense)
    {
      if editingExpense.None? {
        request, r := None, Returned;
        return;
      }
      request := Some(UpdateRequest(editingExpense.value.id, payload.expenseType, payload, ParseInt(routeId)));
      if !reply.Ok? {
        r := Raised;
        return;
      }
      LoadExpenses(reload);
      showCreateExpense := false;
      editingExpense := None;
      r := Returned;
    }

    /** `handleDeleteExpense`: filters the list locally on success; a failure
        is alerted and changes nothing. Returns whether an alert shows. */
    method HandleDeleteExpense(expenseId: ExpenseId, reply: Response<()>)
      returns (request: DeleteExpenseRequest, alerted: bool)
      modifies this`expenses
      ensures request == DeleteExpenseRequest(expenseId)
      ensures alerted <==> !reply.Ok?
      ensures expenses == if reply.Ok? then WithoutExpense(old(expenses), expenseId) else old(expenses)
    {
      request := DeleteExpenseRequest(expenseId);
      if reply.Ok? {
        expenses := WithoutExpense(expenses, expenseId);
        alerted := false;
      } else {
        alerted := true;
      }
    }

    /** `loadGroupSettlements`: an ok reply replaces the snapshot and shows
        the panel; a failed one changes nothing. */
    method LoadGroupSettlements(reply: Response<GroupSnapshot>)
      modifies this`settlements, this`showSettlements
      ensures reply.Ok? ==> settlements == Some(reply.data) && showSettlements
      ensures !reply.Ok? ==> settlements == old(settlements) && showSettlements == old(showSettlements)
    {
      if reply.Ok? {
        settlements := Some(reply.data);
        showSettlements := true;
      }
    }

    /** `handleToggleSettlements`: hiding keeps the cached snapshot; showing
        loads first and then shows, even when the load failed (the panel
        then appears only if an older snapshot is cached). */
    method HandleToggleSettlements(reply: Response<GroupSnapshot>)
      modifies this`settlements, this`showSettlements
      ensures old(showSettlements) ==> !showSettlements && settlements == old(settlements)
      ensures !old(showSettlements) ==> showSettlements
      ensures !old(showSettlements) ==> settlements == if reply.Ok? then Some(reply.data) else old(settlements)
      ensures old(showSettlements) ==> !SettlementsPanelShown()
      ensures !old(showSettlements) ==> (SettlementsPanelShown() <==> reply.Ok? || old(settlements).Some?)
    {
      if showSettlements {
        showSettlements := false;
      } else {
        LoadGroupSettlements(reply);
        showSettlements := true;
      }
    }

    /** `handleMarkPaid`: posts exactly the three fields; only a success
        reloads the snapshot (with the reply `refresh`). */
    method HandleMarkPaid(fromUserId: UserId, toUserId: UserId, amount: real, reply: Response<()>, refresh: Response<GroupSnapshot>)
      returns (request: MarkPaidRequest, alerted: bool)
      modifies this`settlements, this`showSettlements
      ensures request == MarkPaidRequest(routeId, Payment(fromUserId, toUserId, amount))
      ensures alerted <==> !reply.Ok?
      ensures reply.Ok? && refresh.Ok? ==> settlements == Some(refresh.data) && showSettlements
      ensures !(reply.Ok? && refresh.Ok?) ==> settlements == old(settlements) && showSettlements == old(showSettlements)
    {
      request := MarkPaidRequest(routeId, Payment(fromUserId, toUserId, amount));
      if reply.Ok? {
        LoadGroupSettlements(refresh);
        alerted := false;
      } else {
        alerted := true;
      }
    }

    /** `handleCloseModal`: always closes the dialog and clears the slot. */
    method HandleCloseModal()
      modifies this`showCreateExpense, this`editingExpense
      ensures !showCreateExpense && editingExpense.None?
    {
      showCreateExpense := false;
      editingExpense := None;
    }

    method OpenAddMember()
      modifies this`showAddMember
      ensures showAddMember
    {
      showAddMember := true;
    }

    method CloseAddMember()
      modifies this`showAddMember
      ensures !showAddMember
    {
      showAddMember := false;
    }

    method OpenCreateExpense()
      modifies this`showCreateExpense
      ensures showCreateExpense
    {
      showCreateExpense := true;
    }

    /** The panel is on screen only when shown and a snapshot is cached. */
    predicate SettlementsPanelShown()
      reads this
    {
      showSettlements && settlements.Some?
    }

    /** The list hands the expenses to the list view newest first. */
    function ListedExpenses(): (r: seq<ExpenseEntry>)
      reads this
      ensures |r| == |expenses|
      ensures forall i :: 0 <= i < |r| ==> r[i] == expenses[|expenses| - 1 - i]
    {
      Reverse(expenses)
    }

    /** The users the add dialog offers: exactly the directory entries no
        member refers to. */
    function OfferedUsers(): (r: seq<User>)
      reads this
      ensures forall u :: u in r <==> u in allUsers && !IsMemberUser(members, u)
      ensures |r| <= |allUsers|
      // and keeps the order and multiplicity `AvailableUsers` proves
      ensures r == AvailableUsers(allUsers, members)
    {
      AvailableUsers(allUsers, members)
    }
  }
}
