/** The expense list of a group page: payer and participant names, the
    empty state, and what the Edit and Delete buttons hand back. */
module ExpensesList {
  import opened Common
  import opened Domain
  import opened Seqs
  import MembersList

  /** `getMemberName`: the username of the first directory entry with the
      id, or "User <id>". */
  function GetMemberName(members: seq<User>, userId: UserId): (name: string)
    ensures (forall u :: u in members ==> u.id != userId) ==> name == MembersList.UnknownUser(userId).username
  {
    match Find(members, u => MembersList.HasId(userId, u))
    case Some(u) => u.username
    case None => MembersList.UnknownUser(userId).username
  }

  /** The name shown here is the name the roster and the expense form show. */
  lemma MemberNameAgreesWithRoster(members: seq<User>, userId: UserId)
    ensures GetMemberName(members, userId) == MembersList.GetUserDetails(members, userId).username
  {
  }

  lemma GetMemberNameFirstMatch(members: seq<User>, userId: UserId, k: nat)
    requires k < |members| && members[k].id == userId
    requires forall j :: 0 <= j < k ==> members[j].id != userId
    ensures GetMemberName(members, userId) == members[k].username
  {
    FindFirst(members, u => MembersList.HasId(userId, u), k);
  }

  datatype ShareLine = ShareLine(name: string, amount: real)

  /** One expense card; `edit` and `delete` are what its buttons pass on. */
  datatype ExpenseRow = ExpenseRow(title: string, amount: real, payer: string, shares: seq<ShareLine>, edit: Expense, delete: ExpenseId)

  datatype ListView = EmptyState | Rows(rows: seq<ExpenseRow>)

  function ShareLines(shares: seq<ShareRow>, members: seq<User>): (lines: seq<ShareLine>)
    ensures |lines| == |shares|
    ensures forall i :: 0 <= i < |shares| ==>
              lines[i] == ShareLine(GetMemberName(members, shares[i].userId), shares[i].shareAmount)
  {
    if shares == [] then []
    else [ShareLine(GetMemberName(members, shares[0].userId), shares[0].shareAmount)] + ShareLines(shares[1..], members)
  }

  function RowOf(e: ExpenseEntry, members: seq<User>): ExpenseRow {
    ExpenseRow(if e.expense.description == "" then "Untitled Expense" else e.expense.description,
               e.expense.amount,
               GetMemberName(members, e.expense.paidBy),
               ShareLines(e.shares, members),
               e.expense,
               e.expense.id)
  }

  function RowsOf(expenses: seq<ExpenseEntry>, members: seq<User>): (rows: seq<ExpenseRow>)
    ensures |rows| == |expenses|
    ensures forall i :: 0 <= i < |expenses| ==> rows[i] == RowOf(expenses[i], members)
  {
    if expenses == [] then [] else [RowOf(expenses[0], members)] + RowsOf(expenses[1..], members)
  }

  /** The list: the empty state exactly when there are no expenses, and
      otherwise one card per entry, in order, whose Edit button passes the
      whole expense and whose Delete button passes its id. */
  function View(expenses: seq<ExpenseEntry>, members: seq<User>): (v: ListView)
    ensures v.EmptyState? <==> |expenses| == 0
    ensures v.Rows? ==> |v.rows| == |expenses|
    ensures v.Rows? ==> forall i :: 0 <= i < |expenses| ==>
              v.rows[i].edit == expenses[i].expense &&
              v.rows[i].delete == expenses[i].expense.id &&
              v.rows[i].payer == GetMemberName(members, expenses[i].expense.paidBy) &&
              v.rows[i].shares == ShareLines(expenses[i].shares, members)
  {
    if |expenses| == 0 then EmptyState else Rows(RowsOf(expenses, members))
  }
}
