/** The records the server sends and the client passes around. Only the
    fields some core component reads are kept; timestamps are left out. */
module Domain {
  import opened Common

  type UserId = int
  type GroupId = int
  type ExpenseId = int

  /** An entry of the user directory (`GET /users/`). */
  datatype User = User(id: UserId, username: string, email: string)

  /** A membership row of one group (`GET /groups/{id}/members`). */
  datatype Member = Member(id: int, userId: UserId, role: string)

  /** A group; `description` is `None` when the server sends null. */
  datatype Group = Group(id: GroupId, name: string, description: Option<string>)

  /** The expense part of one entry of `GET /expenses/group/{id}`. */
  datatype Expense = Expense(id: ExpenseId, description: string, amount: real, paidBy: UserId, expenseType: string)

  /** One stored share of an expense. */
  datatype ShareRow = ShareRow(userId: UserId, shareAmount: real)

  /** One entry of the expense list: `{expense, shares}`. */
  datatype ExpenseEntry = ExpenseEntry(expense: Expense, shares: seq<ShareRow>)

  /** A user's net position in a group: positive is owed to them. */
  datatype Balance = Balance(username: string, amount: real)

  /** One server-computed payment instruction ("from pays to"). */
  datatype Instruction = Instruction(fromUserId: UserId, fromUsername: string, toUserId: UserId, toUsername: string, amount: real)

  /** `GET /settlements/groups/{id}`: both arrays may be absent. */
  datatype GroupSnapshot = GroupSnapshot(balances: Option<seq<Balance>>, settlements: Option<seq<Instruction>>)

  /** One row of `GET /settlements/users/{id}`. */
  datatype GroupBalance = GroupBalance(groupId: GroupId, groupName: string, balance: real, status: string)

  /** `GET /settlements/users/{id}`: `group_balances` may be absent. */
  datatype UserSnapshot = UserSnapshot(groupBalances: Option<seq<GroupBalance>>)

  /** The body of `POST /settlements/groups/{id}/mark-paid`. */
  datatype Payment = Payment(fromUserId: UserId, toUserId: UserId, amount: real)

  /** The payment an instruction asks for: its three fields, nothing else. */
  function PaymentOf(s: Instruction): Payment {
    Payment(s.fromUserId, s.toUserId, s.amount)
  }
}
