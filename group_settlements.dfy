/** The settlement panel of a group page: a pure projection of the
    server's snapshot into balance rows and payment instructions. */
module GroupSettlements {
  import opened Common
  import opened Domain

  /** The colour of a balance: green, red or grey. */
  datatype Tone = Positive | Negative | Neutral

  /** The text of a balance: "+ $amount", "- $magnitude" or "Settled". */
  datatype BalanceText = Credit(amount: real) | Debit(magnitude: real) | Settled

  datatype BalanceRow = BalanceRow(username: string, text: BalanceText, tone: Tone)

  /** One "A pays $x to B" line; `markPaid` is what its button passes. */
  datatype InstructionRow = InstructionRow(fromUsername: string, amount: real, toUsername: string, markPaid: Payment)

  /** The "Who Pays Whom" part. */
  datatype Instructions = AllSettledUp | Pay(rows: seq<InstructionRow>)

  datatype PanelView = PanelView(balances: seq<BalanceRow>, instructions: Instructions)

  function Abs(x: real): (r: real)
    ensures r >= 0.0 && (r == x || r == -x)
  {
    if x < 0.0 then -x else x
  }

  /** The sign of the amount decides text and colour together; a debt is
      shown by its magnitude. */
  function BalanceRowOf(b: Balance): (r: BalanceRow)
    ensures r.username == b.username
    ensures r.text.Credit? <==> b.amount > 0.0
    ensures r.text.Debit? <==> b.amount < 0.0
    ensures r.text.Settled? <==> b.amount == 0.0
    ensures r.text.Credit? ==> r.text.amount == b.amount && r.tone == Positive
    ensures r.text.Debit? ==> r.text.magnitude == Abs(b.amount) && r.text.magnitude > 0.0 && r.tone == Negative
    ensures r.text.Settled? ==> r.tone == Neutral
  {
    if b.amount > 0.0 then BalanceRow(b.username, Credit(b.amount), Positive)
    else if b.amount < 0.0 then BalanceRow(b.username, Debit(Abs(b.amount)), Negative)
    else BalanceRow(b.username, Settled, Neutral)
  }

  /** The amount a reader recovers from the text. */
  function Reading(t: BalanceText): real {
    match t
    case Credit(a) => a
    case Debit(m) => -m
    case Settled => 0.0
  }

  /** The label loses nothing: reading it back gives the server's amount. */
  lemma BalanceTextFaithful(b: Balance)
    ensures Reading(BalanceRowOf(b).text) == b.amount
  {
  }

  function BalanceRows(bs: seq<Balance>): (rows: seq<BalanceRow>)
    ensures |rows| == |bs|
    ensures forall i :: 0 <= i < |bs| ==> rows[i] == BalanceRowOf(bs[i])
  {
    if bs == [] then [] else [BalanceRowOf(bs[0])] + BalanceRows(bs[1..])
  }

  function InstructionRowOf(s: Instruction): (r: InstructionRow)
    ensures r.markPaid == Payment(s.fromUserId, s.toUserId, s.amount)
    ensures r.fromUsername == s.fromUsername && r.toUsername == s.toUsername && r.amount == s.amount
  {
    InstructionRow(s.fromUsername, s.amount, s.toUsername, PaymentOf(s))
  }

  function InstructionRows(ss: seq<Instruction>): (rows: seq<InstructionRow>)
    ensures |rows| == |ss|
    ensures forall i :: 0 <= i < |ss| ==> rows[i] == InstructionRowOf(ss[i])
  {
    if ss == [] then [] else [InstructionRowOf(ss[0])] + InstructionRows(ss[1..])
  }

  /** The panel: nothing for a null snapshot; otherwise one row per balance
      (none when the array is absent) and either "All settled up" (array
      absent or empty) or one line per instruction in snapshot order. */
  function View(snapshot: Option<GroupSnapshot>): (v: Option<PanelView>)
    ensures snapshot.None? <==> v.None?
    ensures v.Some? && snapshot.value.balances.None? ==> v.value.balances == []
    ensures v.Some? && snapshot.value.balances.Some? ==>
              v.value.balances == BalanceRows(snapshot.value.balances.value)
    ensures v.Some? ==>
              (v.value.instructions.AllSettledUp? <==>
                 snapshot.value.settlements.None? || |snapshot.value.settlements.value| == 0)
    ensures v.Some? && v.value.instructions.Pay? ==>
              var ss := snapshot.value.settlements.value;
              |v.value.instructions.rows| == |ss| &&
              forall i :: 0 <= i < |ss| ==> v.value.instructions.rows[i].markPaid == PaymentOf(ss[i])
  {
    match snapshot
    case None => None
    case Some(s) =>
      var balances := match s.balances case None => [] case Some(bs) => BalanceRows(bs);
      var instructions :=
        match s.settlements
        case Some(ss) => if |ss| > 0 then Pay(InstructionRows(ss)) else AllSettledUp
        case None => AllSettledUp;
      Some(PanelView(balances, instructions))
  }

  /** The Mark Paid button of line `i` asks for exactly the payment of the
      `i`-th instruction: the same payer, payee and amount. */
  lemma MarkPaidCarriesInstruction(snapshot: GroupSnapshot, i: nat)
    requires snapshot.settlements.Some? && i < |snapshot.settlements.value|
    ensures View(Some(snapshot)).value.instructions.Pay?
    ensures var p := View(Some(snapshot)).value.instructions.rows[i].markPaid;
            var s := snapshot.settlements.value[i];
            p.fromUserId == s.fromUserId && p.toUserId == s.toUserId && p.amount == s.amount
  {
  }
}
