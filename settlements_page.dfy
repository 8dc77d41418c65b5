/** The user's settlements page: per-group balances from the server and a
    form that records a manual payment in a group. */
module SettlementsPage {
  import opened Common
  import opened Domain
  import opened Numbers
  import GroupSettlements

  /** `selectedGroup`, `fromUserId`, `toUserId` and `amount` as a JavaScript
      truthiness test sees them: `null` and "" are falsy. */
  predicate Filled(s: string) {
    s != ""
  }

  predicate GroupChosen(g: Option<string>) {
    g.Some? && Filled(g.value)
  }

  /** The JSON body of the manual mark-paid request. `None` is NaN. */
  datatype ManualPayment = ManualPayment(fromUserId: Option<int>, toUserId: Option<int>, amount: Option<real>)

  /** POST `/settlements/groups/<groupRoute>/mark-paid`. */
  datatype ManualRequest = ManualRequest(groupRoute: string, body: ManualPayment)

  /** Green for a positive balance, red otherwise: zero is red too, and the
      page never uses grey. */
  function BalanceColour(g: GroupBalance): (c: GroupSettlements.Tone)
    ensures c != GroupSettlements.Neutral
    ensures c == GroupSettlements.Positive <==> g.balance > 0.0
  {
    if g.balance > 0.0 then GroupSettlements.Positive else GroupSettlements.Negative
  }

  /** For a non-zero balance this page and the group panel colour it alike. */
  lemma BalanceColourAgreesWhenNonZero(g: GroupBalance, b: Balance)
    requires g.balance == b.amount && b.amount != 0.0
    ensures BalanceColour(g) == GroupSettlements.BalanceRowOf(b).tone
  {
  }

  /** For a zero balance they part ways: red here, grey on the group panel. */
  lemma ZeroBalanceColoursDisagree(g: GroupBalance, b: Balance)
    requires g.balance == 0.0 && b.amount == 0.0
    ensures BalanceColour(g) == GroupSettlements.Negative
    ensures GroupSettlements.BalanceRowOf(b).tone == GroupSettlements.Neutral
  {
  }

  /** The request sent for the current inputs, or `None` when some field is
      empty and only the "Please fill all fields" alert is shown. */
  function RequestFor(group: Option<string>, fromUserId: string, toUserId: string, amount: string): (r: Option<ManualRequest>)
    ensures r.None? <==> !GroupChosen(group) || !Filled(fromUserId) || !Filled(toUserId) || !Filled(amount)
    ensures r.Some? ==> (r.value.groupRoute == group.value &&
      r.value.body == ManualPayment(ParseInt(fromUserId), ParseInt(toUserId), ParseFloat(amount)))
  {
    if !GroupChosen(group) || !Filled(fromUserId) || !Filled(toUserId) || !Filled(amount) then None
    else Some(ManualRequest(group.value, ManualPayment(ParseInt(fromUserId), ParseInt(toUserId), ParseFloat(amount))))
  }

  /** Ids typed back from their decimal text reach the server unchanged. */
  lemma TypedIdsRoundTrip(group: string, from: UserId, to: UserId, amount: string)
    requires group != "" && amount != ""
    ensures RequestFor(Some(group), IntToString(from), IntToString(to), amount)
      == Some(ManualRequest(group, ManualPayment(Some(from), Some(to), ParseFloat(amount))))
  {
    ParseIntOfIntToString(from);
    ParseIntOfIntToString(to);
  }

  class Page {
    var settlements: seq<GroupBalance>
    var loading: bool
    var error: string
    var amount: string
    var selectedGroup: Option<string>
    var fromUserId: string
    var toUserId: string

    constructor ()
      ensures settlements == [] && !loading && error == ""
      ensures amount == "" && selectedGroup.None? && fromUserId == "" && toUserId == ""
    {
      settlements, loading, error := [], false, "";
      amount, selectedGroup, fromUserId, toUserId := "", None, "", "";
    }

    /** `fetchSettlements`: clears the error, then takes `group_balances`
        (or [] when the server sent none) from an ok reply, or keeps the old
        list and records `failure` as the error text; loading ends either way. */
    method FetchSettlements(reply: Response<UserSnapshot>, failure: string)
      modifies this`settlements, this`loading, this`error
      ensures !loading
      ensures reply.Ok? ==> (error == "" &&
        settlements == (if reply.data.groupBalances.Some? then reply.data.groupBalances.value else []))
      ensures !reply.Ok? ==> error == failure && settlements == old(settlements)
      ensures reply.Ok? ==> (ShowsEmptyMessage() <==> settlements == []) && (ShowsList() <==> settlements != [])
      ensures !reply.Ok? && failure != "" ==> !ShowsEmptyMessage() && !ShowsList()
    {
      loading := true;
      error := "";
      if reply.Ok? {
        settlements := if reply.data.groupBalances.Some? then reply.data.groupBalances.value else [];
      } else {
        error := failure;
      }
      loading := false;
    }

    /** The mount effect: a fetch happens only for a signed-in user with a
        truthy id (0 is falsy). */
    method Mount(userId: Option<UserId>, reply: Response<UserSnapshot>, failure: string) returns (fetched: bool)
      modifies this`settlements, this`loading, this`error
      ensures fetched <==> userId.Some? && userId.value != 0
      ensures !fetched ==> settlements == old(settlements) && loading == old(loading) && error == old(error)
      ensures fetched ==> !loading
      ensures fetched && reply.Ok? ==> (error == "" &&
        settlements == (if reply.data.groupBalances.Some? then reply.data.groupBalances.value else []))
      ensures fetched && !reply.Ok? ==> error == failure && settlements == old(settlements)
    {
      fetched := userId.Some? && userId.value != 0;
      if fetched {
        FetchSettlements(reply, failure);
      }
    }

    method EditGroup(text: string)
      modifies this`selectedGroup
      ensures selectedGroup == Some(text)
    {
      selectedGroup := Some(text);
    }

    method EditFrom(text: string)
      modifies this`fromUserId
      ensures fromUserId == text
    {
      fromUserId := text;
    }

    method EditTo(text: string)
      modifies this`toUserId
      ensures toUserId == text
    {
      toUserId := text;
    }

    method EditAmount(text: string)
      modifies this`amount
      ensures amount == text
    {
      amount := text;
    }

    /** `handleCreateSettlement`: with a field empty nothing is sent. Otherwise
        the request goes out; on success the inputs are cleared and the
        balances are fetched again, on failure every input is kept. */
    method HandleCreateSettlement(reply: Response<()>, refresh: Response<UserSnapshot>, failure: string)
      returns (sent: Option<ManualRequest>)
      modifies this
      ensures sent == RequestFor(old(selectedGroup), old(fromUserId), old(toUserId), old(amount))
      ensures sent.Some? && reply.Ok? ==>
        amount == "" && selectedGroup.None? && fromUserId == "" && toUserId == "" && !loading &&
        (refresh.Ok? ==> (error == "" &&
          settlements == (if refresh.data.groupBalances.Some? then refresh.data.groupBalances.value else []))) &&
        (!refresh.Ok? ==> error == failure && settlements == old(settlements))
      ensures sent.None? || !reply.Ok? ==>
        amount == old(amount) && selectedGroup == old(selectedGroup) &&
        fromUserId == old(fromUserId) && toUserId == old(toUserId) &&
        settlements == old(settlements) && loading == old(loading) && error == old(error)
    {
      sent := RequestFor(selectedGroup, fromUserId, toUserId, amount);
      if sent.None? {
        return;
      }
      if reply.Ok? {
        amount, selectedGroup, fromUserId, toUserId := "", None, "", "";
        FetchSettlements(refresh, failure);
      }
    }

    /** "No settlements found." */
    predicate ShowsEmptyMessage()
      reads this
    {
      !loading && error == "" && |settlements| == 0
    }

    /** The list of balance cards: never shown together with the empty
        message, and once loading is over without an error exactly one of
        the two is on the page. */
    function ShowsList(): (shown: bool)
      reads this
      ensures shown ==> !ShowsEmptyMessage()
      ensures !loading && error == "" ==> (shown || ShowsEmptyMessage())
      ensures shown ==> settlements != []
    {
      !loading && error == "" && |settlements| > 0
    }
  }
}
