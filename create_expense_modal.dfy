/** The "Create Expense" dialog: the form's pure updaters, the submission
    guard, the strategy-specific payload, and the dialog component whose
    submit handler runs them. The dialog only ever calls `onCreateExpense`;
    the `onSubmit` and `expenseData` a caller may pass are not read, so an
    expense opened for editing is submitted as a new one. */
module CreateExpenseModal {
  import opened Common
  import opened Domain
  import opened Numbers
  import opened Seqs

  /** The split strategy chosen in the select (also the endpoint segment). */
  datatype ExpenseType = Equal | Exact | Percentage

  /** The form state. `amount` and `paidBy` are the raw text of their
      inputs; `splits` is keyed by user id. */
  datatype ExpenseForm = ExpenseForm(
    description: string,
    amount: string,
    paidBy: string,
    expenseType: ExpenseType,
    participantIds: seq<UserId>,
    splits: map<UserId, real>)

  const InitialForm := ExpenseForm("", "", "", Equal, [], map[])

  predicate Distinct(s: seq<UserId>) {
    forall i, j :: 0 <= i < j < |s| ==> s[i] != s[j]
  }

  /** The form invariant: no participant twice, and a split entry for every
      participant and for nobody else. */
  ghost predicate SplitsMatchParticipants(f: ExpenseForm) {
    && Distinct(f.participantIds)
    && forall u :: u in f.splits <==> u in f.participantIds
  }

  predicate SameHeader(f: ExpenseForm, g: ExpenseForm) {
    && g.description == f.description
    && g.amount == f.amount
    && g.paidBy == f.paidBy
    && g.expenseType == f.expenseType
  }

  predicate IsNot(userId: UserId, id: UserId) {
    id != userId
  }

  /** `handleParticipantToggle`: an unselected user is appended with a zero
      split; a selected one is dropped from the list and from `splits`. */
  function Toggle(f: ExpenseForm, userId: UserId): (g: ExpenseForm)
    ensures SameHeader(f, g)
    ensures userId in g.participantIds <==> userId !in f.participantIds
    ensures forall u :: u != userId ==> (u in g.participantIds <==> u in f.participantIds)
    ensures userId !in f.participantIds ==>
              g.participantIds == f.participantIds + [userId] && userId in g.splits && g.splits[userId] == 0.0
    ensures userId in f.participantIds ==>
              IsSubsequence(g.participantIds, f.participantIds) && userId !in g.splits
    ensures forall u :: u != userId ==>
              (u in g.splits <==> u in f.splits) && (u in f.splits ==> g.splits[u] == f.splits[u])
  {
    if userId in f.participantIds then
      FilterIsSubsequence(f.participantIds, id => IsNot(userId, id));
      f.(participantIds := Filter(f.participantIds, id => IsNot(userId, id)), splits := f.splits - {userId})
    else
      f.(participantIds := f.participantIds + [userId], splits := f.splits[userId := 0.0])
  }

  lemma {:induction false} FilterKeepsDistinct(s: seq<UserId>, userId: UserId)
    requires Distinct(s)
    ensures Distinct(Filter(s, id => IsNot(userId, id)))
  {
    if s != [] {
      FilterKeepsDistinct(s[1..], userId);
      assert s[0] !in s[1..] by {
        forall j | 0 <= j < |s[1..]| ensures s[1..][j] != s[0] { assert s[1..][j] == s[j + 1]; }
      }
    }
  }

  lemma ToggleKeepsInvariant(f: ExpenseForm, userId: UserId)
    requires SplitsMatchParticipants(f)
    ensures SplitsMatchParticipants(Toggle(f, userId))
  {
    if userId in f.participantIds {
      FilterKeepsDistinct(f.participantIds, userId);
    }
  }

  /** Toggling a user on and off again gives back the form unchanged. */
  lemma ToggleTwiceRestores(f: ExpenseForm, userId: UserId)
    requires SplitsMatchParticipants(f) && userId !in f.participantIds
    ensures Toggle(Toggle(f, userId), userId) == f
  {
    var g := Toggle(f, userId);
    var keep := id => IsNot(userId, id);
    FilterAppend(f.participantIds, [userId], keep);
    FilterKeepsAll(f.participantIds, keep);
    assert Filter([userId], keep) == [];
    assert g.splits - {userId} == f.splits;
  }

  /** `handleSplitChange`: sets this user's split to the parsed number, or
      to 0 when the text does not parse; nothing else changes. */
  function SetSplit(f: ExpenseForm, userId: UserId, text: string): (g: ExpenseForm)
    ensures SameHeader(f, g) && g.participantIds == f.participantIds
    ensures userId in g.splits && g.splits[userId] == ParseFloatOrZero(text)
    ensures ParseFloat(text).None? ==> g.splits[userId] == 0.0
    ensures forall u :: u != userId ==>
              (u in g.splits <==> u in f.splits) && (u in f.splits ==> g.splits[u] == f.splits[u])
  {
    f.(splits := f.splits[userId := ParseFloatOrZero(text)])
  }

  /** A split can only be edited for a selected participant (the input is
      rendered only for them), and then the invariant is kept. */
  lemma SetSplitKeepsInvariant(f: ExpenseForm, userId: UserId, text: string)
    requires SplitsMatchParticipants(f) && userId in f.participantIds
    ensures SplitsMatchParticipants(SetSplit(f, userId, text))
  {
  }

  /** Clearing a split's input records zero for it, since `parseFloat("")`
      is `NaN`. */
  lemma ClearedSplitIsZero(f: ExpenseForm, userId: UserId)
    ensures SetSplit(f, userId, "").splits[userId] == 0.0
  {
    EmptyDoesNotParse();
  }

  /** Choosing a split type clears the participants and their splits. */
  function ChangeType(f: ExpenseForm, t: ExpenseType): (g: ExpenseForm)
    ensures g.expenseType == t && g.participantIds == [] && g.splits == map[]
    ensures g.description == f.description && g.amount == f.amount && g.paidBy == f.paidBy
    ensures SplitsMatchParticipants(g)
  {
    f.(expenseType := t, participantIds := [], splits := map[])
  }

  lemma NonEmptyHasElement(s: set<int>)
    requires s != {}
    ensures exists x :: x in s
  {
    if forall x :: x !in s {
      assert false;
    }
  }

  lemma {:induction false} MinExists(s: set<int>)
    requires s != {}
    ensures exists k :: k in s && forall j :: j in s ==> k <= j
    decreases |s|
  {
    NonEmptyHasElement(s);
    var x :| x in s;
    var r := s - {x};
    if r == {} {
      forall j | j in s ensures x <= j {
        assert j !in r;
      }
    } else {
      MinExists(r);
      var k :| k in r && forall j :: j in r ==> k <= j;
      var least := if x < k then x else k;
      forall j | j in s ensures least <= j {
        if j != x { assert j in r; }
      }
      assert least in s;
    }
  }

  function MinKey(s: set<int>): (k: int)
    requires s != {}
    ensures k in s && forall j :: j in s ==> k <= j
  {
    MinExists(s);
    var k :| k in s && forall j :: j in s ==> k <= j;
    k
  }

  /** `Object.values(splits).reduce((acc, v) => acc + v, 0)`. The object's
      integer keys are visited in ascending order. */
  function SumValues(m: map<UserId, real>): (r: real)
    ensures (forall k :: k in m ==> m[k] == 0.0) ==> r == 0.0
    ensures (forall k :: k in m ==> m[k] >= 0.0) ==> r >= 0.0
    decreases |m|
  {
    if |m| == 0 then 0.0
    else
      var k := MinKey(m.Keys);
      assert |m - {k}| == |m| - 1 by { assert (m - {k}).Keys == m.Keys - {k}; }
      m[k] + SumValues(m - {k})
  }

  /** The sum does not depend on the order of the keys. */
  lemma {:induction false} SumValuesRemove(m: map<UserId, real>, k: UserId)
    requires k in m
    ensures SumValues(m) == m[k] + SumValues(m - {k})
    decreases |m|
  {
    var k0 := MinKey(m.Keys);
    if k != k0 {
      var m0 := m - {k0};
      assert m0.Keys == m.Keys - {k0};
      assert |m0| == |m| - 1;
      SumValuesRemove(m0, k);
      var mk := m - {k};
      assert mk.Keys == m.Keys - {k};
      assert k0 in mk.Keys;
      var r := MinKey(mk.Keys);
      assert r in m.Keys;
      assert r <= k0 && k0 <= r;
      assert m0 - {k} == mk - {k0};
    }
  }

  /** Choosing "percentage" and never typing a split fails the 100% guard:
      untouched splits are all zero. */
  lemma UntouchedPercentagesRejected(f: ExpenseForm)
    requires f.description != "" && f.amount != "" && f.paidBy != "" && |f.participantIds| > 0
    requires f.expenseType == Percentage && forall k :: k in f.splits ==> f.splits[k] == 0.0
    ensures Check(f) == Some(PercentageMismatch)
  {
  }

  /** The validation errors, in the order the guards check them. */
  datatype FormError = MissingFields | NoParticipants | ExactMismatch | PercentageMismatch

  /** The guards of `handleSubmit`. The amount is only checked for being
      present, so "0" passes. For `exact` the splits must add up to the
      parsed amount (text that does not parse never matches); for
      `percentage` they must add up to 100; `equal` has no sum check. */
  function Check(f: ExpenseForm): (e: Option<FormError>)
    ensures e == Some(MissingFields) <==> f.description == "" || f.amount == "" || f.paidBy == ""
    ensures e == Some(NoParticipants) <==>
              f.description != "" && f.amount != "" && f.paidBy != "" && |f.participantIds| == 0
    ensures e == Some(ExactMismatch) <==>
              f.description != "" && f.amount != "" && f.paidBy != "" && |f.participantIds| > 0 &&
              f.expenseType == Exact && ParseFloat(f.amount) != Some(SumValues(f.splits))
    ensures e == Some(PercentageMismatch) <==>
              f.description != "" && f.amount != "" && f.paidBy != "" && |f.participantIds| > 0 &&
              f.expenseType == Percentage && SumValues(f.splits) != 100.0
    ensures f.expenseType == Equal ==> (e.None? <==> f.description != "" && f.amount != "" && f.paidBy != "" && |f.participantIds| > 0)
  {
    if f.description == "" || f.amount == "" || f.paidBy == "" then Some(MissingFields)
    else if |f.participantIds| == 0 then Some(NoParticipants)
    else if f.expenseType == Exact && ParseFloat(f.amount) != Some(SumValues(f.splits)) then Some(ExactMismatch)
    else if f.expenseType == Percentage && SumValues(f.splits) != 100.0 then Some(PercentageMismatch)
    else None
  }

  /** One share of the payload; `value` is `None` where `parseFloat` of a
      missing split gives `NaN`. */
  datatype ShareEntry = ShareEntry(userId: UserId, value: Option<real>)

  /** The strategy-specific part: `participant_ids`, or `shares` carrying
      `share_amount` (exact) or `percentage`. */
  datatype SplitPart = ParticipantIds(ids: seq<UserId>) | ShareAmounts(shares: seq<ShareEntry>) | Percentages(shares: seq<ShareEntry>)

  /** The object passed to `onCreateExpense`; `None` stands for `NaN`. */
  datatype ExpensePayload = ExpensePayload(
    description: string,
    amount: Option<real>,
    paidBy: Option<int>,
    expenseType: ExpenseType,
    split: SplitPart)

  function ShareEntries(ids: seq<UserId>, splits: map<UserId, real>): (r: seq<ShareEntry>)
    ensures |r| == |ids|
    ensures forall i :: 0 <= i < |ids| ==>
              r[i] == ShareEntry(ids[i], if ids[i] in splits then Some(splits[ids[i]]) else None)
  {
    if ids == [] then []
    else [ShareEntry(ids[0], if ids[0] in splits then Some(splits[ids[0]]) else None)] + ShareEntries(ids[1..], splits)
  }

  /** The total of the shares' values. */
  function Total(shares: seq<ShareEntry>): real {
    if shares == [] then 0.0
    else (match shares[0].value case Some(v) => v case None => 0.0) + Total(shares[1..])
  }

  function BuildPayload(f: ExpenseForm): (p: ExpensePayload)
    ensures p.description == f.description && p.expenseType == f.expenseType
    ensures p.amount == ParseFloat(f.amount) && p.paidBy == ParseInt(f.paidBy)
    ensures f.expenseType == Equal ==> p.split == ParticipantIds(f.participantIds)
    ensures f.expenseType == Exact ==> p.split.ShareAmounts?
    ensures f.expenseType == Percentage ==> p.split.Percentages?
    ensures f.expenseType != Equal ==>
              |p.split.shares| == |f.participantIds| &&
              forall i :: 0 <= i < |f.participantIds| ==> p.split.shares[i].userId == f.participantIds[i]
    ensures f.expenseType != Equal && SplitsMatchParticipants(f) ==>
              forall i :: 0 <= i < |f.participantIds| ==> p.split.shares[i].value == Some(f.splits[f.participantIds[i]])
  {
    var split :=
      match f.expenseType
      case Equal => ParticipantIds(f.participantIds)
      case Exact => ShareAmounts(ShareEntries(f.participantIds, f.splits))
      case Percentage => Percentages(ShareEntries(f.participantIds, f.splits));
    ExpensePayload(f.description, ParseFloat(f.amount), ParseInt(f.paidBy), f.expenseType, split)
  }

  lemma {:induction false} ShareEntriesIgnore(ids: seq<UserId>, m: map<UserId, real>, k: UserId)
    requires k !in ids
    ensures ShareEntries(ids, m) == ShareEntries(ids, m - {k})
  {
  }

  /** A list without repeats: its head is not in its tail, which has no
      repeats either. */
  lemma DistinctTail(ids: seq<UserId>)
    requires Distinct(ids) && ids != []
    ensures ids[0] !in ids[1..] && Distinct(ids[1..])
  {
    forall j | 0 <= j < |ids[1..]| ensures ids[1..][j] != ids[0] {
      assert ids[1..][j] == ids[j + 1];
    }
    forall i, j | 0 <= i < j < |ids[1..]| ensures ids[1..][i] != ids[1..][j] {
      assert ids[1..][i] == ids[i + 1] && ids[1..][j] == ids[j + 1];
    }
  }

  lemma TotalOfCons(es: seq<ShareEntry>)
    requires es != [] && es[0].value.Some?
    ensures Total(es) == es[0].value.value + Total(es[1..])
  {
  }

  /** Under the form invariant, summing the splits map and summing the
      payload's shares in participant order give the same total. */
  lemma {:induction false} TotalIsSumOfSplits(ids: seq<UserId>, m: map<UserId, real>)
    requires Distinct(ids) && forall u :: u in m <==> u in ids
    ensures Total(ShareEntries(ids, m)) == SumValues(m)
  {
    if ids == [] {
      if m.Keys != {} {
        NonEmptyHasElement(m.Keys);
        assert false;
      }
      assert |m| == 0;
    } else {
      var a, rest := ids[0], ids[1..];
      DistinctTail(ids);
      var es := ShareEntries(ids, m);
      assert es[0] == ShareEntry(a, Some(m[a]));
      assert es[1..] == ShareEntries(rest, m);
      TotalOfCons(es);
      var m' := m - {a};
      ShareEntriesIgnore(rest, m, a);
      assert forall u :: u in m' <==> u in rest;
      TotalIsSumOfSplits(rest, m');
      SumValuesRemove(m, a);
    }
  }

  /** An accepted `exact` form sends one amount per participant, every one
      a number, and they add up to the expense amount. */
  lemma ExactPayloadAddsUp(f: ExpenseForm)
    requires SplitsMatchParticipants(f) && f.expenseType == Exact && Check(f).None?
    ensures var p := BuildPayload(f);
            p.split.ShareAmounts? && p.amount.Some? &&
            (forall i :: 0 <= i < |p.split.shares| ==> p.split.shares[i].value.Some?) &&
            Total(p.split.shares) == p.amount.value
  {
    TotalIsSumOfSplits(f.participantIds, f.splits);
  }

  /** An accepted `percentage` form sends one percentage per participant,
      and they add up to 100. */
  lemma PercentagePayloadAddsUp(f: ExpenseForm)
    requires SplitsMatchParticipants(f) && f.expenseType == Percentage && Check(f).None?
    ensures var p := BuildPayload(f);
            p.split.Percentages? &&
            (forall i :: 0 <= i < |p.split.shares| ==> p.split.shares[i].value.Some?) &&
            Total(p.split.shares) == 100.0
  {
    TotalIsSumOfSplits(f.participantIds, f.splits);
  }

  /** With the invariant, the exact-sum guard accepts a form exactly when
      the shares it would send add up to the amount. */
  lemma ExactGuardIsShareSum(f: ExpenseForm)
    requires SplitsMatchParticipants(f) && f.expenseType == Exact
    requires f.description != "" && f.amount != "" && f.paidBy != "" && |f.participantIds| > 0
    ensures Check(f).None? <==> ParseFloat(f.amount) == Some(Total(BuildPayload(f).split.shares))
  {
    TotalIsSumOfSplits(f.participantIds, f.splits);
  }

  /** The payer option's value is a member's id printed as text; the payload
      carries that very id. */
  lemma PayerRoundTrip(f: ExpenseForm, memberUserId: UserId)
    requires f.paidBy == IntToString(memberUserId)
    ensures BuildPayload(f).paidBy == Some(memberUserId)
  {
    ParseIntOfIntToString(memberUserId);
  }

  /** The dialog component: its form and its busy flag. */
  class ExpenseModal {
    var form: ExpenseForm
    var isLoading: bool

    ghost predicate Valid()
      reads this
    {
      SplitsMatchParticipants(form)
    }

    constructor ()
      ensures form == InitialForm && !isLoading && Valid()
    {
      form := InitialForm;
      isLoading := false;
    }

    method EditDescription(text: string)
      modifies this
      ensures form == old(form).(description := text) && isLoading == old(isLoading)
      ensures old(Valid()) ==> Valid()
    {
      form := form.(description := text);
    }

    method EditAmount(text: string)
      modifies this
      ensures form == old(form).(amount := text) && isLoading == old(isLoading)
      ensures old(Valid()) ==> Valid()
    {
      form := form.(amount := text);
    }

    method EditPaidBy(text: string)
      modifies this
      ensures form == old(form).(paidBy := text) && isLoading == old(isLoading)
      ensures old(Valid()) ==> Valid()
    {
      form := form.(paidBy := text);
    }

    method SelectType(t: ExpenseType)
      modifies this
      ensures form == ChangeType(old(form), t) && isLoading == old(isLoading)
      ensures Valid()
    {
      form := ChangeType(form, t);
    }

    method ToggleParticipant(userId: UserId)
      modifies this
      ensures form == Toggle(old(form), userId) && isLoading == old(isLoading)
      ensures old(Valid()) ==> Valid()
    {
      ghost var before := form;
      form := Toggle(form, userId);
      if SplitsMatchParticipants(before) {
        ToggleKeepsInvariant(before, userId);
      }
    }

    method EditSplit(userId: UserId, text: string)
      modifies this
      ensures form == SetSplit(old(form), userId, text) && isLoading == old(isLoading)
      ensures old(Valid()) && userId in old(form.participantIds) ==> Valid()
    {
      form := SetSplit(form, userId, text);
    }

    /** `handleSubmit`. A form the guards reject sends nothing and changes
        nothing, and the guard that fired is returned. Otherwise the payload
        is passed to `onCreateExpense` (whose outcome is `creation`); the form
        is reset when it returned and kept when it threw, and the busy flag
        is cleared either way. */
    method HandleSubmit(creation: Outcome) returns (sent: Option<ExpensePayload>, rejected: Option<FormError>)
      modifies this
      ensures rejected == Check(old(form))
      ensures rejected.Some? ==> sent.None? && form == old(form) && isLoading == old(isLoading)
      ensures rejected.None? ==> sent == Some(BuildPayload(old(form))) && !isLoading
      ensures rejected.None? && creation.Returned? ==> form == InitialForm
      ensures rejected.None? && creation.Raised? ==> form == old(form)
      ensures old(Valid()) ==> Valid()
    {
      rejected := Check(form);
      if rejected.Some? {
        sent := None;
        return;
      }
      isLoading := true;
      var payload := BuildPayload(form);
      sent := Some(payload);
      if creation.Returned? {
        form := InitialForm;
      }
      isLoading := false;
    }
  }
}
