/** The per-user settlements page: the user's balance in every group, and
    in each group the server's suggested payments that this user makes. */
module UserSettlements {
  import opened Common
  import opened Domain
  import opened Seqs
  import GroupSettlements

  /** `data.settlements || []`. */
  function SuggestionsOf(s: GroupSnapshot): seq<Instruction> {
    match s.settlements
    case Some(ss) => ss
    case None => []
  }

  /** What the suggestion loop has built after the first `n` requests: `None`
      once a request has thrown (the loop is abandoned), otherwise the map
      with one entry per group whose reply was ok (a later ok reply for the
      same group overwrites an earlier one). */
  function Collected(groupIds: seq<GroupId>, replies: seq<Response<GroupSnapshot>>, n: nat): (r: Option<map<GroupId, seq<Instruction>>>)
    requires n <= |groupIds| == |replies|
    ensures r.Some? ==> forall i :: 0 <= i < n ==> !replies[i].Threw?
    ensures r.Some? ==> forall g :: g in r.value ==> exists i :: 0 <= i < n && groupIds[i] == g && replies[i].Ok?
  {
    if n == 0 then Some(map[])
    else
      match Collected(groupIds, replies, n - 1)
      case None => None
      case Some(m) =>
        match replies[n - 1]
        case Ok(s) => Some(m[groupIds[n - 1] := SuggestionsOf(s)])
        case NotOk => Some(m)
        case Threw => None
  }

  /** The loop is abandoned exactly when some request threw. */
  lemma {:induction false} CollectedAbandonedIffThrew(groupIds: seq<GroupId>, replies: seq<Response<GroupSnapshot>>, n: nat)
    requires n <= |groupIds| == |replies|
    ensures Collected(groupIds, replies, n).None? <==> exists i :: 0 <= i < n && replies[i].Threw?
  {
    if n > 0 {
      CollectedAbandonedIffThrew(groupIds, replies, n - 1);
    }
  }

  /** Without a thrown request, a group has an entry iff one of its
      requests was ok, and the entry is the settlements of its last ok
      reply. */
  lemma {:induction false} CollectedKeys(groupIds: seq<GroupId>, replies: seq<Response<GroupSnapshot>>, n: nat, gid: GroupId)
    requires n <= |groupIds| == |replies|
    requires Collected(groupIds, replies, n).Some?
    ensures gid in Collected(groupIds, replies, n).value <==>
              exists i :: 0 <= i < n && groupIds[i] == gid && replies[i].Ok?
    ensures forall i :: 0 <= i < n && groupIds[i] == gid && replies[i].Ok? &&
                        (forall j :: i < j < n && groupIds[j] == gid ==> !replies[j].Ok?) ==>
              Collected(groupIds, replies, n).value[gid] == SuggestionsOf(replies[i].data)
  {
    if n > 0 {
      CollectedKeys(groupIds, replies, n - 1, gid);
    }
  }

  /** With distinct group ids, the entry of a group is exactly its own
      reply's settlements, or absent when that reply was not ok. */
  lemma CollectedDistinct(groupIds: seq<GroupId>, replies: seq<Response<GroupSnapshot>>, k: nat)
    requires |groupIds| == |replies| && k < |groupIds|
    requires forall i, j :: 0 <= i < j < |groupIds| ==> groupIds[i] != groupIds[j]
    requires Collected(groupIds, replies, |groupIds|).Some?
    ensures var m := Collected(groupIds, replies, |groupIds|).value;
            (groupIds[k] in m <==> replies[k].Ok?) &&
            (replies[k].Ok? ==> m[groupIds[k]] == SuggestionsOf(replies[k].data))
  {
    CollectedKeys(groupIds, replies, |groupIds|, groupIds[k]);
  }

  predicate FromUser(userId: UserId, s: Instruction) {
    s.fromUserId == userId
  }

  /** The suggestions shown under a group: those the current user pays, in
      order; none for a group without an entry. */
  function UserSuggestions(groupSuggestions: map<GroupId, seq<Instruction>>, gid: GroupId, userId: UserId): (r: seq<Instruction>)
    ensures gid !in groupSuggestions ==> r == []
    ensures gid in groupSuggestions ==>
              IsSubsequence(r, groupSuggestions[gid]) &&
              (forall s :: s in r <==> s in groupSuggestions[gid] && s.fromUserId == userId) &&
              forall s :: multiset(r)[s] == if s.fromUserId == userId then multiset(groupSuggestions[gid])[s] else 0
  {
    if gid in groupSuggestions then
      FilterIsSubsequence(groupSuggestions[gid], s => FromUser(userId, s));
      FilterCounts(groupSuggestions[gid], s => FromUser(userId, s));
      Filter(groupSuggestions[gid], s => FromUser(userId, s))
    else []
  }

  /** Text of a group's status: "Settled", or a sign and the magnitude. */
  datatype StatusText = SettledText | Signed(plus: bool, magnitude: real)

  /** "settled" reads "Settled"; "owed" reads "+" and the magnitude; every
      other status reads "-" and the magnitude. */
  function Text(g: GroupBalance): (t: StatusText)
    ensures t.SettledText? <==> g.status == "settled"
    ensures t.Signed? ==> t.magnitude >= 0.0 && (t.magnitude == g.balance || t.magnitude == -g.balance)
    ensures t.Signed? ==> (t.plus <==> g.status == "owed")
  {
    if g.status == "settled" then SettledText else Signed(g.status == "owed", GroupSettlements.Abs(g.balance))
  }

  /** "owed" is green, "owes" red, anything else grey. */
  function ToneOf(g: GroupBalance): (t: GroupSettlements.Tone)
    ensures t == GroupSettlements.Positive <==> g.status == "owed"
    ensures t == GroupSettlements.Negative <==> g.status == "owes"
    ensures t == GroupSettlements.Neutral <==> g.status != "owed" && g.status != "owes"
  {
    if g.status == "owed" then GroupSettlements.Positive
    else if g.status == "owes" then GroupSettlements.Negative
    else GroupSettlements.Neutral
  }

  /** For the three statuses the server sends, text and colour agree. */
  lemma TextAndToneAgree(g: GroupBalance)
    requires g.status in {"settled", "owed", "owes"}
    ensures Text(g).SettledText? <==> ToneOf(g) == GroupSettlements.Neutral
    ensures Text(g).Signed? ==> (Text(g).plus <==> ToneOf(g) == GroupSettlements.Positive)
  {
  }

  /** For any other status they part ways: a minus sign in grey. */
  lemma UnknownStatusIsGreyMinus(g: GroupBalance)
    requires g.status !in {"settled", "owed", "owes"}
    ensures Text(g).Signed? && !Text(g).plus && ToneOf(g) == GroupSettlements.Neutral
  {
  }

  /** The mark-paid request of the per-user page: the group and exactly the
      suggestion's three fields. */
  datatype MarkPaidRequest = MarkPaidRequest(groupId: GroupId, body: Payment)

  function GroupIdsOf(gs: seq<GroupBalance>): (ids: seq<GroupId>)
    ensures |ids| == |gs|
    ensures forall i :: 0 <= i < |gs| ==> ids[i] == gs[i].groupId
  {
    if gs == [] then [] else [gs[0].groupId] + GroupIdsOf(gs[1..])
  }

  /** The number of suggestion requests a user snapshot leads to. */
  function SuggestionRequests(s: UserSnapshot): nat {
    match s.groupBalances
    case Some(gs) => |gs|
    case None => 0
  }

  class Page {
    var settlements: Option<UserSnapshot>
    var groupSuggestions: map<GroupId, seq<Instruction>>
    var loading: bool

    constructor ()
      ensures settlements.None? && groupSuggestions == map[] && loading
    {
      settlements, groupSuggestions, loading := None, map[], true;
    }

    /** `fetchGroupSuggestions`: one request per group, in order, returned as
        the ids of the groups asked for; a thrown request abandons the loop
        after asking for its group, and the state keeps its old map. */
    method FetchGroupSuggestions(groupIds: seq<GroupId>, replies: seq<Response<GroupSnapshot>>)
      returns (requested: seq<GroupId>)
      requires |replies| == |groupIds|
      modifies this`groupSuggestions
      ensures Collected(groupIds, replies, |groupIds|).Some? ==>
                requested == groupIds && groupSuggestions == Collected(groupIds, replies, |groupIds|).value
      ensures Collected(groupIds, replies, |groupIds|).None? ==>
                groupSuggestions == old(groupSuggestions) &&
                exists t :: 0 <= t < |groupIds| && replies[t].Threw? && requested == groupIds[..t + 1] &&
                            forall j :: 0 <= j < t ==> !replies[j].Threw?
    {
      var suggestionsMap: map<GroupId, seq<Instruction>> := map[];
      var i := 0;
      while i < |groupIds|
        invariant 0 <= i <= |groupIds|
        invariant Collected(groupIds, replies, i) == Some(suggestionsMap)
        invariant forall j :: 0 <= j < i ==> !replies[j].Threw?
      {
        match replies[i] {
          case Threw =>
            AbandonedStaysAbandoned(groupIds, replies, i + 1, |groupIds|);
            requested := groupIds[..i + 1];
            return;
          case NotOk =>
          case Ok(s) =>
            suggestionsMap := suggestionsMap[groupIds[i] := SuggestionsOf(s)];
        }
        i := i + 1;
      }
      groupSuggestions := suggestionsMap;
      requested := groupIds;
    }

    /** `fetchUserSettlements`: an ok reply replaces the snapshot and, when
        it lists at least one group, fetches the suggestions; loading ends
        on every path. */
    method FetchUserSettlements(reply: Response<UserSnapshot>, groupReplies: seq<Response<GroupSnapshot>>)
      requires reply.Ok? ==> |groupReplies| == SuggestionRequests(reply.data)
      modifies this`settlements, this`groupSuggestions, this`loading
      ensures !loading
      ensures settlements == if reply.Ok? then Some(reply.data) else old(settlements)
      ensures !reply.Ok? || SuggestionRequests(reply.data) == 0 ==> groupSuggestions == old(groupSuggestions)
      ensures reply.Ok? && SuggestionRequests(reply.data) > 0 ==>
                var ids := GroupIdsOf(reply.data.groupBalances.value);
                groupSuggestions == match Collected(ids, groupReplies, |ids|)
                                    case Some(m) => m
                                    case None => old(groupSuggestions)
    {
      loading := true;
      if reply.Ok? {
        settlements := Some(reply.data);
        if SuggestionRequests(reply.data) > 0 {
          var _ := FetchGroupSuggestions(GroupIdsOf(reply.data.groupBalances.value), groupReplies);
        }
      }
      loading := false;
    }

    /** `handleMarkPaid`: posts the group and the three fields; only a
        success fetches the page again. */
    method HandleMarkPaid(groupId: GroupId, s: Instruction, reply: Response<()>,
                          refresh: Response<UserSnapshot>, groupReplies: seq<Response<GroupSnapshot>>)
      returns (request: MarkPaidRequest)
      requires refresh.Ok? ==> |groupReplies| == SuggestionRequests(refresh.data)
      modifies this`settlements, this`groupSuggestions, this`loading
      ensures request == MarkPaidRequest(groupId, PaymentOf(s))
      ensures !reply.Ok? ==> settlements == old(settlements) && groupSuggestions == old(groupSuggestions) && loading == old(loading)
      ensures reply.Ok? ==> !loading && settlements == (if refresh.Ok? then Some(refresh.data) else old(settlements))
      ensures reply.Ok? && (!refresh.Ok? || SuggestionRequests(refresh.data) == 0) ==> groupSuggestions == old(groupSuggestions)
      ensures reply.Ok? && refresh.Ok? && SuggestionRequests(refresh.data) > 0 ==>
                var ids := GroupIdsOf(refresh.data.groupBalances.value);
                groupSuggestions == match Collected(ids, groupReplies, |ids|)
                                    case Some(m) => m
                                    case None => old(groupSuggestions)
    {
      request := MarkPaidRequest(groupId, PaymentOf(s));
      if reply.Ok? {
        FetchUserSettlements(refresh, groupReplies);
      }
    }

    /** The suggestions shown under a group for the signed-in user: only
        payments they make, and every such suggestion the page holds for
        the group. */
    function ShownFor(gid: GroupId, currentUserId: UserId): (r: seq<Instruction>)
      reads this
      ensures gid !in groupSuggestions ==> r == []
      ensures forall s :: s in r ==> s.fromUserId == currentUserId
      ensures gid in groupSuggestions ==>
                forall s :: s in groupSuggestions[gid] && s.fromUserId == currentUserId ==> s in r
      // exactly the group's own list filtered by payer, in order and with its repetitions
      ensures gid in groupSuggestions ==> IsSubsequence(r, groupSuggestions[gid])
      ensures r == UserSuggestions(groupSuggestions, gid, currentUserId)
    {
      UserSuggestions(groupSuggestions, gid, currentUserId)
    }
  }

  lemma {:induction false} AbandonedStaysAbandoned(groupIds: seq<GroupId>, replies: seq<Response<GroupSnapshot>>, n: nat, total: nat)
    requires n <= total <= |groupIds| == |replies|
    requires Collected(groupIds, replies, n).None?
    ensures Collected(groupIds, replies, total).None?
    decreases total - n
  {
    if n < total {
      AbandonedStaysAbandoned(groupIds, replies, n + 1, total);
    }
  }
}
