/** The member roster of a group page: directory lookup with a fallback,
    the show/hide toggle, and the remove button. */
module MembersList {
  import opened Common
  import opened Domain
  import opened Numbers
  import opened Seqs

  /** What the roster (and the expense form) shows of a user. */
  datatype UserDetails = UserDetails(username: string, email: string)

  /** The placeholder shown for an id the directory does not hold. */
  function UnknownUser(userId: UserId): UserDetails {
    UserDetails("User " + IntToString(userId), "Unknown")
  }

  predicate HasId(userId: UserId, u: User) {
    u.id == userId
  }

  /** `getUserDetails`: the first directory entry with the id, or the
      placeholder. */
  function GetUserDetails(allUsers: seq<User>, userId: UserId): (d: UserDetails)
    ensures (forall u :: u in allUsers ==> u.id != userId) ==> d == UnknownUser(userId)
    ensures (exists u :: u in allUsers && u.id == userId) ==>
              exists u :: u in allUsers && u.id == userId && d == UserDetails(u.username, u.email)
  {
    match Find(allUsers, u => HasId(userId, u))
    case Some(u) => UserDetails(u.username, u.email)
    case None => UnknownUser(userId)
  }

  /** Of several directory entries with the same id, the first one wins. */
  lemma GetUserDetailsFirstMatch(allUsers: seq<User>, userId: UserId, k: nat)
    requires k < |allUsers| && allUsers[k].id == userId
    requires forall j :: 0 <= j < k ==> allUsers[j].id != userId
    ensures GetUserDetails(allUsers, userId) == UserDetails(allUsers[k].username, allUsers[k].email)
  {
    FindFirst(allUsers, u => HasId(userId, u), k);
  }

  /** Two ids missing from the directory never share a placeholder name. */
  lemma UnknownUserNamesDistinct(a: UserId, b: UserId)
    requires a != b
    ensures UnknownUser(a).username != UnknownUser(b).username
  {
    var prefix := "User ";
    if UnknownUser(a).username == UnknownUser(b).username {
      assert (prefix + IntToString(a))[|prefix|..] == IntToString(a);
      assert (prefix + IntToString(b))[|prefix|..] == IntToString(b);
      ParseIntOfIntToString(a);
      ParseIntOfIntToString(b);
      assert false;
    }
  }

  /** One card of the roster. */
  datatype MemberRow = MemberRow(username: string, email: string, isAdmin: bool, removeArgument: UserId)

  /** The roster: the header count and, when shown, one card per member. */
  datatype RosterView = RosterView(count: nat, rows: seq<MemberRow>)

  function RowOf(m: Member, allUsers: seq<User>): MemberRow {
    var d := GetUserDetails(allUsers, m.userId);
    MemberRow(d.username, d.email, m.role == "admin", m.userId)
  }

  function Rows(members: seq<Member>, allUsers: seq<User>): (rows: seq<MemberRow>)
    ensures |rows| == |members|
    ensures forall i :: 0 <= i < |members| ==> rows[i] == RowOf(members[i], allUsers)
  {
    if members == [] then [] else [RowOf(members[0], allUsers)] + Rows(members[1..], allUsers)
  }

  function Roster(members: seq<Member>, allUsers: seq<User>, showMembers: bool): (v: RosterView)
    ensures v.count == |members|
    ensures !showMembers ==> v.rows == []
    ensures showMembers ==> |v.rows| == |members|
    ensures showMembers ==> forall i :: 0 <= i < |members| ==>
              v.rows[i].isAdmin == (members[i].role == "admin") &&
              v.rows[i].removeArgument == members[i].userId &&
              v.rows[i].username == GetUserDetails(allUsers, members[i].userId).username
  {
    RosterView(|members|, if showMembers then Rows(members, allUsers) else [])
  }

  /** The roster component's own state: whether the cards are shown. */
  class MembersPanel {
    var showMembers: bool

    constructor ()
      ensures !showMembers
    {
      showMembers := false;
    }

    /** The Show/Hide button. */
    method ToggleShow()
      modifies this
      ensures showMembers == !old(showMembers)
    {
      showMembers := !showMembers;
    }

    /** A click on the Remove button of card `i` of the shown roster:
        `handleRemoveClick` calls `onRemoveMember` with the id the card
        carries, which is that member's user id (not the membership id), and
        turns a failure into an alert instead of letting it escape. Returns
        the id passed to the callback and whether an alert shows. */
    method HandleRemoveClick(members: seq<Member>, allUsers: seq<User>, i: nat, removal: Outcome)
      returns (removed: UserId, alerted: bool)
      requires showMembers && i < |members|
      ensures removed == members[i].userId
      ensures alerted <==> removal.Raised?
    {
      var card := Roster(members, allUsers, showMembers).rows[i];
      removed := card.removeArgument;
      alerted := removal.Raised?;
    }
  }
}
