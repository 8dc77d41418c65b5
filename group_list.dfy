/** The group list page: inline editing of one group at a time, replace by
    id after an update, filter by id after a delete. */
module GroupList {
  import opened Common
  import opened Domain
  import opened Seqs

  /** The inline edit form. */
  datatype GroupForm = GroupForm(name: string, description: string)

  /** `PUT /groups/{groupId}` with the form as its JSON body. */
  datatype UpdateGroupRequest = UpdateGroupRequest(groupId: GroupId, body: GroupForm)

  /** `DELETE /groups/{groupId}`. */
  datatype DeleteGroupRequest = DeleteGroupRequest(groupId: GroupId)

  /** `group.description || ""`: empty exactly when the description is
      missing or empty, and otherwise the group's own text. */
  function DescriptionText(g: Group): (s: string)
    ensures s == "" <==> g.description.None? || g.description.value == ""
    ensures s != "" ==> g.description == Some(s)
  {
    match g.description
    case Some(d) => d
    case None => ""
  }

  /** The form `handleEditClick` starts from. */
  function EditFormOf(g: Group): (f: GroupForm)
    ensures f.name == g.name
    ensures f.description == "" <==> g.description.None? || g.description.value == ""
  {
    GroupForm(g.name, DescriptionText(g))
  }

  /** A group the server stored from a form re-opens with that same form. */
  lemma EditSaveRoundTrip(id: GroupId, f: GroupForm)
    ensures EditFormOf(Group(id, f.name, Some(f.description))) == f
  {
  }

  /** Saving a group's edit form unchanged shows the same card: a missing
      description comes back as "" and both read "No description". */
  lemma UnchangedSaveShowsSameCard(g: Group)
    ensures ShownDescription(Group(g.id, EditFormOf(g).name, Some(EditFormOf(g).description))) == ShownDescription(g)
    ensures EditFormOf(Group(g.id, EditFormOf(g).name, Some(EditFormOf(g).description))) == EditFormOf(g)
  {
  }

  /** `prev.map(g => g.id === groupId ? updatedGroup : g)`. */
  function ReplaceById(groups: seq<Group>, groupId: GroupId, updated: Group): (r: seq<Group>)
    ensures |r| == |groups|
    ensures forall i :: 0 <= i < |groups| ==> r[i] == if groups[i].id == groupId then updated else groups[i]
  {
    if groups == [] then []
    else [if groups[0].id == groupId then updated else groups[0]] + ReplaceById(groups[1..], groupId, updated)
  }

  /** Replacing an id no group has changes nothing. */
  lemma ReplaceAbsentId(groups: seq<Group>, groupId: GroupId, updated: Group)
    requires forall g :: g in groups ==> g.id != groupId
    ensures ReplaceById(groups, groupId, updated) == groups
  {
  }

  /** Applying the same update twice is applying it once. */
  lemma ReplaceIdempotent(groups: seq<Group>, groupId: GroupId, updated: Group)
    ensures ReplaceById(ReplaceById(groups, groupId, updated), groupId, updated) == ReplaceById(groups, groupId, updated)
  {
  }

  /** After an update the server's group is the one listed under its id,
      if it kept the id, and the other groups are untouched. */
  lemma ReplacedGroupIsListed(groups: seq<Group>, groupId: GroupId, updated: Group)
    requires updated.id == groupId && exists g :: g in groups && g.id == groupId
    ensures updated in ReplaceById(groups, groupId, updated)
    ensures forall g :: g in ReplaceById(groups, groupId, updated) && g.id == groupId ==> g == updated
    ensures forall g :: g in groups && g.id != groupId ==> g in ReplaceById(groups, groupId, updated)
  {
    var r := ReplaceById(groups, groupId, updated);
    var k :| 0 <= k < |groups| && groups[k].id == groupId;
    assert r[k] == updated;
  }

  predicate IsOtherGroup(groupId: GroupId, g: Group) {
    g.id != groupId
  }

  /** `prev.filter(g => g.id !== groupId)`. */
  function WithoutGroup(groups: seq<Group>, groupId: GroupId): (r: seq<Group>)
    ensures forall g :: g in r <==> g in groups && g.id != groupId
    ensures forall g :: multiset(r)[g] == if g.id == groupId then 0 else multiset(groups)[g]
    ensures IsSubsequence(r, groups)
  {
    FilterIsSubsequence(groups, g => IsOtherGroup(groupId, g));
    FilterCounts(groups, g => IsOtherGroup(groupId, g));
    Filter(groups, g => IsOtherGroup(groupId, g))
  }

  /** What a card shows for its description. */
  function ShownDescription(g: Group): (s: string)
    ensures s != ""
    ensures s != "No description" ==> g.description == Some(s)
    ensures g.description.None? ==> s == "No description"
  {
    if DescriptionText(g) == "" then "No description" else DescriptionText(g)
  }

  class GroupListPage {
    var groups: seq<Group>
    var editingGroup: Option<GroupId>
    var form: GroupForm

    constructor ()
      ensures groups == [] && editingGroup.None? && form == GroupForm("", "")
    {
      groups, editingGroup, form := [], None, GroupForm("", "");
    }

    /** `handleEditClick`: edit this group, starting from its fields. */
    method HandleEditClick(g: Group)
      modifies this`editingGroup, this`form
      ensures editingGroup == Some(g.id) && form == EditFormOf(g)
    {
      editingGroup := Some(g.id);
      form := EditFormOf(g);
    }

    method EditName(text: string)
      modifies this`form
      ensures form == old(form).(name := text)
    {
      form := form.(name := text);
    }

    method EditDescription(text: string)
      modifies this`form
      ensures form == old(form).(description := text)
    {
      form := form.(description := text);
    }

    /** The Cancel button: leaves edit mode, keeps the list. */
    method Cancel()
      modifies this`editingGroup
      ensures editingGroup.None?
    {
      editingGroup := None;
    }

    /** `handleUpdate`: sends the form; on success swaps the server's group in
        for every entry with the id and leaves edit mode; on failure nothing
        changes. */
    method HandleUpdate(groupId: GroupId, reply: Response<Group>) returns (request: UpdateGroupRequest)
      modifies this`groups, this`editingGroup
      ensures request == UpdateGroupRequest(groupId, old(form))
      ensures reply.Ok? ==> groups == ReplaceById(old(groups), groupId, reply.data) && editingGroup.None?
      ensures !reply.Ok? ==> groups == old(groups) && editingGroup == old(editingGroup)
    {
      request := UpdateGroupRequest(groupId, form);
      if reply.Ok? {
        groups := ReplaceById(groups, groupId, reply.data);
        editingGroup := None;
      }
    }

    /** `handleDelete`: on success drops every group with the id. */
    method HandleDelete(groupId: GroupId, reply: Response<()>) returns (request: DeleteGroupRequest)
      modifies this`groups
      ensures request == DeleteGroupRequest(groupId)
      ensures groups == if reply.Ok? then WithoutGroup(old(groups), groupId) else old(groups)
    {
      request := DeleteGroupRequest(groupId);
      if reply.Ok? {
        groups := WithoutGroup(groups, groupId);
      }
    }
  }
}
