/** The study-group hook: the group list with the current user's membership
    and role derived from each group's memberships, and the create, join and
    leave operations on the `study_groups` and `group_memberships` tables. */
module Groups {
  import opened Common
  import opened Seqs

  /** The `group_role` enum of the database. */
  datatype Role = Admin | Moderator | Member

  /** A membership as the group query joins it: `{ user_id, role }`. */
  datatype Membership = Membership(userId: Id, role: Role)

  /** A row of `study_groups` with its creator's name and its memberships
      (`null` when the join returned none). */
  datatype GroupRow = GroupRow(
    id: Id,
    name: string,
    description: Option<string>,
    course: Option<string>,
    isPrivate: bool,
    memberCount: int,
    createdBy: Id,
    createdAt: string,
    updatedAt: string,
    creatorName: Option<string>,
    memberships: Option<seq<Membership>>)

  /** A group as the hook exposes it: the row plus `is_member` and `user_role`. */
  datatype GroupData = GroupData(row: GroupRow, isMember: bool, userRole: Option<Role>)

  /** `m.user_id === user?.id`: with no user no membership matches, since a
      membership always has a user id. */
  function IsUser(user: Option<Id>): Membership -> bool {
    (m: Membership) => user == Some(m.userId)
  }

  /** The memberships of a group, `[]` for a null join. */
  function MembersOf(g: GroupRow): seq<Membership> {
    g.memberships.GetOr([])
  }

  /** The derivation of one group: `is_member` from `some`, `user_role` from
      the role of the first matching membership found by `find`. */
  function WithMembership(g: GroupRow, user: Option<Id>): (d: GroupData)
    ensures d.row == g
    ensures d.isMember <==> exists i :: 0 <= i < |MembersOf(g)| && user == Some(MembersOf(g)[i].userId)
    ensures d.userRole.None? <==> !d.isMember
    ensures forall i ::
              (0 <= i < |MembersOf(g)| && user == Some(MembersOf(g)[i].userId) &&
               (forall j :: 0 <= j < i ==> user != Some(MembersOf(g)[j].userId))) ==> d.userRole == Some(MembersOf(g)[i].role)
  {
    var ms := MembersOf(g);
    var found := Find(IsUser(user), ms);
    var role := match found case Some(m) => Some(m.role) case None => None;
    assert found.Some? ==> Any(IsUser(user), ms);
    GroupData(g, Any(IsUser(user), ms), role)
  }

  /** `data?.map(...) || []` over the fetched rows. */
  function DeriveMemberships(rows: seq<GroupRow>, user: Option<Id>): (r: seq<GroupData>)
    ensures |r| == |rows|
    ensures forall i :: 0 <= i < |r| ==> r[i].row == rows[i]
    ensures forall i :: 0 <= i < |r| ==> r[i] == WithMembership(rows[i], user)
  {
    Map((g: GroupRow) => WithMembership(g, user), rows)
  }

  /** Without a signed-in user no group is shown as joined and no role is set. */
  lemma NoUserNoMembership(rows: seq<GroupRow>)
    ensures forall i :: 0 <= i < |rows| ==>
              !DeriveMemberships(rows, None)[i].isMember && DeriveMemberships(rows, None)[i].userRole.None?
  {
  }

  /** A creator who is also listed as a member with another role gets the role
      of the first listing: the order of the memberships decides. */
  lemma FirstListingDecidesRole(g: GroupRow, user: Id, first: Role, second: Role)
    requires g.memberships == Some([Membership(user, first), Membership(user, second)])
    ensures WithMembership(g, Some(user)).userRole == Some(first)
  {
    assert MembersOf(g)[0].userId == user;
  }

  /** A row of `group_memberships`. */
  datatype MembershipRow = MembershipRow(groupId: Id, userId: Id, role: Role)

  function InGroup(groupId: Id): MembershipRow -> bool {
    (m: MembershipRow) => m.groupId == groupId
  }

  function AsMembership(m: MembershipRow): Membership {
    Membership(m.userId, m.role)
  }

  /** The memberships of `groupId` in a membership table, as the group query
      joins them: each one is a row of that group, and every row of that
      group is listed. */
  function MembershipsIn(table: seq<MembershipRow>, groupId: Id): (r: seq<Membership>)
    ensures |r| <= |table|
    ensures forall i :: 0 <= i < |r| ==>
              exists k :: 0 <= k < |table| && table[k].groupId == groupId && r[i] == AsMembership(table[k])
    ensures forall k :: 0 <= k < |table| && table[k].groupId == groupId ==> AsMembership(table[k]) in r
  {
    var kept := Filter(InGroup(groupId), table);
    var r := Map(AsMembership, kept);
    forall k | 0 <= k < |table| && table[k].groupId == groupId
      ensures AsMembership(table[k]) in r
    {
      FilterMembership(InGroup(groupId), table, table[k]);
      var j :| 0 <= j < |kept| && kept[j] == table[k];
      assert r[j] == AsMembership(table[k]);
    }
    r
  }

  /** `joinGroup`'s insert: one more row, with role 'member', after the
      existing ones. */
  function JoinRows(table: seq<MembershipRow>, groupId: Id, userId: Id): (r: seq<MembershipRow>)
    ensures |r| == |table| + 1 && r[..|table|] == table
    ensures r[|table|] == MembershipRow(groupId, userId, Member)
  {
    table + [MembershipRow(groupId, userId, Member)]
  }

  /** `leaveGroup`'s `.delete().eq('group_id', groupId).eq('user_id', user.id)`. */
  function LeaveRows(table: seq<MembershipRow>, groupId: Id, userId: Id): (r: seq<MembershipRow>)
    ensures forall i :: 0 <= i < |r| ==> !(r[i].groupId == groupId && r[i].userId == userId)
  {
    Filter((m: MembershipRow) => !(m.groupId == groupId && m.userId == userId), table)
  }

  /** Leaving removes exactly the rows of that user in that group: the user's
      rows in other groups and other users' rows in that group are kept, in
      order. */
  lemma LeaveRemovesExactly(table: seq<MembershipRow>, groupId: Id, userId: Id, m: MembershipRow)
    ensures m in LeaveRows(table, groupId, userId) <==> m in table && !(m.groupId == groupId && m.userId == userId)
    ensures IsSubsequence(LeaveRows(table, groupId, userId), table)
  {
    var keep := (m: MembershipRow) => !(m.groupId == groupId && m.userId == userId);
    FilterMembership(keep, table, m);
    FilterIsSubsequence(keep, table);
  }

  /** After a join the next fetch shows the group as joined. */
  lemma JoinMakesMember(g: GroupRow, table: seq<MembershipRow>, userId: Id)
    requires g.memberships == Some(MembershipsIn(JoinRows(table, g.id, userId), g.id))
    ensures WithMembership(g, Some(userId)).isMember
  {
    var keep := InGroup(g.id);
    var row := MembershipRow(g.id, userId, Member);
    FilterAppend(keep, table, [row]);
    assert Filter(keep, [row]) == [row];
    var kept := Filter(keep, JoinRows(table, g.id, userId));
    assert kept[|kept| - 1] == row;
    assert MembersOf(g)[|kept| - 1].userId == userId;
  }

  /** After a leave the next fetch shows the group as not joined and with no
      role, whatever the user's role was. */
  lemma LeaveEndsMembership(g: GroupRow, table: seq<MembershipRow>, userId: Id)
    requires g.memberships == Some(MembershipsIn(LeaveRows(table, g.id, userId), g.id))
    ensures !WithMembership(g, Some(userId)).isMember
    ensures WithMembership(g, Some(userId)).userRole.None?
  {
    var left := LeaveRows(table, g.id, userId);
    var kept := Filter(InGroup(g.id), left);
    forall i | 0 <= i < |MembersOf(g)|
      ensures MembersOf(g)[i].userId != userId
    {
      assert kept[i] in left;
    }
  }

  /** The row `createGroup` inserts into `study_groups`. */
  datatype NewGroup = NewGroup(
    name: string,
    description: Option<string>,
    course: Option<string>,
    isPrivate: bool,
    createdBy: Id)

  /** The remote calls the hook issues, in order. */
  datatype GroupCall =
    | InsertGroup(group: NewGroup)
    | InsertMembership(row: MembershipRow)
    | DeleteMembership(groupId: Id, userId: Id)
    | RefreshGroups

  /** The state of the mounted `useGroups()` hook. */
  class GroupsHook {
    const user: Option<Id>
    var groups: seq<GroupData>
    var loading: bool

    constructor (user: Option<Id>)
      ensures this.user == user && groups == [] && loading
    {
      this.user := user;
      groups := [];
      loading := true;
    }

    /** `fetchGroups`: the list becomes the derivation over the fetched rows
        (`[]` for a null result); a failed query keeps it. */
    method FetchGroups(data: Option<seq<GroupRow>>, queryOk: bool)
      modifies this`groups, this`loading
      ensures !loading
      ensures groups == if queryOk then DeriveMemberships(data.GetOr([]), user) else old(groups)
    {
      loading := true;
      if queryOk {
        groups := DeriveMemberships(data.GetOr([]), user);
      }
      loading := false;
    }

    /** `createGroup`: insert the group (`createdId` is the id the database
        gave it, `None` when the insert failed), then the creator's admin
        membership, then refresh. `is_private` defaults to false. */
    method CreateGroup(name: string, description: Option<string>, course: Option<string>,
                       isPrivate: Option<bool>, createdId: Option<Id>, memberOk: bool)
      returns (calls: seq<GroupCall>, result: Result<Id>)
      ensures user.None? ==> calls == [] && result == Err("User not authenticated")
      ensures user.Some? ==>
                (|calls| >= 1 && calls[0] == InsertGroup(NewGroup(name, description, course, isPrivate.GetOr(false), user.value)))
      ensures user.Some? && createdId.None? ==> (|calls| == 1 && result == Err("Creation failed"))
      ensures user.Some? && createdId.Some? ==>
                (|calls| >= 2 && calls[1] == InsertMembership(MembershipRow(createdId.value, user.value, Admin)))
      ensures user.Some? && createdId.Some? && !memberOk ==> (|calls| == 2 && result == Err("Creation failed"))
      ensures user.Some? && createdId.Some? && memberOk ==>
                (calls[2..] == [RefreshGroups] && result == Ok(createdId.value))
    {
      if user.None? {
        return [], Err("User not authenticated");
      }
      calls := [InsertGroup(NewGroup(name, description, course, isPrivate.GetOr(false), user.value))];
      if createdId.None? {
        return calls, Err("Creation failed");
      }
      calls := calls + [InsertMembership(MembershipRow(createdId.value, user.value, Admin))];
      if !memberOk {
        return calls, Err("Creation failed");
      }
      calls := calls + [RefreshGroups];
      result := Ok(createdId.value);
    }

    /** `joinGroup`: insert a 'member' membership, then refresh. */
    method JoinGroup(groupId: Id, insertOk: bool) returns (calls: seq<GroupCall>, outcome: Outcome)
      ensures user.None? ==> calls == [] && outcome == Failure("User not authenticated")
      ensures user.Some? ==> (|calls| >= 1 && calls[0] == InsertMembership(MembershipRow(groupId, user.value, Member)))
      ensures user.Some? && !insertOk ==> (|calls| == 1 && outcome == Failure("Join failed"))
      ensures user.Some? && insertOk ==> (calls[1..] == [RefreshGroups] && outcome == Success)
    {
      if user.None? {
        return [], Failure("User not authenticated");
      }
      calls := [InsertMembership(MembershipRow(groupId, user.value, Member))];
      if !insertOk {
        return calls, Failure("Join failed");
      }
      calls := calls + [RefreshGroups];
      outcome := Success;
    }

    /** `leaveGroup`: delete the user's membership rows of the group, then
        refresh. */
    method LeaveGroup(groupId: Id, deleteOk: bool) returns (calls: seq<GroupCall>, outcome: Outcome)
      ensures user.None? ==> calls == [] && outcome == Failure("User not authenticated")
      ensures user.Some? ==> (|calls| >= 1 && calls[0] == DeleteMembership(groupId, user.value))
      ensures user.Some? && !deleteOk ==> (|calls| == 1 && outcome == Failure("Leave failed"))
      ensures user.Some? && deleteOk ==> (calls[1..] == [RefreshGroups] && outcome == Success)
    {
      if user.None? {
        return [], Failure("User not authenticated");
      }
      calls := [DeleteMembership(groupId, user.value)];
      if !deleteOk {
        return calls, Failure("Leave failed");
      }
      calls := calls + [RefreshGroups];
      outcome := Success;
    }
  }
}
