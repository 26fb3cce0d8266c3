/** The groups repository: a table of permission groups keyed by identity
    and the user-to-group membership relation, with the operations that
    change them and the queries that read them. Every method is one atomic
    step against the tables, as one SQL statement is. */
module GroupsRepo {
  import opened Primitive
  import opened Permissions

  /** One row of the groups table (identity, timestamps, name and the
      permission bit-set the group grants). */
  datatype Group = Group(
    id: ID,
    createdAt: Time,
    updatedAt: Option<Time>,
    name: string,
    permissions: Permission)

  /** The filter of the permissions query: the group grants at least one of
      the bits asked for. */
  predicate SharesPermission(g: Group, p: Permission)
  {
    g.permissions & p != 0
  }

  class GroupsTable {
    /** The stored groups, keyed by identity. */
    var groups: map<ID, Group>
    /** The membership relation: a pair (user, group) per row. */
    var members: set<(ID, ID)>
    /** The next value of the identity sequence. */
    var nextId: ID

    ghost predicate Valid()
      reads this
    {
      forall id :: id in groups ==> groups[id].id == id && id < nextId
    }

    constructor ()
      ensures Valid() && groups == map[] && members == {} && nextId == 1
    {
      groups := map[];
      members := {};
      nextId := 1;
    }

    /** Stores a group with the caller's name and permissions under a fresh
        identity and gives the caller back its record with the identity and
        creation time filled in. */
    method Create(g: Group, now: Time) returns (created: Group)
      requires Valid()
      modifies this`groups, this`nextId
      ensures Valid()
      ensures created.id !in old(groups)
      ensures created == g.(id := created.id, createdAt := now)
      ensures groups == old(groups)[created.id := Group(created.id, now, None, g.name, g.permissions)]
    {
      var id := nextId;
      groups := groups[id := Group(id, now, None, g.name, g.permissions)];
      nextId := nextId + 1;
      created := g.(id := id, createdAt := now);
    }

    /** Replaces the name and permissions of the group with the caller's
        identity; reports NotFound, changing nothing, when there is none. */
    method Update(g: Group, now: Time) returns (o: Outcome)
      requires Valid()
      modifies this`groups
      ensures Valid()
      ensures o == Done <==> g.id in old(groups)
      ensures o != Done ==> o == Fail(NotFound) && groups == old(groups)
      ensures o == Done ==>
        groups == old(groups)[g.id := old(groups)[g.id].(name := g.name, permissions := g.permissions, updatedAt := Some(now))]
    {
      if g.id !in groups {
        return Fail(NotFound);
      }
      groups := groups[g.id := groups[g.id].(name := g.name, permissions := g.permissions, updatedAt := Some(now))];
      o := Done;
    }

    /** Removes the group with the identity, if any; an absent identity is
        not an error. The membership relation is not touched. */
    method Delete(id: ID) returns (o: Outcome)
      requires Valid()
      modifies this`groups
      ensures Valid()
      ensures o == Done
      ensures groups == old(groups) - {id}
    {
      groups := groups - {id};
      o := Done;
    }

    /** Reads one group; NotFound when there is none with the identity. */
    method GetByID(id: ID) returns (r: Result<Group>)
      requires Valid()
      ensures r.Ok? <==> id in groups
      ensures r.Ok? ==> r.value == groups[id] && r.value.id == id
      ensures r.Err? ==> r.error == NotFound
    {
      if id !in groups {
        return Err(NotFound);
      }
      r := Ok(groups[id].(id := id));
    }

    /** The row loop the list queries share: visits every stored group once,
        in no particular order, and keeps those the filter accepts. The
        result lists exactly the accepted groups, each once. */
    method Scan(keep: Group -> bool) returns (r: seq<Group>)
      requires Valid()
      ensures forall g :: g in r <==> g.id in groups && groups[g.id] == g && keep(g)
      ensures forall i, j :: 0 <= i < j < |r| ==> r[i].id != r[j].id
    {
      var todo := groups.Keys;
      r := [];
      while todo != {}
        invariant todo <= groups.Keys
        invariant forall g :: g in r <==> g.id in groups && g.id !in todo && groups[g.id] == g && keep(g)
        invariant forall i, j :: 0 <= i < j < |r| ==> r[i].id != r[j].id
        decreases todo
      {
        var id :| id in todo;
        var g := groups[id];
        if keep(g) {
          r := r + [g];
        }
        todo := todo - {id};
      }
    }

    /** The groups that grant at least one of the bits in `p`, each once. */
    method GetByPermissions(p: Permission) returns (r: seq<Group>)
      requires Valid()
      ensures forall g :: g in r <==> g.id in groups && groups[g.id] == g && SharesPermission(g, p)
      ensures forall i, j :: 0 <= i < j < |r| ==> r[i].id != r[j].id
    {
      r := Scan((g: Group) => SharesPermission(g, p));
    }

    /** Every stored group, each once. */
    method GetAll() returns (r: seq<Group>)
      requires Valid()
      ensures forall g :: g in r <==> g.id in groups && groups[g.id] == g
      ensures forall i, j :: 0 <= i < j < |r| ==> r[i].id != r[j].id
      ensures |r| == |groups|
    {
      r := Scan((g: Group) => true);
      ListsAllKeys(r, groups);
    }

    /** Adds the pair (user, group) to the membership relation. */
    method AddUser(groupID: ID, userID: ID) returns (o: Outcome)
      modifies this`members
      ensures o == Done
      ensures members == old(members) + {(userID, groupID)}
    {
      members := members + {(userID, groupID)};
      o := Done;
    }

    /** The stored groups the user is paired with, each once. A pair whose
        group is no longer stored contributes nothing. */
    method GetUserGroups(userID: ID) returns (r: seq<Group>)
      requires Valid()
      ensures forall g :: g in r <==> g.id in groups && groups[g.id] == g && (userID, g.id) in members
      ensures forall i, j :: 0 <= i < j < |r| ==> r[i].id != r[j].id
    {
      var pairs := members;
      r := Scan((g: Group) => (userID, g.id) in pairs);
    }

    /** Removes the pair (user, group) from the membership relation; an
        absent pair is not an error and changes nothing. */
    method RemoveUser(groupID: ID, userID: ID) returns (o: Outcome)
      modifies this`members
      ensures o == Done
      ensures members == old(members) - {(userID, groupID)}
    {
      members := members - {(userID, groupID)};
      o := Done;
    }
  }

  /** Reading a group back right after creating it gives the record the
      caller got, except that the stored row has no update time. */
  method CreateThenRead(t: GroupsTable, g: Group, now: Time) returns (created: Group, read: Result<Group>)
    requires t.Valid()
    modifies t
    ensures t.Valid()
    ensures read == Ok(created.(updatedAt := None))
  {
    created := t.Create(g, now);
    read := t.GetByID(created.id);
  }

  /** Deleting a group keeps its membership pairs, yet the user-groups query
      no longer lists it. */
  method DeleteThenListUserGroups(t: GroupsTable, id: ID, userID: ID) returns (listed: seq<Group>)
    requires t.Valid()
    modifies t
    ensures t.Valid()
    ensures t.members == old(t.members)
    ensures forall g :: g in listed ==> g.id != id
  {
    var _ := t.Delete(id);
    listed := t.GetUserGroups(userID);
  }

  /** The permissions query for a single capability bit lists the groups
      whose permissions pass that capability's test. */
  lemma SharesFlagIsHolds(g: Group, k: bv8)
    requires k < Count
    ensures SharesPermission(g, Flag(k)) == Holds(k, g.permissions)
  {
  }

  /** No group passes the permissions query with the empty mask. */
  lemma NothingSharesEmptyMask(g: Group)
    ensures !SharesPermission(g, 0)
  {
  }

  /** A list that holds each stored group once, and nothing else, is as long
      as the table. */
  lemma ListsAllKeys(r: seq<Group>, groups: map<ID, Group>)
    requires forall g :: g in r <==> g.id in groups && groups[g.id] == g
    requires forall i, j :: 0 <= i < j < |r| ==> r[i].id != r[j].id
    requires forall id :: id in groups ==> groups[id].id == id
    ensures |r| == |groups|
  {
    var ids := set i | 0 <= i < |r| :: r[i].id;
    assert ids == groups.Keys by {
      forall id | id in groups ensures id in ids {
        assert groups[id] in r;
      }
    }
    DistinctIdsCount(r);
  }

  /** The identities of a list with pairwise distinct identities number as
      many as its elements. */
  lemma {:induction false} DistinctIdsCount(r: seq<Group>)
    requires forall i, j :: 0 <= i < j < |r| ==> r[i].id != r[j].id
    ensures |set i | 0 <= i < |r| :: r[i].id| == |r|
  {
    if r != [] {
      var n := |r|;
      var r' := r[..n - 1];
      DistinctIdsCount(r');
      var before := set i | 0 <= i < n - 1 :: r'[i].id;
      var after := set i | 0 <= i < n :: r[i].id;
      assert after == before + {r[n - 1].id};
      assert r[n - 1].id !in before;
    }
  }

  // ---------------------------------------------------------------------
  // Auxiliary, not part of the source: the union of the permissions of a
  // list of groups, such as the one the user-groups query returns.

  function UnionOf(gs: seq<Group>): Permission
  {
    if gs == [] then 0 else gs[0].permissions | UnionOf(gs[1..])
  }

  /** The union grants a capability only if some group in the list does ... */
  lemma {:induction false} UnionGrantsOnlyFromMembers(k: bv8, gs: seq<Group>)
    requires k < Count
    requires Holds(k, UnionOf(gs))
    ensures exists i :: 0 <= i < |gs| && Holds(k, gs[i].permissions)
  {
    if gs == [] {
      EmptyGrantsNothing(k);
    } else {
      UnionGrantsOnlyFromParts(k, gs[0].permissions, UnionOf(gs[1..]));
      if !Holds(k, gs[0].permissions) {
        UnionGrantsOnlyFromMembers(k, gs[1..]);
        var i :| 0 <= i < |gs[1..]| && Holds(k, gs[1..][i].permissions);
        assert gs[i + 1] == gs[1..][i];
      }
    }
  }

  /** ... and grants every capability some group in the list grants. */
  lemma {:induction false} UnionGrantsFromEachMember(k: bv8, gs: seq<Group>, i: int)
    requires k < Count && 0 <= i < |gs|
    requires Holds(k, gs[i].permissions)
    ensures Holds(k, UnionOf(gs))
  {
    if i == 0 {
      HoldsMonotone(k, gs[0].permissions, UnionOf(gs[1..]));
    } else {
      UnionGrantsFromEachMember(k, gs[1..], i - 1);
      HoldsMonotone(k, UnionOf(gs[1..]), gs[0].permissions);
      assert gs[0].permissions | UnionOf(gs[1..]) == UnionOf(gs[1..]) | gs[0].permissions;
    }
  }
}
