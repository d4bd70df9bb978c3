/**
 * The records the membership checks read: permissions, groups and users, as
 * the persistence layer hands them over, and the id-keyed collections the
 * checks build from them.
 *
 * A collection keyed by permission id is a PHP array assigned with
 * `$permissions[$permission->id] = $permission`, which is also what an
 * Eloquent collection's `merge` does. It is modelled as a list of permissions
 * with pairwise different ids, in insertion order: assigning a present id
 * replaces the entry in place, a new id is appended.
 */
module Records {
  import opened Php

  datatype Permission = Permission(id: nat, handle: string)

  datatype Group = Group(id: nat, handle: string, permissions: seq<Permission>)

  /** A user with the groups it belongs to and the permissions granted to it directly. */
  datatype User = User(id: nat, groups: seq<Group>, permissions: seq<Permission>)

  /** No two entries share an id. */
  predicate DistinctIds(d: seq<Permission>)
  {
    forall i, j :: 0 <= i < j < |d| ==> d[i].id != d[j].id
  }

  /** The ids present in a list of permissions. */
  function Ids(d: seq<Permission>): set<nat>
  {
    set p | p in d :: p.id
  }

  /** Every id names one permission: the records agree where their ids do. */
  ghost predicate IdsIdentify(ps: set<Permission>)
  {
    forall p, q :: p in ps && q in ps && p.id == q.id ==> p == q
  }

  /**
   * `$d[$p->id] = $p`: replaces the entry with `p`'s id, or appends `p`. The
   * result holds `p`, is at most one entry longer, and keeps every entry with
   * another id where it was.
   */
  function Put(d: seq<Permission>, p: Permission): (r: seq<Permission>)
    ensures p in r
    ensures |d| <= |r| <= |d| + 1
    ensures forall i :: 0 <= i < |d| && d[i].id != p.id ==> r[i] == d[i]
  {
    if d == [] then [p]
    else if d[0].id == p.id then [p] + d[1..]
    else [d[0]] + Put(d[1..], p)
  }

  /**
   * Assigns every permission of `ps`, in order. The last permission assigned
   * is present, and every entry whose id `ps` does not assign keeps its place.
   */
  function Merge(d: seq<Permission>, ps: seq<Permission>): (r: seq<Permission>)
    ensures |d| <= |r| <= |d| + |ps|
    ensures ps != [] ==> ps[|ps| - 1] in r
    ensures forall i :: 0 <= i < |d| && d[i].id !in Ids(ps) ==> r[i] == d[i]
  {
    if ps == [] then d
    else
      assert ps == ps[..|ps| - 1] + [ps[|ps| - 1]];
      assert Ids(ps[..|ps| - 1]) <= Ids(ps);
      Put(Merge(d, ps[..|ps| - 1]), ps[|ps| - 1])
  }

  /** Assigns the permissions of every list in `lists`, list after list; entries no list assigns keep their place. */
  function MergeAll(d: seq<Permission>, lists: seq<seq<Permission>>): (r: seq<Permission>)
    ensures |d| <= |r|
    ensures forall i :: 0 <= i < |d| && d[i].id !in GrantedIds(lists) ==> r[i] == d[i]
  {
    if lists == [] then d else Merge(MergeAll(d, lists[..|lists| - 1]), lists[|lists| - 1])
  }

  /** Every permission of every list in `lists`. */
  function Granted(lists: seq<seq<Permission>>): set<Permission>
  {
    if lists == [] then {} else Granted(lists[..|lists| - 1]) + Elements(lists[|lists| - 1])
  }

  /** The permission lists of the groups, group after group. */
  function PermissionLists(groups: seq<Group>): (lists: seq<seq<Permission>>)
    ensures |lists| == |groups|
    ensures forall i :: 0 <= i < |groups| ==> lists[i] == groups[i].permissions
  {
    seq(|groups|, i requires 0 <= i < |groups| => groups[i].permissions)
  }

  /** The handles of a list of permissions (`->lists('handle')`). */
  function PermissionHandles(d: seq<Permission>): (hs: seq<string>)
    ensures |hs| == |d|
    ensures forall i :: 0 <= i < |d| ==> hs[i] == d[i].handle
  {
    seq(|d|, i requires 0 <= i < |d| => d[i].handle)
  }

  /** The handles of a list of groups (`->lists('handle')`). */
  function GroupHandles(groups: seq<Group>): (hs: seq<string>)
    ensures |hs| == |groups|
    ensures forall i :: 0 <= i < |groups| ==> hs[i] == groups[i].handle
  {
    seq(|groups|, i requires 0 <= i < |groups| => groups[i].handle)
  }

  /** A list split into its first entry and the rest. */
  lemma Uncons(d: seq<Permission>)
    requires d != []
    ensures forall q :: q in d <==> q == d[0] || q in d[1..]
    ensures Ids(d) == {d[0].id} + Ids(d[1..])
  {
    assert forall q :: q in d <==> q == d[0] || q in d[1..];
  }

  /** Assigning `p` adds its id, and keeps every entry with another id. */
  lemma {:induction false} PutEntries(d: seq<Permission>, p: Permission)
    ensures Ids(Put(d, p)) == Ids(d) + {p.id}
    ensures p in Put(d, p)
    ensures forall q :: q in Put(d, p) ==> q == p || q in d
    ensures forall q :: q in d && q.id != p.id ==> q in Put(d, p)
  {
    if d != [] {
      Uncons(d);
      var r := Put(d, p);
      Uncons(r);
      if d[0].id != p.id {
        PutEntries(d[1..], p);
        assert r[1..] == Put(d[1..], p);
      } else {
        assert r[1..] == d[1..];
      }
    }
  }

  /** Dropping the first entry keeps the ids distinct, and the first id is not among the rest. */
  lemma DistinctIdsTail(d: seq<Permission>)
    requires d != [] && DistinctIds(d)
    ensures DistinctIds(d[1..]) && d[0].id !in Ids(d[1..])
  {
    forall i, j | 0 <= i < j < |d[1..]| ensures d[1..][i].id != d[1..][j].id {
      assert d[1..][i] == d[i + 1] && d[1..][j] == d[j + 1];
    }
    forall q | q in d[1..] ensures q.id != d[0].id {
      var k :| 0 <= k < |d[1..]| && d[1..][k] == q;
      assert q == d[k + 1];
    }
  }

  /** Putting an entry with a new id in front keeps the ids distinct. */
  lemma DistinctIdsCons(x: Permission, rest: seq<Permission>)
    requires DistinctIds(rest) && x.id !in Ids(rest)
    ensures DistinctIds([x] + rest)
  {
    var r := [x] + rest;
    forall i, j | 0 <= i < j < |r| ensures r[i].id != r[j].id {
      assert r[j] == rest[j - 1];
      if i == 0 {
        assert r[j] in rest;
      } else {
        assert r[i] == rest[i - 1];
      }
    }
  }

  /** Assigning keeps the ids distinct. */
  lemma {:induction false} PutDistinct(d: seq<Permission>, p: Permission)
    requires DistinctIds(d)
    ensures DistinctIds(Put(d, p))
  {
    if d != [] {
      DistinctIdsTail(d);
      if d[0].id == p.id {
        DistinctIdsCons(p, d[1..]);
      } else {
        PutDistinct(d[1..], p);
        PutEntries(d[1..], p);
        DistinctIdsCons(d[0], Put(d[1..], p));
      }
    }
  }

  /**
   * The loop `foreach ($ps as $p) { $d[$p->id] = $p; }`: every permission
   * of `ps` assigned in turn, so that ids stay distinct and each id of `ps`
   * ends up with the last permission of `ps` that has it.
   */
  method PutAll(d: seq<Permission>, ps: seq<Permission>) returns (r: seq<Permission>)
    ensures r == Merge(d, ps)
  {
    r := d;
    var j := 0;
    while j < |ps|
      invariant 0 <= j <= |ps|
      invariant r == Merge(d, ps[..j])
    {
      assert ps[..j + 1][..j] == ps[..j];
      r := Put(r, ps[j]);
      j := j + 1;
    }
    assert ps[..j] == ps;
  }

  /** Splitting off the last permission of a list. */
  lemma Unsnoc(ps: seq<Permission>)
    requires ps != []
    ensures Elements(ps) == Elements(ps[..|ps| - 1]) + {ps[|ps| - 1]}
    ensures Ids(ps) == Ids(ps[..|ps| - 1]) + {ps[|ps| - 1].id}
  {
    assert ps == ps[..|ps| - 1] + [ps[|ps| - 1]];
    assert forall q :: q in ps <==> q in ps[..|ps| - 1] || q == ps[|ps| - 1];
  }

  /** Merging adds exactly the ids of `ps`. */
  lemma {:induction false} MergeIds(d: seq<Permission>, ps: seq<Permission>)
    ensures Ids(Merge(d, ps)) == Ids(d) + Ids(ps)
  {
    if ps != [] {
      MergeIds(d, ps[..|ps| - 1]);
      PutEntries(Merge(d, ps[..|ps| - 1]), ps[|ps| - 1]);
      Unsnoc(ps);
    }
  }

  /** Merging keeps the ids distinct. */
  lemma {:induction false} MergeDistinct(d: seq<Permission>, ps: seq<Permission>)
    requires DistinctIds(d)
    ensures DistinctIds(Merge(d, ps))
  {
    if ps != [] {
      MergeDistinct(d, ps[..|ps| - 1]);
      PutDistinct(Merge(d, ps[..|ps| - 1]), ps[|ps| - 1]);
    }
  }

  /** When ids identify the records involved, assigning adds `p` to the permissions and drops none. */
  lemma PutElements(m: seq<Permission>, p: Permission)
    requires IdsIdentify(Elements(m) + {p})
    ensures Elements(Put(m, p)) == Elements(m) + {p}
  {
    PutEntries(m, p);
    forall q | q in m ensures q in Put(m, p) {
      if q.id == p.id {
        assert q in Elements(m);
      }
    }
  }

  /** When ids identify the records involved, merging holds exactly the permissions of `d` and of `ps`. */
  lemma {:induction false} MergeElements(d: seq<Permission>, ps: seq<Permission>)
    requires IdsIdentify(Elements(d) + Elements(ps))
    ensures Elements(Merge(d, ps)) == Elements(d) + Elements(ps)
  {
    if ps != [] {
      var front, last := ps[..|ps| - 1], ps[|ps| - 1];
      Unsnoc(ps);
      assert IdsIdentify(Elements(d) + Elements(front));
      MergeElements(d, front);
      PutElements(Merge(d, front), last);
    }
  }

  /** The ids granted by a family of lists. */
  function GrantedIds(lists: seq<seq<Permission>>): set<nat>
  {
    if lists == [] then {} else GrantedIds(lists[..|lists| - 1]) + Ids(lists[|lists| - 1])
  }

  /** Merging list after list adds exactly the ids of all lists. */
  lemma {:induction false} MergeAllIds(d: seq<Permission>, lists: seq<seq<Permission>>)
    ensures Ids(MergeAll(d, lists)) == Ids(d) + GrantedIds(lists)
  {
    if lists != [] {
      MergeAllIds(d, lists[..|lists| - 1]);
      MergeIds(MergeAll(d, lists[..|lists| - 1]), lists[|lists| - 1]);
    }
  }

  /** Merging list after list keeps the ids distinct. */
  lemma {:induction false} MergeAllDistinct(d: seq<Permission>, lists: seq<seq<Permission>>)
    requires DistinctIds(d)
    ensures DistinctIds(MergeAll(d, lists))
  {
    if lists != [] {
      MergeAllDistinct(d, lists[..|lists| - 1]);
      MergeDistinct(MergeAll(d, lists[..|lists| - 1]), lists[|lists| - 1]);
    }
  }

  /** When ids identify the records involved, merging list after list holds exactly their permissions. */
  lemma {:induction false} MergeAllElements(d: seq<Permission>, lists: seq<seq<Permission>>)
    requires IdsIdentify(Elements(d) + Granted(lists))
    ensures Elements(MergeAll(d, lists)) == Elements(d) + Granted(lists)
  {
    if lists != [] {
      var front, last := lists[..|lists| - 1], lists[|lists| - 1];
      assert Granted(lists) == Granted(front) + Elements(last);
      assert IdsIdentify(Elements(d) + Granted(front));
      MergeAllElements(d, front);
      MergeElements(MergeAll(d, front), last);
    }
  }
}
