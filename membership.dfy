/**
 * The membership operations of a user: `groupPermissions`,
 * `allPermissions`, `is` and `can`, reading through the shared
 * remember-forever cache.
 *
 * Every operation takes the cache-key scheme: `Literal` is the one the
 * operations use as written, `Scoped` keys each entry by its group or user.
 * Each method is specified by a function from the cache's store before the
 * call to the answer and the store after it (a `Run`); the lemmas below are
 * about those functions.
 */
module UserMembership {
  import opened Php
  import opened Records
  import opened CacheKeys
  import opened Authorization
  import opened KeyValueCache

  /** What the operations keep in the cache: a permission list or a handle list. */
  datatype Cached = Permissions(permissions: seq<Permission>) | Handles(handles: seq<string>)

  type Store = map<string, Cached>

  /** The answer of an operation and the cache's store after it. */
  datatype Run<T> = Run(result: T, store: Store)

  /** A cached permission list; an entry of the other kind reads as empty (see `KeysApart`). */
  function PermissionsIn(entry: Cached): seq<Permission>
  {
    match entry
    case Permissions(ps) => ps
    case Handles(_) => []
  }

  /** A cached handle list; an entry of the other kind reads as empty (see `KeysApart`). */
  function HandlesIn(entry: Cached): seq<string>
  {
    match entry
    case Handles(hs) => hs
    case Permissions(_) => []
  }

  // ---------------------------------------------------------------------
  // What the operations compute
  // ---------------------------------------------------------------------

  /**
   * The permission lists the loop of `groupPermissions` reads, group after
   * group, each through a remember-forever request under the group's key,
   * and the store after the loop.
   */
  function GroupLists(store: Store, scheme: KeyScheme, groups: seq<Group>): (run: Run<seq<seq<Permission>>>)
    ensures |run.result| == |groups|
    ensures forall g :: g in groups ==> GroupPermissionsKey(scheme, g) in run.store
    ensures Keeps(store, run.store)
  {
    if groups == [] then Run([], store)
    else
      var before := GroupLists(store, scheme, groups[..|groups| - 1]);
      var group := groups[|groups| - 1];
      var key := GroupPermissionsKey(scheme, group);
      var computed := Permissions(group.permissions);
      assert groups == groups[..|groups| - 1] + [group];
      Run(before.result + [PermissionsIn(Recall(before.store, key, computed))], Retain(before.store, key, computed))
  }

  /** The store only gains entries: every entry of `before` is in `after`, unchanged. */
  predicate Keeps(before: Store, after: Store)
  {
    forall k :: k in before ==> k in after && after[k] == before[k]
  }

  /**
   * `groupPermissions()`: the lists read, merged by permission id. Whatever
   * the cache holds, no id is listed twice, and no stored entry changes.
   */
  function GroupPermissionsRun(store: Store, scheme: KeyScheme, user: User): (run: Run<seq<Permission>>)
    ensures DistinctIds(run.result)
    ensures Keeps(store, run.store)
  {
    var lists := GroupLists(store, scheme, user.groups);
    MergeAllDistinct([], lists.result);
    GroupListsFrame(store, scheme, user.groups);
    Run(MergeAll([], lists.result), lists.store)
  }

  /**
   * `allPermissions()`: on a miss, the direct permissions keyed by id with
   * the group permissions merged in, stored under the key afterwards. The
   * answer is what the store then holds under the key, and no stored entry
   * changes.
   */
  function AllPermissionsRun(store: Store, scheme: KeyScheme, user: User): (run: Run<seq<Permission>>)
    ensures AllPermissionsKey(scheme, user) in run.store
    ensures PermissionsIn(run.store[AllPermissionsKey(scheme, user)]) == run.result
    ensures Keeps(store, run.store)
  {
    var key := AllPermissionsKey(scheme, user);
    if key in store then Run(PermissionsIn(store[key]), store)
    else
      var groups := GroupPermissionsRun(store, scheme, user);
      var all := Merge(Merge([], user.permissions), groups.result);
      Run(all, groups.store[key := Permissions(all)])
  }

  /**
   * `is($groups, $strict)`: the group handles come through the cache. The
   * answer is taken from the handles the store then holds under the key, is
   * true only when logged in, and no stored entry changes.
   */
  function IsRun(store: Store, scheme: KeyScheme, user: User, groups: HandleList, strict: bool, plural: string -> string, loggedIn: bool): (run: Run<bool>)
    ensures GroupHandlesKey(scheme, user) in run.store
    ensures run.result == IsAnswer(HandlesIn(run.store[GroupHandlesKey(scheme, user)]), groups, strict, plural, loggedIn)
    ensures run.result ==> loggedIn
    ensures Keeps(store, run.store)
  {
    var key := GroupHandlesKey(scheme, user);
    var computed := Handles(GroupHandles(user.groups));
    Run(IsAnswer(HandlesIn(Recall(store, key, computed)), groups, strict, plural, loggedIn), Retain(store, key, computed))
  }

  /**
   * `can($permissions)`: the permission handles are those of
   * `allPermissions()`, as the store then holds them; true only when logged
   * in, and no stored entry changes.
   */
  function CanRun(store: Store, scheme: KeyScheme, user: User, permissions: HandleList, loggedIn: bool): (run: Run<bool>)
    ensures AllPermissionsKey(scheme, user) in run.store
    ensures run.result == CanAnswer(PermissionHandles(PermissionsIn(run.store[AllPermissionsKey(scheme, user)])), permissions, loggedIn)
    ensures run.result ==> loggedIn
    ensures Keeps(store, run.store)
  {
    var all := AllPermissionsRun(store, scheme, user);
    Run(CanAnswer(PermissionHandles(all.result), permissions, loggedIn), all.store)
  }

  /**
   * `can($permissions, $model, $column)`: an error exactly for a truthy
   * non-record, which leaves the cache alone; otherwise no stored entry
   * changes either.
   */
  function CanOnRun(store: Store, scheme: KeyScheme, user: User, permissions: HandleList, model: ModelArg, column: string, loggedIn: bool): (run: Run<Result<bool>>)
    ensures run.result.Err? <==> model.Value? && model.truthy
    ensures run.result.Err? ==> run.store == store
    ensures run.result.Ok? ==> AllPermissionsKey(scheme, user) in run.store
    ensures run.result.Ok? ==>
              run.result == CanOnAnswer(PermissionHandles(PermissionsIn(run.store[AllPermissionsKey(scheme, user)])), permissions, model, column, user.id, loggedIn)
    ensures run.result == Ok(true) ==> loggedIn
    ensures Keeps(store, run.store)
  {
    if Truthy(model) && !model.Record? then Run(Err(IncorrectParameterType), store)
    else
      var all := AllPermissionsRun(store, scheme, user);
      Run(CanOnAnswer(PermissionHandles(all.result), permissions, model, column, user.id, loggedIn), all.store)
  }

  // ---------------------------------------------------------------------
  // The operations
  // ---------------------------------------------------------------------

  /** Unions the permissions of every group of the user, keyed by permission id. */
  method GroupPermissions(user: User, scheme: KeyScheme, cache: Cache<Cached>) returns (permissions: seq<Permission>)
    modifies cache
    ensures permissions == GroupPermissionsRun(old(cache.store), scheme, user).result
    ensures cache.store == GroupPermissionsRun(old(cache.store), scheme, user).store
    ensures DistinctIds(permissions)
  {
    ghost var start := cache.store;
    permissions := [];
    var i := 0;
    while i < |user.groups|
      invariant 0 <= i <= |user.groups|
      invariant start == old(cache.store)
      invariant permissions == MergeAll([], GroupLists(start, scheme, user.groups[..i]).result)
      invariant cache.store == GroupLists(start, scheme, user.groups[..i]).store
    {
      GroupListsNext(start, scheme, user.groups, i);
      permissions := AddGroup(user.groups[i], scheme, permissions, cache);
      i := i + 1;
    }
    assert user.groups[..i] == user.groups;
  }

  /**
   * One pass of the loop of `groupPermissions`: the group's permission list
   * through a remember-forever request under its key, assigned by id.
   */
  method AddGroup(group: Group, scheme: KeyScheme, permissions: seq<Permission>, cache: Cache<Cached>) returns (next: seq<Permission>)
    modifies cache
    ensures next == Merge(permissions, PermissionsIn(Recall(old(cache.store), GroupPermissionsKey(scheme, group), Permissions(group.permissions))))
    ensures cache.store == Retain(old(cache.store), GroupPermissionsKey(scheme, group), Permissions(group.permissions))
  {
    var computed := Permissions(group.permissions);
    var cached := cache.RememberForever(GroupPermissionsKey(scheme, group), () => computed);
    next := PutAll(permissions, PermissionsIn(cached));
  }

  /** One more group through the loop of `groupPermissions`. */
  lemma GroupListsNext(start: Store, scheme: KeyScheme, groups: seq<Group>, i: nat)
    requires i < |groups|
    ensures var before := GroupLists(start, scheme, groups[..i]);
            var key := GroupPermissionsKey(scheme, groups[i]);
            var computed := Permissions(groups[i].permissions);
            var after := GroupLists(start, scheme, groups[..i + 1]);
            after.store == Retain(before.store, key, computed) &&
            MergeAll([], after.result) == Merge(MergeAll([], before.result), PermissionsIn(Recall(before.store, key, computed)))
  {
    assert groups[..i + 1][..i] == groups[..i];
    var after := GroupLists(start, scheme, groups[..i + 1]).result;
    assert after[..|after| - 1] == GroupLists(start, scheme, groups[..i]).result;
  }

  /**
   * The user's direct permissions merged with its group permissions,
   * remembered under the all-permissions key. The producer itself writes to
   * the cache, so the remember-forever request is spelled out.
   */
  method AllPermissions(user: User, scheme: KeyScheme, cache: Cache<Cached>) returns (permissions: seq<Permission>)
    modifies cache
    ensures permissions == AllPermissionsRun(old(cache.store), scheme, user).result
    ensures cache.store == AllPermissionsRun(old(cache.store), scheme, user).store
  {
    var key := AllPermissionsKey(scheme, user);
    if key in cache.store {
      permissions := PermissionsIn(cache.store[key]);
    } else {
      var groupPermissions := GroupPermissions(user, scheme, cache);
      permissions := Merge(Merge([], user.permissions), groupPermissions);
      cache.Forever(key, Permissions(permissions));
    }
  }

  /** Whether the user belongs to the listed groups (all or one of them), and is logged in. */
  method Is(user: User, scheme: KeyScheme, groups: HandleList, strict: bool, plural: string -> string, loggedIn: bool, cache: Cache<Cached>) returns (r: bool)
    modifies cache
    ensures r == IsRun(old(cache.store), scheme, user, groups, strict, plural, loggedIn).result
    ensures cache.store == IsRun(old(cache.store), scheme, user, groups, strict, plural, loggedIn).store
    ensures r ==> loggedIn
  {
    var cached := cache.RememberForever(GroupHandlesKey(scheme, user), () => Handles(GroupHandles(user.groups)));
    r := IsAnswer(HandlesIn(cached), groups, strict, plural, loggedIn);
  }

  /** Whether the user holds the listed permissions (all or one of them), and is logged in. */
  method Can(user: User, scheme: KeyScheme, permissions: HandleList, loggedIn: bool, cache: Cache<Cached>) returns (r: bool)
    modifies cache
    ensures r == CanRun(old(cache.store), scheme, user, permissions, loggedIn).result
    ensures cache.store == CanRun(old(cache.store), scheme, user, permissions, loggedIn).store
    ensures r ==> loggedIn
  {
    var all := AllPermissions(user, scheme, cache);
    r := CanAnswer(PermissionHandles(all), permissions, loggedIn);
  }

  /** `can` with a model argument: ownership of the record grants access too. */
  method CanOn(user: User, scheme: KeyScheme, permissions: HandleList, model: ModelArg, column: string, loggedIn: bool, cache: Cache<Cached>) returns (r: Result<bool>)
    modifies cache
    ensures r == CanOnRun(old(cache.store), scheme, user, permissions, model, column, loggedIn).result
    ensures cache.store == CanOnRun(old(cache.store), scheme, user, permissions, model, column, loggedIn).store
    ensures r.Err? <==> model.Value? && model.truthy
    ensures r == Ok(true) ==> loggedIn
  {
    if Truthy(model) {
      if !model.Record? {
        return Err(IncorrectParameterType);
      }
      var can := Can(user, scheme, permissions, loggedIn, cache);
      r := Ok((can || Owns(model, column, user.id).value) && loggedIn);
    } else {
      var can := Can(user, scheme, permissions, loggedIn, cache);
      r := Ok(can);
    }
  }

  // ---------------------------------------------------------------------
  // What the operations are meant to compute
  // ---------------------------------------------------------------------

  /** Every permission granted to the user, directly or through one of its groups. */
  function EffectivePermissions(user: User): set<Permission>
  {
    Elements(user.permissions) + Granted(PermissionLists(user.groups))
  }

  /** `allPermissions()` computed from the records, every group read with its own permissions. */
  function ResolvedPermissions(user: User): seq<Permission>
  {
    Merge(Merge([], user.permissions), MergeAll([], PermissionLists(user.groups)))
  }

  /**
   * The resolved list holds every effective permission id exactly once; when
   * ids identify the records, it holds exactly the effective permissions.
   */
  lemma ResolvedPermissionsSpec(user: User)
    ensures DistinctIds(ResolvedPermissions(user))
    ensures Ids(ResolvedPermissions(user)) == Ids(user.permissions) + GrantedIds(PermissionLists(user.groups))
    ensures IdsIdentify(EffectivePermissions(user)) ==> Elements(ResolvedPermissions(user)) == EffectivePermissions(user)
  {
    var direct := Merge([], user.permissions);
    MergeDistinct([], user.permissions);
    MergeDistinct(direct, MergeAll([], PermissionLists(user.groups)));
    ResolvedIds(user);
    if IdsIdentify(EffectivePermissions(user)) {
      ResolvedElements(user);
    }
  }

  /** The ids of the resolved list are the direct ids and the granted ids. */
  lemma ResolvedIds(user: User)
    ensures Ids(ResolvedPermissions(user)) == Ids(user.permissions) + GrantedIds(PermissionLists(user.groups))
  {
    var lists := PermissionLists(user.groups);
    var direct := Merge([], user.permissions);
    MergeIds([], user.permissions);
    MergeAllIds([], lists);
    MergeIds(direct, MergeAll([], lists));
    assert Ids([]) == {};
  }

  /** When ids identify the records, the resolved list holds exactly the effective permissions. */
  lemma ResolvedElements(user: User)
    requires IdsIdentify(EffectivePermissions(user))
    ensures Elements(ResolvedPermissions(user)) == EffectivePermissions(user)
  {
    var lists := PermissionLists(user.groups);
    var direct := Merge([], user.permissions);
    assert Elements<Permission>([]) == {};
    MergeElements([], user.permissions);
    MergeAllElements([], lists);
    MergeElements(direct, MergeAll([], lists));
  }

  /** Every handle names one permission id. */
  ghost predicate HandlesIdentify(ps: set<Permission>)
  {
    forall p, q :: p in ps && q in ps && p.handle == q.handle ==> p.id == q.id
  }

  /**
   * When ids identify the records, a handle is among those of the resolved
   * list iff some effective permission has it; when handles also name one id
   * each, no handle is listed twice.
   */
  lemma ResolvedHandles(user: User)
    requires IdsIdentify(EffectivePermissions(user))
    ensures forall t :: t in PermissionHandles(ResolvedPermissions(user)) <==>
              exists p :: p in EffectivePermissions(user) && p.handle == t
    ensures HandlesIdentify(EffectivePermissions(user)) ==> Distinct(PermissionHandles(ResolvedPermissions(user)))
  {
    var r := ResolvedPermissions(user);
    var hs := PermissionHandles(r);
    ResolvedPermissionsSpec(user);
    forall t ensures t in hs <==> exists p :: p in EffectivePermissions(user) && p.handle == t {
      if t in hs {
        var i :| 0 <= i < |hs| && hs[i] == t;
        assert r[i] in Elements(r);
      }
      if exists p :: p in EffectivePermissions(user) && p.handle == t {
        var p :| p in EffectivePermissions(user) && p.handle == t;
        assert p in Elements(r);
        var i :| 0 <= i < |r| && r[i] == p;
        assert hs[i] == t;
      }
    }
    if HandlesIdentify(EffectivePermissions(user)) {
      forall i, j | 0 <= i < j < |hs| ensures hs[i] != hs[j] {
        assert r[i] in Elements(r) && r[j] in Elements(r);
      }
    }
  }

  /** A handle is among the user's group handles iff one of its groups has it. */
  lemma GroupHandlesHeld(groups: seq<Group>)
    ensures forall h :: h in GroupHandles(groups) <==> exists g :: g in groups && g.handle == h
  {
    var hs := GroupHandles(groups);
    forall h ensures h in hs <==> exists g :: g in groups && g.handle == h {
      if h in hs {
        var i :| 0 <= i < |hs| && hs[i] == h;
        assert groups[i] in groups;
      }
      if exists g :: g in groups && g.handle == h {
        var g :| g in groups && g.handle == h;
        var i :| 0 <= i < |groups| && groups[i] == g;
        assert hs[i] == h;
      }
    }
  }

  // ---------------------------------------------------------------------
  // The cache
  // ---------------------------------------------------------------------

  /** Every cached permission list of one of the groups is that group's own list. */
  ghost predicate GroupEntriesCoherent(store: Store, scheme: KeyScheme, groups: seq<Group>)
  {
    forall g :: g in groups && GroupPermissionsKey(scheme, g) in store ==>
      store[GroupPermissionsKey(scheme, g)] == Permissions(g.permissions)
  }

  /** Every entry the store holds under one of the user's keys is what the records give. */
  ghost predicate Coherent(store: Store, scheme: KeyScheme, user: User)
  {
    GroupEntriesCoherent(store, scheme, user.groups)
    && (AllPermissionsKey(scheme, user) in store ==>
          store[AllPermissionsKey(scheme, user)] == Permissions(ResolvedPermissions(user)))
    && (GroupHandlesKey(scheme, user) in store ==>
          store[GroupHandlesKey(scheme, user)] == Handles(GroupHandles(user.groups)))
  }

  /** Groups that share a key share a permission list. */
  ghost predicate KeysSeparate(scheme: KeyScheme, groups: seq<Group>)
  {
    forall g1, g2 :: g1 in groups && g2 in groups && GroupPermissionsKey(scheme, g1) == GroupPermissionsKey(scheme, g2) ==>
      g1.permissions == g2.permissions
  }

  /** Group records agree where their ids do. */
  ghost predicate GroupsAgree(groups: seq<Group>, others: seq<Group>)
  {
    forall g1, g2 :: g1 in groups && g2 in others && g1.id == g2.id ==> g1.permissions == g2.permissions
  }

  /**
   * The loop only adds entries: it keeps every entry it finds, and every
   * entry it adds is the list of a group whose key it is.
   */
  lemma {:induction false} GroupListsFrame(store: Store, scheme: KeyScheme, groups: seq<Group>)
    ensures forall k :: k in store ==> k in GroupLists(store, scheme, groups).store && GroupLists(store, scheme, groups).store[k] == store[k]
    ensures forall k :: k in GroupLists(store, scheme, groups).store && k !in store ==>
              exists g :: g in groups && k == GroupPermissionsKey(scheme, g) && GroupLists(store, scheme, groups).store[k] == Permissions(g.permissions)
  {
    if groups != [] {
      var front := groups[..|groups| - 1];
      GroupListsFrame(store, scheme, front);
      var before := GroupLists(store, scheme, front).store;
      var after := GroupLists(store, scheme, groups).store;
      forall k | k in after && k !in store
        ensures exists g :: g in groups && k == GroupPermissionsKey(scheme, g) && after[k] == Permissions(g.permissions)
      {
        if k in before {
          var g :| g in front && k == GroupPermissionsKey(scheme, g) && before[k] == Permissions(g.permissions);
          assert g in groups;
        } else {
          assert groups[|groups| - 1] in groups;
        }
      }
    }
  }

  /**
   * With coherent group entries and keys that separate the groups, the loop
   * reads every group's own permission list and leaves the entries coherent.
   */
  lemma {:induction false} GroupListsCoherent(store: Store, scheme: KeyScheme, groups: seq<Group>)
    requires GroupEntriesCoherent(store, scheme, groups)
    requires KeysSeparate(scheme, groups)
    ensures GroupLists(store, scheme, groups).result == PermissionLists(groups)
    ensures GroupEntriesCoherent(GroupLists(store, scheme, groups).store, scheme, groups)
  {
    if groups != [] {
      var front, group := groups[..|groups| - 1], groups[|groups| - 1];
      assert groups == front + [group];
      FrontCoherent(store, scheme, groups);
      GroupListsCoherent(store, scheme, front);
      GroupListsLast(store, scheme, groups);
      PermissionListsLast(groups);
      LastEntryCoherent(GroupLists(store, scheme, front).store, scheme, front, group);
    }
  }

  /** What holds of all groups holds of all but the last. */
  lemma FrontCoherent(store: Store, scheme: KeyScheme, groups: seq<Group>)
    requires groups != []
    requires GroupEntriesCoherent(store, scheme, groups)
    requires KeysSeparate(scheme, groups)
    ensures GroupEntriesCoherent(store, scheme, groups[..|groups| - 1])
    ensures KeysSeparate(scheme, groups[..|groups| - 1])
  {
    assert forall g :: g in groups[..|groups| - 1] ==> g in groups;
  }

  /** The permission lists of the groups, split before the last group. */
  lemma PermissionListsLast(groups: seq<Group>)
    requires groups != []
    ensures PermissionLists(groups) == PermissionLists(groups[..|groups| - 1]) + [groups[|groups| - 1].permissions]
  {
  }

  /** Storing the last group's own list keeps the entries of all groups coherent. */
  lemma LastEntryCoherent(before: Store, scheme: KeyScheme, front: seq<Group>, group: Group)
    requires GroupEntriesCoherent(before, scheme, front)
    requires KeysSeparate(scheme, front + [group])
    ensures GroupEntriesCoherent(before[GroupPermissionsKey(scheme, group) := Permissions(group.permissions)], scheme, front + [group])
  {
    var groups := front + [group];
    var after := before[GroupPermissionsKey(scheme, group) := Permissions(group.permissions)];
    forall g | g in groups && GroupPermissionsKey(scheme, g) in after
      ensures after[GroupPermissionsKey(scheme, g)] == Permissions(g.permissions)
    {
      if GroupPermissionsKey(scheme, g) != GroupPermissionsKey(scheme, group) {
        assert g in front;
      } else {
        assert group in groups;
      }
    }
  }

  /**
   * With coherent entries and separating keys, the last group of the loop
   * reads its own list and leaves its own list under its key.
   */
  lemma GroupListsLast(store: Store, scheme: KeyScheme, groups: seq<Group>)
    requires groups != []
    requires GroupEntriesCoherent(store, scheme, groups)
    requires KeysSeparate(scheme, groups)
    requires GroupEntriesCoherent(GroupLists(store, scheme, groups[..|groups| - 1]).store, scheme, groups[..|groups| - 1])
    ensures var before := GroupLists(store, scheme, groups[..|groups| - 1]);
            var group := groups[|groups| - 1];
            GroupLists(store, scheme, groups) ==
              Run(before.result + [group.permissions], before.store[GroupPermissionsKey(scheme, group) := Permissions(group.permissions)])
  {
    var front, group := groups[..|groups| - 1], groups[|groups| - 1];
    var before := GroupLists(store, scheme, front).store;
    var key := GroupPermissionsKey(scheme, group);
    GroupListsFrame(store, scheme, front);
    if key in before {
      if key in store {
        assert before[key] == store[key];
      } else {
        var g :| g in front && key == GroupPermissionsKey(scheme, g) && before[key] == Permissions(g.permissions);
        assert g in groups;
      }
      assert before[key := Permissions(group.permissions)] == before;
    }
  }

  /** Scoped keys separate groups whose records agree by id. */
  lemma ScopedKeysSeparate(groups: seq<Group>)
    requires GroupsAgree(groups, groups)
    ensures KeysSeparate(Scoped, groups)
  {
    forall g1, g2 | g1 in groups && g2 in groups && GroupPermissionsKey(Scoped, g1) == GroupPermissionsKey(Scoped, g2)
      ensures g1.permissions == g2.permissions
    {
      ScopedKeysIdentify(g1, g2, User(0, [], []), User(0, [], []));
    }
  }

  /** The literal key separates the groups only when they all grant the same list. */
  lemma LiteralKeysSeparate(groups: seq<Group>)
    ensures KeysSeparate(Literal, groups) <==> forall g1, g2 :: g1 in groups && g2 in groups ==> g1.permissions == g2.permissions
  {
  }

  /**
   * With a coherent cache and keys that separate the user's groups,
   * `allPermissions` returns the resolved permissions and leaves the cache
   * coherent.
   */
  lemma AllPermissionsCoherent(store: Store, scheme: KeyScheme, user: User)
    requires Coherent(store, scheme, user)
    requires KeysSeparate(scheme, user.groups)
    ensures AllPermissionsRun(store, scheme, user).result == ResolvedPermissions(user)
    ensures Coherent(AllPermissionsRun(store, scheme, user).store, scheme, user)
  {
    var key := AllPermissionsKey(scheme, user);
    if key !in store {
      GroupListsCoherent(store, scheme, user.groups);
      GroupListsFrame(store, scheme, user.groups);
      var lists := GroupLists(store, scheme, user.groups).store;
      var after := AllPermissionsRun(store, scheme, user).store;
      forall g | g in user.groups
        ensures GroupPermissionsKey(scheme, g) != key
      {
        KeysApart(scheme, g, user, user);
      }
      var handlesKey := GroupHandlesKey(scheme, user);
      KeysApart(scheme, Group(0, "", []), user, user);
      if handlesKey in lists && handlesKey !in store {
        var g :| g in user.groups && handlesKey == GroupPermissionsKey(scheme, g) && lists[handlesKey] == Permissions(g.permissions);
        KeysApart(scheme, g, user, user);
      }
      assert GroupEntriesCoherent(after, scheme, user.groups);
    }
  }

  /** With a coherent cache, `is` answers from the user's own group handles and leaves the cache coherent. */
  lemma IsCoherent(store: Store, scheme: KeyScheme, user: User, groups: HandleList, strict: bool, plural: string -> string, loggedIn: bool)
    requires Coherent(store, scheme, user)
    ensures IsRun(store, scheme, user, groups, strict, plural, loggedIn).result == IsAnswer(GroupHandles(user.groups), groups, strict, plural, loggedIn)
    ensures Coherent(IsRun(store, scheme, user, groups, strict, plural, loggedIn).store, scheme, user)
  {
    forall g | g in user.groups
      ensures GroupPermissionsKey(scheme, g) != GroupHandlesKey(scheme, user)
    {
      KeysApart(scheme, g, user, user);
    }
    KeysApart(scheme, Group(0, "", []), user, user);
  }

  /**
   * With a coherent cache and keys that separate the user's groups, `can`
   * answers from the handles of the resolved permissions and leaves the
   * cache coherent; with a model, ownership is added as `owns` decides.
   */
  lemma CanCoherent(store: Store, scheme: KeyScheme, user: User, permissions: HandleList, model: ModelArg, column: string, loggedIn: bool)
    requires Coherent(store, scheme, user)
    requires KeysSeparate(scheme, user.groups)
    ensures CanRun(store, scheme, user, permissions, loggedIn).result == CanAnswer(PermissionHandles(ResolvedPermissions(user)), permissions, loggedIn)
    ensures Coherent(CanRun(store, scheme, user, permissions, loggedIn).store, scheme, user)
    ensures CanOnRun(store, scheme, user, permissions, model, column, loggedIn).result ==
              CanOnAnswer(PermissionHandles(ResolvedPermissions(user)), permissions, model, column, user.id, loggedIn)
  {
    AllPermissionsCoherent(store, scheme, user);
  }

  /**
   * Scoped keys make the cache sound: from any coherent cache, in particular
   * an empty one, `allPermissions` returns the resolved permissions, which
   * list every effective permission exactly once.
   */
  lemma ScopedAllPermissionsSound(store: Store, user: User)
    requires Coherent(store, Scoped, user)
    requires GroupsAgree(user.groups, user.groups)
    requires IdsIdentify(EffectivePermissions(user))
    ensures AllPermissionsRun(store, Scoped, user).result == ResolvedPermissions(user)
    ensures Elements(AllPermissionsRun(store, Scoped, user).result) == EffectivePermissions(user)
    ensures DistinctIds(AllPermissionsRun(store, Scoped, user).result)
    ensures Coherent(AllPermissionsRun(store, Scoped, user).store, Scoped, user)
  {
    ScopedKeysSeparate(user.groups);
    AllPermissionsCoherent(store, Scoped, user);
    ResolvedPermissionsSpec(user);
  }

  /**
   * With scoped keys, from a cache whose group entries are coherent,
   * `groupPermissions` holds exactly the permissions the user's groups grant.
   */
  lemma ScopedGroupPermissionsSound(store: Store, user: User)
    requires GroupEntriesCoherent(store, Scoped, user.groups)
    requires GroupsAgree(user.groups, user.groups)
    requires IdsIdentify(Granted(PermissionLists(user.groups)))
    ensures Elements(GroupPermissionsRun(store, Scoped, user).result) == Granted(PermissionLists(user.groups))
  {
    ScopedKeysSeparate(user.groups);
    GroupListsCoherent(store, Scoped, user.groups);
    assert Elements([]) + Granted(PermissionLists(user.groups)) == Granted(PermissionLists(user.groups));
    MergeAllElements([], PermissionLists(user.groups));
  }

  /**
   * `can("a,b")` end to end: with scoped keys, from a coherent cache (an
   * empty one in particular), and with each id and each handle naming one
   * permission, true iff the user is logged in and every token, pairwise
   * different, is the handle of an effective permission.
   */
  lemma ScopedCanAllOfCommaList(store: Store, user: User, s: string, loggedIn: bool)
    requires Coherent(store, Scoped, user)
    requires GroupsAgree(user.groups, user.groups)
    requires IdsIdentify(EffectivePermissions(user)) && HandlesIdentify(EffectivePermissions(user))
    requires '|' !in s && ',' in s
    ensures CanRun(store, Scoped, user, Text(s), loggedIn).result <==>
              loggedIn && Distinct(Explode(',', s)) &&
              forall t :: t in Explode(',', s) ==> exists p :: p in EffectivePermissions(user) && p.handle == t
  {
    ScopedKeysSeparate(user.groups);
    CanCoherent(store, Scoped, user, Text(s), Value(false), "user_id", loggedIn);
    ResolvedHandles(user);
    CanAllOfCommaList(PermissionHandles(ResolvedPermissions(user)), s, loggedIn);
  }

  /**
   * `can("a|b")` end to end: with scoped keys and from a coherent cache, true
   * iff the user is logged in and some token is the handle of an effective
   * permission.
   */
  lemma ScopedCanAnyOfPipeList(store: Store, user: User, s: string, loggedIn: bool)
    requires Coherent(store, Scoped, user)
    requires GroupsAgree(user.groups, user.groups)
    requires IdsIdentify(EffectivePermissions(user))
    requires '|' in s
    ensures CanRun(store, Scoped, user, Text(s), loggedIn).result <==>
              loggedIn && exists t, p :: t in Explode('|', s) && p in EffectivePermissions(user) && p.handle == t
  {
    ScopedKeysSeparate(user.groups);
    CanCoherent(store, Scoped, user, Text(s), Value(false), "user_id", loggedIn);
    ResolvedHandles(user);
    CanAnyOfPipeList(PermissionHandles(ResolvedPermissions(user)), s, loggedIn);
  }

  /**
   * `is("a,b")` end to end: from a coherent cache, for a user whose groups
   * have pairwise different handles, true iff the user is logged in and the
   * plural of every token (plurals pairwise different) is one of its groups'
   * handles, whatever `$strict` says.
   */
  lemma IsAllOfCommaListRun(store: Store, scheme: KeyScheme, user: User, s: string, strict: bool, plural: string -> string, loggedIn: bool)
    requires Coherent(store, scheme, user)
    requires Distinct(GroupHandles(user.groups))
    requires '|' !in s && ',' in s
    ensures IsRun(store, scheme, user, Text(s), strict, plural, loggedIn).result <==>
              loggedIn && Distinct(Pluralised(plural, Explode(',', s))) &&
              forall t :: t in Explode(',', s) ==> exists g :: g in user.groups && g.handle == plural(t)
  {
    IsCoherent(store, scheme, user, Text(s), strict, plural, loggedIn);
    IsAllOfCommaList(GroupHandles(user.groups), s, strict, plural, loggedIn);
    GroupHandlesHeld(user.groups);
  }

  /**
   * `is("a|b")` end to end: from a coherent cache, true iff the user is
   * logged in and the plural of some token is one of its groups' handles.
   */
  lemma IsAnyOfPipeListRun(store: Store, scheme: KeyScheme, user: User, s: string, strict: bool, plural: string -> string, loggedIn: bool)
    requires Coherent(store, scheme, user)
    requires '|' in s
    ensures IsRun(store, scheme, user, Text(s), strict, plural, loggedIn).result <==>
              loggedIn && exists t, g :: t in Explode('|', s) && g in user.groups && g.handle == plural(t)
  {
    IsCoherent(store, scheme, user, Text(s), strict, plural, loggedIn);
    IsAnyOfPipeList(GroupHandles(user.groups), s, strict, plural, loggedIn);
    GroupHandlesHeld(user.groups);
  }

  /**
   * Scoped keys keep users apart: serving one user leaves the cache coherent
   * for another user with a different id whose group records agree.
   */
  lemma ScopedKeepsOtherUsersCoherent(store: Store, user: User, other: User, groups: HandleList, strict: bool, plural: string -> string, loggedIn: bool)
    requires Coherent(store, Scoped, other)
    requires user.id != other.id
    requires GroupsAgree(user.groups, other.groups)
    ensures Coherent(AllPermissionsRun(store, Scoped, user).store, Scoped, other)
    ensures Coherent(IsRun(store, Scoped, user, groups, strict, plural, loggedIn).store, Scoped, other)
  {
    ScopedKeysIdentify(Group(0, "", []), Group(0, "", []), user, other);
    KeysApart(Scoped, Group(0, "", []), other, user);
    forall h | h in other.groups
      ensures GroupPermissionsKey(Scoped, h) != GroupHandlesKey(Scoped, user)
    {
      KeysApart(Scoped, h, user, user);
    }
    ScopedAllPermissionsKeepOthers(store, user, other);
  }

  /** The `allPermissions` half: its entries for one user are not entries of another user. */
  lemma ScopedAllPermissionsKeepOthers(store: Store, user: User, other: User)
    requires Coherent(store, Scoped, other)
    requires user.id != other.id
    requires GroupsAgree(user.groups, other.groups)
    ensures Coherent(AllPermissionsRun(store, Scoped, user).store, Scoped, other)
  {
    var allKey := AllPermissionsKey(Scoped, user);
    if allKey !in store {
      ScopedKeysIdentify(Group(0, "", []), Group(0, "", []), user, other);
      KeysApart(Scoped, Group(0, "", []), user, other);
      forall h | h in other.groups
        ensures GroupPermissionsKey(Scoped, h) != allKey
      {
        KeysApart(Scoped, h, user, user);
      }
      ScopedGroupListsKeepOthers(store, user, other);
    }
  }

  /** Reading one user's groups under scoped keys keeps another user's group entries coherent and adds none of its other keys. */
  lemma ScopedGroupListsKeepOthers(store: Store, user: User, other: User)
    requires GroupEntriesCoherent(store, Scoped, other.groups)
    requires GroupsAgree(user.groups, other.groups)
    ensures GroupEntriesCoherent(GroupLists(store, Scoped, user.groups).store, Scoped, other.groups)
    ensures forall k :: k in GroupLists(store, Scoped, user.groups).store && k !in store ==>
              k != AllPermissionsKey(Scoped, other) && k != GroupHandlesKey(Scoped, other)
  {
    GroupListsFrame(store, Scoped, user.groups);
    var lists := GroupLists(store, Scoped, user.groups).store;
    forall h | h in other.groups && GroupPermissionsKey(Scoped, h) in lists
      ensures lists[GroupPermissionsKey(Scoped, h)] == Permissions(h.permissions)
    {
      var key := GroupPermissionsKey(Scoped, h);
      if key !in store {
        var g :| g in user.groups && key == GroupPermissionsKey(Scoped, g) && lists[key] == Permissions(g.permissions);
        ScopedKeysIdentify(g, h, user, other);
      }
    }
    forall k | k in lists && k !in store
      ensures k != AllPermissionsKey(Scoped, other) && k != GroupHandlesKey(Scoped, other)
    {
      var g :| g in user.groups && k == GroupPermissionsKey(Scoped, g) && lists[k] == Permissions(g.permissions);
      KeysApart(Scoped, g, other, other);
    }
  }

  /**
   * As written, every group reads the entry the first group stored: a user
   * in two groups with different permissions gets only the first group's.
   */
  lemma LiteralGroupKeyBleeds(user: User, p: Permission, q: Permission)
    requires |user.groups| == 2
    requires user.groups[0].permissions == [p] && user.groups[1].permissions == [q]
    requires p.id != q.id
    ensures GroupPermissionsRun(map[], Literal, user).result == [p]
    ensures q.id !in Ids(GroupPermissionsRun(map[], Literal, user).result)
    ensures q.id in Ids(MergeAll([], PermissionLists(user.groups)))
  {
    LiteralListsRepeatFirst(user.groups, p);
    MergeTwice(p);
    var truth := PermissionLists(user.groups);
    assert truth == [[p], [q]];
    assert Ids([q]) == {q.id};
    MergeAllIds([], truth);
  }

  /** From an empty cache under the literal key, both of two groups read the first group's list. */
  lemma LiteralListsRepeatFirst(groups: seq<Group>, p: Permission)
    requires |groups| == 2 && groups[0].permissions == [p]
    ensures GroupLists(map[], Literal, groups).result == [[p], [p]]
  {
    var g0 := groups[0];
    var key := GroupPermissionsKey(Literal, g0);
    assert groups[..1] == [g0] && [g0][..0] == [];
    var r0 := GroupLists(map[], Literal, []);
    assert r0 == Run([], map[]);
    var r1 := GroupLists(map[], Literal, [g0]);
    assert r1 == Run(r0.result + [PermissionsIn(Recall(r0.store, key, Permissions(g0.permissions)))], Retain(r0.store, key, Permissions(g0.permissions)));
    assert r1.result == [[p]] && r1.store == map[key := Permissions([p])];
    assert GroupPermissionsKey(Literal, groups[1]) == key;
  }

  /** Assigning one permission into the empty and into its own one-entry list. */
  lemma MergeSelf(p: Permission)
    ensures Merge([], [p]) == [p] && Merge([p], [p]) == [p]
    ensures Ids([p]) == {p.id}
  {
    assert [p][..0] == [];
  }

  /** Merging one permission's list twice gives that one permission. */
  lemma MergeTwice(p: Permission)
    ensures MergeAll([], [[p], [p]]) == [p]
  {
    MergeSelf(p);
    var lists := [[p], [p]];
    assert lists[..1] == [[p]] && [[p]][..0] == [];
    assert MergeAll([], [[p]]) == Merge(MergeAll([], []), [p]) == [p];
  }

  /**
   * As written, `allPermissions` answers every user from the one entry the
   * first request stored: the second user gets the first user's list.
   */
  lemma LiteralAllPermissionsKeyBleeds(store: Store, user: User, other: User)
    ensures AllPermissionsRun(AllPermissionsRun(store, Literal, user).store, Literal, other).result ==
              AllPermissionsRun(store, Literal, user).result
  {
  }

  /**
   * As written, `is` answers every user from the group handles of the user
   * it first served: a user in no group passes `is` for the first user's
   * groups.
   */
  lemma LiteralGroupHandlesKeyBleeds(user: User, other: User, groups: HandleList, strict: bool, plural: string -> string, loggedIn: bool)
    ensures IsRun(IsRun(map[], Literal, user, groups, strict, plural, loggedIn).store, Literal, other, groups, strict, plural, loggedIn).result ==
              IsAnswer(GroupHandles(user.groups), groups, strict, plural, loggedIn)
  {
  }

  /** A second `allPermissions` request returns what the first returned and leaves the cache alone. */
  lemma AllPermissionsRemembered(store: Store, scheme: KeyScheme, user: User)
    ensures AllPermissionsRun(AllPermissionsRun(store, scheme, user).store, scheme, user) ==
              Run(AllPermissionsRun(store, scheme, user).result, AllPermissionsRun(store, scheme, user).store)
  {
  }

  /** A second `is` request sees the handles the first one saw and leaves the cache alone. */
  lemma IsRemembered(store: Store, scheme: KeyScheme, user: User, groups: HandleList, strict: bool, plural: string -> string, loggedIn: bool)
    ensures IsRun(IsRun(store, scheme, user, groups, strict, plural, loggedIn).store, scheme, user, groups, strict, plural, loggedIn) ==
              IsRun(store, scheme, user, groups, strict, plural, loggedIn)
  {
  }

  /**
   * Reading the groups again through any store that keeps the entries of a
   * first pass gives the first pass's lists and adds nothing: repeated
   * `groupPermissions` requests answer alike.
   */
  lemma {:induction false} GroupListsRemembered(store: Store, scheme: KeyScheme, groups: seq<Group>, later: Store)
    requires forall k :: k in GroupLists(store, scheme, groups).store ==>
               k in later && later[k] == GroupLists(store, scheme, groups).store[k]
    ensures GroupLists(later, scheme, groups) == Run(GroupLists(store, scheme, groups).result, later)
  {
    if groups != [] {
      var front := groups[..|groups| - 1];
      var before := GroupLists(store, scheme, front);
      var after := GroupLists(store, scheme, groups);
      assert forall k :: k in before.store ==> k in after.store && after.store[k] == before.store[k];
      GroupListsRemembered(store, scheme, front, later);
    }
  }

  /** A second `groupPermissions` request returns what the first returned and leaves the cache alone. */
  lemma GroupPermissionsRemembered(store: Store, scheme: KeyScheme, user: User)
    ensures GroupPermissionsRun(GroupPermissionsRun(store, scheme, user).store, scheme, user) == GroupPermissionsRun(store, scheme, user)
  {
    GroupListsRemembered(store, scheme, user.groups, GroupLists(store, scheme, user.groups).store);
  }
}
