# Membership authorization core

A Dafny model of the authorization core of the user-membership add-on. That core is the `UserMembership` trait that a user record mixes in. It works like this:

- `groupPermissions()` takes the union of the permissions of the user's groups, keyed by permission id.
- `allPermissions()` merges the user's direct permissions with those group permissions.
- `is($groups, $strict)` checks whether the user belongs to one or all of the listed groups.
- `can($permissions, $model, $column)` checks whether the user holds one or all of the listed permissions. With a model, owning the record grants access too.
- `owns($model, $column)` checks whether a record's foreign-key column holds the user's id.
- The lists passed to `is` and `can` are strings or arrays:
  - a string holding `|` means "at least one";
  - otherwise a string holding `,` means "all";
  - any other string is a one-element list, and an array is taken as it is;
  - the result is always gated by the login state.
- The aggregates are memoised in a shared "remember forever" cache.

Modules:

- `Php`: `explode`/`implode` with a one-character delimiter and `array_intersect` on string lists. Both come with their round-trip and counting facts.
- `Records`: permissions, groups and users.
  - A PHP array assigned by id (`$d[$p->id] = $p`) is modelled as `Put`. An assigned id replaces the entry in place; a new id is appended.
  - An Eloquent `merge` is `Merge`, and list-after-list merging is `MergeAll`.
  - `PutAll` is the inner assignment loop, proved against `Merge`.
- `KeyValueCache`: the remember-forever store.
  - It is a class `Cache` with a `store` map and the methods `RememberForever` and `Forever`.
  - Each method is specified by the functions `Recall` (what a request returns) and `Retain` (the store after the request).
- `CacheKeys`: the cache keys, chosen by a `KeyScheme`.
  - `Literal` is the keys as written: one fixed string per kind of entry.
  - `Scoped` appends the decimal id of the group or user the entry belongs to.
- `Authorization`: the pure part of `is`, `can` and `owns`.
  - List parsing, the strict and non-strict tests, pluralisation, login gating and ownership.
  - The model-argument error is a `Result`.
- `UserMembership`: the operations as methods over a `Cache`.
  - Each method is proved equal to a `Run` function, which maps the store before the call to the answer and the store after it.
  - It also holds the intended results from the records (`EffectivePermissions`, `ResolvedPermissions`) and cache coherence.
  - The counterexamples show what the literal keys do.

Things that come from outside the core are parameters:

- the login state (`is_logged_in()`) is a `bool`;
- the pluraliser (`str_plural`) is a function `string -> string`.

The model follows the code in three places where one might expect otherwise:
- The group-membership and permission checks use no cache invalidation, so the model has none.
- The strict test compares the number of *held* handles found among the requested ones with the number requested. It does not compare the number of requested handles that are held (`StrictCountsHeldHandles`).
- `allPermissions` merges the group permissions *into* the direct ones, in that order.

## Model

| member | source | states |
|---|---|---|
| Php.Explode | src/Users/UserMembership.php:90 | `explode` yields at least one piece, and no piece holds the delimiter |
| Php.JoinExplode | src/Users/UserMembership.php:90 | joining the pieces of `explode` with the delimiter gives the string back |
| Php.ExplodeJoin | src/Users/UserMembership.php:95 | splitting delimiter-free pieces that were joined with the delimiter gives the pieces back |
| Php.ExplodePrefix | src/Users/UserMembership.php:146 | a delimiter-free prefix is glued onto the first piece of what follows it |
| Php.JoinHolds | src/Users/UserMembership.php:150 | a character other than the delimiter is in the joined string iff some piece holds it |
| Php.JoinHoldsSeparator | src/Users/UserMembership.php:87 | two or more joined pieces contain the delimiter, so a joined list takes the separator branch |
| Php.Intersect | src/Users/UserMembership.php:112 | `array_intersect` keeps the elements of the first list that occur in the second, each as often as in the first list and no others, so it is never longer than the first |
| Php.ElementsCount | src/Users/UserMembership.php:112 | a list has no more distinct elements than positions, and as many iff no element repeats |
| Php.IntersectDistinct | src/Users/UserMembership.php:158-159 | intersecting a repetition-free list gives a repetition-free list |
| Php.IntersectNonEmpty | src/Users/UserMembership.php:115 | `(bool) array_intersect` is true iff the lists share an element |
| Php.IntersectFull | src/Users/UserMembership.php:112 | for a repetition-free first list, the count equals the second list's length iff that list is repetition-free and inside the first |
| Records.PermissionLists | src/Users/UserMembership.php:50-53 | the permission list of each group, group by group |
| Records.PermissionHandles | src/Users/UserMembership.php:158 | `->lists('handle')`: each permission's handle, position by position |
| Records.GroupHandles | src/Users/UserMembership.php:108 | `->lists('handle')`: each group's handle, position by position |
| Records.Put | src/Users/UserMembership.php:56 | `$d[$p->id] = $p` holds `p`, grows by at most one, and keeps every entry with another id in its place |
| Records.Merge | src/Users/UserMembership.php:71 | merging holds the last merged permission, grows by at most the merged list, and keeps in place every entry whose id is not merged |
| Records.MergeAll | src/Users/UserMembership.php:50-58 | merging list after list never shrinks and keeps in place every entry whose id no list grants |
| Records.PutElements | src/Users/UserMembership.php:56 | when ids identify the records, assigning adds the permission and drops none |
| Records.PutEntries | src/Users/UserMembership.php:56 | assigning by id adds the id and the permission, and keeps every entry with another id |
| Records.PutDistinct | src/Users/UserMembership.php:56 | assigning by id never lists an id twice |
| Records.PutAll | src/Users/UserMembership.php:55-57 | the assignment loop computes `Merge` of the list so far with the group's permissions |
| Records.MergeIds | src/Users/UserMembership.php:71 | merging keyed by id adds exactly the ids of the merged list |
| Records.MergeDistinct | src/Users/UserMembership.php:71 | merging keeps ids pairwise different |
| Records.MergeElements | src/Users/UserMembership.php:71 | when ids identify records, the merge holds exactly the permissions of both sides |
| Records.MergeAllIds | src/Users/UserMembership.php:50-58 | merging group after group adds exactly the ids granted by all groups |
| Records.MergeAllDistinct | src/Users/UserMembership.php:50-58 | merging group after group keeps ids pairwise different |
| Records.MergeAllElements | src/Users/UserMembership.php:50-58 | when ids identify records, merging group after group holds exactly the granted permissions |
| KeyValueCache.Recall | src/Users/UserMembership.php:51-53 | a remember-forever request returns what the store holds under the key afterwards |
| KeyValueCache.Retain | src/Users/UserMembership.php:51-53 | after a request the key is present, nothing stored changes, and a missing key gets the producer's value |
| KeyValueCache.RememberAgain | src/Users/UserMembership.php:51-53 | a second request for a key returns what the first returned and leaves the store alone, whatever its producer |
| KeyValueCache.Cache.RememberForever | src/Users/UserMembership.php:107-109 | on a hit, the stored value and an unchanged store; on a miss, the producer's value, stored under the key |
| KeyValueCache.Cache.Forever | src/Users/UserMembership.php:70-72 | stores the value under the key and changes nothing else |
| CacheKeys.GroupPermissionsKey | src/Users/UserMembership.php:51 | the key starts with `groups.permissions`, is exactly that when literal, and when scoped carries the group's id, which reads back from it |
| CacheKeys.AllPermissionsKey | src/Users/UserMembership.php:70 | the key starts with `permissions.all`, is exactly that when literal, and when scoped carries the user's id, which reads back from it |
| CacheKeys.GroupHandlesKey | src/Users/UserMembership.php:107 | the key starts with `groups.handles`, is exactly that when literal, and when scoped carries the user's id, which reads back from it |
| CacheKeys.Decimal | src/Users/UserMembership.php:51 | the decimal id appended to a scoped key is never empty |
| CacheKeys.DecimalRoundTrip | src/Users/UserMembership.php:51 | reading back the decimal id gives the id |
| CacheKeys.DecimalInjective | src/Users/UserMembership.php:70 | two ids have the same decimal form iff they are equal |
| CacheKeys.KeysApart | src/Users/UserMembership.php:51 | the group-permission, all-permission and group-handle keys never coincide, under either scheme |
| CacheKeys.ScopedKeysIdentify | src/Users/UserMembership.php:107 | scoped keys are equal iff the group ids (or the user ids) are equal |
| Authorization.ParseList | src/Users/UserMembership.php:87-99 | a string with a pipe is split on it, not strict, and joins back to the string; otherwise one with a comma is split on it, strict, and joins back; otherwise it is one token with the caller's strictness; an array is taken as it is |
| Authorization.Satisfied | src/Users/UserMembership.php:111-115 | a passing test with tokens shares a handle with the user; an empty request passes exactly when strict |
| Authorization.Pluralised | src/Users/UserMembership.php:102-104 | every requested group handle is replaced by its plural, in place |
| Authorization.IsAnswer | src/Users/UserMembership.php:111-115 | `is` is true only for a logged-in user |
| Authorization.CanAnswer | src/Users/UserMembership.php:157-162 | `can` is true only for a logged-in user |
| Authorization.Owns | src/Users/UserMembership.php:174-181 | a non-record is an `IncorrectParameterType` error; a record is owned iff its column holds the user's id |
| Authorization.CanOnAnswer | src/Users/UserMembership.php:132-138 | a truthy non-record is an error, a falsy model is ignored; otherwise true iff logged in and the permissions suffice or the record is owned |
| Authorization.PluralisedHeld | src/Users/UserMembership.php:102-104 | some (every) pluralised token is held iff some (every) token's plural is held |
| Authorization.AnySatisfied | src/Users/UserMembership.php:115 | a non-strict test passes iff some requested handle is held |
| Authorization.AllSatisfied | src/Users/UserMembership.php:111-112 | for repetition-free held handles, a strict test passes iff the requested handles are repetition-free and all held |
| Authorization.IsAnyOfPipeList | src/Users/UserMembership.php:87-90 | `is` on a pipe-separated string holds iff logged in and some token's plural is held, whatever `$strict` says |
| Authorization.IsAllOfCommaList | src/Users/UserMembership.php:92-95 | for a user holding each group handle once, `is` on a comma-separated string without a pipe holds iff logged in and every token's plural is held (pluralised tokens pairwise different), whatever `$strict` says |
| Authorization.StrictCountsHeldHandles | src/Users/UserMembership.php:158-159 | a handle held twice passes the strict count for itself and a handle not held |
| Authorization.IsSingleHandle | src/Users/UserMembership.php:99 | a string with neither separator is one handle: non-strict, true iff logged in and its plural is held; strict, the same for a user holding each handle once |
| Authorization.StrictFailsOnHandleHeldTwice | src/Users/UserMembership.php:158-159 | a user holding a handle twice fails the strict check for that handle alone, so the strict iffs need each handle held once |
| Authorization.IsArrayKeepsStrict | src/Users/UserMembership.php:84 | an array keeps the caller's `$strict`: non-strict, one pluralised item held; strict, for a user holding each handle once, all of them (pairwise different) |
| Authorization.IsDependsOnPlurals | src/Users/UserMembership.php:102-104 | two pluralisers that agree on the requested tokens give the same `is` answer |
| Authorization.CanAnyOfPipeList | src/Users/UserMembership.php:143-146 | `can` on a pipe-separated string holds iff logged in and some token is held |
| Authorization.CanAllOfCommaList | src/Users/UserMembership.php:148-150 | for a user holding each handle once, `can` on a comma-separated string without a pipe holds iff logged in and every token is held (tokens pairwise different) |
| Authorization.CanNonPipeIsStrict | src/Users/UserMembership.php:140 | for a user holding each handle once, `can` with a bare handle or an array is strict: every item must be held |
| Authorization.PipeListParses | src/Users/UserMembership.php:87-90 | handles joined with a pipe parse back to themselves as a non-strict query |
| Authorization.CommaListParses | src/Users/UserMembership.php:92-95 | handles joined with a comma parse back to themselves as a strict query |
| UserMembership.GroupPermissionsRun | src/Users/UserMembership.php:45-61 | `groupPermissions` never lists an id twice and keeps every stored entry, whatever the cache holds |
| UserMembership.AllPermissionsRun | src/Users/UserMembership.php:68-73 | after `allPermissions` its key is stored, the answer is what it holds, and every earlier entry is kept |
| UserMembership.IsRun | src/Users/UserMembership.php:84-116 | `is` answers from the handles stored under its key afterwards, is true only when logged in, and keeps every entry |
| UserMembership.CanRun | src/Users/UserMembership.php:140-162 | `can` answers from the handles of the permissions stored under the all-permissions key afterwards, true only when logged in, keeping every entry |
| UserMembership.CanOnRun | src/Users/UserMembership.php:129-138 | an error exactly for a truthy non-record, which leaves the store as it was; otherwise the `can`-or-`owns` answer over the handles the store then holds under the all-permissions key, true only when logged in; every entry is kept either way |
| UserMembership.GroupLists | src/Users/UserMembership.php:50-53 | one list read per group; afterwards every group's key is stored and no earlier entry has changed |
| UserMembership.GroupPermissions | src/Users/UserMembership.php:45-61 | the loop returns `GroupPermissionsRun`'s answer, leaves its store, and never lists an id twice |
| UserMembership.AddGroup | src/Users/UserMembership.php:51-57 | one pass reads the group's list through the cache and assigns it by id |
| UserMembership.GroupListsNext | src/Users/UserMembership.php:50-58 | one more group adds its remembered list to the merge and its entry to the store |
| UserMembership.AllPermissions | src/Users/UserMembership.php:68-73 | returns `AllPermissionsRun`'s answer: the stored list on a hit; on a miss, direct merged with group permissions, then stored |
| UserMembership.Is | src/Users/UserMembership.php:84-116 | returns `IsRun`'s answer through the cached group handles, true only when logged in |
| UserMembership.Can | src/Users/UserMembership.php:140-162 | returns `CanRun`'s answer from the handles of `allPermissions`, true only when logged in |
| UserMembership.CanOn | src/Users/UserMembership.php:129-138 | returns `CanOnRun`'s answer; an error exactly for a truthy non-record, which leaves the cache alone; `Ok(true)` only when logged in |
| UserMembership.ResolvedPermissionsSpec | src/Users/UserMembership.php:68-73 | the records' resolved list holds each effective id once; when ids identify records, exactly the effective permissions |
| UserMembership.ResolvedIds | src/Users/UserMembership.php:71 | the resolved list's ids are the direct ids and the granted ids |
| UserMembership.ResolvedElements | src/Users/UserMembership.php:71 | when ids identify records, the resolved list holds exactly the effective permissions |
| UserMembership.ResolvedHandles | src/Users/UserMembership.php:158 | a handle is among the resolved handles iff an effective permission has it; with each handle naming one id, no handle repeats |
| UserMembership.GroupHandlesHeld | src/Users/UserMembership.php:108 | a handle is among the group handles iff one of the user's groups has it |
| UserMembership.GroupListsFrame | src/Users/UserMembership.php:51-53 | the loop keeps every entry it finds, and each entry it adds is some group's own list under that group's key |
| UserMembership.GroupListsCoherent | src/Users/UserMembership.php:50-58 | with coherent entries and separating keys, every group reads its own list and entries stay coherent |
| UserMembership.GroupListsLast | src/Users/UserMembership.php:51-53 | under the same conditions the last group reads its own list and stores it under its key |
| UserMembership.LastEntryCoherent | src/Users/UserMembership.php:51-53 | storing the last group's own list keeps every group's entry coherent |
| UserMembership.ScopedKeysSeparate | src/Users/UserMembership.php:51 | scoped keys separate groups whose records agree by id |
| UserMembership.LiteralKeysSeparate | src/Users/UserMembership.php:51 | the literal key separates groups iff all of them have the same list |
| UserMembership.AllPermissionsCoherent | src/Users/UserMembership.php:68-73 | from a coherent cache with separating keys, `allPermissions` is the resolved list and keeps the cache coherent |
| UserMembership.IsCoherent | src/Users/UserMembership.php:107-115 | from a coherent cache, `is` answers from the user's own group handles and keeps the cache coherent |
| UserMembership.CanCoherent | src/Users/UserMembership.php:129-162 | from a coherent cache with separating keys, `can` answers from the resolved permissions' handles, with and without a model |
| UserMembership.ScopedGroupPermissionsSound | src/Users/UserMembership.php:41-61 | with scoped keys and coherent group entries, `groupPermissions` holds exactly the permissions the user's groups grant |
| UserMembership.ScopedAllPermissionsSound | src/Users/UserMembership.php:68-73 | with scoped keys, `allPermissions` gives exactly the effective permissions, each id once, from any coherent cache |
| UserMembership.ScopedCanAllOfCommaList | src/Users/UserMembership.php:148-159 | with scoped keys, a coherent cache and each handle naming one permission, `can("a,b")` is true iff logged in and every token, pairwise different, is an effective permission's handle |
| UserMembership.ScopedCanAnyOfPipeList | src/Users/UserMembership.php:143-162 | with scoped keys and a coherent cache, `can` on a pipe list is true iff logged in and some token is an effective permission's handle |
| UserMembership.IsAllOfCommaListRun | src/Users/UserMembership.php:92-112 | from a coherent cache, for groups with distinct handles, `is("a,b")` is true iff logged in and every token's plural, pairwise different, is a group's handle |
| UserMembership.IsAnyOfPipeListRun | src/Users/UserMembership.php:87-115 | from a coherent cache, `is` on a pipe list is true iff logged in and some token's plural is a group's handle |
| UserMembership.ScopedKeepsOtherUsersCoherent | src/Users/UserMembership.php:70-72 | with scoped keys, serving one user keeps the cache coherent for a user with another id |
| UserMembership.ScopedAllPermissionsKeepOthers | src/Users/UserMembership.php:70-72 | with scoped keys, `allPermissions` for one user keeps the cache coherent for a user with another id |
| UserMembership.ScopedGroupListsKeepOthers | src/Users/UserMembership.php:51-53 | with scoped keys, reading one user's groups keeps another user's group entries coherent and adds none of its other keys |
| UserMembership.LiteralGroupKeyBleeds | src/Users/UserMembership.php:51-53 | with the literal key, the second group reads the first group's list, so a granted id is missing |
| UserMembership.LiteralListsRepeatFirst | src/Users/UserMembership.php:51-53 | from an empty cache under the literal key, both of two groups read the first group's list |
| UserMembership.LiteralAllPermissionsKeyBleeds | src/Users/UserMembership.php:70-72 | with the literal key, a second user gets the first user's permission list |
| UserMembership.LiteralGroupHandlesKeyBleeds | src/Users/UserMembership.php:107-109 | with the literal key, a second user is judged on the first user's group handles |
| UserMembership.AllPermissionsRemembered | src/Users/UserMembership.php:70-72 | a second `allPermissions` request returns the first answer and changes nothing |
| UserMembership.IsRemembered | src/Users/UserMembership.php:107-109 | a second `is` request returns the first answer and changes nothing |
| UserMembership.GroupListsRemembered | src/Users/UserMembership.php:50-53 | rereading groups through a store that keeps a first pass's entries gives that pass's lists and adds nothing |
| UserMembership.GroupPermissionsRemembered | src/Users/UserMembership.php:45-61 | a second `groupPermissions` request returns the first answer and changes nothing |

## Left out

- The `groups()` and `permissions()` relations (src/Users/UserMembership.php:25-38) are persistence, so they are not modelled. A user record carries its groups and direct permissions as values.
- `avatar()` (lines 188-191) depends on file storage. `scopeOnly` (lines 201-204) builds a database query. Neither is part of this model.
- The permission record, the configuration files and the handle-attribute mutator are left out. The model relies only on the reserved `,` and `|` (config/membership.php:32, 45, 58). `PipeListParses` and `CommaListParses` assume handles free of them.
- Authorization.Pluralised: `str_plural` is left out. It is a function parameter, and the lemmas hold for any pluraliser.
- `is_logged_in()` is a boolean parameter read once per call.
- Authorization.Owns: loose `==` between the attribute and the id is not modelled. Attributes are naturals compared exactly, and a missing attribute (PHP `null`) owns nothing.
- The `$model` argument: the only PHP values modelled are Eloquent records and other values that are truthy or falsy. An Eloquent model is never falsy.
- Eloquent's `Collection::merge` library code is replaced by keyed assignment, which is what it does: it builds a dictionary by `getKey()`, assigns the merged items by key, and takes `array_values`. So an entry whose id is already present is replaced in place, and order follows insertion.
- A cache entry of the wrong kind (`PermissionsIn`, `HandlesIn`) reads as an empty list. The operations write each kind only under its own kind of key, and `CacheKeys.KeysApart` shows those keys never coincide, so the operations never write two kinds of entry under one key. The lemmas that take any store (`UserMembership.GroupPermissionsRun`, for one) also cover a store filled otherwise.
- The list argument of `is` and `can` is a string or an array of strings. Other PHP values are not modelled: `(array) null` is `[]`, so `is(null)` and `can(null)` are true for a logged-in user; the model shows the same for an empty array (`Authorization.Satisfied`). The default arguments `$strict = true` (line 84) and `$column = 'user_id'` (lines 129, 174) are explicit parameters.
- `array_intersect` preserves keys; the model keeps order but not the original keys.
- Cache concurrency, persistence across requests, and serialisation of the cached collections are left out. The cache is a single map updated in sequence.
- Cache invalidation when associations change is not modelled, because the trait never invalidates.

## Findings

| source | as written | input that shows it | evidently intended | confidence | as-written member | corrected member |
|---|---|---|---|---|---|---|
| src/Users/UserMembership.php:51 | every group's permission list is remembered under the one key `groups.permissions` | empty cache, a user in two groups whose lists are `[p]` and `[q]` with different ids: the second group reads `[p]` and `q` is missing | one entry per group, `groups.permissions.<group id>` | not executed | UserMembership.LiteralGroupKeyBleeds | UserMembership.ScopedAllPermissionsSound |
| src/Users/UserMembership.php:70 | every user's permissions are remembered under the one key `permissions.all` | any two users one after the other: the second gets the first user's list | one entry per user, `permissions.all.<user id>` | not executed | UserMembership.LiteralAllPermissionsKeyBleeds | UserMembership.ScopedKeepsOtherUsersCoherent |
| src/Users/UserMembership.php:107 | every user's group handles are remembered under the one key `groups.handles` | empty cache, `is` for a user in group `admins`, then for a user in no group: the second passes `is` for `admin` | one entry per user, `groups.handles.<user id>` | not executed | UserMembership.LiteralGroupHandlesKeyBleeds | UserMembership.ScopedKeepsOtherUsersCoherent |
