/**
 * The keys the membership checks use in the shared cache.
 *
 * `Literal` is the key set the checks use as written: one fixed string per
 * kind of entry, the same for every group and every user. `Scoped` appends
 * the decimal id of the group or user the entry belongs to, which is what
 * entries that differ per group and per user need.
 */
module CacheKeys {
  import opened Records

  datatype KeyScheme = Literal | Scoped

  /** The character of a decimal digit. */
  function Digit(d: nat): (c: char)
    requires d < 10
  {
    ('0' as int + d) as char
  }

  /** The value of a decimal digit character; 0 for any other character. */
  function DigitValue(c: char): nat
  {
    if '0' <= c <= '9' then c as int - '0' as int else 0
  }

  /** The decimal representation of `n`, without leading zeros. */
  function Decimal(n: nat): (s: string)
    ensures |s| >= 1
  {
    if n < 10 then [Digit(n)] else Decimal(n / 10) + [Digit(n % 10)]
  }

  /** The number a string of decimal digits denotes. */
  function DecimalValue(s: string): nat
  {
    if s == [] then 0 else DecimalValue(s[..|s| - 1]) * 10 + DigitValue(s[|s| - 1])
  }

  /** Reading back a decimal representation gives the number. */
  lemma {:induction false} DecimalRoundTrip(n: nat)
    ensures DecimalValue(Decimal(n)) == n
  {
    if n >= 10 {
      DecimalRoundTrip(n / 10);
      var s := Decimal(n);
      assert s[..|s| - 1] == Decimal(n / 10);
    } else {
      assert [Digit(n)][..0] == [];
    }
  }

  /** Different numbers have different decimal representations. */
  lemma DecimalInjective(a: nat, b: nat)
    ensures Decimal(a) == Decimal(b) <==> a == b
  {
    DecimalRoundTrip(a);
    DecimalRoundTrip(b);
  }

  /** The key of a group's permission list: `'groups.permissions'` as written, extended by the group's id when scoped. */
  function GroupPermissionsKey(scheme: KeyScheme, group: Group): (key: string)
    ensures |key| >= 18 && key[..18] == "groups.permissions"
    ensures scheme.Literal? <==> |key| == 18
    ensures scheme.Scoped? ==> |key| > 18 + 1 && key[18] == '.' && DecimalValue(key[19..]) == group.id
  {
    match scheme
    case Literal => "groups.permissions"
    case Scoped =>
      DecimalRoundTrip(group.id);
      assert ("groups.permissions." + Decimal(group.id))[19..] == Decimal(group.id);
      "groups.permissions." + Decimal(group.id)
  }

  /** The key of a user's effective permission list: `'permissions.all'` as written, extended by the user's id when scoped. */
  function AllPermissionsKey(scheme: KeyScheme, user: User): (key: string)
    ensures |key| >= 15 && key[..15] == "permissions.all"
    ensures scheme.Literal? <==> |key| == 15
    ensures scheme.Scoped? ==> |key| > 15 + 1 && key[15] == '.' && DecimalValue(key[16..]) == user.id
  {
    match scheme
    case Literal => "permissions.all"
    case Scoped =>
      DecimalRoundTrip(user.id);
      assert ("permissions.all." + Decimal(user.id))[16..] == Decimal(user.id);
      "permissions.all." + Decimal(user.id)
  }

  /** The key of a user's group-handle list: `'groups.handles'` as written, extended by the user's id when scoped. */
  function GroupHandlesKey(scheme: KeyScheme, user: User): (key: string)
    ensures |key| >= 14 && key[..14] == "groups.handles"
    ensures scheme.Literal? <==> |key| == 14
    ensures scheme.Scoped? ==> |key| > 14 + 1 && key[14] == '.' && DecimalValue(key[15..]) == user.id
  {
    match scheme
    case Literal => "groups.handles"
    case Scoped =>
      DecimalRoundTrip(user.id);
      assert ("groups.handles." + Decimal(user.id))[15..] == Decimal(user.id);
      "groups.handles." + Decimal(user.id)
  }

  /** Under either scheme, the three kinds of entry never share a key. */
  lemma KeysApart(scheme: KeyScheme, group: Group, user: User, other: User)
    ensures GroupPermissionsKey(scheme, group) != AllPermissionsKey(scheme, user)
    ensures GroupPermissionsKey(scheme, group) != GroupHandlesKey(scheme, other)
    ensures AllPermissionsKey(scheme, user) != GroupHandlesKey(scheme, other)
  {
    var g, a, h := GroupPermissionsKey(scheme, group), AllPermissionsKey(scheme, user), GroupHandlesKey(scheme, other);
    assert g[0] == 'g' && a[0] == 'p' && h[0] == 'g';
    assert g[7] == 'p' && h[7] == 'h';
  }

  /** A string prefix can be cancelled. */
  lemma PrefixCancel(prefix: string, x: string, y: string)
    ensures prefix + x == prefix + y <==> x == y
  {
    if prefix + x == prefix + y {
      assert x == (prefix + x)[|prefix|..];
      assert y == (prefix + y)[|prefix|..];
    }
  }

  /** Scoped keys tell groups apart by id, and users apart by id. */
  lemma ScopedKeysIdentify(g1: Group, g2: Group, u1: User, u2: User)
    ensures GroupPermissionsKey(Scoped, g1) == GroupPermissionsKey(Scoped, g2) <==> g1.id == g2.id
    ensures AllPermissionsKey(Scoped, u1) == AllPermissionsKey(Scoped, u2) <==> u1.id == u2.id
    ensures GroupHandlesKey(Scoped, u1) == GroupHandlesKey(Scoped, u2) <==> u1.id == u2.id
  {
    PrefixCancel("groups.permissions.", Decimal(g1.id), Decimal(g2.id));
    PrefixCancel("permissions.all.", Decimal(u1.id), Decimal(u2.id));
    PrefixCancel("groups.handles.", Decimal(u1.id), Decimal(u2.id));
    DecimalInjective(g1.id, g2.id);
    DecimalInjective(u1.id, u2.id);
  }
}
