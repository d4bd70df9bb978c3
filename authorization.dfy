/**
 * How `is`, `can` and `owns` answer once the user's handles are known: the
 * handle list the caller passes is parsed into requested tokens and a
 * strictness, matched against the handles the user holds, and gated by the
 * login state.
 */
module Authorization {
  import opened Php

  /** The list argument of `is` and `can`: a string, or an array of handles. */
  datatype HandleList = Text(text: string) | Items(items: seq<string>)

  /** A parsed list: the requested tokens, and whether all of them (strict) or one suffices. */
  datatype Query = Query(tokens: seq<string>, strict: bool)

  datatype Error = IncorrectParameterType

  datatype Result<T> = Ok(value: T) | Err(error: Error)

  /**
   * The `$model` argument of `can` and `owns`: an Eloquent record with its
   * attributes, or any other PHP value, of which only its truthiness matters
   * (`null`, the default, is a falsy value).
   */
  datatype ModelArg = Record(attributes: map<string, nat>) | Value(truthy: bool)

  /** PHP's `if ($model)`: a record object is always truthy. */
  predicate Truthy(model: ModelArg)
  {
    model.Record? || model.truthy
  }

  /**
   * The parsing shared by `is` and `can`: a string holding `|` is split on
   * `|` and is not strict; otherwise a string holding `,` is split on `,`
   * and is strict; any other string is a one-token list, and an array is
   * taken as it is, both with the strictness the caller gave.
   */
  function ParseList(list: HandleList, strict: bool): (q: Query)
    ensures list.Items? ==> q == Query(list.items, strict)
    ensures list.Text? ==> |q.tokens| >= 1
    ensures list.Text? && '|' in list.text ==>
              !q.strict && Join('|', q.tokens) == list.text && forall t :: t in q.tokens ==> '|' !in t
    ensures list.Text? && '|' !in list.text && ',' in list.text ==>
              q.strict && Join(',', q.tokens) == list.text && forall t :: t in q.tokens ==> '|' !in t && ',' !in t
    ensures list.Text? && '|' !in list.text && ',' !in list.text ==> q == Query([list.text], strict)
  {
    match list
    case Text(s) =>
      if '|' in s then
        JoinExplode('|', s);
        Query(Explode('|', s), false)
      else if ',' in s then
        JoinExplode(',', s);
        JoinHolds(',', Explode(',', s), '|');
        Query(Explode(',', s), true)
      else Query([s], strict)
    case Items(xs) => Query(xs, strict)
  }

  /**
   * Whether the handles held satisfy a query: strict means that as many held
   * handles are found among the tokens as there are tokens; otherwise at
   * least one held handle must be among them.
   */
  predicate Satisfied(held: seq<string>, query: Query)
    ensures Satisfied(held, query) && query.tokens != [] ==> exists t :: t in query.tokens && t in held
    ensures query.tokens == [] ==> (Satisfied(held, query) <==> query.strict)
  {
    IntersectNonEmpty(held, query.tokens);
    if query.strict then |Intersect(held, query.tokens)| == |query.tokens|
    else |Intersect(held, query.tokens)| > 0
  }

  /** Every token passed through the pluraliser. */
  function Pluralised(plural: string -> string, tokens: seq<string>): (r: seq<string>)
    ensures |r| == |tokens|
    ensures forall i :: 0 <= i < |tokens| ==> r[i] == plural(tokens[i])
  {
    seq(|tokens|, i requires 0 <= i < |tokens| => plural(tokens[i]))
  }

  /** `is($groups, $strict)` for a user holding the group handles `held`. */
  function IsAnswer(held: seq<string>, groups: HandleList, strict: bool, plural: string -> string, loggedIn: bool): (r: bool)
    ensures r ==> loggedIn
  {
    var query := ParseList(groups, strict);
    Satisfied(held, Query(Pluralised(plural, query.tokens), query.strict)) && loggedIn
  }

  /** `can($permissions)` with no model, for a user holding the permission handles `held`. */
  function CanAnswer(held: seq<string>, permissions: HandleList, loggedIn: bool): (r: bool)
    ensures r ==> loggedIn
  {
    Satisfied(held, ParseList(permissions, true)) && loggedIn
  }

  /** `owns($model, $column)` for the user with id `userId`; a missing attribute owns nothing. */
  function Owns(model: ModelArg, column: string, userId: nat): (r: Result<bool>)
    ensures r.Err? <==> !model.Record?
    ensures r == Ok(true) <==> model.Record? && column in model.attributes && model.attributes[column] == userId
  {
    match model
    case Record(attributes) => Ok(column in attributes && attributes[column] == userId)
    case Value(_) => Err(IncorrectParameterType)
  }

  /**
   * `can($permissions, $model, $column)`: a truthy model that is not a record
   * is an error; a record lets ownership grant what the permissions do not;
   * a falsy model is no model at all.
   */
  function CanOnAnswer(held: seq<string>, permissions: HandleList, model: ModelArg, column: string, userId: nat, loggedIn: bool): (r: Result<bool>)
    ensures r.Err? <==> model.Value? && model.truthy
    ensures r.Ok? ==> (r.value <==> loggedIn && (CanAnswer(held, permissions, true) || (model.Record? && Owns(model, column, userId) == Ok(true))))
  {
    if Truthy(model) then
      if !model.Record? then Err(IncorrectParameterType)
      else Ok((CanAnswer(held, permissions, loggedIn) || Owns(model, column, userId).value) && loggedIn)
    else Ok(CanAnswer(held, permissions, loggedIn))
  }

  /** Some pluralised token is held iff some token's plural is held; likewise for all tokens. */
  lemma PluralisedHeld(plural: string -> string, tokens: seq<string>, held: seq<string>)
    ensures (exists x :: x in held && x in Pluralised(plural, tokens)) <==> (exists t :: t in tokens && plural(t) in held)
    ensures (forall x :: x in Pluralised(plural, tokens) ==> x in held) <==> (forall t :: t in tokens ==> plural(t) in held)
  {
    var mapped := Pluralised(plural, tokens);
    if exists x :: x in held && x in mapped {
      var x :| x in held && x in mapped;
      var i :| 0 <= i < |mapped| && mapped[i] == x;
      assert tokens[i] in tokens && plural(tokens[i]) in held;
    }
    if exists t :: t in tokens && plural(t) in held {
      var t :| t in tokens && plural(t) in held;
      var i :| 0 <= i < |tokens| && tokens[i] == t;
      assert mapped[i] in held && mapped[i] in mapped;
    }
    if forall t :: t in tokens ==> plural(t) in held {
      forall x | x in mapped ensures x in held {
        var i :| 0 <= i < |mapped| && mapped[i] == x;
        assert tokens[i] in tokens;
      }
    }
    if forall x :: x in mapped ==> x in held {
      forall t | t in tokens ensures plural(t) in held {
        var i :| 0 <= i < |tokens| && tokens[i] == t;
        assert mapped[i] in mapped;
      }
    }
  }

  /** A non-strict query is satisfied iff some token is held. */
  lemma AnySatisfied(held: seq<string>, tokens: seq<string>)
    ensures Satisfied(held, Query(tokens, false)) <==> exists t :: t in tokens && t in held
  {
    IntersectNonEmpty(held, tokens);
  }

  /**
   * For a user holding each handle once, a strict query is satisfied iff its
   * tokens are pairwise different and all held.
   */
  lemma AllSatisfied(held: seq<string>, tokens: seq<string>)
    requires Distinct(held)
    ensures Satisfied(held, Query(tokens, true)) <==> Distinct(tokens) && forall t :: t in tokens ==> t in held
  {
    IntersectFull(held, tokens);
  }

  /** `is("a|b")`: true iff the user is logged in and holds the plural of at least one token, whatever `strict` says. */
  lemma IsAnyOfPipeList(held: seq<string>, s: string, strict: bool, plural: string -> string, loggedIn: bool)
    requires '|' in s
    ensures IsAnswer(held, Text(s), strict, plural, loggedIn) <==>
              loggedIn && exists t :: t in Explode('|', s) && plural(t) in held
  {
    var tokens := Explode('|', s);
    AnySatisfied(held, Pluralised(plural, tokens));
    PluralisedHeld(plural, tokens, held);
  }

  /**
   * `is("a,b")` with no `|`: for a user holding each handle once, true iff the
   * user is logged in, the pluralised tokens are pairwise different and all
   * held, whatever `strict` says.
   */
  lemma IsAllOfCommaList(held: seq<string>, s: string, strict: bool, plural: string -> string, loggedIn: bool)
    requires '|' !in s && ',' in s
    requires Distinct(held)
    ensures IsAnswer(held, Text(s), strict, plural, loggedIn) <==>
              loggedIn && Distinct(Pluralised(plural, Explode(',', s))) && forall t :: t in Explode(',', s) ==> plural(t) in held
  {
    var tokens := Explode(',', s);
    AllSatisfied(held, Pluralised(plural, tokens));
    PluralisedHeld(plural, tokens, held);
  }

  /**
   * The strict count is taken over the held handles, not the requested ones:
   * a user holding one handle twice passes a strict check for that handle and
   * another one it does not hold.
   */
  lemma StrictCountsHeldHandles(h: string, other: string)
    requires h != other
    ensures CanAnswer([h, h], Items([h, other]), true)
  {
    assert Intersect([h, h], [h, other]) == [h, h] by {
      assert [h, h][1..] == [h];
      assert Intersect([h], [h, other]) == [h] + Intersect([h][1..], [h, other]);
    }
  }

  /** For the same reason, a user holding one handle twice fails a strict check for that handle alone. */
  lemma StrictFailsOnHandleHeldTwice(h: string)
    requires '|' !in h && ',' !in h
    ensures !CanAnswer([h, h], Text(h), true)
  {
    assert Intersect([h, h], [h]) == [h, h] by {
      assert [h, h][1..] == [h];
      assert Intersect([h], [h]) == [h] + Intersect([h][1..], [h]);
    }
  }

  /**
   * `is("a")` with neither separator is one token, its plural held or not:
   * non-strict, whatever the user holds; strict, for a user holding each
   * handle once.
   */
  lemma IsSingleHandle(held: seq<string>, s: string, strict: bool, plural: string -> string, loggedIn: bool)
    requires '|' !in s && ',' !in s
    ensures !strict ==> (IsAnswer(held, Text(s), strict, plural, loggedIn) <==> loggedIn && plural(s) in held)
    ensures strict && Distinct(held) ==> (IsAnswer(held, Text(s), strict, plural, loggedIn) <==> loggedIn && plural(s) in held)
  {
    PluralisedHeld(plural, [s], held);
    if strict {
      if Distinct(held) {
        AllSatisfied(held, Pluralised(plural, [s]));
      }
    } else {
      AnySatisfied(held, Pluralised(plural, [s]));
    }
  }

  /**
   * `is([...], $strict)` keeps the caller's flag: non-strict asks for one
   * pluralised item to be held; strict, for a user holding each handle once,
   * for every pluralised item (pairwise different).
   */
  lemma IsArrayKeepsStrict(held: seq<string>, xs: seq<string>, strict: bool, plural: string -> string, loggedIn: bool)
    ensures strict && Distinct(held) ==> (IsAnswer(held, Items(xs), strict, plural, loggedIn) <==>
              loggedIn && Distinct(Pluralised(plural, xs)) && forall t :: t in xs ==> plural(t) in held)
    ensures !strict ==> (IsAnswer(held, Items(xs), strict, plural, loggedIn) <==>
              loggedIn && exists t :: t in xs && plural(t) in held)
  {
    PluralisedHeld(plural, xs, held);
    if strict {
      if Distinct(held) {
        AllSatisfied(held, Pluralised(plural, xs));
      }
    } else {
      AnySatisfied(held, Pluralised(plural, xs));
    }
  }

  /** `is` sees the requested tokens only through their plurals. */
  lemma {:induction false} IsDependsOnPlurals(held: seq<string>, groups: HandleList, strict: bool, p1: string -> string, p2: string -> string, loggedIn: bool)
    requires forall t :: t in ParseList(groups, strict).tokens ==> p1(t) == p2(t)
    ensures IsAnswer(held, groups, strict, p1, loggedIn) == IsAnswer(held, groups, strict, p2, loggedIn)
  {
    var tokens := ParseList(groups, strict).tokens;
    forall i | 0 <= i < |tokens| ensures Pluralised(p1, tokens)[i] == Pluralised(p2, tokens)[i] {
      assert tokens[i] in tokens;
    }
    assert Pluralised(p1, tokens) == Pluralised(p2, tokens);
  }

  /** `can("a|b")`: true iff the user is logged in and holds at least one token. */
  lemma CanAnyOfPipeList(held: seq<string>, s: string, loggedIn: bool)
    requires '|' in s
    ensures CanAnswer(held, Text(s), loggedIn) <==> loggedIn && exists t :: t in Explode('|', s) && t in held
  {
    AnySatisfied(held, Explode('|', s));
  }

  /**
   * `can("a,b")` with no `|`: for a user holding each handle once, true iff
   * logged in and the tokens are pairwise different and all held.
   */
  lemma CanAllOfCommaList(held: seq<string>, s: string, loggedIn: bool)
    requires '|' !in s && ',' in s
    requires Distinct(held)
    ensures CanAnswer(held, Text(s), loggedIn) <==>
              loggedIn && Distinct(Explode(',', s)) && forall t :: t in Explode(',', s) ==> t in held
  {
    AllSatisfied(held, Explode(',', s));
  }

  /** `can` with a bare handle or an array is always strict: every item must be held. */
  lemma CanNonPipeIsStrict(held: seq<string>, permissions: HandleList, loggedIn: bool)
    requires permissions.Text? ==> '|' !in permissions.text
    requires Distinct(held)
    ensures CanAnswer(held, permissions, loggedIn) <==>
              loggedIn && Distinct(ParseList(permissions, true).tokens) && forall t :: t in ParseList(permissions, true).tokens ==> t in held
  {
    assert ParseList(permissions, true).strict;
    AllSatisfied(held, ParseList(permissions, true).tokens);
  }

  /** Handles joined with `|` parse back to themselves, as a non-strict query. */
  lemma PipeListParses(handles: seq<string>, strict: bool)
    requires |handles| >= 2
    requires forall h :: h in handles ==> '|' !in h
    ensures ParseList(Text(Join('|', handles)), strict) == Query(handles, false)
  {
    JoinHoldsSeparator('|', handles);
    ExplodeJoin('|', handles);
  }

  /** Handles free of both separators, joined with `,`, parse back to themselves, as a strict query. */
  lemma CommaListParses(handles: seq<string>, strict: bool)
    requires |handles| >= 2
    requires forall h :: h in handles ==> '|' !in h && ',' !in h
    ensures ParseList(Text(Join(',', handles)), strict) == Query(handles, true)
  {
    JoinHoldsSeparator(',', handles);
    JoinHolds(',', handles, '|');
    ExplodeJoin(',', handles);
  }
}
