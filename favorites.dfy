/**
 * `FavoriteCareerServiceImpl` and `FavoriteSpecializationServiceImpl`: a
 * user's favourites are rows keyed by (user, target), never deleted: removal
 * sets `active` to false and adding an inactive favourite again reactivates
 * its row. A user may have at most `cap` active favourites (10 careers, 5
 * specializations).
 *
 * The two services differ only in their target type, cap, messages and
 * response mapper, gathered in `Rules`; `FavoriteTable` holds one favourites
 * table (ids are positions + 1). A failing call changes nothing.
 */
module Favorites {
  import opened Common
  import opened Entities
  import CareerMapper
  import SpecializationMapper

  /** What tells the two favourite services apart. */
  datatype Rules<!T, R> = Rules(
    cap: nat,
    targetId: T -> int,
    toResponse: Favorite<T> -> R,
    tooMany: string,
    targetNotFound: string,
    alreadyFavorite: string,
    favoriteNotFound: string,
    noneListed: string)

  const CareerRules: Rules<Career, CareerMapper.FavoriteCareerResponse> := Rules(
    10,
    (c: Career) => c.id,
    CareerMapper.FavoriteResponse,
    "Maximum 10 favorite careers allowed",
    "Career not found",
    "Career already in favorites",
    "Favorite career not found",
    "There are no favorite careers registered for this user.")

  const SpecializationRules: Rules<SpecializationArea, SpecializationMapper.FavoriteSpecializationResponse> := Rules(
    5,
    (a: SpecializationArea) => a.id,
    SpecializationMapper.FavoriteResponse,
    "Maximum 5 favorite specializations allowed",
    "Specialization area not found",
    "Specialization already in favorites",
    "Favorite specialization not found",
    "There are no favorite specializations registered for this user.")

  /** What `PageRequest.of` throws for a negative page and for a size below one. */
  const PageIndexMessage := "Page index must not be less than zero"
  const PageSizeMessage := "Page size must not be less than one"

  // ---------------------------------------------------------------- counting

  /** Whether a row is one of `userId`'s active favourites, as 0 or 1. */
  function ActiveFor<T>(row: Favorite<T>, userId: int): nat {
    if row.userId == userId && row.active then 1 else 0
  }

  /** `countByUserIdAndActiveTrue`. */
  function ActiveCount<T>(rows: seq<Favorite<T>>, userId: int): nat {
    if rows == [] then 0 else ActiveCount(rows[..|rows| - 1], userId) + ActiveFor(rows[|rows| - 1], userId)
  }

  lemma ActiveCountAppend<T>(rows: seq<Favorite<T>>, row: Favorite<T>, userId: int)
    ensures ActiveCount(rows + [row], userId) == ActiveCount(rows, userId) + ActiveFor(row, userId)
  {
    assert (rows + [row])[..|rows|] == rows;
  }

  /** Replacing one row changes the count by the difference that row makes. */
  lemma {:induction false} ActiveCountUpdate<T>(rows: seq<Favorite<T>>, k: nat, row: Favorite<T>, userId: int)
    requires k < |rows|
    ensures ActiveCount(rows[k := row], userId) ==
      ActiveCount(rows, userId) - ActiveFor(rows[k], userId) + ActiveFor(row, userId)
  {
    var n := |rows| - 1;
    var after := rows[k := row];
    if k == n {
      assert after[..n] == rows[..n];
    } else {
      ActiveCountUpdate(rows[..n], k, row, userId);
      assert after[..n] == rows[..n][k := row];
    }
  }

  // ---------------------------------------------------------------- lookups

  /** `findByUserIdAnd…Id`: the position of the user's row for a target, if any. */
  function FindRow<T, R>(rows: seq<Favorite<T>>, rules: Rules<T, R>, userId: int, targetId: int): (r: Option<nat>)
    ensures r.None? <==>
      forall i :: 0 <= i < |rows| ==> !(rows[i].userId == userId && rules.targetId(rows[i].target) == targetId)
    ensures r.Some? ==>
      r.value < |rows| && rows[r.value].userId == userId && rules.targetId(rows[r.value].target) == targetId
  {
    if rows == [] then None
    else
      var n := |rows| - 1;
      if rows[n].userId == userId && rules.targetId(rows[n].target) == targetId then Some(n)
      else
        var r := FindRow(rows[..n], rules, userId, targetId);
        assert forall i :: 0 <= i < n ==> rows[..n][i] == rows[i];
        r
  }

  /** `findByUserIdAndActiveTrue` without paging: the user's active rows, in table order. */
  function ActiveRows<T>(rows: seq<Favorite<T>>, userId: int): (r: seq<Favorite<T>>)
    ensures |r| == ActiveCount(rows, userId)
    ensures forall i :: 0 <= i < |r| ==> r[i] in rows && r[i].userId == userId && r[i].active
    ensures forall j :: 0 <= j < |rows| && rows[j].userId == userId && rows[j].active ==> rows[j] in r
  {
    if rows == [] then []
    else
      var n := |rows| - 1;
      var rest := ActiveRows(rows[..n], userId);
      assert rows == rows[..n] + [rows[n]];
      if rows[n].userId == userId && rows[n].active then rest + [rows[n]] else rest
  }

  // ---------------------------------------------------------------- add and remove, as values

  /**
   * The checks of `addFavorite…`, in order: the user exists, has fewer than
   * `cap` active favourites, the target exists, and is not an active favourite
   * already. On success, whether a row for the target exists (to reactivate).
   */
  function AddCheck<T, R>(rows: seq<Favorite<T>>, rules: Rules<T, R>, userId: int, userExists: bool,
                          targetId: int, catalog: map<int, T>): (r: Result<Option<nat>>)
    ensures r.Ok? <==>
      userExists && ActiveCount(rows, userId) < rules.cap && targetId in catalog &&
      (FindRow(rows, rules, userId, targetId).Some? ==> !rows[FindRow(rows, rules, userId, targetId).value].active)
    ensures r.Ok? ==> r.value == FindRow(rows, rules, userId, targetId)
    ensures !userExists ==> r == Err(IllegalArgument("User not found"))
    ensures userExists && ActiveCount(rows, userId) >= rules.cap ==> r == Err(IllegalArgument(rules.tooMany))
  {
    if !userExists then Err(IllegalArgument("User not found"))
    else if ActiveCount(rows, userId) >= rules.cap then Err(IllegalArgument(rules.tooMany))
    else if targetId !in catalog then Err(EntityNotFound(rules.targetNotFound))
    else match FindRow(rows, rules, userId, targetId)
      case Some(k) => if rows[k].active then Err(IllegalArgument(rules.alreadyFavorite)) else Ok(Some(k))
      case None => Ok(None)
  }

  /** The table after `removeFavorite…`: the row set inactive, or an error when there is no row. */
  function Removed<T, R>(rows: seq<Favorite<T>>, rules: Rules<T, R>, userId: int, targetId: int)
    : (r: Result<seq<Favorite<T>>>)
    ensures r.Err? <==> FindRow(rows, rules, userId, targetId).None?
    ensures r.Err? ==> r.error == EntityNotFound(rules.favoriteNotFound)
    ensures r.Ok? ==> |r.value| == |rows|
    ensures r.Ok? ==>
      var k := FindRow(rows, rules, userId, targetId).value;
      r.value[k] == rows[k].(active := false) &&
      forall i :: 0 <= i < |rows| && i != k ==> r.value[i] == rows[i]
  {
    match FindRow(rows, rules, userId, targetId)
    case None => Err(EntityNotFound(rules.favoriteNotFound))
    case Some(k) => Ok(rows[k := rows[k].(active := false)])
  }

  /** `FindRow` looks at users and targets only: rows that agree on those are found alike. */
  lemma {:induction false} FindRowSameKeys<T, R>(a: seq<Favorite<T>>, b: seq<Favorite<T>>, rules: Rules<T, R>,
                                                userId: int, targetId: int)
    requires |a| == |b|
    requires forall i :: 0 <= i < |a| ==> a[i].userId == b[i].userId && a[i].target == b[i].target
    ensures FindRow(a, rules, userId, targetId) == FindRow(b, rules, userId, targetId)
  {
    if a != [] {
      var n := |a| - 1;
      FindRowSameKeys(a[..n], b[..n], rules, userId, targetId);
    }
  }

  /** Removing twice is removing once. */
  lemma RemoveIdempotent<T, R>(rows: seq<Favorite<T>>, rules: Rules<T, R>, userId: int, targetId: int)
    requires Removed(rows, rules, userId, targetId).Ok?
    ensures Removed(Removed(rows, rules, userId, targetId).value, rules, userId, targetId) ==
      Removed(rows, rules, userId, targetId)
  {
    var k := FindRow(rows, rules, userId, targetId).value;
    var once := rows[k := rows[k].(active := false)];
    FindRowSameKeys(once, rows, rules, userId, targetId);
    assert once[k := once[k].(active := false)] == once;
  }

  /**
   * The table's invariant: ids are positions + 1, (user, target) is unique,
   * and no user has more than `cap` active favourites.
   */
  ghost predicate Consistent<T, R>(rows: seq<Favorite<T>>, rules: Rules<T, R>) {
    (forall i :: 0 <= i < |rows| ==> rows[i].id == i + 1) &&
    (forall i, j :: 0 <= i < j < |rows| && rows[i].userId == rows[j].userId ==>
      rules.targetId(rows[i].target) != rules.targetId(rows[j].target)) &&
    (forall u :: ActiveCount(rows, u) <= rules.cap)
  }

  /** The table after a successful `addFavorite…`: the row at `at` reactivated, or a new active row appended. */
  function Added<T>(rows: seq<Favorite<T>>, userId: int, target: T, notes: Option<string>, at: Option<nat>)
    : (r: seq<Favorite<T>>)
    requires at.Some? ==> at.value < |rows|
  {
    match at
    case Some(k) => rows[k := rows[k].(active := true, notes := notes)]
    case None => rows + [Favorite(|rows| + 1, userId, target, notes, true)]
  }

  /** A successful add gives the user one more active favourite and nobody else any. */
  lemma AddedCounts<T, R>(rows: seq<Favorite<T>>, rules: Rules<T, R>, userId: int, userExists: bool,
                          targetId: int, notes: Option<string>, catalog: map<int, T>)
    requires AddCheck(rows, rules, userId, userExists, targetId, catalog).Ok?
    ensures var after := Added(rows, userId, catalog[targetId], notes,
                               AddCheck(rows, rules, userId, userExists, targetId, catalog).value);
      forall u :: ActiveCount(after, u) == ActiveCount(rows, u) + (if u == userId then 1 else 0)
  {
    match AddCheck(rows, rules, userId, userExists, targetId, catalog).value
    case Some(k) =>
      var row := rows[k].(active := true, notes := notes);
      forall u ensures ActiveCount(rows[k := row], u) == ActiveCount(rows, u) + (if u == userId then 1 else 0) {
        ActiveCountUpdate(rows, k, row, u);
      }
    case None =>
      var row := Favorite(|rows| + 1, userId, catalog[targetId], notes, true);
      forall u ensures ActiveCount(rows + [row], u) == ActiveCount(rows, u) + (if u == userId then 1 else 0) {
        ActiveCountAppend(rows, row, u);
      }
  }

  /** Reactivating an inactive row of a user below the cap keeps the invariant. */
  lemma ReactivatedConsistent<T, R>(rows: seq<Favorite<T>>, rules: Rules<T, R>, k: nat, notes: Option<string>)
    requires Consistent(rows, rules)
    requires k < |rows| && !rows[k].active && ActiveCount(rows, rows[k].userId) < rules.cap
    ensures Consistent(rows[k := rows[k].(active := true, notes := notes)], rules)
  {
    var row := rows[k].(active := true, notes := notes);
    var after := rows[k := row];
    forall u ensures ActiveCount(after, u) <= rules.cap {
      ActiveCountUpdate(rows, k, row, u);
    }
    assert forall i :: 0 <= i < |rows| ==> after[i].userId == rows[i].userId && after[i].target == rows[i].target;
  }

  /** Appending a new active row for a target the user has no row for, below the cap, keeps the invariant. */
  lemma AppendedConsistent<T, R>(rows: seq<Favorite<T>>, rules: Rules<T, R>, userId: int, target: T,
                                 notes: Option<string>)
    requires Consistent(rows, rules)
    requires ActiveCount(rows, userId) < rules.cap
    requires forall i :: 0 <= i < |rows| ==> !(rows[i].userId == userId && rules.targetId(rows[i].target) ==
                                               rules.targetId(target))
    ensures Consistent(rows + [Favorite(|rows| + 1, userId, target, notes, true)], rules)
  {
    var row := Favorite(|rows| + 1, userId, target, notes, true);
    var after := rows + [row];
    forall u ensures ActiveCount(after, u) <= rules.cap {
      ActiveCountAppend(rows, row, u);
    }
    assert forall i :: 0 <= i < |rows| ==> after[i] == rows[i];
  }

  /** A successful add keeps the table's invariant. */
  lemma AddedConsistent<T, R>(rows: seq<Favorite<T>>, rules: Rules<T, R>, userId: int, userExists: bool,
                              targetId: int, notes: Option<string>, catalog: map<int, T>)
    requires Consistent(rows, rules)
    requires forall k :: k in catalog ==> rules.targetId(catalog[k]) == k
    requires AddCheck(rows, rules, userId, userExists, targetId, catalog).Ok?
    ensures Consistent(Added(rows, userId, catalog[targetId], notes,
                             AddCheck(rows, rules, userId, userExists, targetId, catalog).value), rules)
  {
    match AddCheck(rows, rules, userId, userExists, targetId, catalog).value
    case Some(k) => ReactivatedConsistent(rows, rules, k, notes);
    case None => AppendedConsistent(rows, rules, userId, catalog[targetId], notes);
  }

  // ---------------------------------------------------------------- the table

  class FavoriteTable<T, R> {
    var rows: seq<Favorite<T>>
    const rules: Rules<T, R>

    ghost predicate Valid()
      reads this
    {
      Consistent(rows, rules)
    }

    constructor(rules: Rules<T, R>)
      ensures Valid()
      ensures this.rules == rules && rows == []
    {
      this.rules := rules;
      rows := [];
    }

    /**
     * `addFavorite…`: after the checks of `AddCheck`, an inactive row is
     * reactivated in place with the new notes, otherwise one new active row is
     * appended; either way the user's active count grows by exactly one.
     */
    method Add(userId: int, userExists: bool, targetId: int, notes: Option<string>, catalog: map<int, T>)
      returns (r: Result<R>)
      requires Valid()
      requires forall k :: k in catalog ==> rules.targetId(catalog[k]) == k
      modifies this
      ensures Valid()
      ensures AddCheck(old(rows), rules, userId, userExists, targetId, catalog).Err? ==>
        r == Err(AddCheck(old(rows), rules, userId, userExists, targetId, catalog).error) && rows == old(rows)
      ensures AddCheck(old(rows), rules, userId, userExists, targetId, catalog) == Ok(None) ==>
        rows == old(rows) + [Favorite(|old(rows)| + 1, userId, catalog[targetId], notes, true)] &&
        r == Ok(rules.toResponse(rows[|old(rows)|]))
      ensures forall k :: AddCheck(old(rows), rules, userId, userExists, targetId, catalog) == Ok(Some(k)) ==>
        k < |old(rows)| && rows == old(rows)[k := old(rows)[k].(active := true, notes := notes)] &&
        r == Ok(rules.toResponse(rows[k]))
      ensures r.Ok? ==> ActiveCount(rows, userId) == ActiveCount(old(rows), userId) + 1
      ensures forall u :: u != userId ==> ActiveCount(rows, u) == ActiveCount(old(rows), u)
    {
      var check := AddCheck(rows, rules, userId, userExists, targetId, catalog);
      if check.Err? {
        return Err(check.error);
      }
      AddedCounts(rows, rules, userId, userExists, targetId, notes, catalog);
      AddedConsistent(rows, rules, userId, userExists, targetId, notes, catalog);
      var at := check.value;
      rows := Added(rows, userId, catalog[targetId], notes, at);
      var position := if at.Some? then at.value else |rows| - 1;
      r := Ok(rules.toResponse(rows[position]));
    }

    /** `removeFavorite…`: the row is set inactive and nothing else changes; no row is an error. */
    method Remove(userId: int, targetId: int) returns (r: Result<()>)
      requires Valid()
      modifies this
      ensures Valid()
      ensures Removed(old(rows), rules, userId, targetId).Err? ==>
        r == Err(Removed(old(rows), rules, userId, targetId).error) && rows == old(rows)
      ensures Removed(old(rows), rules, userId, targetId).Ok? ==>
        r == Ok(()) && rows == Removed(old(rows), rules, userId, targetId).value
    {
      match FindRow(rows, rules, userId, targetId) {
        case None =>
          return Err(EntityNotFound(rules.favoriteNotFound));
        case Some(k) =>
          var row := rows[k].(active := false);
          ghost var before := rows;
          var after := rows[k := row];
          forall u ensures ActiveCount(after, u) <= rules.cap
          {
            ActiveCountUpdate(before, k, row, u);
          }
          rows := after;
          return Ok(());
      }
    }

    /**
     * `getFavorite…s`: page `page` of the user's active favourites, as
     * responses. `PageRequest.of` refuses a negative page or a size below one,
     * and an empty page is an error.
     */
    function List(userId: int, page: int, pageSize: int): (r: Result<seq<R>>)
      reads this
      ensures page < 0 ==> r == Err(IllegalArgument(PageIndexMessage))
      ensures 0 <= page && pageSize < 1 ==> r == Err(IllegalArgument(PageSizeMessage))
      ensures 0 <= page && 1 <= pageSize ==>
        (r.Err? <==> Page(ActiveRows(rows, userId), page, pageSize) == [])
      ensures 0 <= page && 1 <= pageSize && r.Err? ==> r.error == IllegalArgument(rules.noneListed)
      ensures r.Ok? ==> 0 < |r.value| <= pageSize
      ensures r.Ok? ==>
        var content := Page(ActiveRows(rows, userId), page, pageSize);
        |r.value| == |content| && forall i :: 0 <= i < |content| ==> r.value[i] == rules.toResponse(content[i])
    {
      if page < 0 then Err(IllegalArgument(PageIndexMessage))
      else if pageSize < 1 then Err(IllegalArgument(PageSizeMessage))
      else
        var content := Page(ActiveRows(rows, userId), page, pageSize);
        if content == [] then Err(IllegalArgument(rules.noneListed))
        else
          var responses := seq(|content|, i requires 0 <= i < |content| => rules.toResponse(content[i]));
          Ok(responses)
    }
  }
}
