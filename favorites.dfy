/** The favourite-kitchen toggle of Backend/controllers/favoriteRoutes.js: the user's
    `favoriteKitchens` list is a set kept by `$pull` (remove every occurrence) and
    `$addToSet` (append when absent). */
module Favorites {
  import opened Http
  import opened MealModel
  import opened KitchenModel
  import opened Records

  /** `$pull`: the list with every occurrence of k removed, the rest in order. */
  function Without(xs: seq<Id>, k: Id): (r: seq<Id>)
    ensures k !in r
    ensures forall x :: x in r <==> x in xs && x != k
    ensures |r| <= |xs|
  {
    if xs == [] then []
    else if xs[0] == k then Without(xs[1..], k)
    else [xs[0]] + Without(xs[1..], k)
  }

  /** `$addToSet`: append k unless it is already there. */
  function WithAdded(xs: seq<Id>, k: Id): (r: seq<Id>)
    ensures k in r
    ensures forall x :: x in r <==> x in xs || x == k
  {
    if k in xs then xs else xs + [k]
  }

  /** The number of occurrences of k. */
  function Occurrences(xs: seq<Id>, k: Id): nat {
    if xs == [] then 0 else (if xs[0] == k then 1 else 0) + Occurrences(xs[1..], k)
  }

  lemma {:induction false} WithoutKeepsDistinct(xs: seq<Id>, k: Id)
    requires Distinct(xs)
    ensures Distinct(Without(xs, k))
  {
    if xs != [] {
      WithoutKeepsDistinct(xs[1..], k);
      assert xs[0] !in xs[1..];
    }
  }

  lemma {:induction false} WithoutAbsent(xs: seq<Id>, k: Id)
    requires k !in xs
    ensures Without(xs, k) == xs
  {
    if xs != [] {
      WithoutAbsent(xs[1..], k);
      assert xs == [xs[0]] + xs[1..];
    }
  }

  lemma {:induction false} WithoutAppended(xs: seq<Id>, k: Id)
    ensures Without(xs + [k], k) == Without(xs, k)
  {
    if xs != [] {
      assert (xs + [k])[1..] == xs[1..] + [k];
      WithoutAppended(xs[1..], k);
    } else {
      assert [k][1..] == [];
    }
  }

  lemma {:induction false} OccurrencesAbsent(xs: seq<Id>, k: Id)
    requires k !in xs
    ensures Occurrences(xs, k) == 0
  {
    if xs != [] {
      OccurrencesAbsent(xs[1..], k);
    }
  }

  lemma {:induction false} OccurrencesAppend(xs: seq<Id>, k: Id)
    ensures Occurrences(xs + [k], k) == Occurrences(xs, k) + 1
  {
    if xs == [] {
      assert [k][1..] == [];
    } else {
      assert (xs + [k])[1..] == xs[1..] + [k];
      OccurrencesAppend(xs[1..], k);
    }
  }

  const NoUserMessage: string := "Cannot read properties of null (reading 'favoriteKitchens')"

  /** `POST /favorites/:kitchenId/toggle` by `userId`; the response is the new `isFavorite`.
      An unknown kitchen is refused with 404; a missing user fails on reading its list (500). */
  function Toggle(users: map<Id, User>, kitchens: map<Id, Kitchen>, userId: Id, kitchenId: Id): (r: (map<Id, User>, Result<bool>))
    ensures r.1.Err? ==> r.0 == users
    ensures r.1.Ok? ==> userId in users && r.0.Keys == users.Keys
                        && forall u :: u in users && u != userId ==> r.0[u] == users[u]
  {
    if kitchenId !in kitchens then (users, Err(404, "Kitchen not found"))
    else if userId !in users then (users, Err(500, NoUserMessage))
    else
      var favs := users[userId].favoriteKitchens;
      var exists_ := kitchenId in favs;
      var updated := if exists_ then Without(favs, kitchenId) else WithAdded(favs, kitchenId);
      (users[userId := users[userId].(favoriteKitchens := updated)], Ok(!exists_))
  }

  /** A toggle flips membership and reports the new membership, i.e. the negation of the old;
      an added kitchen appears exactly once, and the list stays free of duplicates. */
  lemma ToggleEffect(users: map<Id, User>, kitchens: map<Id, Kitchen>, userId: Id, kitchenId: Id)
    requires Toggle(users, kitchens, userId, kitchenId).1.Ok?
    requires Distinct(users[userId].favoriteKitchens)
    ensures var r := Toggle(users, kitchens, userId, kitchenId);
            var before := users[userId].favoriteKitchens;
            var after := r.0[userId].favoriteKitchens;
            r.1.value == (kitchenId !in before) && (kitchenId in after <==> kitchenId !in before)
            && (forall x :: x != kitchenId ==> (x in after <==> x in before))
            && Distinct(after)
            && (kitchenId in after ==> Occurrences(after, kitchenId) == 1)
            && r.0[userId].role == users[userId].role
  {
    var before := users[userId].favoriteKitchens;
    if kitchenId in before {
      WithoutKeepsDistinct(before, kitchenId);
    } else {
      OccurrencesAbsent(before, kitchenId);
      OccurrencesAppend(before, kitchenId);
    }
  }

  /** Toggling the same kitchen twice restores a list that did not hold it, and otherwise
      keeps the same members (the kitchen moves to the end). */
  lemma ToggleTwice(users: map<Id, User>, kitchens: map<Id, Kitchen>, userId: Id, kitchenId: Id)
    requires Toggle(users, kitchens, userId, kitchenId).1.Ok?
    requires Distinct(users[userId].favoriteKitchens)
    ensures var once := Toggle(users, kitchens, userId, kitchenId).0;
            var twice := Toggle(once, kitchens, userId, kitchenId);
            var before := users[userId].favoriteKitchens;
            twice.1.Ok? && twice.1.value == (kitchenId in before)
            && (kitchenId !in before ==> twice.0 == users)
            && (forall x :: x in twice.0[userId].favoriteKitchens <==> x in before)
            && Distinct(twice.0[userId].favoriteKitchens)
  {
    var before := users[userId].favoriteKitchens;
    var once := Toggle(users, kitchens, userId, kitchenId).0;
    ToggleEffect(users, kitchens, userId, kitchenId);
    ToggleEffect(once, kitchens, userId, kitchenId);
    if kitchenId !in before {
      WithoutAppended(before, kitchenId);
      WithoutAbsent(before, kitchenId);
      assert once[userId].favoriteKitchens == before + [kitchenId];
      assert users[userId].(favoriteKitchens := before) == users[userId];
    }
  }
}
