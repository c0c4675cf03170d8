/** The reader's favourites: a list of news ids kept by the browser, to
    which an id is appended when absent, from which the first occurrence of
    an id is removed, and in which an id is toggled. */
module Favorites {

  /** No id occurs twice. */
  predicate NoDup(ids: seq<int>) {
    forall i, j :: 0 <= i < j < |ids| ==> ids[i] != ids[j]
  }

  /** `Array.prototype.indexOf`: the first position of `id`, or -1. */
  function IndexOf(ids: seq<int>, id: int): (k: int)
    ensures -1 <= k < |ids|
    ensures k == -1 <==> id !in ids
    ensures k >= 0 ==> ids[k] == id && forall j :: 0 <= j < k ==> ids[j] != id
    decreases |ids|
  {
    if ids == [] then -1
    else if ids[0] == id then 0
    else
      var k := IndexOf(ids[1..], id);
      if k == -1 then -1 else k + 1
  }

  /** The list `addFavorito` leaves: `push` when the id is absent. Adding
      makes the id a favourite, keeps every other id where it was and never
      introduces a duplicate. */
  function Added(ids: seq<int>, id: int): (r: seq<int>)
    ensures id in r
    ensures ids <= r && |r| <= |ids| + 1
    ensures forall x :: x != id ==> (x in r <==> x in ids)
    ensures NoDup(ids) ==> NoDup(r)
  {
    if id in ids then ids else ids + [id]
  }

  /** The list `removeFavorito` leaves: the first occurrence spliced out. */
  function Removed(ids: seq<int>, id: int): seq<int> {
    var k := IndexOf(ids, id);
    if k > -1 then ids[..k] + ids[k + 1..] else ids
  }

  /** The list `toggleFavorito` leaves. */
  function Toggled(ids: seq<int>, id: int): seq<int> {
    if id in ids then Removed(ids, id) else Added(ids, id)
  }

  /** Adding twice is adding once. */
  lemma AddedIdempotent(ids: seq<int>, id: int)
    ensures Added(Added(ids, id), id) == Added(ids, id)
  {
  }

  /** Removing takes out exactly one occurrence, the first, and keeps the
      order of the rest; an absent id leaves the list as it is. */
  lemma {:induction false} RemovedProperties(ids: seq<int>, id: int)
    ensures id !in ids ==> Removed(ids, id) == ids
    ensures id in ids ==> multiset(Removed(ids, id)) == multiset(ids) - multiset{id}
    ensures id in ids ==> |Removed(ids, id)| == |ids| - 1
    ensures id in ids ==> var k := IndexOf(ids, id);
                          Removed(ids, id)[..k] == ids[..k] && Removed(ids, id)[k..] == ids[k + 1..]
  {
    var k := IndexOf(ids, id);
    if k > -1 {
      assert ids == ids[..k] + [id] + ids[k + 1..];
    }
  }

  /** After the splice at the first occurrence `k`, position `i` holds what
      was at `i` before `k` and at `i + 1` from `k` on. */
  lemma RemovedAt(ids: seq<int>, id: int, i: nat)
    requires id in ids && i < |ids| - 1
    ensures |Removed(ids, id)| == |ids| - 1
    ensures Removed(ids, id)[i] == if i < IndexOf(ids, id) then ids[i] else ids[i + 1]
  {
  }

  /** In a list without duplicates, removing an id leaves no trace of it
      and no duplicate. */
  lemma RemovedNoDup(ids: seq<int>, id: int)
    requires NoDup(ids)
    ensures id !in Removed(ids, id)
    ensures NoDup(Removed(ids, id))
    ensures forall x :: x != id ==> (x in Removed(ids, id) <==> x in ids)
  {
    if id in ids {
      var k := IndexOf(ids, id);
      var r := Removed(ids, id);
      forall i | 0 <= i < |r|
        ensures r[i] == (if i < k then ids[i] else ids[i + 1])
      {
        RemovedAt(ids, id, i);
      }
      forall x | x in ids && x != id
        ensures x in r
      {
        var j :| 0 <= j < |ids| && ids[j] == x;
        assert r[if j < k then j else j - 1] == x;
      }
    }
  }

  /** In a list without duplicates a toggle flips the id's membership,
      leaves every other id's membership alone and keeps the list free of
      duplicates. */
  lemma ToggleFlips(ids: seq<int>, id: int)
    requires NoDup(ids)
    ensures id in Toggled(ids, id) <==> id !in ids
    ensures forall x :: x != id ==> (x in Toggled(ids, id) <==> x in ids)
    ensures NoDup(Toggled(ids, id))
  {
    RemovedNoDup(ids, id);
  }

  /** Toggling an id that is not a favourite twice restores the list. */
  lemma ToggleTwiceAbsent(ids: seq<int>, id: int)
    requires id !in ids
    ensures Toggled(Toggled(ids, id), id) == ids
  {
    var a := ids + [id];
    assert IndexOf(a, id) == |ids| by {
      IndexOfLast(ids, id);
    }
    assert a[..|ids|] == ids;
  }

  lemma {:induction false} IndexOfLast(ids: seq<int>, id: int)
    requires id !in ids
    ensures IndexOf(ids + [id], id) == |ids|
    decreases |ids|
  {
    if ids != [] {
      assert (ids + [id])[1..] == ids[1..] + [id];
      IndexOfLast(ids[1..], id);
    }
  }

  /** Toggling a favourite that is not the last one twice moves it to the
      end of the list: membership is restored, order is not. */
  lemma ToggleTwiceMoves(ids: seq<int>, id: int)
    requires NoDup(ids) && id in ids && ids[|ids| - 1] != id
    ensures Toggled(Toggled(ids, id), id) != ids
    ensures Toggled(Toggled(ids, id), id)[|ids| - 1] == id
  {
    RemovedNoDup(ids, id);
    RemovedProperties(ids, id);
  }

  /** The favourites of the browser's local storage. */
  class FavoriteStore {
    var ids: seq<int>

    constructor (stored: seq<int>)
      ensures ids == stored
    {
      ids := stored;
    }

    /** `isFavorito`: `includes`. */
    function IsFavorito(id: int): (b: bool)
      reads this
      ensures b <==> exists i :: 0 <= i < |ids| && ids[i] == id
    {
      id in ids
    }

    /** `addFavorito`: `includes`, then `push`. */
    method AddFavorito(id: int)
      modifies this
      ensures ids == Added(old(ids), id)
    {
      if !IsFavorito(id) {
        ids := ids + [id];
      }
    }

    /** `removeFavorito`: `indexOf` then `splice(index, 1)`. */
    method RemoveFavorito(id: int)
      modifies this
      ensures ids == Removed(old(ids), id)
    {
      var index := IndexOf(ids, id);
      if index > -1 {
        ids := ids[..index] + ids[index + 1..];
      }
    }

    /** `toggleFavorito`, without the button's label. */
    method ToggleFavorito(id: int)
      modifies this
      ensures ids == Toggled(old(ids), id)
    {
      if IsFavorito(id) {
        RemoveFavorito(id);
      } else {
        AddFavorito(id);
      }
    }
  }
}
