/**
 * The scratchpad's favorites list (scratchpad/qwen3/src/presets/favorites.rs):
 * a vector of presets in insertion order that never holds a preset twice.
 */
module PresetFavorites {
  import opened Seqs

  /** What `retain(|p| p != x)` keeps: every element but `x`, in order. */
  function Without<P(==)>(s: seq<P>, x: P): seq<P>
  {
    if s == [] then []
    else (if s[0] == x then [] else [s[0]]) + Without(s[1..], x)
  }

  /** `x` is gone and every other element stays. */
  lemma {:induction false} WithoutMembers<P>(s: seq<P>, x: P)
    ensures x !in Without(s, x)
    ensures forall y :: y != x ==> (y in Without(s, x) <==> y in s)
  {
    if s != [] {
      WithoutMembers(s[1..], x);
      assert s == [s[0]] + s[1..];
    }
  }

  /** Order is kept: removing from a concatenation removes from each part. */
  lemma {:induction false} WithoutAppend<P>(a: seq<P>, b: seq<P>, x: P)
    ensures Without(a + b, x) == Without(a, x) + Without(b, x)
  {
    if a == [] {
      assert a + b == b;
    } else {
      assert (a + b)[0] == a[0];
      assert (a + b)[1..] == a[1..] + b;
      WithoutAppend(a[1..], b, x);
    }
  }

  /** Removing an absent element leaves the list as it is. */
  lemma {:induction false} WithoutAbsent<P>(s: seq<P>, x: P)
    requires x !in s
    ensures Without(s, x) == s
  {
    if s != [] {
      WithoutAbsent(s[1..], x);
      assert s == [s[0]] + s[1..];
    }
  }

  /** Removing keeps a list free of duplicates. */
  lemma {:induction false} WithoutNoDups<P>(s: seq<P>, x: P)
    requires NoDups(s)
    ensures NoDups(Without(s, x))
  {
    if s != [] {
      assert NoDups(s[1..]);
      WithoutNoDups(s[1..], x);
      WithoutMembers(s[1..], x);
      assert s[0] !in s[1..];
    }
  }

  class FavoritesManager<P(==)> {
    var favorites: seq<P>

    /** No preset is listed twice. */
    ghost predicate Valid()
      reads this
    {
      NoDups(favorites)
    }

    /** `FavoritesManager::new`: no favorites. */
    constructor ()
      ensures Valid() && favorites == []
    {
      favorites := [];
    }

    /** `add_favorite`: append only a preset that is not listed yet. */
    method AddFavorite(preset: P)
      requires Valid()
      modifies this
      ensures Valid()
      ensures favorites == if preset in old(favorites) then old(favorites) else old(favorites) + [preset]
      ensures preset in favorites
    {
      if preset !in favorites {
        favorites := favorites + [preset];
      }
    }

    /** `remove_favorite`: drop every occurrence, keeping the order of the rest. */
    method RemoveFavorite(preset: P)
      requires Valid()
      modifies this
      ensures Valid()
      ensures favorites == Without(old(favorites), preset)
      ensures preset !in favorites
    {
      WithoutNoDups(favorites, preset);
      WithoutMembers(favorites, preset);
      favorites := Without(favorites, preset);
    }

    /** `is_favorite`: list membership. */
    method IsFavorite(preset: P) returns (b: bool)
      ensures b <==> preset in favorites
    {
      b := preset in favorites;
    }

    /** `get_favorites`: the list itself, in insertion order. */
    method GetFavorites() returns (r: seq<P>)
      ensures r == favorites
    {
      r := favorites;
    }
  }
}
