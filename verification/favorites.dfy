/**
 * The microphone settings the tray's handlers change: the selected device
 * (modules/tray.py:49-56) and the favourites list, which the favourite handler
 * edits in place with `remove`/`append` (modules/tray.py:58-70).
 */
module Favorites {
  import opened Wrappers
  import opened DeviceOrder

  /** Python's `list.remove(x)`: drops the first occurrence. The source only
      calls it after checking `x in list`, so the ValueError path never runs. */
  function RemoveFirst<T(==)>(s: seq<T>, x: T): (r: seq<T>)
    requires x in s
    ensures |r| == |s| - 1
  {
    if s[0] == x then s[1..] else [s[0]] + RemoveFirst(s[1..], x)
  }

  /** Index of the first occurrence of `x`. */
  function FirstIndex<T(==)>(s: seq<T>, x: T): (i: nat)
    requires x in s
    ensures i < |s| && s[i] == x && x !in s[..i]
  {
    if s[0] == x then 0 else 1 + FirstIndex(s[1..], x)
  }

  /** `remove` cuts the list at the first occurrence and nowhere else. */
  lemma {:induction false} RemoveFirstCuts<T>(s: seq<T>, x: T)
    requires x in s
    ensures RemoveFirst(s, x) == s[..FirstIndex(s, x)] + s[FirstIndex(s, x) + 1..]
  {
    if s[0] != x {
      RemoveFirstCuts(s[1..], x);
      assert s[1..][..FirstIndex(s[1..], x)] == s[1..FirstIndex(s, x)];
    }
  }

  /** The favourites list after the handler of modules/tray.py:61-68. */
  function Toggled<T(==)>(favorites: seq<T>, x: T): seq<T>
  {
    if x in favorites then RemoveFirst(favorites, x) else favorites + [x]
  }

  predicate NoDuplicates<T(==)>(s: seq<T>)
  {
    forall i, j :: 0 <= i < j < |s| ==> s[i] != s[j]
  }

  /** The list with every `x` dropped: what "the other entries" are. */
  function Without<T(==)>(s: seq<T>, x: T): (r: seq<T>)
    ensures x !in r
  {
    if s == [] then []
    else (if s[0] == x then [] else [s[0]]) + Without(s[1..], x)
  }

  lemma {:induction false} WithoutAppend<T>(s: seq<T>, t: seq<T>, x: T)
    ensures Without(s + t, x) == Without(s, x) + Without(t, x)
  {
    if s == [] {
      assert s + t == t;
    } else {
      var u := s + t;
      assert u[0] == s[0] && u[1..] == s[1..] + t;
      WithoutAppend(s[1..], t, x);
      var head := if s[0] == x then [] else [s[0]];
      calc {
        Without(u, x);
        head + Without(s[1..] + t, x);
        head + (Without(s[1..], x) + Without(t, x));
        (head + Without(s[1..], x)) + Without(t, x);
      }
    }
  }

  lemma {:induction false} RemoveFirstDropsOnlyX<T>(s: seq<T>, x: T)
    requires x in s
    ensures multiset(RemoveFirst(s, x)) == multiset(s) - multiset{x}
  {
    if s[0] != x {
      RemoveFirstDropsOnlyX(s[1..], x);
    }
    assert s == [s[0]] + s[1..];
  }

  /** Whatever the list, toggling leaves every other entry where it was
      relative to the rest. */
  lemma {:induction false} ToggleKeepsOthers<T>(favorites: seq<T>, x: T)
    ensures Without(Toggled(favorites, x), x) == Without(favorites, x)
  {
    if x in favorites {
      var i := FirstIndex(favorites, x);
      RemoveFirstCuts(favorites, x);
      assert favorites == favorites[..i] + ([x] + favorites[i + 1..]);
      WithoutAppend(favorites[..i], [x] + favorites[i + 1..], x);
      WithoutAppend(favorites[..i], favorites[i + 1..], x);
    } else {
      WithoutAppend(favorites, [x], x);
    }
  }

  /** On a duplicate-free list `remove` takes `x` out for good and keeps the
      list duplicate-free. */
  lemma {:induction false} RemoveFirstNoDuplicates<T>(s: seq<T>, x: T)
    requires x in s && NoDuplicates(s)
    ensures NoDuplicates(RemoveFirst(s, x)) && x !in RemoveFirst(s, x)
  {
    assert NoDuplicates(s[1..]) by {
      forall i, j | 0 <= i < j < |s[1..]| ensures s[1..][i] != s[1..][j] {
        assert s[1..][i] == s[i + 1] && s[1..][j] == s[j + 1];
      }
    }
    forall k | 0 <= k < |s[1..]| ensures s[1..][k] != s[0] {
      assert s[1..][k] == s[k + 1];
    }
    if s[0] != x {
      var r := RemoveFirst(s[1..], x);
      RemoveFirstNoDuplicates(s[1..], x);
      RemoveFirstDropsOnlyX(s[1..], x);
      assert s[0] !in r by {
        assert s[0] !in multiset(s[1..]);
        assert multiset(r) <= multiset(s[1..]);
      }
      var u := [s[0]] + r;
      forall i, j | 0 <= i < j < |u| ensures u[i] != u[j] {
        assert u[j] == r[j - 1];
        if i > 0 { assert u[i] == r[i - 1]; }
      }
      assert RemoveFirst(s, x) == u;
    }
  }

  /** On a duplicate-free list the toggle flips membership of `x`, keeps the
      list duplicate-free and changes the membership of nothing else. */
  lemma ToggleFlips<T>(favorites: seq<T>, x: T)
    requires NoDuplicates(favorites)
    ensures x in Toggled(favorites, x) <==> x !in favorites
    ensures NoDuplicates(Toggled(favorites, x))
    ensures forall y :: y != x ==> (y in Toggled(favorites, x) <==> y in favorites)
  {
    if x in favorites {
      RemoveFirstNoDuplicates(favorites, x);
      RemoveFirstDropsOnlyX(favorites, x);
      forall y | y != x ensures y in RemoveFirst(favorites, x) <==> y in favorites {
        assert y in multiset(RemoveFirst(favorites, x)) <==> y in multiset(favorites);
      }
    } else {
      var r := favorites + [x];
      forall a, b | 0 <= a < b < |r| ensures r[a] != r[b] {
        if b == |favorites| { assert r[a] == favorites[a]; }
      }
    }
  }

  /** Toggling a device that is not a favourite and toggling it again
      gives back the original list. */
  lemma ToggleTwiceRestores<T>(favorites: seq<T>, x: T)
    requires x !in favorites
    ensures Toggled(Toggled(favorites, x), x) == favorites
  {
    var t := favorites + [x];
    assert x in t;
    RemoveFirstCuts(t, x);
    assert t[..|favorites|] == favorites;
  }

  /** The `selected_microphone` and `favorite_microphones` settings. */
  class MicrophoneSettings<I(==)> {
    var selected: Option<I>
    var favorites: seq<I>

    constructor(selected: Option<I>, favorites: seq<I>)
      ensures this.selected == selected && this.favorites == favorites
    {
      this.selected := selected;
      this.favorites := favorites;
    }

    /** The "Select Device" handler (modules/tray.py:50-52). */
    method SelectDevice(d: Device<I>)
      modifies this
      ensures selected == Some(d.identifier)
      ensures favorites == old(favorites)
    {
      selected := Some(d.identifier);
    }

    /** The "Manage Favorites" handler (modules/tray.py:59-68). */
    method ToggleFavorite(d: Device<I>)
      modifies this
      ensures favorites == Toggled(old(favorites), d.identifier)
      ensures selected == old(selected)
    {
      var identifier := d.identifier;
      if identifier in favorites {
        favorites := RemoveFirst(favorites, identifier);
      } else {
        favorites := favorites + [identifier];
      }
    }
  }
}
