/** The two selection toggles of the diary form: a list of ids used as a set (risk factors and
    positive habits) and an optional single choice (exercise duration). */
module Selections {
  import opened Optional

  /** Option ids and exercise durations are strings. */
  type Id = string

  /** The list with every occurrence of `id` removed, the others in their original order
      (`prev.filter(item => item !== id)`). */
  function Without(l: seq<Id>, id: Id): (r: seq<Id>)
    ensures |r| <= |l|
    ensures id !in r
    ensures forall x :: x in r <==> x in l && x != id
    ensures id !in l ==> r == l
  {
    if l == [] then []
    else if l[0] == id then Without(l[1..], id)
    else [l[0]] + Without(l[1..], id)
  }

  /** No id occurs twice. */
  predicate NoDup(l: seq<Id>) {
    forall i, j :: 0 <= i < j < |l| ==> l[i] != l[j]
  }

  /** Toggling an id: remove it when it is present, otherwise append it at the end. */
  function Toggled(l: seq<Id>, id: Id): (r: seq<Id>)
    ensures id in r <==> id !in l
    ensures forall x :: x != id ==> (x in r <==> x in l)
    ensures id !in l ==> r == l + [id]
    ensures id in l ==> r == Without(l, id)
  {
    if id in l then Without(l, id) else l + [id]
  }

  /** Removal keeps every other element exactly as often as before. */
  lemma {:induction false} WithoutMultiset(l: seq<Id>, id: Id)
    ensures multiset(Without(l, id)) == multiset(l)[id := 0]
  {
    if l != [] {
      WithoutMultiset(l[1..], id);
      assert l == [l[0]] + l[1..];
    }
  }

  /** Removal from a list without duplicates leaves a list without duplicates. */
  lemma {:induction false} WithoutNoDup(l: seq<Id>, id: Id)
    requires NoDup(l)
    ensures NoDup(Without(l, id))
  {
    if l != [] {
      assert NoDup(l[1..]) by {
        forall i, j | 0 <= i < j < |l[1..]| ensures l[1..][i] != l[1..][j] {
          assert l[1..][i] == l[i + 1] && l[1..][j] == l[j + 1];
        }
      }
      WithoutNoDup(l[1..], id);
      if l[0] != id {
        var t := Without(l[1..], id);
        assert l[0] !in t by {
          assert forall k :: 1 <= k < |l| ==> l[k] != l[0];
          assert l[0] !in l[1..];
        }
        var r := [l[0]] + t;
        forall i, j | 0 <= i < j < |r| ensures r[i] != r[j] {
          if i == 0 {
            assert r[j] == t[j - 1];
          } else {
            assert r[i] == t[i - 1] && r[j] == t[j - 1];
          }
        }
      }
    }
  }

  /** Toggling keeps a list of ids free of duplicates. */
  lemma {:induction false} ToggledNoDup(l: seq<Id>, id: Id)
    requires NoDup(l)
    ensures NoDup(Toggled(l, id))
  {
    if id in l {
      WithoutNoDup(l, id);
    } else {
      var r := l + [id];
      forall i, j | 0 <= i < j < |r| ensures r[i] != r[j] {
        if j == |l| {
          assert r[i] == l[i];
        } else {
          assert r[i] == l[i] && r[j] == l[j];
        }
      }
    }
  }

  /** Toggling changes the multiset of a duplicate-free list only at `id`: one occurrence is
      added when absent, and the single occurrence is removed when present. */
  lemma {:induction false} ToggledMultiset(l: seq<Id>, id: Id)
    requires NoDup(l)
    ensures multiset(Toggled(l, id)) == multiset(l)[id := if id in l then 0 else 1]
  {
    if id in l {
      WithoutMultiset(l, id);
    } else {
      assert multiset(l)[id] == 0;
      assert multiset(l + [id]) == multiset(l) + multiset{id};
    }
  }

  /** The other selected ids keep their relative order: apart from `id`, toggling changes nothing. */
  lemma {:induction false} ToggledKeepsOthers(l: seq<Id>, id: Id)
    ensures Without(Toggled(l, id), id) == Without(l, id)
  {
    if id !in l {
      WithoutAppend(l, [id], id);
      assert Without([id], id) == [];
      assert Without(l, id) + [] == Without(l, id);
    } else {
      WithoutIdempotent(l, id);
    }
  }

  /** Removing the same id twice is removing it once. */
  lemma {:induction false} WithoutIdempotent(l: seq<Id>, id: Id)
    ensures Without(Without(l, id), id) == Without(l, id)
  {
    if l != [] {
      WithoutIdempotent(l[1..], id);
      if l[0] != id {
        var t := Without(l[1..], id);
        assert ([l[0]] + t)[1..] == t;
      }
    }
  }

  /** Removal distributes over concatenation. */
  lemma {:induction false} WithoutAppend(a: seq<Id>, b: seq<Id>, id: Id)
    ensures Without(a + b, id) == Without(a, id) + Without(b, id)
  {
    if a == [] {
      assert a + b == b;
    } else {
      assert (a + b)[0] == a[0] && (a + b)[1..] == a[1..] + b;
      WithoutAppend(a[1..], b, id);
    }
  }

  /** Toggling the same id twice: an absent id is added and removed again, leaving the list as
      it was; a present id is removed and then appended, so it comes back at the END. */
  lemma {:induction false} ToggleTwice(l: seq<Id>, id: Id)
    requires NoDup(l)
    ensures id !in l ==> Toggled(Toggled(l, id), id) == l
    ensures id in l ==> Toggled(Toggled(l, id), id) == Without(l, id) + [id]
  {
    if id !in l {
      WithoutAppend(l, [id], id);
      assert Without([id], id) == [];
      assert Without(l, id) + [] == l;
    }
  }

  /** So toggling twice restores a duplicate-free list exactly when the id is absent or is
      its last element. */
  lemma {:induction false} ToggleTwiceRestores(l: seq<Id>, id: Id)
    requires NoDup(l)
    ensures Toggled(Toggled(l, id), id) == l <==> id !in l || l[|l| - 1] == id
  {
    ToggleTwice(l, id);
    if id in l {
      var w := Without(l, id);
      if l[|l| - 1] == id {
        var init := l[..|l| - 1];
        assert l == init + [id];
        assert id !in init by {
          forall k | 0 <= k < |init| ensures init[k] != id {
            assert init[k] == l[k];
          }
        }
        WithoutAppend(init, [id], id);
        assert Without([id], id) == [];
        assert w == init + [];
      } else {
        assert (w + [id])[|l| - 1] == id by {
          assert |w| + 1 == |l| by {
            WithoutMultiset(l, id);
            assert multiset(l)[id] == 1 by { NoDupCount(l, id); }
            assert |multiset(l)| == |multiset(w)| + 1;
          }
        }
      }
    }
  }

  /** In a duplicate-free list every present id occurs once. */
  lemma {:induction false} NoDupCount(l: seq<Id>, id: Id)
    requires NoDup(l) && id in l
    ensures multiset(l)[id] == 1
  {
    assert l == [l[0]] + l[1..];
    assert NoDup(l[1..]) by {
      forall i, j | 0 <= i < j < |l[1..]| ensures l[1..][i] != l[1..][j] {
        assert l[1..][i] == l[i + 1] && l[1..][j] == l[j + 1];
      }
    }
    if l[0] == id {
      assert id !in l[1..] by {
        forall k | 0 <= k < |l[1..]| ensures l[1..][k] != id {
          assert l[1..][k] == l[k + 1];
        }
      }
    } else {
      NoDupCount(l[1..], id);
    }
  }

  /** A concrete case: with "a" selected before "b", toggling "a" twice reorders the selection. */
  lemma {:induction false} ToggleTwiceReorders()
    ensures Toggled(Toggled(["a", "b"], "a"), "a") == ["b", "a"]
  {
    assert "a" in ["a", "b"];
    assert Without(["a", "b"], "a") == ["b"] by {
      assert ["a", "b"][1..] == ["b"];
      assert ["b"][1..] == [];
    }
    assert "a" !in ["b"];
  }

  /** The exercise-duration toggle: choosing the current value clears it, any other value
      replaces it (`prev === value ? null : value`). */
  function ToggledChoice(prev: Option<Id>, v: Id): (r: Option<Id>)
    ensures r == None <==> prev == Some(v)
    ensures r == Some(v) <==> prev != Some(v)
  {
    if prev == Some(v) then None else Some(v)
  }

  /** Choosing the same value twice restores the earlier state exactly when nothing or that very
      value was chosen before; from a different value it ends cleared. */
  lemma {:induction false} ToggleChoiceTwice(prev: Option<Id>, v: Id)
    ensures ToggledChoice(ToggledChoice(prev, v), v) == prev <==> prev == None || prev == Some(v)
    ensures prev != None && prev != Some(v) ==> ToggledChoice(ToggledChoice(prev, v), v) == None
  {
  }
}
