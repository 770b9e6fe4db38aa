/**
 * The handshake registry: an array of connection ids that have completed
 * the handshake, mutated in place by `push` and `splice`.
 */
module Registry {
  import opened EcmaScript

  type Id = string

  /** ECMAScript arrays hold at most 2^32 - 1 elements; `push` beyond that throws. */
  const MaxLength: int := 0xFFFF_FFFF

  predicate NoDuplicates(s: seq<Id>) {
    forall i, j :: 0 <= i < j < |s| ==> s[i] != s[j]
  }

  /**
   * Removal of the first occurrence of `x`, leaving every other entry in
   * order, and no change at all when `x` is absent: what removal is meant
   * to do (see RemoveAbsentDropsLast for what the code does instead).
   */
  function RemoveFirst(s: seq<Id>, x: Id): (r: seq<Id>)
    ensures x !in s ==> r == s
    ensures x in s ==> |r| == |s| - 1
    ensures multiset(r) == multiset(s) - multiset{x}
  {
    if s == [] then []
    else if s[0] == x then
      assert s == [s[0]] + s[1..];
      s[1..]
    else
      assert s == [s[0]] + s[1..];
      [s[0]] + RemoveFirst(s[1..], x)
  }

  /** RemoveFirst cuts out exactly the entry at the first index of `x`. */
  lemma {:induction false} RemoveFirstAt(s: seq<Id>, x: Id, i: nat)
    requires i < |s| && s[i] == x && x !in s[..i]
    ensures RemoveFirst(s, x) == s[..i] + s[i + 1..]
  {
    if i > 0 {
      var t := s[1..];
      assert s[0] in s[..i];
      assert t[..i - 1] == s[1..i];
      RemoveFirstAt(t, x, i - 1);
      assert s[..i] == [s[0]] + t[..i - 1];
      assert s[i + 1..] == t[i..];
    }
  }

  /** Removing an id from a duplicate-free registry removes it entirely. */
  lemma {:induction false} RemoveFirstNoDuplicates(s: seq<Id>, x: Id)
    requires NoDuplicates(s)
    ensures NoDuplicates(RemoveFirst(s, x))
    ensures x !in RemoveFirst(s, x)
  {
    if x in s {
      var i := IndexOf(s, x);
      RemoveFirstAt(s, x, i);
      var r := RemoveFirst(s, x);
      assert forall k :: 0 <= k < |r| ==> r[k] == s[if k < i then k else k + 1];
      forall a, b | 0 <= a < b < |r| ensures r[a] != r[b] {
        var a', b' := (if a < i then a else a + 1), (if b < i then b else b + 1);
        assert s[a'] != s[b'];
      }
      forall k | 0 <= k < |r| ensures r[k] != x {
        var k' := if k < i then k else k + 1;
        assert s[k'] != s[i];
      }
    }
  }

  /** Appending an id that is not registered keeps the registry duplicate free. */
  lemma AppendFreshNoDuplicates(s: seq<Id>, x: Id)
    requires NoDuplicates(s) && x !in s
    ensures NoDuplicates(s + [x])
  {
  }

  /** Removing an id just added, when it was not registered before, restores the registry. */
  lemma AddThenRemoveRestores(s: seq<Id>, x: Id)
    requires x !in s
    ensures Splice1(s + [x], IndexOf(s + [x], x)) == s
  {
  }

  /** For a present id, `splice(indexOf(id), 1)` is exactly RemoveFirst. */
  lemma RemovePresentIsRemoveFirst(s: seq<Id>, x: Id)
    requires x in s
    ensures Splice1(s, IndexOf(s, x)) == RemoveFirst(s, x)
  {
    RemoveFirstAt(s, x, IndexOf(s, x));
  }

  /**
   * For an absent id, `indexOf` gives -1 and `splice(-1, 1)` drops the last
   * registered id (when there is one), so the removal is not a no-op.
   */
  lemma RemoveAbsentDropsLast(s: seq<Id>, x: Id)
    requires x !in s && s != []
    ensures Splice1(s, IndexOf(s, x)) == s[..|s| - 1]
    ensures Splice1(s, IndexOf(s, x)) != RemoveFirst(s, x)
  {
  }

  /** A concrete instance: removing "c" from ["a", "b"] leaves ["a"]. */
  lemma RemoveAbsentExample()
    ensures Splice1(["a", "b"], IndexOf(["a", "b"], "c")) == ["a"]
  {
  }

  class Handshaken {
    var registry: seq<Id>

    ghost predicate Valid()
      reads this
    {
      |registry| <= MaxLength
    }

    constructor ()
      ensures Valid() && registry == []
    {
      registry := [];
    }

    /** `registry.push(id)`: no duplicate check. */
    method Add(id: Id)
      requires Valid() && |registry| < MaxLength
      modifies this
      ensures Valid() && registry == old(registry) + [id]
    {
      registry := registry + [id];
    }

    /** `registry.splice(registry.indexOf(id), 1)`. */
    method Remove(id: Id)
      requires Valid()
      modifies this
      ensures Valid() && registry == Splice1(old(registry), IndexOf(old(registry), id))
    {
      registry := Splice1(registry, IndexOf(registry, id));
    }

    /** `~registry.indexOf(id)`: nonzero exactly when `id` is registered. */
    method Exists(id: Id) returns (r: int)
      requires Valid()
      ensures r != 0 <==> id in registry
    {
      r := BitNot(IndexOf(registry, id));
    }
  }
}
