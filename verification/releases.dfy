/**
 Release selection shared by both implementations: the release list arrives
 newest first, lodash's `filter('slug')` keeps the releases whose `slug` is
 truthy, and `first()` takes the head of what is left.
 */
module Releases {
  import opened Platform

  predicate HasSlug(r: Release) {
    r.slug.Some?
  }

  /** `filter('slug')`: the releases that carry a slug, in their original order. */
  function WithSlug(rs: seq<Release>): (r: seq<Release>)
    ensures |r| <= |rs|
    ensures forall k :: 0 <= k < |r| ==> HasSlug(r[k]) && r[k] in rs
  {
    if rs == [] then []
    else if HasSlug(rs[0]) then [rs[0]] + WithSlug(rs[1..])
    else WithSlug(rs[1..])
  }

  /** `i` is the position of the newest release that carries a slug. */
  ghost predicate IsFirstWithSlug(rs: seq<Release>, i: int) {
    0 <= i < |rs| && HasSlug(rs[i]) && forall j :: 0 <= j < i ==> !HasSlug(rs[j])
  }

  /** Taking the head of the filtered list is a first-match search. */
  lemma {:induction false} WithSlugHead(rs: seq<Release>)
    ensures WithSlug(rs) == [] <==> forall i :: 0 <= i < |rs| ==> !HasSlug(rs[i])
    ensures WithSlug(rs) != [] ==>
              exists i :: IsFirstWithSlug(rs, i) && rs[i] == WithSlug(rs)[0]
  {
    if rs == [] {
    } else if HasSlug(rs[0]) {
      assert IsFirstWithSlug(rs, 0);
    } else {
      WithSlugHead(rs[1..]);
      if WithSlug(rs[1..]) != [] {
        var i :| IsFirstWithSlug(rs[1..], i) && rs[1..][i] == WithSlug(rs[1..])[0];
        assert IsFirstWithSlug(rs, i + 1);
      } else {
        forall i | 0 <= i < |rs| ensures !HasSlug(rs[i]) {
          if i > 0 { assert rs[i] == rs[1..][i - 1]; }
        }
      }
    }
  }

  /** Filtering a concatenation filters each part. */
  lemma {:induction false} WithSlugAppend(a: seq<Release>, b: seq<Release>)
    ensures WithSlug(a + b) == WithSlug(a) + WithSlug(b)
  {
    if a == [] {
      assert a + b == b;
    } else {
      assert (a + b)[0] == a[0];
      assert (a + b)[1..] == a[1..] + b;
      WithSlugAppend(a[1..], b);
    }
  }

  /**
   Once some release in `recent` carries a slug, older releases appended after
   it never change which release is selected.
   */
  lemma FirstSlugIgnoresOlder(recent: seq<Release>, older: seq<Release>)
    requires exists i :: 0 <= i < |recent| && HasSlug(recent[i])
    ensures WithSlug(recent) != [] && WithSlug(recent + older) != []
    ensures WithSlug(recent + older)[0] == WithSlug(recent)[0]
  {
    WithSlugHead(recent);
    WithSlugAppend(recent, older);
  }
}
