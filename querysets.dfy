/**
 * The querysets of the two viewsets: every list, detail, update and delete
 * starts from the rows the requesting user owns, in a fixed order — recipes
 * by descending id, tags by descending name.
 */
module Querysets {
  import opened Domain

  /** The filter `user == requester` on the recipe table. */
  function OwnedRecipes(recipes: map<RecipeId, Recipe>, user: UserId): set<RecipeId>
  {
    set id | id in recipes && recipes[id].owner == user
  }

  /** The filter `user == requester` on the tag table. */
  function OwnedTags(tags: map<TagId, Tag>, user: UserId): set<TagId>
  {
    set id | id in tags && tags[id].owner == user
  }

  /** Putting an element above every element of a strictly decreasing sequence in front keeps it strictly decreasing. */
  lemma ConsDecreasing(h: nat, s: seq<nat>)
    requires forall x | x in s :: x < h
    requires forall i, j :: 0 <= i < j < |s| ==> s[i] > s[j]
    ensures forall i, j :: 0 <= i < j < |[h] + s| ==> ([h] + s)[i] > ([h] + s)[j]
  {
    var r := [h] + s;
    forall i, j | 0 <= i < j < |r| ensures r[i] > r[j] {
      assert r[j] == s[j - 1];
      if i > 0 {
        assert r[i] == s[i - 1];
      } else {
        assert s[j - 1] in s;
      }
    }
  }

  /** The members of `ids` below `bound`, largest first. */
  function Descending(bound: nat, ids: set<nat>): (r: seq<nat>)
    ensures forall x :: x in r <==> x in ids && x < bound
    ensures forall i, j :: 0 <= i < j < |r| ==> r[i] > r[j]
    decreases bound
  {
    if bound == 0 then []
    else
      var rest := Descending(bound - 1, ids);
      if bound - 1 in ids then
        ConsDecreasing(bound - 1, rest);
        [bound - 1] + rest
      else rest
  }

  /** A strictly decreasing sequence holds each of its elements once. */
  lemma {:induction false} DecreasingOnce(r: seq<nat>)
    requires forall i, j :: 0 <= i < j < |r| ==> r[i] > r[j]
    ensures forall x :: multiset(r)[x] == if x in r then 1 else 0
  {
    if r != [] {
      var rest := r[1..];
      assert forall i, j :: 0 <= i < j < |rest| ==> rest[i] > rest[j] by {
        forall i, j | 0 <= i < j < |rest| ensures rest[i] > rest[j] {
          assert rest[i] == r[i + 1] && rest[j] == r[j + 1];
        }
      }
      DecreasingOnce(rest);
      assert r == [r[0]] + rest;
      assert r[0] !in rest by {
        forall j | 0 <= j < |rest| ensures rest[j] != r[0] {
          assert rest[j] == r[j + 1];
        }
      }
      assert multiset(r) == multiset{r[0]} + multiset(rest);
    }
  }

  /**
   * The recipe queryset: exactly the requester's recipes, in strictly
   * descending id order (so each once). `bound` is any number above every id.
   */
  function RecipeQueryset(recipes: map<RecipeId, Recipe>, user: UserId, bound: nat): (q: seq<RecipeId>)
    requires forall id | id in recipes :: id < bound
    ensures forall id :: id in q <==> id in recipes && recipes[id].owner == user
    ensures forall i, j :: 0 <= i < j < |q| ==> q[i] > q[j]
  {
    Descending(bound, OwnedRecipes(recipes, user))
  }

  // ------------------------------------------------------------- name order

  /** `a` sorts at or before `b`: code-point lexicographic order, a prefix first. */
  predicate StrLeq(a: string, b: string)
  {
    if a == [] then true
    else if b == [] then false
    else if a[0] != b[0] then a[0] < b[0]
    else StrLeq(a[1..], b[1..])
  }

  lemma {:induction false} StrLeqTotal(a: string, b: string)
    ensures StrLeq(a, b) || StrLeq(b, a)
  {
    if a != [] && b != [] && a[0] == b[0] {
      StrLeqTotal(a[1..], b[1..]);
    }
  }

  lemma {:induction false} StrLeqTrans(a: string, b: string, c: string)
    requires StrLeq(a, b) && StrLeq(b, c)
    ensures StrLeq(a, c)
  {
    if a != [] && b != [] && c != [] && a[0] == b[0] && b[0] == c[0] {
      StrLeqTrans(a[1..], b[1..], c[1..]);
    }
  }

  lemma {:induction false} StrLeqAntisymmetric(a: string, b: string)
    requires StrLeq(a, b) && StrLeq(b, a)
    ensures a == b
  {
    if a != [] && b != [] {
      StrLeqAntisymmetric(a[1..], b[1..]);
      assert a == [a[0]] + a[1..] && b == [b[0]] + b[1..];
    }
  }

  /** The names along `s` never increase: the order `-name`. */
  predicate NamesDescending(tags: map<TagId, Tag>, s: seq<TagId>)
    requires forall t | t in s :: t in tags
  {
    forall i, j :: 0 <= i < j < |s| ==> StrLeq(tags[s[j]].name, tags[s[i]].name)
  }

  lemma HeadBoundsAll(tags: map<TagId, Tag>, s: seq<TagId>, x: TagId)
    requires x in tags && forall t | t in s :: t in tags
    requires NamesDescending(tags, s)
    requires s != [] && StrLeq(tags[s[0]].name, tags[x].name)
    ensures forall j :: 0 <= j < |s| ==> StrLeq(tags[s[j]].name, tags[x].name)
  {
    forall j | 0 < j < |s| ensures StrLeq(tags[s[j]].name, tags[x].name) {
      StrLeqTrans(tags[s[j]].name, tags[s[0]].name, tags[x].name);
    }
  }

  /** Putting a tag whose name bounds every name of a sorted sequence in front keeps it sorted. */
  lemma ConsSorted(tags: map<TagId, Tag>, h: TagId, s: seq<TagId>)
    requires h in tags && forall t | t in s :: t in tags
    requires NamesDescending(tags, s)
    requires forall t | t in s :: StrLeq(tags[t].name, tags[h].name)
    ensures forall t | t in [h] + s :: t in tags
    ensures NamesDescending(tags, [h] + s)
  {
    var r := [h] + s;
    forall i, j | 0 <= i < j < |r| ensures StrLeq(tags[r[j]].name, tags[r[i]].name) {
      if i > 0 {
        assert r[i] == s[i - 1] && r[j] == s[j - 1];
      } else {
        assert r[j] == s[j - 1] && s[j - 1] in s;
      }
    }
  }

  /** Inserts `x` into `s` before the first tag whose name is not greater than its own. */
  function InsertByName(tags: map<TagId, Tag>, x: TagId, s: seq<TagId>): (r: seq<TagId>)
    requires x in tags && forall t | t in s :: t in tags
    requires NamesDescending(tags, s)
    ensures multiset(r) == multiset(s) + multiset{x}
    ensures forall t | t in r :: t in tags
    ensures NamesDescending(tags, r)
    decreases |s|
  {
    if s == [] then [x]
    else if StrLeq(tags[s[0]].name, tags[x].name) then
      HeadBoundsAll(tags, s, x);
      ConsSorted(tags, x, s);
      [x] + s
    else
      StrLeqTotal(tags[s[0]].name, tags[x].name);
      var rest := InsertByName(tags, x, s[1..]);
      assert s == [s[0]] + s[1..];
      BoundedByHead(tags, x, s, rest);
      ConsSorted(tags, s[0], rest);
      assert multiset([s[0]] + rest) == multiset{s[0]} + multiset(s[1..]) + multiset{x};
      [s[0]] + rest
  }

  /** Helper for the last case of InsertByName: every tag of the insertion into the tail sorts below the head. */
  lemma BoundedByHead(tags: map<TagId, Tag>, x: TagId, s: seq<TagId>, rest: seq<TagId>)
    requires x in tags && forall t | t in s :: t in tags
    requires s != [] && NamesDescending(tags, s)
    requires StrLeq(tags[x].name, tags[s[0]].name)
    requires multiset(rest) == multiset(s[1..]) + multiset{x}
    requires forall t | t in rest :: t in tags
    ensures forall t | t in rest :: StrLeq(tags[t].name, tags[s[0]].name)
  {
    forall t | t in rest ensures StrLeq(tags[t].name, tags[s[0]].name) {
      assert multiset(rest)[t] > 0;
      if t != x {
        assert t in multiset(s[1..]);
        var j :| 0 <= j < |s[1..]| && s[1..][j] == t;
        assert s[j + 1] == t;
      }
    }
  }

  /** Insertion sort by descending name; equal names keep their input order. */
  function SortByName(tags: map<TagId, Tag>, s: seq<TagId>): (r: seq<TagId>)
    requires forall t | t in s :: t in tags
    ensures multiset(r) == multiset(s)
    ensures forall t | t in r :: t in tags
    ensures NamesDescending(tags, r)
    decreases |s|
  {
    if s == [] then []
    else
      assert s == [s[0]] + s[1..];
      InsertByName(tags, s[0], SortByName(tags, s[1..]))
  }

  /**
   * The tag queryset: each of the requester's tags exactly once, no other
   * tag, in descending name order (ties in descending id order).
   */
  function TagQueryset(tags: map<TagId, Tag>, user: UserId, bound: nat): (q: seq<TagId>)
    requires forall id | id in tags :: id < bound
    ensures forall id :: multiset(q)[id] == if id in tags && tags[id].owner == user then 1 else 0
    ensures forall id :: id in q <==> id in tags && tags[id].owner == user
    ensures forall t | t in q :: t in tags
    ensures NamesDescending(tags, q)
  {
    var ids := Descending(bound, OwnedTags(tags, user));
    DecreasingOnce(ids);
    SortByName(tags, ids)
  }

  /** An element at two positions occurs at least twice. */
  lemma TwiceCounted(q: seq<TagId>, i: nat, j: nat)
    requires i < j < |q| && q[i] == q[j]
    ensures multiset(q)[q[i]] >= 2
  {
    assert q == q[..j] + q[j..];
    assert q[i] in q[..j] && q[j] in q[j..];
    assert multiset(q)[q[i]] == multiset(q[..j])[q[i]] + multiset(q[j..])[q[i]];
  }

  /** A sequence that holds each element at most once has no repeated position. */
  lemma AtMostOnceDistinct(q: seq<TagId>)
    requires forall x :: multiset(q)[x] <= 1
    ensures forall i, j | 0 <= i < j < |q| :: q[i] != q[j]
  {
    forall i, j | 0 <= i < j < |q| ensures q[i] != q[j] {
      if q[i] == q[j] {
        TwiceCounted(q, i, j);
        assert false;
      }
    }
  }

  /** Two users' querysets never share a row. */
  lemma {:induction false} QuerysetsIsolated(recipes: map<RecipeId, Recipe>, tags: map<TagId, Tag>,
                                             u1: UserId, u2: UserId, rb: nat, tb: nat)
    requires u1 != u2
    requires forall id | id in recipes :: id < rb
    requires forall id | id in tags :: id < tb
    ensures forall id | id in RecipeQueryset(recipes, u1, rb) :: id !in RecipeQueryset(recipes, u2, rb)
    ensures forall id | id in TagQueryset(tags, u1, tb) :: id !in TagQueryset(tags, u2, tb)
  {
  }
}
