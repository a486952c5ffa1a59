/**
 * The tag reconciliation of recipe creation: for each name of the nested tag
 * list, in order, look up the requester's tag of that name or create it, and
 * add it to the new recipe's tag set. The functions here are the reference
 * for the loop in `Api.Database.CreateRecipe`; the lemmas say what one whole
 * pass does to the tag table and to the recipe's tag set.
 */
module TagReconciliation {
  import opened Domain
  import opened Querysets

  /** The tag table, the next id the table hands out, and the tag set built so far. */
  datatype TagState = TagState(tags: map<TagId, Tag>, next: TagId, linked: set<TagId>)

  /** Every id in use lies below the next id, so the next id is fresh. */
  predicate Bounded(s: TagState)
  {
    forall t | t in s.tags :: t < s.next
  }

  /** `user` owns a tag called `name`. */
  predicate Owns(tags: map<TagId, Tag>, user: UserId, name: string)
  {
    exists t | t in tags :: tags[t] == Tag(user, name)
  }

  /** At most one of `user`'s tags is called `name`: the look-up key of get-or-create is unique. */
  predicate Unambiguous(tags: map<TagId, Tag>, user: UserId, name: string)
  {
    forall t1, t2 | t1 in tags && t2 in tags && tags[t1] == Tag(user, name) && tags[t2] == Tag(user, name) :: t1 == t2
  }

  /** Every name of `names` is an unambiguous key for `user`. */
  predicate AllUnambiguous(tags: map<TagId, Tag>, user: UserId, names: seq<string>)
  {
    forall n | n in names :: Unambiguous(tags, user, n)
  }

  /** The distinct names of `names` that `user` has no tag for yet. */
  function Missing(tags: map<TagId, Tag>, user: UserId, names: seq<string>): set<string>
  {
    set n | n in names && !Owns(tags, user, n)
  }

  /** `user`'s tags whose name is one of `names`. */
  function Named(tags: map<TagId, Tag>, user: UserId, names: seq<string>): set<TagId>
  {
    set t | t in tags && tags[t].owner == user && tags[t].name in names
  }

  /** One get-or-create on the key (user, name), then set insertion into the recipe's tags. */
  ghost function GetOrCreate(s: TagState, user: UserId, name: string): TagState
    requires Bounded(s)
  {
    if Owns(s.tags, user, name) then
      var t :| t in s.tags && s.tags[t] == Tag(user, name);
      s.(linked := s.linked + {t})
    else
      TagState(s.tags[s.next := Tag(user, name)], s.next + 1, s.linked + {s.next})
  }

  /** Get-or-create on a key that matches exactly the row `t`: `t` is linked, the table stays. */
  lemma GetOrCreateFound(s: TagState, user: UserId, name: string, t: TagId)
    requires Bounded(s)
    requires t in s.tags && s.tags[t] == Tag(user, name)
    requires Unambiguous(s.tags, user, name)
    ensures GetOrCreate(s, user, name) == s.(linked := s.linked + {t})
  {
  }

  /** Get-or-create on a key that matches no row: a fresh row is inserted and linked. */
  lemma GetOrCreateMissing(s: TagState, user: UserId, name: string)
    requires Bounded(s)
    requires !Owns(s.tags, user, name)
    ensures GetOrCreate(s, user, name) == TagState(s.tags[s.next := Tag(user, name)], s.next + 1, s.linked + {s.next})
  {
  }

  /** The whole loop: get-or-create for each name in order. */
  ghost function Reconcile(s: TagState, user: UserId, names: seq<string>): (r: TagState)
    requires Bounded(s)
    ensures Bounded(r)
    decreases |names|
  {
    if names == [] then s
    else GetOrCreate(Reconcile(s, user, names[..|names| - 1]), user, names[|names| - 1])
  }

  /**
   * What the loop keeps: existing rows are never changed; every new row is
   * fresh, owned by `user` and named after a payload name; every tag added to
   * the recipe is one of `user`'s, named after a payload name.
   */
  lemma {:induction false} ReconcileKeeps(s: TagState, user: UserId, names: seq<string>)
    requires Bounded(s)
    ensures var r := Reconcile(s, user, names);
      && s.next <= r.next
      && (forall t | t in s.tags :: t in r.tags && r.tags[t] == s.tags[t])
      && (forall t | t in r.tags && t !in s.tags :: s.next <= t && r.tags[t].owner == user && r.tags[t].name in names)
      && s.linked <= r.linked
      && (forall t | t in r.linked && t !in s.linked :: t in r.tags && r.tags[t].owner == user && r.tags[t].name in names)
  {
    if names != [] {
      var prefix := names[..|names| - 1];
      ReconcileKeeps(s, user, prefix);
      assert forall n | n in prefix :: n in names;
    }
  }

  /** The loop after `i + 1` names is one get-or-create after the loop over `i` names. */
  lemma ReconcileStep(s: TagState, user: UserId, names: seq<string>, i: nat)
    requires Bounded(s) && i < |names|
    ensures Reconcile(s, user, names[..i + 1]) == GetOrCreate(Reconcile(s, user, names[..i]), user, names[i])
  {
    assert names[..i + 1][..i] == names[..i];
  }

  /** The recipe's tag set holds a tag of `user` called `n`. */
  predicate LinksName(st: TagState, user: UserId, n: string)
  {
    exists t | t in st.linked :: t in st.tags && st.tags[t] == Tag(user, n)
  }

  /** One get-or-create links its name and keeps every earlier link and row. */
  lemma GetOrCreateLinks(prev: TagState, user: UserId, x: string)
    requires Bounded(prev)
    ensures var r := GetOrCreate(prev, user, x);
      && LinksName(r, user, x)
      && prev.linked <= r.linked
      && (forall t | t in prev.tags :: t in r.tags && r.tags[t] == prev.tags[t])
      && (forall n | LinksName(prev, user, n) :: LinksName(r, user, n))
  {
    var r := GetOrCreate(prev, user, x);
    forall n | LinksName(prev, user, n) ensures LinksName(r, user, n) {
      var t :| t in prev.linked && t in prev.tags && prev.tags[t] == Tag(user, n);
      assert t in r.linked && r.tags[t] == Tag(user, n);
    }
    if !Owns(prev.tags, user, x) {
      assert prev.next in r.linked && r.tags[prev.next] == Tag(user, x);
    }
  }

  /** After the loop, every payload name is linked to the recipe by a tag of `user` with that name. */
  lemma {:induction false} LinksEveryName(s: TagState, user: UserId, names: seq<string>)
    requires Bounded(s)
    ensures forall n | n in names :: LinksName(Reconcile(s, user, names), user, n)
  {
    if names != [] {
      var prefix := names[..|names| - 1];
      var x := names[|names| - 1];
      assert names == prefix + [x];
      LinksEveryName(s, user, prefix);
      var prev := Reconcile(s, user, prefix);
      GetOrCreateLinks(prev, user, x);
    }
  }

  /** After the loop, `user` owns a tag called `n` exactly when it did before or `n` was in the payload. */
  lemma {:induction false} OwnsAfter(s: TagState, user: UserId, names: seq<string>, n: string)
    requires Bounded(s)
    ensures Owns(Reconcile(s, user, names).tags, user, n) <==> Owns(s.tags, user, n) || n in names
  {
    var r := Reconcile(s, user, names);
    ReconcileKeeps(s, user, names);
    if Owns(s.tags, user, n) {
      var t :| t in s.tags && s.tags[t] == Tag(user, n);
      assert r.tags[t] == Tag(user, n);
    } else if n in names {
      LinksEveryName(s, user, names);
      var t :| t in r.linked && t in r.tags && r.tags[t] == Tag(user, n);
    } else {
      forall t | t in r.tags ensures r.tags[t] != Tag(user, n) {
        if t in s.tags {
          assert r.tags[t] == s.tags[t];
        } else {
          assert r.tags[t].name in names;
        }
      }
    }
  }

  /** The loop never makes a name ambiguous: it creates a tag only for a name `user` does not own. */
  lemma {:induction false} UnambiguousAfter(s: TagState, user: UserId, names: seq<string>, n: string)
    requires Bounded(s)
    requires Unambiguous(s.tags, user, n)
    ensures Unambiguous(Reconcile(s, user, names).tags, user, n)
  {
    if names != [] {
      var prefix := names[..|names| - 1];
      var x := names[|names| - 1];
      UnambiguousAfter(s, user, prefix, n);
      var prev := Reconcile(s, user, prefix);
      var r := Reconcile(s, user, names);
      assert r == GetOrCreate(prev, user, x);
      if !Owns(prev.tags, user, x) && n == x {
        forall t1, t2 | t1 in r.tags && t2 in r.tags && r.tags[t1] == Tag(user, n) && r.tags[t2] == Tag(user, n)
          ensures t1 == t2
        {
          assert t1 == prev.next && t2 == prev.next;
        }
      }
    }
  }

  /**
   * When `user` already owns the one tag `t` with a payload name, the loop
   * links that tag and creates no row with its name.
   */
  lemma {:induction false} ReusesOwned(s: TagState, user: UserId, names: seq<string>, t: TagId)
    requires Bounded(s)
    requires t in s.tags && s.tags[t].owner == user && s.tags[t].name in names
    requires Unambiguous(s.tags, user, s.tags[t].name)
    ensures var r := Reconcile(s, user, names);
      && t in r.linked
      && forall t' | t' in r.tags && t' !in s.tags :: r.tags[t'].name != s.tags[t].name
  {
    var name := s.tags[t].name;
    var r := Reconcile(s, user, names);
    ReconcileKeeps(s, user, names);
    LinksEveryName(s, user, names);
    UnambiguousAfter(s, user, names, name);
    var t' :| t' in r.linked && t' in r.tags && r.tags[t'] == Tag(user, name);
    assert r.tags[t] == Tag(user, name);
    forall u | u in r.tags && u !in s.tags ensures r.tags[u].name != name {
      assert u != t && r.tags[u].owner == user;
    }
  }

  /** One creation adds one row for `user` and none for anyone else. */
  lemma OwnedAfterInsert(tags: map<TagId, Tag>, k: TagId, user: UserId, name: string, u: UserId)
    requires k !in tags
    ensures OwnedTags(tags[k := Tag(user, name)], u) == if u == user then OwnedTags(tags, u) + {k} else OwnedTags(tags, u)
  {
  }

  /**
   * `user`'s tag count grows by exactly the number of distinct payload names
   * `user` did not own; every other user's tags stay the same rows.
   */
  lemma {:induction false} CountsAfter(s: TagState, user: UserId, names: seq<string>, u: UserId)
    requires Bounded(s)
    ensures var r := Reconcile(s, user, names);
      && (u == user ==> |OwnedTags(r.tags, u)| == |OwnedTags(s.tags, u)| + |Missing(s.tags, user, names)|)
      && (u != user ==> OwnedTags(r.tags, u) == OwnedTags(s.tags, u))
  {
    var r := Reconcile(s, user, names);
    if names == [] {
      assert Missing(s.tags, user, names) == {};
    } else {
      var prefix := names[..|names| - 1];
      var x := names[|names| - 1];
      assert names == prefix + [x];
      CountsAfter(s, user, prefix, u);
      var prev := Reconcile(s, user, prefix);
      assert r == GetOrCreate(prev, user, x);
      OwnsAfter(s, user, prefix, x);
      if Owns(prev.tags, user, x) {
        assert Missing(s.tags, user, names) == Missing(s.tags, user, prefix);
      } else {
        assert prev.next !in prev.tags;
        OwnedAfterInsert(prev.tags, prev.next, user, x, u);
        assert Missing(s.tags, user, names) == Missing(s.tags, user, prefix) + {x};
        assert x !in Missing(s.tags, user, prefix);
      }
    }
  }

  /** The induction step of LinkedExactly: one more name extends the linked set by that name's tag. */
  lemma LinkedStep(prev: TagState, user: UserId, prefix: seq<string>, x: string)
    requires Bounded(prev)
    requires prev.linked == Named(prev.tags, user, prefix)
    requires Unambiguous(prev.tags, user, x)
    requires x in prefix ==> Owns(prev.tags, user, x)
    ensures var r := GetOrCreate(prev, user, x);
      && r.linked == Named(r.tags, user, prefix + [x])
      && |r.linked| == |prev.linked| + (if x in prefix then 0 else 1)
  {
    var r := GetOrCreate(prev, user, x);
    var names := prefix + [x];
    if Owns(prev.tags, user, x) {
      var t :| t in prev.tags && prev.tags[t] == Tag(user, x) && r.linked == prev.linked + {t};
      assert r.tags == prev.tags;
      assert Named(r.tags, user, names) == Named(prev.tags, user, prefix) + {t};
      if x in prefix {
        assert t in prev.linked;
      } else {
        assert t !in prev.linked;
      }
    } else {
      var k := prev.next;
      assert k !in prev.tags;
      assert Named(r.tags, user, names) == Named(prev.tags, user, prefix) + {k};
      assert k !in prev.linked;
    }
  }

  /** The distinct names of a payload list. */
  function Distinct(names: seq<string>): set<string>
  {
    set n | n in names
  }

  lemma DistinctSnoc(prefix: seq<string>, x: string)
    ensures Distinct(prefix + [x]) == Distinct(prefix) + {x}
    ensures |Distinct(prefix + [x])| == |Distinct(prefix)| + if x in prefix then 0 else 1
  {
    assert x in prefix <==> x in Distinct(prefix);
  }

  /**
   * Started from an empty tag set, the recipe ends up with exactly `user`'s
   * tags named in the payload, one per distinct name (`add` is set insertion).
   */
  lemma {:induction false} LinkedExactly(s: TagState, user: UserId, names: seq<string>)
    requires Bounded(s) && s.linked == {}
    requires AllUnambiguous(s.tags, user, names)
    ensures var r := Reconcile(s, user, names);
      && r.linked == Named(r.tags, user, names)
      && |r.linked| == |Distinct(names)|
  {
    if names == [] {
      assert Distinct(names) == {};
    } else {
      var prefix := names[..|names| - 1];
      var x := names[|names| - 1];
      assert names == prefix + [x];
      assert AllUnambiguous(s.tags, user, prefix) by {
        forall n | n in prefix ensures Unambiguous(s.tags, user, n) {
          assert n in names;
        }
      }
      LinkedExactly(s, user, prefix);
      var prev := Reconcile(s, user, prefix);
      UnambiguousAfter(s, user, prefix, x);
      OwnsAfter(s, user, prefix, x);
      LinkedStep(prev, user, prefix, x);
      DistinctSnoc(prefix, x);
    }
  }

  /** The loop over two names is two get-or-creates in a row. */
  lemma ReconcilePair(s: TagState, user: UserId, a: string, b: string)
    requires Bounded(s)
    ensures Bounded(GetOrCreate(s, user, a))
    ensures Reconcile(s, user, [a, b]) == GetOrCreate(GetOrCreate(s, user, a), user, b)
  {
    assert [a, b][..1] == [a] && [a][..0] == [];
    assert Reconcile(s, user, [a]) == GetOrCreate(s, user, a);
  }

  /** Two fresh rows of `user` add two to `user`'s tag count. */
  lemma TwoInsertsCount(tags: map<TagId, Tag>, k: TagId, user: UserId, a: string, b: string)
    requires k !in tags && k + 1 !in tags
    ensures |OwnedTags(tags[k := Tag(user, a)][k + 1 := Tag(user, b)], user)| == |OwnedTags(tags, user)| + 2
  {
    var t1 := tags[k := Tag(user, a)];
    OwnedAfterInsert(tags, k, user, a, user);
    OwnedAfterInsert(t1, k + 1, user, b, user);
    assert k !in OwnedTags(tags, user) && k + 1 !in OwnedTags(t1, user);
  }

  /** Two get-or-creates on names `user` does not own insert two fresh rows and link both. */
  lemma TwoInserts(s: TagState, user: UserId, a: string, b: string)
    requires Bounded(s) && s.linked == {}
    requires a != b && !Owns(s.tags, user, a) && !Owns(s.tags, user, b)
    ensures var r := GetOrCreate(GetOrCreate(s, user, a), user, b);
      && r.linked == {s.next, s.next + 1}
      && |r.linked| == 2
      && |OwnedTags(r.tags, user)| == |OwnedTags(s.tags, user)| + 2
  {
    var s1 := GetOrCreate(s, user, a);
    GetOrCreateMissing(s, user, a);
    assert !Owns(s1.tags, user, b) by {
      forall t | t in s1.tags ensures s1.tags[t] != Tag(user, b) {
        if t in s.tags {
          assert s1.tags[t] == s.tags[t];
        }
      }
    }
    GetOrCreateMissing(s1, user, b);
    TwoInsertsCount(s.tags, s.next, user, a, b);
    assert |{s.next, s.next + 1}| == 2;
  }

  /** A name `user` owns no tag of is an unambiguous key. */
  lemma NotOwnedUnambiguous(tags: map<TagId, Tag>, user: UserId, name: string)
    requires !Owns(tags, user, name)
    ensures Unambiguous(tags, user, name)
  {
  }

  /** The two-name example: two distinct names `user` does not own give two new rows and two linked tags. */
  lemma TwoNewNames(s: TagState, user: UserId, a: string, b: string)
    requires Bounded(s) && s.linked == {}
    requires a != b && !Owns(s.tags, user, a) && !Owns(s.tags, user, b)
    ensures AllUnambiguous(s.tags, user, [a, b])
    ensures var r := Reconcile(s, user, [a, b]);
      && |r.linked| == 2
      && |OwnedTags(r.tags, user)| == |OwnedTags(s.tags, user)| + 2
  {
    NotOwnedUnambiguous(s.tags, user, a);
    NotOwnedUnambiguous(s.tags, user, b);
    ReconcilePair(s, user, a, b);
    TwoInserts(s, user, a, b);
  }
}
