// Rows owned by users: grouping them by user, and sums over users.

module Grouping {
  import opened Sequences

  type UserId = nat

  datatype Owned<+T> = Owned(user: UserId, value: T)

  // The rows of one user, in the order of the list.
  function Of<T>(rows: seq<Owned<T>>, user: UserId): seq<T> {
    if rows == [] then []
    else
      var last := rows[|rows| - 1];
      Of(rows[..|rows| - 1], user) + if last.user == user then [last.value] else []
  }

  function Owners<T>(rows: seq<Owned<T>>): set<UserId> {
    set i | 0 <= i < |rows| :: rows[i].user
  }

  function Get<T>(groups: map<UserId, seq<T>>, user: UserId): seq<T> {
    if user in groups then groups[user] else []
  }

  // The dictionary of lists that the report fills row by row.
  method GroupByUser<T>(rows: seq<Owned<T>>) returns (groups: map<UserId, seq<T>>)
    ensures groups.Keys == Owners(rows)
    ensures forall u :: Get(groups, u) == Of(rows, u)
  {
    groups := map[];
    for i := 0 to |rows|
      invariant groups.Keys == Owners(rows[..i])
      invariant forall u :: Get(groups, u) == Of(rows[..i], u)
    {
      assert rows[..i + 1][..i] == rows[..i];
      assert Owners(rows[..i + 1]) == Owners(rows[..i]) + {rows[i].user};
      groups := groups[rows[i].user := Get(groups, rows[i].user) + [rows[i].value]];
    }
    assert rows[..|rows|] == rows;
  }

  // A way of adding: `zero` and `add`.
  datatype Sum<!M> = Sum(zero: M, add: (M, M) -> M)

  predicate Laws<M(==)>(s: Sum<M>, a: M, b: M, c: M) {
    && s.add(a, s.zero) == a
    && s.add(s.add(a, b), c) == s.add(s.add(a, c), b)
    && s.add(s.add(a, b), c) == s.add(a, s.add(b, c))
  }

  ghost predicate Lawful<M(!new)>(s: Sum<M>) {
    forall a, b, c :: Laws(s, a, b, c)
  }

  function Fold<T, M>(xs: seq<T>, weight: T -> M, s: Sum<M>): M {
    if xs == [] then s.zero else s.add(Fold(xs[..|xs| - 1], weight, s), weight(xs[|xs| - 1]))
  }

  lemma {:induction false} FoldAppend<T, M>(xs: seq<T>, x: T, weight: T -> M, s: Sum<M>)
    ensures Fold(xs + [x], weight, s) == s.add(Fold(xs, weight, s), weight(x))
  {
    assert (xs + [x])[..|xs|] == xs;
  }

  lemma {:induction false} FoldConcat<T, M(!new)>(a: seq<T>, b: seq<T>, weight: T -> M, s: Sum<M>)
    requires Lawful(s)
    ensures Fold(a + b, weight, s) == s.add(Fold(a, weight, s), Fold(b, weight, s))
    decreases |b|
  {
    if b == [] {
      assert a + b == a;
      assert Laws(s, Fold(a, weight, s), s.zero, s.zero);
    } else {
      var front, last := b[..|b| - 1], b[|b| - 1];
      FoldConcat(a, front, weight, s);
      assert (a + b)[..|a + b| - 1] == a + front;
      assert Laws(s, Fold(a, weight, s), Fold(front, weight, s), weight(last));
    }
  }

  // Adding `x` at one key adds `x` to the sum over distinct keys, if the key is among them.
  lemma {:induction false} FoldBump<K(!new), M(!new)>(keys: seq<K>, was: K -> M, now: K -> M, k: K, x: M, s: Sum<M>)
    requires Lawful(s) && Distinct(keys)
    requires now(k) == s.add(was(k), x) && forall c :: c != k ==> now(c) == was(c)
    ensures Fold(keys, now, s) == if k in keys then s.add(Fold(keys, was, s), x) else Fold(keys, was, s)
    decreases |keys|
  {
    if keys != [] {
      var front, c := keys[..|keys| - 1], keys[|keys| - 1];
      assert keys == front + [c];
      FoldBump(front, was, now, k, x, s);
      assert Laws(s, Fold(front, was, s), was(c), x);
      assert Laws(s, Fold(front, was, s), x, was(c));
    }
  }

  lemma {:induction false} FoldSame<K(!new), M>(keys: seq<K>, was: K -> M, now: K -> M, s: Sum<M>)
    requires forall c :: c in keys ==> now(c) == was(c)
    ensures Fold(keys, now, s) == Fold(keys, was, s)
    decreases |keys|
  {
    if keys != [] {
      var front := keys[..|keys| - 1];
      assert keys == front + [keys[|keys| - 1]];
      FoldSame(front, was, now, s);
    }
  }

  lemma {:induction false} FoldZero<K(!new), M>(keys: seq<K>, f: K -> M, s: Sum<M>)
    requires Laws(s, s.zero, s.zero, s.zero) && forall c :: c in keys ==> f(c) == s.zero
    ensures Fold(keys, f, s) == s.zero
    decreases |keys|
  {
    if keys != [] {
      var front := keys[..|keys| - 1];
      assert keys == front + [keys[|keys| - 1]];
      FoldZero(front, f, s);
    }
  }

  // The weight of the rows with one key.
  function Keyed<T, K(==), M>(keyOf: T -> K, weight: T -> M, s: Sum<M>, k: K): T -> M {
    (r: T) => if keyOf(r) == k then weight(r) else s.zero
  }

  function PerKey<T, K(==), M>(rows: seq<T>, keyOf: T -> K, weight: T -> M, s: Sum<M>): K -> M {
    (k: K) => Fold(rows, Keyed(keyOf, weight, s, k), s)
  }

  lemma {:induction false} PerKeyAppend<T, K(!new), M(!new)>(rows: seq<T>, r: T, keyOf: T -> K, weight: T -> M,
      s: Sum<M>, k: K)
    requires Lawful(s)
    ensures PerKey(rows + [r], keyOf, weight, s)(k)
         == if k == keyOf(r) then s.add(PerKey(rows, keyOf, weight, s)(k), weight(r))
             else PerKey(rows, keyOf, weight, s)(k)
  {
    FoldAppend(rows, r, Keyed(keyOf, weight, s, k), s);
    assert Laws(s, PerKey(rows, keyOf, weight, s)(k), s.zero, s.zero);
  }

  lemma {:induction false} PerKeyAbsent<T(!new), K(!new), M>(rows: seq<T>, keyOf: T -> K, weight: T -> M, s: Sum<M>,
      k: K)
    requires Laws(s, s.zero, s.zero, s.zero) && forall r :: r in rows ==> keyOf(r) != k
    ensures PerKey(rows, keyOf, weight, s)(k) == s.zero
  {
    FoldZero(rows, Keyed(keyOf, weight, s, k), s);
  }

  // Summing the keys' sums gives the sum of all rows.
  lemma {:induction false} SumOverKeys<T(!new), K(!new), M(!new)>(rows: seq<T>, keys: seq<K>, keyOf: T -> K,
      weight: T -> M, s: Sum<M>)
    requires Lawful(s) && Distinct(keys) && forall r :: r in rows ==> keyOf(r) in keys
    ensures Fold(keys, PerKey(rows, keyOf, weight, s), s) == Fold(rows, weight, s)
    decreases |rows|
  {
    if rows == [] {
      assert Laws(s, s.zero, s.zero, s.zero);
      FoldZero(keys, PerKey(rows, keyOf, weight, s), s);
    } else {
      var front, last := rows[..|rows| - 1], rows[|rows| - 1];
      assert rows == front + [last];
      SumOverKeys(front, keys, keyOf, weight, s);
      forall k
        ensures PerKey(rows, keyOf, weight, s)(k) == if k == keyOf(last)
          then s.add(PerKey(front, keyOf, weight, s)(k), weight(last)) else PerKey(front, keyOf, weight, s)(k)
      {
        PerKeyAppend(front, last, keyOf, weight, s, k);
      }
      FoldBump(keys, PerKey(front, keyOf, weight, s), PerKey(rows, keyOf, weight, s), keyOf(last), weight(last), s);
    }
  }

  function Held<T, M>(weight: Owned<T> -> M, u: UserId): T -> M {
    (v: T) => weight(Owned(u, v))
  }

  // What the rows of one user weigh together.
  function PerUser<T, M>(rows: seq<Owned<T>>, weight: Owned<T> -> M, s: Sum<M>): UserId -> M {
    (u: UserId) => Fold(Of(rows, u), Held(weight, u), s)
  }

  lemma {:induction false} PerUserAppend<T, M(!new)>(rows: seq<Owned<T>>, r: Owned<T>, weight: Owned<T> -> M,
      s: Sum<M>, u: UserId)
    ensures PerUser(rows + [r], weight, s)(u)
         == if u == r.user then s.add(PerUser(rows, weight, s)(u), weight(r)) else PerUser(rows, weight, s)(u)
  {
    assert (rows + [r])[..|rows|] == rows;
    if u == r.user {
      FoldAppend(Of(rows, u), r.value, Held(weight, u), s);
    } else {
      assert Of(rows + [r], u) == Of(rows, u);
    }
  }

  // Summing the users' sums gives the sum of all rows, whatever the order of the users.
  lemma {:induction false} SumOverUsers<T, M(!new)>(rows: seq<Owned<T>>, users: seq<UserId>, weight: Owned<T> -> M,
      s: Sum<M>)
    requires Lawful(s) && Distinct(users) && forall i :: 0 <= i < |rows| ==> rows[i].user in users
    ensures Fold(users, PerUser(rows, weight, s), s) == Fold(rows, weight, s)
    decreases |rows|
  {
    if rows == [] {
      assert Laws(s, s.zero, s.zero, s.zero);
      FoldZero(users, PerUser(rows, weight, s), s);
    } else {
      var front, last := rows[..|rows| - 1], rows[|rows| - 1];
      assert rows == front + [last];
      SumOverUsers(front, users, weight, s);
      forall u
        ensures PerUser(rows, weight, s)(u)
             == if u == last.user then s.add(PerUser(front, weight, s)(u), weight(last))
                 else PerUser(front, weight, s)(u)
      {
        PerUserAppend(front, last, weight, s, u);
      }
      FoldBump(users, PerUser(front, weight, s), PerUser(rows, weight, s), last.user, weight(last), s);
    }
  }

  // ----- Lists of lists ------------------------------------------------------------------

  function Flatten<T>(parts: seq<seq<T>>): seq<T> {
    if parts == [] then [] else Flatten(parts[..|parts| - 1]) + parts[|parts| - 1]
  }

  function Plain<T>(rows: seq<Owned<T>>): (r: seq<T>)
    ensures |r| == |rows| && forall i :: 0 <= i < |r| ==> r[i] == rows[i].value
  {
    if rows == [] then [] else Plain(rows[..|rows| - 1]) + [rows[|rows| - 1].value]
  }

  // Lists that weigh the same place by place sum to the same.
  lemma {:induction false} FoldMatch<A, B, M>(xs: seq<A>, f: A -> M, ys: seq<B>, g: B -> M, s: Sum<M>)
    requires |xs| == |ys| && forall i :: 0 <= i < |xs| ==> f(xs[i]) == g(ys[i])
    ensures Fold(xs, f, s) == Fold(ys, g, s)
    decreases |xs|
  {
    if xs != [] {
      FoldMatch(xs[..|xs| - 1], f, ys[..|ys| - 1], g, s);
    }
  }

  // What each list of a list of lists weighs.
  function Each<T, M>(weight: T -> M, s: Sum<M>): seq<T> -> M {
    (p: seq<T>) => Fold(p, weight, s)
  }

  lemma {:induction false} FoldFlatten<T, M(!new)>(parts: seq<seq<T>>, weight: T -> M, s: Sum<M>)
    requires Lawful(s)
    ensures Fold(Flatten(parts), weight, s) == Fold(parts, Each(weight, s), s)
    decreases |parts|
  {
    if parts != [] {
      FoldFlatten(parts[..|parts| - 1], weight, s);
      FoldConcat(Flatten(parts[..|parts| - 1]), parts[|parts| - 1], weight, s);
    }
  }

  // `parts` are the rows of the users, user by user.
  predicate PartsOf<T(==)>(parts: seq<seq<T>>, rows: seq<Owned<T>>, users: seq<UserId>) {
    && |parts| == |users|
    && forall i :: 0 <= i < |parts| ==> parts[i] == Of(rows, users[i])
  }

  lemma {:induction false} SumByUser<T, M(!new)>(parts: seq<seq<T>>, rows: seq<Owned<T>>, users: seq<UserId>,
      weight: T -> M, s: Sum<M>)
    requires Lawful(s) && Distinct(users) && PartsOf(parts, rows, users)
    requires forall i :: 0 <= i < |rows| ==> rows[i].user in users
    ensures Fold(parts, Each(weight, s), s) == Fold(Plain(rows), weight, s)
    ensures Fold(Flatten(parts), weight, s) == Fold(Plain(rows), weight, s)
  {
    var owned := (o: Owned<T>) => weight(o.value);
    FoldFlatten(parts, weight, s);
    forall i | 0 <= i < |users| ensures Fold(parts[i], weight, s) == PerUser(rows, owned, s)(users[i]) {
      FoldMatch(parts[i], weight, Of(rows, users[i]), Held(owned, users[i]), s);
    }
    FoldMatch(parts, Each(weight, s), users, PerUser(rows, owned, s), s);
    SumOverUsers(rows, users, owned, s);
    FoldMatch(rows, owned, Plain(rows), weight, s);
  }

  lemma {:induction false} OfMember<T(!new)>(rows: seq<Owned<T>>, u: UserId, x: T)
    ensures x in Of(rows, u) <==> exists i :: 0 <= i < |rows| && rows[i] == Owned(u, x)
    decreases |rows|
  {
    if rows != [] {
      var front, last := rows[..|rows| - 1], rows[|rows| - 1];
      OfMember(front, u, x);
      assert rows == front + [last];
      if i :| 0 <= i < |rows| && rows[i] == Owned(u, x) {
        if i < |front| {
          assert front[i] == Owned(u, x);
        }
      }
      if i :| 0 <= i < |front| && front[i] == Owned(u, x) {
        assert rows[i] == Owned(u, x);
      }
      assert last == Owned(u, x) ==> rows[|rows| - 1] == Owned(u, x);
    }
  }

  lemma {:induction false} FlattenMember<T(!new)>(parts: seq<seq<T>>, x: T)
    ensures x in Flatten(parts) <==> exists i :: 0 <= i < |parts| && x in parts[i]
    decreases |parts|
  {
    if parts != [] {
      var front, last := parts[..|parts| - 1], parts[|parts| - 1];
      FlattenMember(front, x);
      assert parts == front + [last];
      if i :| 0 <= i < |front| && x in front[i] {
        assert x in parts[i];
      }
      if i :| 0 <= i < |parts| && x in parts[i] {
        if i < |front| {
          assert x in front[i];
        }
      }
      assert x in last ==> x in parts[|parts| - 1];
    }
  }

  lemma {:induction false} FlattenKeepsMembers<T(!new)>(parts: seq<seq<T>>, rows: seq<Owned<T>>, users: seq<UserId>,
      x: T)
    requires PartsOf(parts, rows, users) && forall i :: 0 <= i < |rows| ==> rows[i].user in users
    ensures x in Flatten(parts) <==> x in Plain(rows)
  {
    FlattenMember(parts, x);
    if x in Flatten(parts) {
      var i :| 0 <= i < |parts| && x in parts[i];
      OfMember(rows, users[i], x);
      var j :| 0 <= j < |rows| && rows[j] == Owned(users[i], x);
      assert Plain(rows)[j] == x;
    }
    if x in Plain(rows) {
      var j :| 0 <= j < |rows| && Plain(rows)[j] == x;
      var i :| 0 <= i < |users| && users[i] == rows[j].user;
      assert rows[j] == Owned(users[i], x);
      OfMember(rows, users[i], x);
      assert x in parts[i];
    }
  }
}
