/**
 * The hubs keep their live clients in an array and drop one with
 * `indexOf` followed by `splice(index, 1)`. This module gives that idiom a
 * specification and proves what it does to a list without repeated entries.
 */
module Membership {

  /** No element occurs twice. */
  ghost predicate NoDup<T>(s: seq<T>)
  {
    forall i, j :: 0 <= i < j < |s| ==> s[i] != s[j]
  }

  /** Appending an element not yet present keeps a list free of repeats. */
  lemma NoDupAppend<T>(s: seq<T>, x: T)
    requires NoDup(s) && x !in s
    ensures NoDup(s + [x])
  {
    var t := s + [x];
    forall i, j | 0 <= i < j < |t| ensures t[i] != t[j] {
      if j == |s| { assert t[i] == s[i]; }
    }
  }

  /** `s.indexOf(x)`: the first position of `x`, or -1. */
  method IndexOf<T(==)>(s: seq<T>, x: T) returns (i: int)
    ensures -1 <= i < |s|
    ensures i == -1 <==> x !in s
    ensures 0 <= i ==> s[i] == x && x !in s[..i]
  {
    i := 0;
    while i < |s|
      invariant 0 <= i <= |s|
      invariant x !in s[..i]
    {
      if s[i] == x {
        return;
      }
      assert s[..i + 1] == s[..i] + [s[i]];
      i := i + 1;
    }
    assert s[..i] == s;
    i := -1;
  }

  /** The list after its first `x`, if any, is spliced out. */
  function RemoveFirst<T(==)>(s: seq<T>, x: T): seq<T>
  {
    if s == [] then []
    else if s[0] == x then s[1..]
    else [s[0]] + RemoveFirst(s[1..], x)
  }

  /** Splicing at the position `indexOf` found is `RemoveFirst`. */
  lemma {:induction false} RemoveFirstAt<T>(s: seq<T>, x: T, i: nat)
    requires i < |s| && s[i] == x && x !in s[..i]
    ensures RemoveFirst(s, x) == s[..i] + s[i + 1..]
  {
    if i > 0 {
      assert s[0] in s[..i];
      assert s[1..][..i - 1] == s[1..i];
      RemoveFirstAt(s[1..], x, i - 1);
      assert s[..i] == [s[0]] + s[1..][..i - 1];
    }
  }

  /** Removing an absent element changes nothing. */
  lemma {:induction false} RemoveFirstAbsent<T>(s: seq<T>, x: T)
    requires x !in s
    ensures RemoveFirst(s, x) == s
  {
    if s != [] {
      RemoveFirstAbsent(s[1..], x);
    }
  }

  /** Cutting one position out of a list of distinct elements keeps them distinct. */
  lemma CutNoDup<T>(s: seq<T>, i: nat)
    requires NoDup(s) && i < |s|
    ensures NoDup(s[..i] + s[i + 1..])
  {
    var r := s[..i] + s[i + 1..];
    forall j, k | 0 <= j < k < |r| ensures r[j] != r[k] {
      var j' := if j < i then j else j + 1;
      var k' := if k < i then k else k + 1;
      assert r[j] == s[j'] && r[k] == s[k'];
    }
  }

  /** Cutting position `i` out of a list of distinct elements loses exactly `s[i]`. */
  lemma CutMembers<T>(s: seq<T>, i: nat)
    requires NoDup(s) && i < |s|
    ensures forall y :: y in s[..i] + s[i + 1..] <==> y in s && y != s[i]
  {
    var r := s[..i] + s[i + 1..];
    forall y ensures y in r <==> y in s && y != s[i] {
      if y in r {
        var j :| 0 <= j < |r| && r[j] == y;
        var j' := if j < i then j else j + 1;
        assert r[j] == s[j'] && j' != i;
      }
      if y in s && y != s[i] {
        var j :| 0 <= j < |s| && s[j] == y;
        if j < i { assert r[j] == y; } else { assert r[j - 1] == y; }
      }
    }
  }

  /**
   * On distinct elements, removing `x` leaves them distinct, drops `x` and only `x`,
   * and the remaining elements keep their order (the result is the list with one
   * position cut out).
   */
  lemma {:induction false} RemoveFirstMembers<T>(s: seq<T>, x: T)
    requires NoDup(s)
    ensures NoDup(RemoveFirst(s, x))
    ensures forall y :: y in RemoveFirst(s, x) <==> y in s && y != x
    ensures |RemoveFirst(s, x)| == if x in s then |s| - 1 else |s|
    ensures x in s ==> exists i :: 0 <= i < |s| && s[i] == x && RemoveFirst(s, x) == s[..i] + s[i + 1..]
  {
    if x in s {
      var i :| 0 <= i < |s| && s[i] == x;
      assert x !in s[..i] by {
        forall j | 0 <= j < i ensures s[..i][j] != x { assert s[j] != s[i]; }
      }
      RemoveFirstAt(s, x, i);
      CutNoDup(s, i);
      CutMembers(s, i);
    } else {
      RemoveFirstAbsent(s, x);
    }
  }

  /** A second removal of the same element is a no-op. */
  lemma RemoveFirstIdempotent<T>(s: seq<T>, x: T)
    requires NoDup(s)
    ensures RemoveFirst(RemoveFirst(s, x), x) == RemoveFirst(s, x)
  {
    RemoveFirstMembers(s, x);
    RemoveFirstAbsent(RemoveFirst(s, x), x);
  }

  /** `const i = s.indexOf(x); if (i !== -1) s.splice(i, 1);` */
  method Remove<T(==)>(s: seq<T>, x: T) returns (r: seq<T>)
    ensures r == RemoveFirst(s, x)
  {
    var i := IndexOf(s, x);
    if i == -1 {
      RemoveFirstAbsent(s, x);
      r := s;
    } else {
      RemoveFirstAt(s, x, i);
      r := s[..i] + s[i + 1..];
    }
  }

  /** The elements of `s` that satisfy `keep`, in their original order. */
  function Filter<T>(s: seq<T>, keep: T -> bool): (r: seq<T>)
    ensures |r| <= |s|
  {
    if s == [] then []
    else
      var init := s[..|s| - 1];
      var last := s[|s| - 1];
      assert s == init + [last];
      Filter(init, keep) + (if keep(last) then [last] else [])
  }

  /**
   * One step of a pass over `s` that splices out each element failing `keep`
   * from a live copy: after position `i` the copy is the kept prefix followed by
   * the unvisited rest.
   */
  lemma FilterPassStep<T>(s: seq<T>, i: nat, keep: T -> bool)
    requires NoDup(s) && i < |s|
    ensures Filter(s[..i + 1], keep) == Filter(s[..i], keep) + (if keep(s[i]) then [s[i]] else [])
    ensures keep(s[i]) ==> Filter(s[..i], keep) + s[i..] == Filter(s[..i + 1], keep) + s[i + 1..]
    ensures !keep(s[i]) ==>
              RemoveFirst(Filter(s[..i], keep) + s[i..], s[i]) == Filter(s[..i + 1], keep) + s[i + 1..]
  {
    var x := s[i];
    assert s[..i + 1][..i] == s[..i];
    assert s[..i + 1][i] == x;
    var kept := Filter(s[..i], keep);
    assert s[i..] == [x] + s[i + 1..];
    if !keep(x) {
      assert x !in s[..i];
      FilterMembers(s[..i], keep);
      assert x !in kept;
      var live := kept + [x] + s[i + 1..];
      assert Filter(s[..i], keep) + s[i..] == live;
      assert live[..|kept|] == kept;
      RemoveFirstAt(live, x, |kept|);
      assert live[|kept| + 1..] == s[i + 1..];
    }
  }

  /**
   * The filtered list holds exactly the elements that pass: each kept element
   * comes from `s` and passes, and each passing element of `s` is kept.
   */
  lemma {:induction false} FilterMembers<T>(s: seq<T>, keep: T -> bool)
    ensures forall i :: 0 <= i < |Filter(s, keep)| ==> Filter(s, keep)[i] in s && keep(Filter(s, keep)[i])
    ensures forall i :: 0 <= i < |s| && keep(s[i]) ==> s[i] in Filter(s, keep)
  {
    if s != [] {
      var init := s[..|s| - 1];
      FilterMembers(init, keep);
      assert s == init + [s[|s| - 1]];
    }
  }

  /** Filtering keeps a list free of repeats. */
  lemma {:induction false} FilterNoDup<T>(s: seq<T>, keep: T -> bool)
    requires NoDup(s)
    ensures NoDup(Filter(s, keep))
  {
    if s != [] {
      var init := s[..|s| - 1];
      assert NoDup(init);
      FilterNoDup(init, keep);
      FilterMembers(init, keep);
      assert s[|s| - 1] !in init;
    }
  }

  /** When every element passes, filtering changes nothing: nobody is pruned. */
  lemma {:induction false} FilterAll<T>(s: seq<T>, keep: T -> bool)
    requires forall y :: y in s ==> keep(y)
    ensures Filter(s, keep) == s
  {
    if s != [] {
      var init := s[..|s| - 1];
      forall y | y in init ensures keep(y) { assert y in s; }
      FilterAll(init, keep);
      assert keep(s[|s| - 1]);
    }
  }

  /**
   * What the outboxes hold after `rec` is sent to each of `targets` in turn, where
   * the send to `t` goes through exactly when `ok(t)` holds.
   */
  function Deliver<K(==), V>(outboxes: map<K, seq<V>>, targets: seq<K>, rec: V, ok: K -> bool): (r: map<K, seq<V>>)
    ensures r.Keys == outboxes.Keys
  {
    if targets == [] then outboxes
    else
      var before := Deliver(outboxes, targets[..|targets| - 1], rec, ok);
      var t := targets[|targets| - 1];
      if ok(t) && t in before then before[t := before[t] + [rec]] else before
  }

  /** Sending to one more target extends the delivery by that target's send. */
  lemma DeliverStep<K, V>(outboxes: map<K, seq<V>>, targets: seq<K>, i: nat, rec: V, ok: K -> bool)
    requires i < |targets|
    ensures Deliver(outboxes, targets[..i + 1], rec, ok)
         == var before := Deliver(outboxes, targets[..i], rec, ok);
            var t := targets[i];
            if ok(t) && t in before then before[t := before[t] + [rec]] else before
  {
    assert targets[..i + 1][..i] == targets[..i];
  }

  /**
   * A delivery to distinct targets gives each passing target exactly one more
   * record, at the end, and leaves every other outbox as it was.
   */
  lemma {:induction false} DeliverAt<K, V>(outboxes: map<K, seq<V>>, targets: seq<K>, rec: V, ok: K -> bool)
    requires NoDup(targets)
    ensures forall k :: k in outboxes ==>
              Deliver(outboxes, targets, rec, ok)[k]
                == outboxes[k] + (if k in targets && ok(k) then [rec] else [])
  {
    if targets != [] {
      var init := targets[..|targets| - 1];
      var t := targets[|targets| - 1];
      assert NoDup(init);
      DeliverAt(outboxes, init, rec, ok);
      assert targets == init + [t];
      assert t !in init;
    }
  }

  /** An outbox that is not among the targets is left as it was. */
  lemma {:induction false} DeliverOutside<K, V>(outboxes: map<K, seq<V>>, targets: seq<K>, rec: V, ok: K -> bool, k: K)
    requires k in outboxes && k !in targets
    ensures Deliver(outboxes, targets, rec, ok)[k] == outboxes[k]
  {
    if targets != [] {
      var init := targets[..|targets| - 1];
      assert targets == init + [targets[|targets| - 1]];
      DeliverOutside(outboxes, init, rec, ok, k);
    }
  }

  /** The targets of a pass over `targets` whose send does not go through. */
  function Rejected<K>(targets: seq<K>, ok: K -> bool): set<K>
  {
    if targets == [] then {}
    else
      var t := targets[|targets| - 1];
      Rejected(targets[..|targets| - 1], ok) + (if ok(t) then {} else {t})
  }

  /** Visiting one more target adds it to the rejected ones exactly when its send fails. */
  lemma RejectedStep<K>(targets: seq<K>, i: nat, ok: K -> bool)
    requires i < |targets|
    ensures Rejected(targets[..i + 1], ok)
         == Rejected(targets[..i], ok) + (if ok(targets[i]) then {} else {targets[i]})
  {
    assert targets[..i + 1][..i] == targets[..i];
  }

  /** The rejected targets are exactly the targets whose send fails. */
  lemma {:induction false} RejectedMembers<K>(targets: seq<K>, ok: K -> bool)
    ensures forall k :: k in Rejected(targets, ok) <==> k in targets && !ok(k)
  {
    if targets != [] {
      var init := targets[..|targets| - 1];
      assert targets == init + [targets[|targets| - 1]];
      RejectedMembers(init, ok);
    }
  }
}
