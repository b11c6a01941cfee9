/** The transition table and the listener table as values: which callbacks a
    transition collects, what adding and removing records does, and the order in
    which an event reaches its listeners. The class in module Machine is proved
    against these functions. */
module Tables {
  import opened FsmTypes

  function Reversed<T>(s: seq<T>): (r: seq<T>)
    ensures |r| == |s|
    ensures forall k :: 0 <= k < |s| ==> r[k] == s[|s| - 1 - k]
  {
    if s == [] then [] else Reversed(s[1..]) + [s[0]]
  }

  predicate NoDuplicates<T(==)>(s: seq<T>)
  {
    forall i, j :: 0 <= i < j < |s| ==> s[i] != s[j]
  }

  /** Removes every element equal to `x`, keeping the others in order. */
  function Without<T(==,!new)>(s: seq<T>, x: T): (r: seq<T>)
    ensures forall y :: y in r <==> y in s && y != x
  {
    if s == [] then [] else (if s[0] == x then [] else [s[0]]) + Without(s[1..], x)
  }

  /** The last index at which `x` occurs in `s`, or -1. */
  function LastIndexOf<T(==)>(s: seq<T>, x: T): (i: int)
    ensures -1 <= i < |s|
    ensures i == -1 <==> x !in s
    ensures 0 <= i ==> s[i] == x && forall j :: i < j < |s| ==> s[j] != x
  {
    if s == [] then -1
    else if s[|s| - 1] == x then |s| - 1
    else LastIndexOf(s[..|s| - 1], x)
  }

  // ---------------------------------------------------------------------------
  // Transition table

  /** The callbacks of the records registered for exactly (`from`, `to`), in
      registration order. */
  function Matching(table: seq<Record>, from: State, to: State): (cs: seq<Callback>)
    ensures |cs| <= |table|
    ensures forall c :: c in cs <==> Record(from, to, c) in table
  {
    if table == [] then []
    else
      assert table == [table[0]] + table[1..];
      (if table[0].from == from && table[0].to == to then [table[0].callback] else [])
      + Matching(table[1..], from, to)
  }

  /** One step of collecting from the end: the record at `i` contributes its
      callback after those of the later records. */
  lemma CollectStep(table: seq<Record>, i: int, from: State, to: State)
    requires 0 <= i < |table|
    ensures Reversed(Matching(table[i..], from, to))
         == Reversed(Matching(table[i + 1..], from, to))
            + (if table[i].from == from && table[i].to == to then [table[i].callback] else [])
  {
    assert table[i..][1..] == table[i + 1..];
    var rest := Matching(table[i + 1..], from, to);
    if table[i].from == from && table[i].to == to {
      assert ([table[i].callback] + rest)[1..] == rest;
    } else {
      assert [] + rest == rest;
    }
  }

  /** `$addTransition`: appends the record unless an identical one is present. */
  function AddRecord(table: seq<Record>, r: Record): (t: seq<Record>)
    ensures r in t
    ensures forall x :: x in t <==> x in table || x == r
    ensures |table| <= |t| <= |table| + 1 && t[..|table|] == table
    ensures NoDuplicates(table) ==> NoDuplicates(t)
  {
    if LastIndexOf(table, r) > -1 then table else table + [r]
  }

  /** `$removeTransition`: deletes the record at the last index holding `r`, if any. */
  function RemoveRecord(table: seq<Record>, r: Record): (t: seq<Record>)
    ensures multiset(t) == multiset(table) - multiset{r}
    ensures r !in table ==> t == table
    ensures r in table ==> exists i :: (0 <= i < |table| && table[i] == r && t == table[..i] + table[i + 1..])
  {
    var i := LastIndexOf(table, r);
    if i > -1 then
      assert table == table[..i] + [table[i]] + table[i + 1..];
      table[..i] + table[i + 1..]
    else table
  }

  /** Splicing out index `i` shifts every later element down by one. */
  lemma SpliceIndex<T>(table: seq<T>, i: int, k: int)
    requires 0 <= i < |table| && 0 <= k < |table| - 1
    ensures (table[..i] + table[i + 1..])[k] == table[if k < i then k else k + 1]
  {
    if k >= i {
      assert (table[..i] + table[i + 1..])[k] == table[i + 1..][k - i];
    }
  }

  /** A present record splits the table at its last index, and removal drops
      exactly that index. */
  lemma RemoveRecordSplit(table: seq<Record>, r: Record) returns (i: nat)
    requires r in table
    ensures i < |table| && i == LastIndexOf(table, r)
    ensures table == table[..i] + [r] + table[i + 1..]
    ensures RemoveRecord(table, r) == table[..i] + table[i + 1..]
  {
    i := LastIndexOf(table, r);
    assert table == table[..i] + [table[i]] + table[i + 1..];
  }

  /** A table without duplicates loses the removed record entirely and stays
      without duplicates. */
  lemma RemoveRecordUnique(table: seq<Record>, r: Record)
    requires NoDuplicates(table)
    ensures r !in RemoveRecord(table, r)
    ensures NoDuplicates(RemoveRecord(table, r))
  {
    var i := LastIndexOf(table, r);
    if i > -1 {
      var t := table[..i] + table[i + 1..];
      assert t == RemoveRecord(table, r);
      forall a, b | 0 <= a < b < |t| ensures t[a] != t[b] {
        SpliceIndex(table, i, a);
        SpliceIndex(table, i, b);
      }
      forall k | 0 <= k < |t| ensures t[k] != r {
        SpliceIndex(table, i, k);
      }
    }
  }

  lemma {:induction false} MatchingConcat(a: seq<Record>, b: seq<Record>, from: State, to: State)
    ensures Matching(a + b, from, to) == Matching(a, from, to) + Matching(b, from, to)
  {
    if a == [] {
      assert a + b == b;
    } else {
      assert (a + b)[1..] == a[1..] + b;
      MatchingConcat(a[1..], b, from, to);
    }
  }

  /** A record registered later is invoked later. */
  lemma MatchingAppend(table: seq<Record>, r: Record, from: State, to: State)
    ensures Matching(table + [r], from, to)
         == Matching(table, from, to) + (if r.from == from && r.to == to then [r.callback] else [])
  {
    MatchingConcat(table, [r], from, to);
  }

  /** With no duplicate records, no callback is collected twice for one transition. */
  lemma {:induction false} MatchingDistinct(table: seq<Record>, from: State, to: State)
    requires NoDuplicates(table)
    ensures NoDuplicates(Matching(table, from, to))
  {
    if table != [] {
      assert NoDuplicates(table[1..]) by {
        forall i, j | 0 <= i < j < |table[1..]| ensures table[1..][i] != table[1..][j] {
          assert table[1..][i] == table[i + 1] && table[1..][j] == table[j + 1];
        }
      }
      MatchingDistinct(table[1..], from, to);
      var rest := Matching(table[1..], from, to);
      if table[0].from == from && table[0].to == to {
        assert table[0] !in table[1..] by {
          forall j | 0 <= j < |table[1..]| ensures table[1..][j] != table[0] {
            assert table[1..][j] == table[j + 1];
          }
        }
        assert Matching(table, from, to) == [table[0].callback] + rest;
      }
    }
  }

  /** Registering the same triple twice is the same as registering it once. */
  lemma AddRecordIdempotent(table: seq<Record>, r: Record)
    ensures AddRecord(AddRecord(table, r), r) == AddRecord(table, r)
  {
  }

  /** Removing a record just added undoes the addition. */
  lemma AddThenRemove(table: seq<Record>, r: Record)
    requires r !in table
    ensures RemoveRecord(AddRecord(table, r), r) == table
  {
    var t := table + [r];
    assert LastIndexOf(t, r) == |table|;
    assert t[..|table|] == table;
  }

  /** A matching record contributes its callback at its place in the collection. */
  lemma MatchingPick(pre: seq<Record>, r: Record, post: seq<Record>, from: State, to: State)
    requires r.from == from && r.to == to
    ensures Matching(pre + [r] + post, from, to) == Matching(pre, from, to) + [r.callback] + Matching(post, from, to)
  {
    assert pre + [r] + post == pre + ([r] + post);
    MatchingConcat([r], post, from, to);
    MatchingConcat(pre, [r] + post, from, to);
  }

  /** A record of another (from, to) pair contributes nothing to the collection. */
  lemma MatchingSkip(pre: seq<Record>, r: Record, post: seq<Record>, from: State, to: State)
    requires r.from != from || r.to != to
    ensures Matching(pre + [r] + post, from, to) == Matching(pre, from, to) + Matching(post, from, to)
  {
    assert pre + [r] + post == pre + ([r] + post);
    MatchingConcat([r], post, from, to);
    MatchingConcat(pre, [r] + post, from, to);
  }

  /** Deleting the matching record at index `i` deletes its callback, at index
      `k`, from the collected callbacks and nothing else. */
  lemma MatchingRemoveAt(table: seq<Record>, i: nat, from: State, to: State) returns (k: nat)
    requires i < |table| && table[i].from == from && table[i].to == to
    ensures k < |Matching(table, from, to)| && Matching(table, from, to)[k] == table[i].callback
    ensures Matching(table[..i] + table[i + 1..], from, to)
         == Matching(table, from, to)[..k] + Matching(table, from, to)[k + 1..]
  {
    var pre, post := table[..i], table[i + 1..];
    assert table == pre + [table[i]] + post;
    MatchingPick(pre, table[i], post, from, to);
    MatchingConcat(pre, post, from, to);
    var m := Matching(table, from, to);
    k := |Matching(pre, from, to)|;
    assert m == Matching(pre, from, to) + [table[i].callback] + Matching(post, from, to);
    assert m[..k] == Matching(pre, from, to);
    assert m[k + 1..] == Matching(post, from, to);
  }

  /** Removing a record before a transition keeps its callback from being
      collected; every other callback is still collected, in order. */
  lemma RemovedCallbackNotCollected(table: seq<Record>, from: State, to: State, c: Callback)
    requires NoDuplicates(table)
    requires Record(from, to, c) in table
    ensures c !in Matching(RemoveRecord(table, Record(from, to, c)), from, to)
    ensures exists k :: (0 <= k < |Matching(table, from, to)|
      && Matching(table, from, to)[k] == c
      && Matching(RemoveRecord(table, Record(from, to, c)), from, to)
         == Matching(table, from, to)[..k] + Matching(table, from, to)[k + 1..])
  {
    var r := Record(from, to, c);
    RemoveRecordUnique(table, r);
    var i :| 0 <= i < |table| && table[i] == r && RemoveRecord(table, r) == table[..i] + table[i + 1..];
    var k := MatchingRemoveAt(table, i, from, to);
  }

  /** A removal leaves the callbacks of every other (from, to) pair untouched. */
  lemma RemoveRecordOtherPairs(table: seq<Record>, r: Record, from: State, to: State)
    requires r.from != from || r.to != to
    ensures Matching(RemoveRecord(table, r), from, to) == Matching(table, from, to)
  {
    if r in table {
      var i := RemoveRecordSplit(table, r);
      MatchingSkip(table[..i], r, table[i + 1..], from, to);
      MatchingConcat(table[..i], table[i + 1..], from, to);
    }
  }

  // ---------------------------------------------------------------------------
  // Listener table

  /** The listeners registered for `kind`, in registration order. */
  function Subscribers(listeners: seq<Listener>, kind: EventKind): (cs: seq<Callback>)
    ensures |cs| <= |listeners|
    ensures forall c :: c in cs <==> Listener(kind, c) in listeners
  {
    if listeners == [] then []
    else
      assert listeners == [listeners[0]] + listeners[1..];
      (if listeners[0].kind == kind then [listeners[0].callback] else [])
      + Subscribers(listeners[1..], kind)
  }

  /** The listener calls made by `__dispatchEvent(evt)`: the loop runs from the last
      record to the first. */
  function Notify(listeners: seq<Listener>, evt: Event): (ds: seq<Delivery>)
    ensures forall d :: d in ds ==> d.event == evt
  {
    if listeners == [] then []
    else
      Notify(listeners[1..], evt)
      + (if listeners[0].kind == evt.kind then [Delivery(listeners[0].callback, evt)] else [])
  }

  /** Every listener of the event's kind is called once per registration, from
      the last registered to the first. */
  lemma {:induction false} NotifyOrder(listeners: seq<Listener>, evt: Event)
    ensures |Notify(listeners, evt)| == |Subscribers(listeners, evt.kind)|
    ensures forall k :: 0 <= k < |Notify(listeners, evt)| ==>
      Notify(listeners, evt)[k] == Delivery(Reversed(Subscribers(listeners, evt.kind))[k], evt)
  {
    if listeners != [] {
      NotifyOrder(listeners[1..], evt);
      var s := Subscribers(listeners, evt.kind);
      var s' := Subscribers(listeners[1..], evt.kind);
      if listeners[0].kind == evt.kind {
        assert s == [listeners[0].callback] + s';
        assert Reversed(s) == Reversed(s') + [listeners[0].callback];
      } else {
        assert s == s';
      }
    }
  }

  /** A listener added later is called earlier. */
  lemma {:induction false} SubscribersAppend(listeners: seq<Listener>, l: Listener, kind: EventKind)
    ensures Subscribers(listeners + [l], kind)
         == Subscribers(listeners, kind) + (if l.kind == kind then [l.callback] else [])
  {
    if listeners == [] {
      assert listeners + [l] == [l];
    } else {
      assert (listeners + [l])[1..] == listeners[1..] + [l];
      SubscribersAppend(listeners[1..], l, kind);
    }
  }

  /** `$removeEventListener(kind, c)` stops every delivery of `c` for `kind` and
      leaves every other listener, and every other kind, as it was. */
  lemma {:induction false} SubscribersAfterRemoval(listeners: seq<Listener>, kind: EventKind, c: Callback, other: EventKind)
    ensures Subscribers(Without(listeners, Listener(kind, c)), other)
         == if other == kind then Without(Subscribers(listeners, other), c) else Subscribers(listeners, other)
  {
    if listeners != [] {
      SubscribersAfterRemoval(listeners[1..], kind, c, other);
      var l := listeners[0];
      var rest := Without(listeners[1..], Listener(kind, c));
      var subs := Subscribers(listeners[1..], other);
      if l == Listener(kind, c) {
        assert Without(listeners, Listener(kind, c)) == rest;
        if other == kind {
          assert Subscribers(listeners, other) == [c] + subs;
          assert ([c] + subs)[1..] == subs;
        }
      } else {
        var t := [l] + rest;
        assert Without(listeners, Listener(kind, c)) == t;
        assert t[0] == l && t[1..] == rest;
        var part := if l.kind == other then [l.callback] else [];
        assert Subscribers(t, other) == part + Subscribers(rest, other);
        assert Subscribers(listeners, other) == part + subs;
        if other == kind && l.kind == other {
          assert l.callback != c;
          var u := [l.callback] + subs;
          assert u[0] == l.callback && u[1..] == subs;
          assert Without(u, c) == [l.callback] + Without(subs, c);
        } else if l.kind != other {
          assert part + subs == subs;
          assert part + Subscribers(rest, other) == Subscribers(rest, other);
        }
      }
    }
  }

  /** Removing a listener twice is the same as removing it once. */
  lemma {:induction false} WithoutIdempotent<T(!new)>(s: seq<T>, x: T)
    ensures Without(Without(s, x), x) == Without(s, x)
  {
    if s != [] {
      WithoutIdempotent(s[1..], x);
      var w := Without(s[1..], x);
      if s[0] != x {
        var t := [s[0]] + w;
        assert Without(s, x) == t;
        assert t[0] == s[0] && t[1..] == w;
        assert Without(t, x) == [s[0]] + Without(w, x);
      } else {
        assert Without(s, x) == [] + w == w;
      }
    }
  }
}
