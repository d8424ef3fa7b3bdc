/**
 * Listener lists of an event emitter (a socket.io socket, or any context object with
 * `on` and `removeListener`). A registration is an event name and the identity of the
 * function registered for it; the same pair may be registered more than once.
 */
module Listeners {

  datatype Listener<H> = Listener(event: string, fn: H)

  /** Every registration occurs at most once. */
  predicate Distinct<H(==)>(ls: seq<Listener<H>>)
  {
    forall x :: x in ls ==> multiset(ls)[x] == 1
  }

  /** `on(event, fn)`: the registration is appended; every earlier one stays in place. */
  function Subscribe<H>(ls: seq<Listener<H>>, event: string, fn: H): (r: seq<Listener<H>>)
    ensures |r| == |ls| + 1 && r[..|ls|] == ls && r[|ls|] == Listener(event, fn)
    ensures multiset(r) == multiset(ls) + multiset{Listener(event, fn)}
  {
    ls + [Listener(event, fn)]
  }

  /**
   * `removeListener(event, fn)`: the first registration of exactly that pair is removed;
   * when there is none the list is left as it is.
   */
  function Unsubscribe<H(==)>(ls: seq<Listener<H>>, event: string, fn: H): (r: seq<Listener<H>>)
    ensures Listener(event, fn) !in ls ==> r == ls
    ensures multiset(r) == multiset(ls) - multiset{Listener(event, fn)}
    ensures |r| == if Listener(event, fn) in ls then |ls| - 1 else |ls|
  {
    if ls == [] then []
    else if ls[0] == Listener(event, fn) then
      assert ls == [ls[0]] + ls[1..];
      ls[1..]
    else
      assert ls == [ls[0]] + ls[1..];
      [ls[0]] + Unsubscribe(ls[1..], event, fn)
  }

  /**
   * When the first registration of the pair sits at position `i`, Unsubscribe cuts out
   * exactly that one and keeps the rest in their order.
   */
  lemma {:induction false} UnsubscribeRemovesFirst<H>(ls: seq<Listener<H>>, event: string, fn: H, i: nat)
    requires i < |ls| && ls[i] == Listener(event, fn) && Listener(event, fn) !in ls[..i]
    ensures Unsubscribe(ls, event, fn) == ls[..i] + ls[i + 1..]
  {
    if i > 0 {
      var tail := ls[1..];
      assert ls[0] != Listener(event, fn) by { assert ls[0] in ls[..i]; }
      assert Listener(event, fn) !in tail[..i - 1] by {
        forall x | x in tail[..i - 1] ensures x in ls[..i] {
          var k :| 0 <= k < i - 1 && tail[k] == x;
          assert ls[..i][k + 1] == x;
        }
      }
      UnsubscribeRemovesFirst(tail, event, fn, i - 1);
      DropAt(ls, i);
    }
  }

  /** Cutting position `i` out of a list is cutting `i - 1` out of its tail, behind its head. */
  lemma DropAt<T>(ls: seq<T>, i: nat)
    requires 0 < i < |ls|
    ensures [ls[0]] + (ls[1..][..i - 1] + ls[1..][i..]) == ls[..i] + ls[i + 1..]
  {
    assert [ls[0]] + ls[1..][..i - 1] == ls[..i];
    assert ls[1..][i..] == ls[i + 1..];
  }

  /** Registering a pair that is not yet registered and then removing it restores the list. */
  lemma SubscribeThenUnsubscribe<H>(ls: seq<Listener<H>>, event: string, fn: H)
    requires Listener(event, fn) !in ls
    ensures Unsubscribe(Subscribe(ls, event, fn), event, fn) == ls
  {
    var s := Subscribe(ls, event, fn);
    UnsubscribeRemovesFirst(s, event, fn, |ls|);
    assert s[..|ls|] + s[|ls| + 1..] == ls;
  }

  /** Removing from a duplicate-free list leaves it duplicate-free, drops the pair and adds nothing. */
  lemma UnsubscribeDistinct<H>(ls: seq<Listener<H>>, event: string, fn: H)
    requires Distinct(ls)
    ensures var r := Unsubscribe(ls, event, fn);
      Distinct(r) && Listener(event, fn) !in r && forall x :: x in r ==> x in ls
  {
    var r := Unsubscribe(ls, event, fn);
    forall x | x in r ensures x in ls && multiset(r)[x] == 1 {
      assert multiset(r)[x] > 0;
    }
    if Listener(event, fn) in ls {
      assert multiset(ls)[Listener(event, fn)] == 1;
    }
  }

  /** Removing one pair keeps every other registration. */
  lemma UnsubscribeKeepsOthers<H>(ls: seq<Listener<H>>, event: string, fn: H, x: Listener<H>)
    requires x in ls && x != Listener(event, fn)
    ensures x in Unsubscribe(ls, event, fn)
  {
    assert multiset(Unsubscribe(ls, event, fn))[x] == multiset(ls)[x];
  }

  /** The removals `rs` applied one after another, in order. */
  function UnsubscribeAll<H(==)>(ls: seq<Listener<H>>, rs: seq<Listener<H>>): (r: seq<Listener<H>>)
    ensures |ls| - |rs| <= |r| <= |ls|
    decreases |rs|
  {
    if rs == [] then ls
    else UnsubscribeAll(Unsubscribe(ls, rs[0].event, rs[0].fn), rs[1..])
  }

  /** Each removal takes away one registration of its pair, when there is one left. */
  lemma {:induction false} UnsubscribeAllMultiset<H>(ls: seq<Listener<H>>, rs: seq<Listener<H>>)
    ensures multiset(UnsubscribeAll(ls, rs)) == multiset(ls) - multiset(rs)
    decreases |rs|
  {
    if rs != [] {
      var first := rs[0];
      assert Listener(first.event, first.fn) == first;
      UnsubscribeAllMultiset(Unsubscribe(ls, first.event, first.fn), rs[1..]);
      assert multiset(rs) == multiset{first} + multiset(rs[1..]) by {
        assert rs == [first] + rs[1..];
      }
      MinusMinus(multiset(ls), multiset{first}, multiset(rs[1..]));
    }
  }

  /** A registration that none of the removals names survives them all. */
  lemma UnsubscribeAllKeeps<H>(ls: seq<Listener<H>>, rs: seq<Listener<H>>, x: Listener<H>)
    requires x in ls && x !in rs
    ensures x in UnsubscribeAll(ls, rs)
  {
    UnsubscribeAllMultiset(ls, rs);
    assert multiset(UnsubscribeAll(ls, rs))[x] == multiset(ls)[x];
  }

  lemma MinusMinus<T>(a: multiset<T>, b: multiset<T>, c: multiset<T>)
    ensures (a - b) - c == a - (b + c)
  {
    forall x ensures ((a - b) - c)[x] == (a - (b + c))[x] { }
  }
}
