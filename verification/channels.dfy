/** The actors of the server talk over tokio `mpsc` channels. A sender is
    modelled by the identity of the channel it writes to, and sending is
    modelled by appending a delivery to an output log: channel capacity,
    back-pressure and `SendError` are not modelled. */
module Channels {

  /** A `tokio::sync::mpsc::Sender`, identified by the channel it feeds. */
  datatype Sender = Sender(channel: nat)

  /** One message put on one channel. */
  datatype Delivery<M> = Delivery(to: Sender, msg: M)

  /** `order` lists every key of a map exactly once: an admissible iteration
      order of a Rust `HashMap` with those keys (the order itself is
      unspecified). */
  ghost predicate IsIterationOrder<K>(order: seq<K>, keys: set<K>)
  {
    && (forall i :: 0 <= i < |order| ==> order[i] in keys)
    && (forall k :: k in keys ==> k in order)
    && Distinct(order)
  }

  /** No element occurs twice. */
  ghost predicate Distinct<K>(s: seq<K>)
  {
    forall i, j :: 0 <= i < j < |s| ==> s[i] != s[j]
  }

  /** Some iteration order of a `HashMap` with the given keys. The choice is
      arbitrary but fixed, which is all Rust promises. */
  ghost function SomeIterationOrder<K>(keys: set<K>): (order: seq<K>)
    ensures IsIterationOrder(order, keys)
    decreases |keys|
  {
    if keys == {} then []
    else
      var k :| k in keys;
      var rest := SomeIterationOrder(keys - {k});
      assert forall x :: x in keys ==> x == k || x in keys - {k};
      [k] + rest
  }

  /** The keys listed in `order` whose entry satisfies `p`, in iteration order
      (a `filter_map` over a `HashMap` iterator). */
  function FilterKeys<K(!new), V>(m: map<K, V>, order: seq<K>, p: V -> bool): (r: seq<K>)
    requires forall i :: 0 <= i < |order| ==> order[i] in m
    ensures forall k :: k in r <==> k in order && p(m[k])
    ensures forall i :: 0 <= i < |r| ==> r[i] in m
    ensures Distinct(order) ==> Distinct(r)
    ensures |r| <= |order|
  {
    if order == [] then []
    else
      var rest := FilterKeys(m, order[1..], p);
      assert forall k :: k in order <==> k == order[0] || k in order[1..];
      if p(m[order[0]]) then [order[0]] + rest else rest
  }

  /** A subscriber entry of a service table: the channel that reaches the
      client and the client's location (of type `L`). */
  datatype Target<L> = Target(sender: Sender, location: L)

  /** The keys whose entry has location `loc`. */
  ghost function TargetsAt<K(!new), L>(m: map<K, Target<L>>, loc: L): set<K>
  {
    set k | k in m && m[k].location == loc
  }

  /** `sent` is `msg` sent once to the entry of each key of `order`, in
      that order. */
  ghost predicate SentInOrder<K, L, M>(m: map<K, Target<L>>, order: seq<K>, msg: M, sent: seq<Delivery<M>>)
  {
    && |sent| == |order|
    && forall i :: 0 <= i < |order| ==> order[i] in m && sent[i] == Delivery(m[order[i]].sender, msg)
  }

  /** `sent` is `msg` sent exactly once to the entry of every key of `keys`
      and to nobody else, in some iteration order. */
  ghost predicate SentOnceToEach<K(!new), L, M>(m: map<K, Target<L>>, keys: set<K>, msg: M, sent: seq<Delivery<M>>)
  {
    exists order :: IsIterationOrder(order, keys) && SentInOrder(m, order, msg, sent)
  }

  /** Sends `msg` to the entry of each key of `keys`, in order. */
  function SendAll<K, L, M>(m: map<K, Target<L>>, keys: seq<K>, msg: M): (r: seq<Delivery<M>>)
    requires forall i :: 0 <= i < |keys| ==> keys[i] in m
    ensures SentInOrder(m, keys, msg, r)
  {
    seq(|keys|, i requires 0 <= i < |keys| => Delivery(m[keys[i]].sender, msg))
  }

  /** `senders` are the channels of the entries of `keys`, one per key, in
      some iteration order. */
  ghost predicate SendersOfEach<K(!new), L>(m: map<K, Target<L>>, keys: set<K>, senders: seq<Sender>)
  {
    exists order :: IsIterationOrder(order, keys) && |senders| == |order| &&
      forall i :: 0 <= i < |order| ==> order[i] in m && senders[i] == m[order[i]].sender
  }

  /** The keys of the entries at location `loc`, in the iteration order
      `order` of the whole map. */
  function SelectAt<K(!new), L(==)>(m: map<K, Target<L>>, loc: L, order: seq<K>): (r: seq<K>)
    requires IsIterationOrder(order, m.Keys)
    ensures IsIterationOrder(r, TargetsAt(m, loc))
    ensures forall i :: 0 <= i < |r| ==> r[i] in m
  {
    FilterKeys(m, order, (t: Target<L>) => t.location == loc)
  }

  /** An iteration order has one element per key. */
  lemma {:induction false} IterationOrderLength<K>(order: seq<K>, keys: set<K>)
    requires IsIterationOrder(order, keys)
    ensures |order| == |keys|
    decreases |order|
  {
    if order != [] {
      var rest := keys - {order[0]};
      assert IsIterationOrder(order[1..], rest) by {
        forall k | k in rest
          ensures k in order[1..]
        {
          var i :| 0 <= i < |order| && order[i] == k;
          assert i != 0;
          assert order[1..][i - 1] == k;
        }
      }
      IterationOrderLength(order[1..], rest);
    } else {
      assert forall k :: k !in keys;
      assert keys == {};
    }
  }

  /** What `SentOnceToEach` promises: one message per key, every key's
      channel reached, and every message addressed to the channel of one of
      the keys. */
  lemma SentOnceToEachMeans<K(!new), L, M>(m: map<K, Target<L>>, keys: set<K>, msg: M, sent: seq<Delivery<M>>)
    requires SentOnceToEach(m, keys, msg, sent)
    ensures |sent| == |keys|
    ensures forall k :: k in keys ==> k in m && Delivery(m[k].sender, msg) in sent
    ensures forall i :: 0 <= i < |sent| ==> exists k :: k in keys && k in m && sent[i] == Delivery(m[k].sender, msg)
  {
    var order :| IsIterationOrder(order, keys) && SentInOrder(m, order, msg, sent);
    IterationOrderLength(order, keys);
    forall k | k in keys
      ensures k in m && Delivery(m[k].sender, msg) in sent
    {
      var i :| 0 <= i < |order| && order[i] == k;
      assert sent[i] == Delivery(m[k].sender, msg);
    }
    forall i | 0 <= i < |sent|
      ensures exists k :: k in keys && k in m && sent[i] == Delivery(m[k].sender, msg)
    {
      assert order[i] in keys;
    }
  }
}
