/**
 Sums over keyed entries. Every aggregate of the model (a wallet bucket, the money locked by a user's
 bids, the number of ledger rows about a bid) is the tally of one key over a sequence of entries.
 */
module Tallies {

  datatype Entry = Entry(key: nat, value: int)

  const NOTHING := Entry(0, 0)

  function Share(e: Entry, key: nat): int
  {
    if e.key == key then e.value else 0
  }

  /** The sum of the values filed under `key`. */
  function Tally(es: seq<Entry>, key: nat): int
  {
    if es == [] then 0
    else Tally(es[..|es| - 1], key) + Share(es[|es| - 1], key)
  }

  /** The sum of all values, whatever their key. */
  function Values(es: seq<Entry>): int
  {
    if es == [] then 0 else Values(es[..|es| - 1]) + es[|es| - 1].value
  }

  /** The tallies of the keys below `n`, added up. */
  function TallyBelow(es: seq<Entry>, n: nat): int
  {
    if n == 0 then 0 else TallyBelow(es, n - 1) + Tally(es, n - 1)
  }

  lemma TallyAppend(es: seq<Entry>, e: Entry, key: nat)
    ensures Tally(es + [e], key) == Tally(es, key) + Share(e, key)
  {
    assert (es + [e])[..|es|] == es;
  }

  lemma {:induction false} TallyUpdate(es: seq<Entry>, i: nat, e: Entry, key: nat)
    requires i < |es|
    ensures Tally(es[i := e], key) == Tally(es, key) - Share(es[i], key) + Share(e, key)
  {
    var n := |es| - 1;
    if i == n {
      assert es[i := e][..n] == es[..n];
    } else {
      TallyUpdate(es[..n], i, e, key);
      assert es[i := e][..n] == es[..n][i := e];
    }
  }

  lemma {:induction false} TallyBelowEmpty(n: nat)
    ensures TallyBelow([], n) == 0
  {
    if n == 0 {
    } else {
      TallyBelowEmpty(n - 1);
    }
  }

  lemma {:induction false} TallyBelowSplit(es: seq<Entry>, n: nat)
    requires es != []
    ensures var last := es[|es| - 1];
            TallyBelow(es, n) == TallyBelow(es[..|es| - 1], n) + if last.key < n then last.value else 0
  {
    if n == 0 {
    } else {
      TallyBelowSplit(es, n - 1);
    }
  }

  /** Double counting: when every key that matters is below `n`, adding up the tallies adds up the values. */
  lemma {:induction false} TallyExchange(es: seq<Entry>, n: nat)
    requires forall i | 0 <= i < |es| :: es[i].key < n || es[i].value == 0
    ensures TallyBelow(es, n) == Values(es)
  {
    if es == [] {
      TallyBelowEmpty(n);
    } else {
      var m := |es| - 1;
      TallyExchange(es[..m], n);
      TallyBelowSplit(es, n);
    }
  }

  lemma {:induction false} TallyNonNegative(es: seq<Entry>, key: nat)
    requires forall i | 0 <= i < |es| :: es[i].value >= 0
    ensures Tally(es, key) >= 0
  {
    if es == [] {
    } else {
      TallyNonNegative(es[..|es| - 1], key);
    }
  }

  lemma {:induction false} TallyAtLeast(es: seq<Entry>, i: nat, key: nat)
    requires i < |es| && es[i].key == key
    requires forall k | 0 <= k < |es| :: es[k].value >= 0
    ensures Tally(es, key) >= es[i].value
  {
    var n := |es| - 1;
    if i == n {
      TallyNonNegative(es[..n], key);
    } else {
      TallyAtLeast(es[..n], i, key);
    }
  }

  lemma {:induction false} NoRowOf(es: seq<Entry>, key: nat)
    requires forall i | 0 <= i < |es| :: es[i].key != key || es[i].value == 0
    ensures Tally(es, key) == 0
  {
    if es == [] {
    } else {
      NoRowOf(es[..|es| - 1], key);
    }
  }
}
