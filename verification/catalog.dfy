/**
 * The channel catalogue shared by the command-line tool (run.py) and the
 * workflow generator (scripts/generate_workflow.py): a channel is an id and
 * a display name, and channels are bucketed by the prefix of their id.
 *
 * The prefix counts are a Python dict filled with `d[k] = d.get(k, 0) + 1`;
 * since its insertion order later decides ties, it is modelled as an
 * association list in first-insertion order.
 */
module Catalog {
  import opened Text

  datatype Channel = Channel(id: string, name: string)

  /**
   * The prefix bucket of a channel id: the part before the first `_` when
   * there is one, else its first three characters (fewer for a short id).
   */
  function PrefixOf(id: string): (p: string)
    ensures StartsWith(id, p)
    ensures '_' in id ==> '_' !in p && id[|p|] == '_'
    ensures '_' !in id ==> |p| == if |id| < 3 then |id| else 3
  {
    if '_' in id then BeforeFirst(id, '_') else id[..if |id| < 3 then |id| else 3]
  }

  /** The prefixes of a channel list, in list order. */
  function Prefixes(channels: seq<Channel>): (r: seq<string>)
    ensures |r| == |channels|
    ensures forall i :: 0 <= i < |channels| ==> r[i] == PrefixOf(channels[i].id)
  {
    seq(|channels|, i requires 0 <= i < |channels| => PrefixOf(channels[i].id))
  }

  // ---------------------------------------------------------------------------
  // Counting into an insertion-ordered dict
  // ---------------------------------------------------------------------------

  type Counts = seq<(string, nat)>

  /** No key occurs twice. */
  predicate Distinct(t: Counts) {
    forall i, j :: 0 <= i < j < |t| ==> t[i].0 != t[j].0
  }

  /** `d.get(k, 0)`. */
  function Lookup(t: Counts, k: string): nat {
    if t == [] then 0 else if t[0].0 == k then t[0].1 else Lookup(t[1..], k)
  }

  /** The sum of the values. */
  function Total(t: Counts): nat {
    if t == [] then 0 else t[0].1 + Total(t[1..])
  }

  /** Every stored count is at least one. */
  predicate Positive(t: Counts) {
    forall i :: 0 <= i < |t| ==> t[i].1 >= 1
  }

  /**
   * `d[k] = d.get(k, 0) + 1`: an existing key keeps its place, a new key goes
   * last; only `k`'s count changes, by one.
   */
  function Bump(t: Counts, k: string): (r: Counts)
    ensures Lookup(r, k) == Lookup(t, k) + 1
    ensures forall k' :: k' != k ==> Lookup(r, k') == Lookup(t, k')
    ensures Total(r) == Total(t) + 1
    ensures |r| >= |t| && forall i :: 0 <= i < |t| ==> r[i].0 == t[i].0
    ensures (exists i :: 0 <= i < |t| && t[i].0 == k) ==> |r| == |t|
    ensures (forall i :: 0 <= i < |t| ==> t[i].0 != k) ==> r == t + [(k, 1)]
  {
    if t == [] then [(k, 1)]
    else if t[0].0 == k then [(k, t[0].1 + 1)] + t[1..]
    else [t[0]] + Bump(t[1..], k)
  }

  /** Bumping keeps keys unique and counts positive, and adds no entry for another key. */
  lemma {:induction false} BumpShape(t: Counts, k: string)
    ensures Distinct(t) ==> Distinct(Bump(t, k))
    ensures Positive(t) ==> Positive(Bump(t, k))
    ensures forall e :: e in Bump(t, k) && e.0 != k ==> e in t
    ensures forall i :: 0 <= i < |Bump(t, k)| ==> Bump(t, k)[i].0 == k || Bump(t, k)[i].0 in KeysOf(t)
  {
    BumpEntries(t, k);
    var r := Bump(t, k);
    forall i | 0 <= i < |r| ensures r[i].0 == k || r[i].0 in KeysOf(t) {
      if i < |t| { assert r[i].0 == t[i].0; }
    }
    if Distinct(t) {
      forall i, j | 0 <= i < j < |r| ensures r[i].0 != r[j].0 {
        if j >= |t| { assert r == t + [(k, 1)]; }
      }
    }
  }

  /** Bumping keeps counts positive and leaves every other key's entry as it was. */
  lemma {:induction false} BumpEntries(t: Counts, k: string)
    ensures Positive(t) ==> Positive(Bump(t, k))
    ensures forall e :: e in Bump(t, k) && e.0 != k ==> e in t
  {
    if t != [] && t[0].0 != k {
      BumpEntries(t[1..], k);
      assert Bump(t, k) == [t[0]] + Bump(t[1..], k);
      assert Positive(t) ==> Positive(t[1..]) by {
        if Positive(t) {
          forall i | 0 <= i < |t[1..]| ensures t[1..][i].1 >= 1 { assert t[1..][i] == t[i + 1]; }
        }
      }
    }
  }

  /** The keys of a dict. */
  function KeysOf(t: Counts): set<string> {
    set i | 0 <= i < |t| :: t[i].0
  }

  /** The dict after counting `keys` in order. */
  function Tally(keys: seq<string>): Counts {
    if keys == [] then [] else Bump(Tally(keys[..|keys| - 1]), keys[|keys| - 1])
  }

  /** The counted dict has each key once, and every count in it is positive. */
  lemma {:induction false} TallyShape(keys: seq<string>)
    ensures Distinct(Tally(keys)) && Positive(Tally(keys))
  {
    if keys != [] {
      TallyShape(keys[..|keys| - 1]);
      BumpShape(Tally(keys[..|keys| - 1]), keys[|keys| - 1]);
    }
  }

  /** Each key's count is the number of times it was counted. */
  lemma {:induction false} TallyLookup(keys: seq<string>, k: string)
    ensures Lookup(Tally(keys), k) == multiset(keys)[k]
  {
    if keys != [] {
      var init, last := keys[..|keys| - 1], keys[|keys| - 1];
      TallyLookup(init, k);
      assert keys == init + [last];
      assert multiset(keys)[k] == multiset(init)[k] + multiset([last])[k];
    }
  }

  /**
   * Counting more keys never moves a key already in the dict: the keys of the
   * dict after the first `n` keys are, in order, the first keys of the final
   * dict. With `Bump` putting a new key last, the dict lists its keys in
   * the order they were first seen.
   */
  lemma {:induction false} TallyKeepsOrder(keys: seq<string>, n: nat)
    requires n <= |keys|
    ensures |Tally(keys[..n])| <= |Tally(keys)|
    ensures forall i :: 0 <= i < |Tally(keys[..n])| ==> Tally(keys)[i].0 == Tally(keys[..n])[i].0
  {
    if n < |keys| {
      var init := keys[..|keys| - 1];
      assert init[..n] == keys[..n];
      TallyKeepsOrder(init, n);
    } else {
      assert keys[..n] == keys;
    }
  }

  /** The counts sum to the number of keys counted. */
  lemma {:induction false} TallyTotal(keys: seq<string>)
    ensures Total(Tally(keys)) == |keys|
  {
    if keys != [] {
      TallyTotal(keys[..|keys| - 1]);
    }
  }

  /** In a dict without repeated keys, an entry's value is what `get` returns for its key. */
  lemma {:induction false} LookupEntry(t: Counts, e: (string, nat))
    requires Distinct(t) && e in t
    ensures Lookup(t, e.0) == e.1
  {
    if t[0] != e {
      assert e in t[1..];
      var j :| 0 <= j < |t[1..]| && t[1..][j] == e;
      assert t[j + 1] == e;
      LookupEntry(t[1..], e);
    }
  }
}
