/** The order of keys as byte strings, with the standard `sort` and `dedup` of the oracle list. */
module KeyOrder {
  import opened Prelude

  predicate Less(a: seq<byte>, b: seq<byte>) {
    b != [] && (a == [] || a[0] < b[0] || (a[0] == b[0] && Less(a[1..], b[1..])))
  }

  /** The order is that of the first byte in which the keys differ. */
  lemma {:induction false} LessAtFirstDifference(a: seq<byte>, b: seq<byte>)
    requires |a| == |b|
    ensures Less(a, b) <==> exists k | 0 <= k < |a| :: a[k] < b[k] && a[..k] == b[..k]
  {
    if a != [] {
      LessAtFirstDifference(a[1..], b[1..]);
      if k :| 0 <= k < |a| && a[k] < b[k] && a[..k] == b[..k] {
        if k > 0 {
          assert a[..k][0] == b[..k][0];
          assert a[1..][k - 1] < b[1..][k - 1] && a[1..][..k - 1] == a[..k][1..] == b[1..][..k - 1];
        }
      }
      if Less(a, b) {
        if a[0] < b[0] {
          assert a[..0] == b[..0];
        } else {
          var k :| 0 <= k < |a[1..]| && a[1..][k] < b[1..][k] && a[1..][..k] == b[1..][..k];
          assert a[..k + 1] == [a[0]] + a[1..][..k] && b[..k + 1] == [b[0]] + b[1..][..k];
          assert a[k + 1] < b[k + 1];
        }
      }
    }
  }

  lemma {:induction false} Irreflexive(a: seq<byte>)
    ensures !Less(a, a)
  {
    if a != [] {
      Irreflexive(a[1..]);
    }
  }

  lemma {:induction false} Transitive(a: seq<byte>, b: seq<byte>, c: seq<byte>)
    requires Less(a, b) && Less(b, c)
    ensures Less(a, c)
  {
    if a != [] && a[0] == b[0] == c[0] {
      Transitive(a[1..], b[1..], c[1..]);
    }
  }

  lemma {:induction false} Trichotomy(a: seq<byte>, b: seq<byte>)
    ensures a == b || Less(a, b) || Less(b, a)
  {
    if a != [] && b != [] && a[0] == b[0] {
      Trichotomy(a[1..], b[1..]);
      assert a == [a[0]] + a[1..] && b == [b[0]] + b[1..];
    }
  }

  /** No neighbours out of order. */
  predicate Sorted(keys: seq<Pubkey>) {
    forall i | 0 <= i < |keys| - 1 :: !Less(keys[i + 1], keys[i])
  }

  ghost predicate StrictlyIncreasing(keys: seq<Pubkey>) {
    forall i, j | 0 <= i < j < |keys| :: Less(keys[i], keys[j])
  }

  function Insert(key: Pubkey, keys: seq<Pubkey>): seq<Pubkey> {
    if keys == [] then [key]
    else if Less(keys[0], key) then [keys[0]] + Insert(key, keys[1..])
    else [key] + keys
  }

  /** `sort` */
  function Sort(keys: seq<Pubkey>): seq<Pubkey> {
    if keys == [] then [] else Insert(keys[0], Sort(keys[1..]))
  }

  /** `dedup`: drop each key equal to its left neighbour. */
  function Dedup(keys: seq<Pubkey>): seq<Pubkey> {
    if |keys| <= 1 then keys
    else if keys[0] == keys[1] then Dedup(keys[1..])
    else [keys[0]] + Dedup(keys[1..])
  }

  lemma {:induction false} InsertKeeps(key: Pubkey, keys: seq<Pubkey>)
    ensures multiset(Insert(key, keys)) == multiset(keys) + multiset{key}
    ensures Insert(key, keys) != [] && (Insert(key, keys)[0] == key || (keys != [] && Insert(key, keys)[0] == keys[0]))
  {
    if keys != [] && Less(keys[0], key) {
      InsertKeeps(key, keys[1..]);
      assert keys == [keys[0]] + keys[1..];
    }
  }

  lemma SortedCons(first: Pubkey, rest: seq<Pubkey>)
    requires Sorted(rest) && (rest != [] ==> !Less(rest[0], first))
    ensures Sorted([first] + rest)
  {
    var all := [first] + rest;
    forall i | 0 <= i < |all| - 1
      ensures !Less(all[i + 1], all[i])
    {
      assert i > 0 ==> all[i] == rest[i - 1] && all[i + 1] == rest[i];
    }
  }

  lemma {:induction false} InsertSorts(key: Pubkey, keys: seq<Pubkey>)
    requires Sorted(keys)
    ensures Sorted(Insert(key, keys))
  {
    if keys != [] && Less(keys[0], key) {
      InsertSorts(key, keys[1..]);
      InsertKeeps(key, keys[1..]);
      NotBelow(keys[0], key);
      SortedCons(keys[0], Insert(key, keys[1..]));
    } else {
      SortedCons(key, keys);
    }
  }

  lemma NotBelow(a: Pubkey, b: Pubkey)
    requires Less(a, b)
    ensures !Less(b, a)
  {
    Irreflexive(a);
    if Less(b, a) {
      Transitive(a, b, a);
    }
  }

  lemma {:induction false} SortSorts(keys: seq<Pubkey>)
    ensures Sorted(Sort(keys)) && multiset(Sort(keys)) == multiset(keys)
  {
    if keys != [] {
      SortSorts(keys[1..]);
      InsertSorts(keys[0], Sort(keys[1..]));
      InsertKeeps(keys[0], Sort(keys[1..]));
      assert keys == [keys[0]] + keys[1..];
    }
  }

  lemma {:induction false} DedupIncreases(keys: seq<Pubkey>)
    requires Sorted(keys)
    ensures StrictlyIncreasing(Dedup(keys)) && forall key :: key in Dedup(keys) <==> key in keys
    ensures keys != [] ==> Dedup(keys) != [] && Dedup(keys)[0] == keys[0]
  {
    if |keys| > 1 {
      var rest := Dedup(keys[1..]);
      DedupIncreases(keys[1..]);
      assert keys == [keys[0]] + keys[1..] && keys[1..][0] == keys[1];
      if keys[0] != keys[1] {
        Trichotomy(keys[0], keys[1]);
        forall j | 0 <= j < |rest|
          ensures Less(keys[0], rest[j])
        {
          if j > 0 {
            Transitive(keys[0], rest[0], rest[j]);
          }
        }
      }
    }
  }

  /** Sorting and then deduplicating gives a strictly increasing list of the same keys. */
  lemma SortDedup(keys: seq<Pubkey>)
    ensures StrictlyIncreasing(Dedup(Sort(keys)))
    ensures forall key :: key in Dedup(Sort(keys)) <==> key in keys
  {
    SortSorts(keys);
    DedupIncreases(Sort(keys));
    assert forall key :: key in Sort(keys) <==> key in multiset(Sort(keys));
  }

  lemma LeastFirst(a: seq<Pubkey>, b: seq<Pubkey>)
    requires StrictlyIncreasing(a) && StrictlyIncreasing(b) && a != [] && b != []
    requires a[0] in b && b[0] in a
    ensures a[0] == b[0]
  {
    var i :| 0 <= i < |b| && b[i] == a[0];
    var j :| 0 <= j < |a| && a[j] == b[0];
    if i > 0 && j > 0 {
      NotBelow(a[0], b[0]);
    }
  }

  lemma TailElements(a: seq<Pubkey>, key: Pubkey)
    requires StrictlyIncreasing(a) && a != []
    ensures key in a[1..] <==> key in a && key != a[0]
  {
    Irreflexive(a[0]);
    assert a == [a[0]] + a[1..];
  }

  /** A strictly increasing list is determined by its keys. */
  lemma {:induction false} IncreasingIsUnique(a: seq<Pubkey>, b: seq<Pubkey>)
    requires StrictlyIncreasing(a) && StrictlyIncreasing(b)
    requires forall key :: key in a <==> key in b
    ensures a == b
  {
    assert forall i | 0 <= i < |a| :: a[i] in b;
    assert forall i | 0 <= i < |b| :: b[i] in a;
    if a != [] && b != [] {
      assert a[0] in b && b[0] in a;
      LeastFirst(a, b);
      forall key
        ensures key in a[1..] <==> key in b[1..]
      {
        TailElements(a, key);
        TailElements(b, key);
      }
      IncreasingIsUnique(a[1..], b[1..]);
      assert a == [a[0]] + a[1..] && b == [b[0]] + b[1..];
    }
  }

  /** The keys of a hash map in the order it happens to iterate. */
  method Enumerate(keys: set<Pubkey>) returns (order: seq<Pubkey>)
    ensures forall key :: key in order <==> key in keys
    ensures forall i, j | 0 <= i < j < |order| :: order[i] != order[j]
    ensures |order| == |keys|
  {
    order := [];
    var rest := keys;
    while rest != {}
      invariant rest <= keys && forall key :: key in order <==> key in keys - rest
      invariant |order| + |rest| == |keys|
      invariant forall i, j | 0 <= i < j < |order| :: order[i] != order[j]
      decreases rest
    {
      var key :| key in rest;
      order, rest := order + [key], rest - {key};
    }
  }
}
