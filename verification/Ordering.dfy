/** The order in which Go sorts object keys, and the sorted list of a set of keys.

    Go compares the UTF-8 bytes of two strings; on valid text that is the order of their code
    points, which is what `Less` compares. */
module Ordering {

  predicate Less(a: string, b: string) {
    if b == "" then false
    else if a == "" then true
    else if a[0] != b[0] then a[0] < b[0]
    else Less(a[1..], b[1..])
  }

  /** The texts agree up to k, where a ends first or has the smaller character. */
  predicate DifferAt(a: string, b: string, k: nat) {
    && k <= |a| && k <= |b| && a[..k] == b[..k]
    && ((k == |a| && k < |b|) || (k < |a| && k < |b| && a[k] < b[k]))
  }

  ghost predicate Before(a: string, b: string) { exists k: nat :: DifferAt(a, b, k) }

  ghost predicate Ascending(keys: seq<string>) {
    forall i, j :: 0 <= i < j < |keys| ==> Before(keys[i], keys[j])
  }

  /** The order, said at once: ascending, by the first difference. */
  lemma {:induction false} LessMeans(a: string, b: string)
    ensures Less(a, b) <==> Before(a, b)
  {
    forall k: nat | DifferAt(a, b, k) && 0 < k ensures a != "" && b != "" && a[0] == b[0] {
      assert a[..k][0] == b[..k][0];
    }
    if a == "" || b == "" || a[0] != b[0] {
      if Less(a, b) {
        assert DifferAt(a, b, 0);
      }
    } else {
      LessMeans(a[1..], b[1..]);
      if k: nat :| DifferAt(a[1..], b[1..], k) {
        ShiftDifference(a, b, k);
      }
      if k: nat :| DifferAt(a, b, k) {
        assert k > 0;
        assert a[1..][..k - 1] == a[..k][1..] && b[1..][..k - 1] == b[..k][1..];
        assert DifferAt(a[1..], b[1..], k - 1);
      }
    }
  }

  lemma ShiftDifference(a: string, b: string, k: nat)
    requires a != "" && b != "" && a[0] == b[0] && DifferAt(a[1..], b[1..], k)
    ensures DifferAt(a, b, k + 1)
  {
    assert a[..k + 1] == [a[0]] + a[1..][..k] && b[..k + 1] == [b[0]] + b[1..][..k];
  }

  ghost predicate Sorted(keys: seq<string>) {
    forall i, j :: 0 <= i < j < |keys| ==> Less(keys[i], keys[j])
  }

  function Elements<T>(s: seq<T>): set<T> {
    set x | x in s
  }

  lemma {:induction false} LessTransitive(a: string, b: string, c: string)
    requires Less(a, b) && Less(b, c)
    ensures Less(a, c)
  {
    if a != "" && a[0] == b[0] && b[0] == c[0] {
      LessTransitive(a[1..], b[1..], c[1..]);
    }
  }

  lemma {:induction false} LessTotal(a: string, b: string)
    ensures Less(a, b) || Less(b, a) || a == b
    ensures !(Less(a, b) && Less(b, a))
    ensures a == b ==> !Less(a, b)
  {
    if a != "" && b != "" && a[0] == b[0] {
      LessTotal(a[1..], b[1..]);
      assert a == [a[0]] + a[1..] && b == [b[0]] + b[1..];
    }
  }

  /** Insertion into a sorted list. */
  function Insert(key: string, keys: seq<string>): (r: seq<string>)
    requires Sorted(keys) && key !in keys
    ensures Sorted(r) && Elements(r) == Elements(keys) + {key}
  {
    if keys == [] then [key]
    else if Less(key, keys[0]) then
      assert forall j :: 0 < j < |keys| ==> Less(key, keys[j]) by {
        forall j | 0 < j < |keys| ensures Less(key, keys[j]) {
          LessTransitive(key, keys[0], keys[j]);
        }
      }
      [key] + keys
    else
      LessTotal(key, keys[0]);
      var r := Insert(key, keys[1..]);
      assert forall x :: x in r ==> Less(keys[0], x) by {
        forall x | x in r ensures Less(keys[0], x) {
          assert x in Elements(r);
          assert x == key || x in keys[1..];
        }
      }
      assert Elements(keys) == Elements(keys[1..]) + {keys[0]} by {
        assert keys == [keys[0]] + keys[1..];
      }
      [keys[0]] + r
  }

  ghost function SortedKeys(keys: set<string>): (r: seq<string>)
    ensures Sorted(r) && Elements(r) == keys
    ensures forall k :: k in r <==> k in keys
  {
    if keys == {} then [] else
      var k :| k in keys;
      var r := SortedKeys(keys - {k});
      assert k !in Elements(r);
      assert forall x :: x in Insert(k, r) <==> x in Elements(Insert(k, r));
      Insert(k, r)
  }

  /** A set has only one sorted list, so the order in which a map is traversed cannot matter. */
  lemma {:induction false} SortedUnique(a: seq<string>, b: seq<string>)
    requires Sorted(a) && Sorted(b) && Elements(a) == Elements(b)
    ensures a == b
  {
    assert a != [] ==> a[0] in Elements(a);
    assert b != [] ==> b[0] in Elements(b);
    if a != [] && b != [] {
      LessTotal(a[0], b[0]);
      assert a[0] == b[0];
      forall x | x in a[1..] ensures x in b[1..] {
        assert x in Elements(b);
        LessTotal(a[0], x);
      }
      forall x | x in b[1..] ensures x in a[1..] {
        assert x in Elements(a);
        LessTotal(b[0], x);
      }
      SortedUnique(a[1..], b[1..]);
      assert a == [a[0]] + a[1..] && b == [b[0]] + b[1..];
    }
  }

  lemma SortedAscends(keys: seq<string>)
    requires Sorted(keys)
    ensures Ascending(keys)
  {
    forall i, j | 0 <= i < j < |keys| ensures Before(keys[i], keys[j]) {
      LessMeans(keys[i], keys[j]);
    }
  }

  lemma SortedKeysAre(keys: set<string>, r: seq<string>)
    requires Sorted(r) && Elements(r) == keys
    ensures r == SortedKeys(keys)
  {
    SortedUnique(r, SortedKeys(keys));
  }

  /** The keys of every issuer object. */
  lemma IssuerKeysSorted()
    ensures SortedKeys({"id", "name", "type"}) == ["id", "name", "type"]
  {
    var keys := ["id", "name", "type"];
    assert "id"[0] == 'i' && "name"[0] == 'n' && "type"[0] == 't';
    assert Elements(keys) == {"id", "name", "type"};
    SortedKeysAre({"id", "name", "type"}, keys);
  }
}
