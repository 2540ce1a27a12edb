/**
 * PHP's ordered array with string keys, as the image cache uses it for its
 * URL parameters: the keys in insertion order together with the value
 * stored under each. Assigning to a key that is present overwrites its
 * value and keeps its place; assigning to a new key appends it.
 */
module OrderedMap {
  import opened Wrappers
  import opened PhpValues

  datatype Params = Params(keys: seq<string>, values: map<string, Val>)

  /** The keys are distinct and are exactly the keys that hold a value. */
  ghost predicate Valid(p: Params) {
    && (forall i, j :: 0 <= i < j < |p.keys| ==> p.keys[i] != p.keys[j])
    && (forall k :: k in p.values <==> k in p.keys)
  }

  /** The value stored under k, if any. */
  function Lookup(p: Params, k: string): Option<Val> {
    if k in p.values then Some(p.values[k]) else None
  }

  /** PHP's key_exists. */
  predicate HasKey(p: Params, k: string) {
    k in p.values
  }

  /** Reading `$a[$k]`: the stored value, or null for a missing key. */
  function Get(p: Params, k: string): (v: Val)
    ensures v == Lookup(p, k).GetOr(Null)
  {
    if k in p.values then p.values[k] else Null
  }

  /** `$a[$k] = $v`. */
  function Put(p: Params, k: string, v: Val): (r: Params)
    ensures Lookup(r, k) == Some(v)
    ensures r.keys == if HasKey(p, k) then p.keys else p.keys + [k]
  {
    Params(if k in p.values then p.keys else p.keys + [k], p.values[k := v])
  }

  /** Assigning to one key leaves every other key's value as it was. */
  lemma PutOthers(p: Params, k: string, v: Val, k': string)
    requires k' != k
    ensures Lookup(Put(p, k, v), k') == Lookup(p, k')
  {
  }

  /** Assignment keeps the array well formed. */
  lemma PutValid(p: Params, k: string, v: Val)
    requires Valid(p)
    ensures Valid(Put(p, k, v))
  {
    var r := Put(p, k, v);
    if k !in p.values {
      assert k !in p.keys;
      forall i, j | 0 <= i < j < |r.keys|
        ensures r.keys[i] != r.keys[j]
      {
        if j == |p.keys| {
          assert r.keys[j] == k && r.keys[i] == p.keys[i];
        }
      }
    }
  }
}
