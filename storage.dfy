/** The localStorage wrapper. Values are stored as JSON; an entry is either
    text `JSON.parse` reads back to the value saved, or text it rejects. */
module StorageUtil {
  import opened Wrappers
  import opened Seqs
  import opened Text

  const Prefix: string := "usmc-spb-"
  /** The keys `getAllPackages` collects: the prefix, then a generated package id. */
  const PackageKeyPrefix: string := Prefix + "package-"

  predicate StartsWith(s: string, p: string) {
    |p| <= |s| && s[..|p|] == p
  }

  datatype Entry<V> = Json(value: V) | Unreadable

  predicate Distinct<T(==)>(s: seq<T>) {
    forall i, j :: 0 <= i < j < |s| ==> s[i] != s[j]
  }

  function IsNot(k: string): string -> bool {
    x => x != k
  }

  function NotUnder(p: string): string -> bool {
    x => !StartsWith(x, p)
  }

  /** Sort key putting the most recently updated package first. */
  function Newest<V>(timeOf: V -> int): V -> int {
    v => -timeOf(v)
  }

  lemma {:induction false} FilterKeepsDistinct<T>(s: seq<T>, p: T -> bool)
    requires Distinct(s)
    ensures Distinct(Filter(s, p))
  {
    if s != [] {
      FilterKeepsDistinct(s[1..], p);
      var rest := Filter(s[1..], p);
      if p(s[0]) {
        FilterMembership(s[1..], p, s[0]);
      }
    }
  }

  /** Filtering a list of distinct keys keeps it distinct and keeps exactly the
      keys that pass. */
  lemma FilterKeys(keys: seq<string>, p: string -> bool)
    requires Distinct(keys)
    ensures Distinct(Filter(keys, p))
    ensures forall x :: x in Filter(keys, p) <==> x in keys && p(x)
  {
    FilterKeepsDistinct(keys, p);
    forall x {
      FilterMembership(keys, p, x);
    }
  }

  /** The key order after writing `k`: a key already stored keeps its place, a
      new key goes last, as `localStorage` lists keys in first-write order. */
  function KeysAfterWrite(keys: seq<string>, k: string): (r: seq<string>)
    ensures |r| == |keys| || |r| == |keys| + 1
    ensures r[..|keys|] == keys
    ensures forall x :: x in r <==> x in keys || x == k
    ensures Distinct(keys) ==> Distinct(r)
  {
    if k in keys then keys else keys + [k]
  }

  /** `load(key, defaultValue)` on the stored entries. */
  function LoadFrom<V>(items: map<string, Entry<V>>, key: string, defaultValue: V): (r: V)
    ensures r == defaultValue || (Prefix + key in items && items[Prefix + key] == Json(r))
    ensures Prefix + key !in items ==> r == defaultValue
    ensures Prefix + key in items && items[Prefix + key].Json? ==> r == items[Prefix + key].value
    ensures Prefix + key in items && items[Prefix + key].Unreadable? ==> r == defaultValue
  {
    if Prefix + key in items && items[Prefix + key].Json? then items[Prefix + key].value else defaultValue
  }

  /** One round of `clear`'s removal loop: with the snapshot keys before `i`
      already filtered, removing the `i`-th when it lies under `p` extends the
      filtered part by one key. */
  lemma ClearStep(snapshot: seq<string>, i: nat, p: string, keys: seq<string>)
    requires Distinct(snapshot) && i < |snapshot|
    requires keys == Filter(snapshot[..i], NotUnder(p)) + snapshot[i..]
    ensures var k := snapshot[i];
      (if StartsWith(k, p) then Filter(keys, IsNot(k)) else keys)
        == Filter(snapshot[..i + 1], NotUnder(p)) + snapshot[i + 1..]
  {
    var k := snapshot[i];
    var done, rest := Filter(snapshot[..i], NotUnder(p)), snapshot[i + 1..];
    assert snapshot[..i + 1] == snapshot[..i] + [k];
    assert snapshot[i..] == [k] + rest;
    FilterAppend(snapshot[..i], [k], NotUnder(p));
    if StartsWith(k, p) {
      assert Filter([k], NotUnder(p)) == [];
      assert keys == (done + [k]) + rest;
      FilterAppend(done + [k], rest, IsNot(k));
      FilterAppend(done, [k], IsNot(k));
      forall x | x in done
        ensures x != k
      {
        FilterMembership(snapshot[..i], NotUnder(p), x);
      }
      FilterAll(done, IsNot(k));
      FilterAll(rest, IsNot(k));
      assert Filter([k], IsNot(k)) == [];
    } else {
      assert Filter([k], NotUnder(p)) == [k];
    }
  }

  /** Every entry of `a` is in `b` with the same value. */
  ghost predicate SubMap<K, V>(a: map<K, V>, b: map<K, V>) {
    forall k :: k in a ==> k in b && a[k] == b[k]
  }

  /** After `clear`'s loop the entries left are those of the snapshot that do
      not lie under `p`. */
  lemma ClearedKeys<V>(snapshot: seq<string>, p: string, keys: seq<string>,
                       items: map<string, Entry<V>>, before: map<string, Entry<V>>)
    requires Distinct(snapshot) && keys == Filter(snapshot, NotUnder(p))
    requires forall k :: k in keys <==> k in items
    requires forall k :: k in snapshot <==> k in before
    ensures forall k :: k in items <==> k in before && !StartsWith(k, p)
  {
    FilterKeys(snapshot, NotUnder(p));
  }

  /** The readable package values stored under `keys`, in key order. */
  function PackagesIn<V>(keys: seq<string>, items: map<string, Entry<V>>): (r: seq<V>)
    ensures |r| <= |keys|
  {
    if keys == [] then []
    else
      var k := keys[|keys| - 1];
      var rest := PackagesIn(keys[..|keys| - 1], items);
      if StartsWith(k, PackageKeyPrefix) && k in items && items[k].Json? then rest + [items[k].value] else rest
  }

  /** A readable entry under a package key is among the packages listed. */
  lemma {:induction false} ListedPackage<V>(keys: seq<string>, items: map<string, Entry<V>>, k: string)
    requires k in keys && StartsWith(k, PackageKeyPrefix) && k in items && items[k].Json?
    ensures items[k].value in PackagesIn(keys, items)
  {
    if keys[|keys| - 1] != k {
      assert k in keys[..|keys| - 1];
      ListedPackage(keys[..|keys| - 1], items, k);
    }
  }

  /** `generatePackageId()`: the current time in ms and the base-36 digits of a
      random number are parameters; at most nine of those digits are kept. */
  function GeneratePackageId(nowMs: nat, randomDigits: string): (r: string)
    ensures StartsWith(Prefix + r, PackageKeyPrefix)
    ensures StartsWith(r, "package-" + NatToString(nowMs) + "-")
    ensures |r| <= |"package-" + NatToString(nowMs) + "-"| + 9
  {
    var id := "package-" + NatToString(nowMs) + "-" + randomDigits[..if |randomDigits| < 9 then |randomDigits| else 9];
    assert (Prefix + id)[..|PackageKeyPrefix|] == PackageKeyPrefix;
    id
  }

  class Storage<V> {
    /** The stored keys in the order `localStorage.key(i)` lists them. */
    var keys: seq<string>
    var items: map<string, Entry<V>>

    ghost predicate Valid()
      reads this
    {
      Distinct(keys) && (forall k :: k in keys <==> k in items)
    }

    constructor ()
      ensures Valid() && keys == [] && items == map[]
    {
      keys := [];
      items := map[];
    }

    /** `load(key, defaultValue)`. */
    function Load(key: string, defaultValue: V): V
      reads this
    {
      LoadFrom(items, key, defaultValue)
    }

    /** `save(key, data)`. `accepted` says whether the browser took the write (it
        refuses one that exceeds the quota); the result is true exactly then.
        A new key is listed after the existing ones. */
    method Save(key: string, data: V, accepted: bool) returns (ok: bool)
      requires Valid()
      modifies this
      ensures Valid() && ok == accepted
      ensures accepted ==> items == old(items)[Prefix + key := Json(data)]
      ensures accepted ==> keys == KeysAfterWrite(old(keys), Prefix + key)
      ensures !accepted ==> keys == old(keys) && items == old(items)
      ensures accepted ==> forall d: V :: Load(key, d) == data
    {
      if accepted {
        if Prefix + key !in keys {
          keys := keys + [Prefix + key];
        }
        items := items[Prefix + key := Json(data)];
      }
      ok := accepted;
    }

    /** `localStorage.removeItem(k)`. */
    method RemoveItem(k: string)
      requires Valid()
      modifies this
      ensures Valid()
      ensures items == old(items) - {k}
      ensures keys == Filter(old(keys), IsNot(k))
    {
      FilterKeys(keys, IsNot(k));
      keys := Filter(keys, IsNot(k));
      items := items - {k};
    }

    /** `remove(key)`. */
    method Remove(key: string)
      requires Valid()
      modifies this
      ensures Valid()
      ensures items == old(items) - {Prefix + key}
      ensures keys == Filter(old(keys), IsNot(Prefix + key))
      ensures forall d: V :: Load(key, d) == d
    {
      RemoveItem(Prefix + key);
    }

    /** `clear(prefix)`: removes every key under the storage prefix followed by
        `prefix`; a missing or empty `prefix` leaves just the storage prefix. */
    method Clear(prefix: Option<string>)
      requires Valid()
      modifies this
      ensures Valid()
      ensures keys == Filter(old(keys), NotUnder(Prefix + prefix.GetOr("")))
      ensures forall k :: k in items <==> k in old(items) && !StartsWith(k, Prefix + prefix.GetOr(""))
      ensures forall k :: k in items ==> items[k] == old(items)[k]
    {
      RemoveUnder(Prefix + prefix.GetOr(""));
    }

    /** One round of `clear`'s loop: `k` is removed when it lies under `under`. */
    method RemoveIfUnder(k: string, under: string)
      requires Valid()
      modifies this
      ensures Valid()
      ensures keys == if StartsWith(k, under) then Filter(old(keys), IsNot(k)) else old(keys)
      ensures SubMap(items, old(items))
    {
      if StartsWith(k, under) {
        RemoveItem(k);
      }
    }

    /** The removal loop of `clear`: a snapshot of the keys is taken and every
        key under `under` removed from storage one at a time. */
    method RemoveUnder(under: string)
      requires Valid()
      modifies this
      ensures Valid()
      ensures keys == Filter(old(keys), NotUnder(under))
      ensures forall k :: k in items <==> k in old(items) && !StartsWith(k, under)
      ensures forall k :: k in items ==> items[k] == old(items)[k]
    {
      var snapshot := keys;
      var i := 0;
      while i < |snapshot|
        invariant 0 <= i <= |snapshot|
        invariant Valid()
        invariant keys == Filter(snapshot[..i], NotUnder(under)) + snapshot[i..]
        invariant SubMap(items, old(items))
      {
        ClearStep(snapshot, i, under, keys);
        RemoveIfUnder(snapshot[i], under);
        i := i + 1;
      }
      assert snapshot[..i] == snapshot;
      ClearedKeys(snapshot, under, keys, items, old(items));
    }

    /** `getAllPackages()`: the readable entries under package keys, most
        recently updated first; `timeOf` is `new Date(pkg.lastUpdated)` as a
        number. Entries that fail to parse are skipped. */
    method GetAllPackages(timeOf: V -> int) returns (r: seq<V>)
      requires Valid()
      ensures multiset(r) == multiset(PackagesIn(keys, items))
      ensures SortedBy(r, Newest(timeOf))
      ensures StableBy(r, PackagesIn(keys, items), Newest(timeOf))
      ensures forall k :: k in items && StartsWith(k, PackageKeyPrefix) && items[k].Json? ==> items[k].value in r
    {
      var packages: seq<V> := [];
      var i := 0;
      while i < |keys|
        invariant 0 <= i <= |keys|
        invariant packages == PackagesIn(keys[..i], items)
      {
        var k := keys[i];
        assert keys[..i + 1] == keys[..i] + [k];
        if StartsWith(k, PackageKeyPrefix) && items[k].Json? {
          packages := packages + [items[k].value];
        }
        i := i + 1;
      }
      assert keys[..i] == keys;
      r := SortBy(packages, Newest(timeOf));
      forall k | k in items && StartsWith(k, PackageKeyPrefix) && items[k].Json?
        ensures items[k].value in r
      {
        ListedPackage(keys, items, k);
        assert items[k].value in multiset(packages);
      }
    }
  }

  /** A package saved under a generated id is listed by `getAllPackages`
      afterwards: its key lies under the package key prefix. */
  lemma SavedPackageIsListed<V>(keys: seq<string>, items: map<string, Entry<V>>, nowMs: nat, randomDigits: string, data: V)
    requires forall k :: k in keys <==> k in items
    ensures var k := Prefix + GeneratePackageId(nowMs, randomDigits);
      data in PackagesIn(if k in keys then keys else keys + [k], items[k := Json(data)])
  {
    var k := Prefix + GeneratePackageId(nowMs, randomDigits);
    ListedPackage(if k in keys then keys else keys + [k], items[k := Json(data)], k);
  }
}
