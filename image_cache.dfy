/** jgame.ImageCache: images loaded from class resources, cached under the
    key prefix + file name, and a registry of one cache per class. */
module ImageCache {
  import opened Common

  /** A decoded image (java.awt.image.BufferedImage), by identity. */
  datatype BufferedImage = BufferedImage(id: nat)

  /** What reading a resource gives: an IOException, or ImageIO.read's
      result, which is null when no reader understands the data. */
  datatype Read = IOFailure | Decoded(image: Option<BufferedImage>)

  /** Class.getResource followed by ImageIO.read, for one class: None when
      the resource does not exist. */
  type Resources = string -> Option<Read>

  /** The cache map; a key may be mapped to null (None) when ImageIO.read
      returned null. */
  type Store = map<string, Option<BufferedImage>>

  // ---------------------------------------------------------------------
  // Integer.toString
  // ---------------------------------------------------------------------

  function Digit(d: nat): (c: char)
    requires d < 10
    ensures '0' <= c <= '9'
  {
    (('0' as int) + d) as char
  }

  function DigitValue(c: char): nat
  {
    if '0' <= c <= '9' then (c as int) - ('0' as int) else 0
  }

  /** The decimal digits of n, most significant first, no leading zeros. */
  function NatToString(n: nat): (s: string)
    ensures |s| >= 1
    ensures forall i :: 0 <= i < |s| ==> '0' <= s[i] <= '9'
  {
    if n < 10 then [Digit(n)] else NatToString(n / 10) + [Digit(n % 10)]
  }

  /** Integer.toString: a minus sign before the digits of a negative number. */
  function IntToString(i: int): (s: string)
    ensures |s| >= 1
    ensures s[0] == '-' <==> i < 0
  {
    if i < 0 then "-" + NatToString(-i) else NatToString(i)
  }

  /** The value of a string of decimal digits. */
  function ParseNat(s: string): nat
  {
    if s == [] then 0 else ParseNat(s[..|s| - 1]) * 10 + DigitValue(s[|s| - 1])
  }

  /** Integer.parseInt on what Integer.toString produces. */
  function ParseInt(s: string): int
  {
    if |s| > 0 && s[0] == '-' then -(ParseNat(s[1..]) as int) else ParseNat(s)
  }

  lemma {:induction false} NatToStringRoundTrip(n: nat)
    ensures ParseNat(NatToString(n)) == n
  {
    if n >= 10 {
      NatToStringRoundTrip(n / 10);
      var s := NatToString(n);
      assert s[..|s| - 1] == NatToString(n / 10);
    }
  }

  /** Reading back Integer.toString gives the number. */
  lemma IntToStringRoundTrip(i: int)
    ensures ParseInt(IntToString(i)) == i
  {
    if i < 0 {
      NatToStringRoundTrip(-i);
      assert IntToString(i)[1..] == NatToString(-i);
    } else {
      NatToStringRoundTrip(i);
    }
  }

  /** Distinct numbers have distinct decimal forms. */
  lemma IntToStringInjective(a: int, b: int)
    requires IntToString(a) == IntToString(b)
    ensures a == b
  {
    IntToStringRoundTrip(a);
    IntToStringRoundTrip(b);
  }

  // ---------------------------------------------------------------------
  // get, as a function of the store
  // ---------------------------------------------------------------------

  /** ImageCache.get for the full key: a non-null cached image is returned
      as is; otherwise a missing resource throws IllegalArgumentException, an
      IOException gives null and caches nothing, and a read image (possibly
      null) is stored and returned. */
  function Lookup(store: Store, key: string, res: Resources): (r: (Result<Option<BufferedImage>>, Store))
    ensures key in store && store[key].Some? ==> r == (Ok(store[key]), store)
    ensures r.0.Err? <==> !(key in store && store[key].Some?) && res(key).None?
    ensures r.0.Err? ==> r.0.error == IllegalArgument && r.1 == store
    ensures forall k :: k != key ==> (k in r.1 <==> k in store) && (k in r.1 ==> r.1[k] == store[k])
    ensures r.0.Ok? && r.0.value.Some? ==> key in r.1 && r.1[key] == r.0.value
    ensures !(key in store && store[key].Some?) && res(key).Some? && res(key).value.Decoded? ==>
              r == (Ok(res(key).value.image), store[key := res(key).value.image])
    ensures !(key in store && store[key].Some?) && res(key) == Some(IOFailure) ==> r == (Ok(None), store)
  {
    if key in store && store[key].Some? then (Ok(store[key]), store)
    else match res(key)
      case None => (Err(IllegalArgument), store)
      case Some(IOFailure) => (Ok(None), store)
      case Some(Decoded(img)) => (Ok(img), store[key := img])
  }

  /** Once get has returned a non-null image, asking again is a cache hit:
      the same image, the store unchanged, no resource read. */
  lemma LookupAgainHits(store: Store, key: string, res: Resources, res': Resources)
    requires Lookup(store, key, res).0.Ok? && Lookup(store, key, res).0.value.Some?
    ensures var s1 := Lookup(store, key, res).1;
            Lookup(s1, key, res') == (Lookup(store, key, res).0, s1)
  {
  }

  /** The key getSequential fetches for number i: get prepends the prefix
      to namePrefix + i + suffix. */
  function SequentialKey(prefix: string, namePrefix: string, i: int, suffix: string): string
  {
    prefix + (namePrefix + IntToString(i) + suffix)
  }

  /** getSequential's keys, for i from start to end. */
  function SequentialKeys(prefix: string, namePrefix: string, start: int, end: int, suffix: string): (ks: seq<string>)
    ensures |ks| == if end < start then 0 else end - start + 1
    ensures forall j :: 0 <= j < |ks| ==> ks[j] == SequentialKey(prefix, namePrefix, start + j, suffix)
    decreases if end < start then 0 else end - start + 1
  {
    if end < start then []
    else SequentialKeys(prefix, namePrefix, start, end - 1, suffix) + [SequentialKey(prefix, namePrefix, end, suffix)]
  }

  /** The keys of getSequential are pairwise distinct, so no image fetched
      by it overwrites another. */
  lemma SequentialKeysDistinct(prefix: string, namePrefix: string, start: int, end: int, suffix: string)
    ensures NoDup(SequentialKeys(prefix, namePrefix, start, end, suffix))
  {
    KeysNoDup(SequentialKeys(prefix, namePrefix, start, end, suffix), prefix, namePrefix, start, suffix);
  }

  lemma KeysNoDup(ks: seq<string>, prefix: string, namePrefix: string, start: int, suffix: string)
    requires forall j :: 0 <= j < |ks| ==> ks[j] == SequentialKey(prefix, namePrefix, start + j, suffix)
    ensures NoDup(ks)
  {
    forall i, j | 0 <= i < j < |ks|
      ensures ks[i] != ks[j]
    {
      DistinctNumbersDistinctKeys(prefix, namePrefix, start + i, start + j, suffix);
    }
  }

  /** Keys built around different numbers differ. */
  lemma DistinctNumbersDistinctKeys(prefix: string, namePrefix: string, a: int, b: int, suffix: string)
    requires a != b
    ensures SequentialKey(prefix, namePrefix, a, suffix) != SequentialKey(prefix, namePrefix, b, suffix)
  {
    var sa, sb := IntToString(a), IntToString(b);
    var p := prefix + namePrefix;
    assert SequentialKey(prefix, namePrefix, a, suffix) == p + sa + suffix;
    assert SequentialKey(prefix, namePrefix, b, suffix) == p + sb + suffix;
    if p + sa + suffix == p + sb + suffix {
      CancelAffixes(p, sa, sb, suffix);
      IntToStringInjective(a, b);
    }
  }

  /** Strings with the same prefix and suffix agree in between. */
  lemma CancelAffixes(p: string, a: string, b: string, q: string)
    requires p + a + q == p + b + q
    ensures a == b
  {
    var s, t := p + a + q, p + b + q;
    assert |a| == |b|;
    assert a == s[|p|..|p| + |a|];
    assert b == t[|p|..|p| + |b|];
  }

  /** get applied to each key in turn, stopping at the first exception
      (whose earlier fetches stay cached). */
  function FetchAll(store: Store, keys: seq<string>, res: Resources): (Result<seq<Option<BufferedImage>>>, Store)
  {
    if keys == [] then (Ok([]), store)
    else
      var prev := FetchAll(store, keys[..|keys| - 1], res);
      if prev.0.Err? then prev
      else
        var last := Lookup(prev.1, keys[|keys| - 1], res);
        if last.0.Err? then (Err(last.0.error), last.1)
        else (Ok(prev.0.value + [last.0.value]), last.1)
  }

  /** A successful getSequential returns one entry per key, and, its keys
      being distinct, every non-null image it returns is cached under its
      key afterwards. */
  lemma {:induction false} FetchAllCaches(store: Store, keys: seq<string>, res: Resources)
    requires NoDup(keys)
    ensures var r := FetchAll(store, keys, res);
            r.0.Ok? ==>
              && |r.0.value| == |keys|
              && forall j :: 0 <= j < |keys| && r.0.value[j].Some? ==>
                   keys[j] in r.1 && r.1[keys[j]] == r.0.value[j]
  {
    if keys != [] {
      var init := keys[..|keys| - 1];
      var k := keys[|keys| - 1];
      assert NoDup(init);
      FetchAllCaches(store, init, res);
      var prev := FetchAll(store, init, res);
      if prev.0.Ok? {
        var last := Lookup(prev.1, k, res);
        forall j | 0 <= j < |init|
          ensures k != init[j]
        {
          assert init[j] == keys[j];
        }
      }
    }
  }

  /** An exception part-way through ends getSequential with that exception
      and the store as it was then. */
  lemma {:induction false} FetchAllStops(store: Store, keys: seq<string>, i: nat, res: Resources)
    requires i <= |keys| && FetchAll(store, keys[..i], res).0.Err?
    ensures FetchAll(store, keys, res) == FetchAll(store, keys[..i], res)
  {
    if i < |keys| {
      assert keys[..|keys| - 1][..i] == keys[..i];
      FetchAllStops(store, keys[..|keys| - 1], i, res);
    } else {
      assert keys[..i] == keys;
    }
  }

  /** One more key: FetchAll over keys[..j+1] in terms of keys[..j]. */
  lemma FetchAllStep(store: Store, keys: seq<string>, j: nat, res: Resources)
    requires j < |keys|
    ensures var prev := FetchAll(store, keys[..j], res);
            FetchAll(store, keys[..j + 1], res) ==
              if prev.0.Err? then prev
              else
                var last := Lookup(prev.1, keys[j], res);
                if last.0.Err? then (Err(last.0.error), last.1)
                else (Ok(prev.0.value + [last.0.value]), last.1)
  {
    assert keys[..j + 1][..j] == keys[..j];
  }

  /** One iteration of getSequential: a successful get extends the fetched
      list, a failed one ends the whole fetch. */
  lemma FetchAllNext(store0: Store, keys: seq<string>, j: nat, res: Resources,
                     result: seq<Option<BufferedImage>>, store: Store,
                     image: Result<Option<BufferedImage>>, store': Store)
    requires j < |keys|
    requires (Ok(result), store) == FetchAll(store0, keys[..j], res)
    requires (image, store') == Lookup(store, keys[j], res)
    ensures image.Ok? ==> (Ok(result + [image.value]), store') == FetchAll(store0, keys[..j + 1], res)
    ensures image.Err? ==> (Err(image.error), store') == FetchAll(store0, keys, res)
  {
    FetchAllStep(store0, keys, j, res);
    if image.Err? {
      FetchAllStops(store0, keys, j + 1, res);
    }
  }

  // ---------------------------------------------------------------------
  // ImageCache
  // ---------------------------------------------------------------------

  /** Integer.MAX_VALUE. */
  const INT_MAX: int := 0x7fff_ffff

  class ImageCache {
    /** The class whose resources are loaded. */
    const clazz: nat
    var cache: Store
    var prefix: string

    /** The (private) constructor; a null prefix becomes "". A null class
        is rejected by Registry.Create. */
    constructor(clazz: nat, prefix: Option<string>)
      ensures this.clazz == clazz && cache == map[]
      ensures this.prefix == if prefix.Some? then prefix.value else ""
    {
      this.clazz := clazz;
      cache := map[];
      this.prefix := if prefix.Some? then prefix.value else "";
    }

    /** setPrefix: null becomes "". */
    method SetPrefix(p: Option<string>)
      modifies this`prefix
      ensures prefix == if p.Some? then p.value else ""
      decreases if p.None? then 1 else 0
    {
      if p.None? {
        SetPrefix(Some(""));
        return;
      }
      prefix := p.value;
    }

    /** get(fileName), reading resources through `res`. */
    method Get(fileName: string, res: Resources) returns (r: Result<Option<BufferedImage>>)
      modifies this`cache
      ensures (r, cache) == Lookup(old(cache), prefix + fileName, res)
    {
      var fullPath := prefix + fileName;
      if fullPath in cache && cache[fullPath].Some? {
        return Ok(cache[fullPath]);
      }
      var read := res(fullPath);
      if read.None? {
        return Err(IllegalArgument);
      }
      if read.value.IOFailure? {
        return Ok(None);
      }
      var image := read.value.image;
      cache := cache[fullPath := image];
      r := Ok(image);
    }

    /** getSequential: get for namePrefix + i + suffix, i from start to end
        inclusive, in order. */
    method GetSequential(namePrefix: string, start: int, end: int, suffix: string, res: Resources)
      returns (r: Result<seq<Option<BufferedImage>>>)
      requires end < INT_MAX
      modifies this`cache
      ensures (r, cache) == FetchAll(old(cache), SequentialKeys(prefix, namePrefix, start, end, suffix), res)
    {
      ghost var keys := SequentialKeys(prefix, namePrefix, start, end, suffix);
      var count := if end < start then 0 else end - start + 1;
      var result: seq<Option<BufferedImage>> := [];
      for j := 0 to count
        invariant (Ok(result), cache) == FetchAll(old(cache), keys[..j], res)
      {
        ghost var before := cache;
        var fileName := namePrefix + IntToString(start + j) + suffix;
        assert keys[j] == prefix + fileName;
        var image := Get(fileName, res);
        FetchAllNext(old(cache), keys, j, res, result, before, image, cache);
        if image.Err? {
          return Err(image.error);
        }
        result := result + [image.value];
      }
      assert keys[..count] == keys;
      r := Ok(result);
    }

    /** remove(fileName): the entry under prefix + fileName, now gone. */
    method Remove(fileName: string) returns (r: Option<BufferedImage>)
      modifies this`cache
      ensures var key := prefix + fileName;
              && r == (if key in old(cache) then old(cache)[key] else None)
              && key !in cache
              && forall k :: k != key ==> (k in cache <==> k in old(cache)) && (k in cache ==> cache[k] == old(cache)[k])
    {
      var key := prefix + fileName;
      r := if key in cache then cache[key] else None;
      cache := cache - {key};
    }

    /** The garbage collector clearing weakly held entries: any keys may
        vanish from the cache at any time. */
    method Evict(gone: set<string>)
      modifies this`cache
      ensures cache == old(cache) - gone
    {
      cache := cache - gone;
    }
  }

  /** Every non-null cached image is what the resource decodes to. */
  ghost predicate Coherent(store: Store, res: Resources)
  {
    forall k :: k in store && store[k].Some? ==> res(k) == Some(Decoded(store[k]))
  }

  /** While the cache agrees with the resources, entries the collector
      clears make no difference to what get returns, and the cache keeps
      agreeing with the resources. */
  lemma EvictionIsInvisible(store: Store, gone: set<string>, key: string, res: Resources)
    requires Coherent(store, res)
    ensures Lookup(store - gone, key, res).0 == Lookup(store, key, res).0
    ensures Coherent(Lookup(store, key, res).1, res) && Coherent(Lookup(store - gone, key, res).1, res)
  {
  }

  /** After remove, get reads the resource again. */
  lemma RemoveForcesReload(store: Store, key: string, res: Resources)
    requires res(key).Some? && res(key).value.Decoded?
    ensures Lookup(store - {key}, key, res) == (Ok(res(key).value.image), (store - {key})[key := res(key).value.image])
  {
  }

  /** The static map from class to cache behind create and forClass. */
  class Registry {
    var caches: map<nat, ImageCache>

    constructor()
      ensures caches == map[]
    {
      caches := map[];
    }

    /** create(clazz, prefix): a null class throws IllegalArgumentException
        and registers nothing; otherwise a fresh, empty cache replaces any
        earlier one for the class. */
    method Create(clazz: Option<nat>, prefix: Option<string>) returns (r: Result<ImageCache>)
      modifies this`caches
      ensures clazz.None? ==> r == Err(IllegalArgument) && caches == old(caches)
      ensures clazz.Some? ==>
                && r.Ok? && fresh(r.value)
                && r.value.clazz == clazz.value && r.value.cache == map[]
                && r.value.prefix == (if prefix.Some? then prefix.value else "")
                && caches == old(caches)[clazz.value := r.value]
    {
      if clazz.None? {
        return Err(IllegalArgument);
      }
      var cache := new ImageCache(clazz.value, prefix);
      caches := caches[clazz.value := cache];
      r := Ok(cache);
    }

    /** forClass: the cache last created for the class, if any. */
    function ForClass(clazz: Option<nat>): (r: Option<ImageCache>)
      reads this
      ensures r.Some? <==> clazz.Some? && clazz.value in caches
      ensures r.Some? ==> r.value == caches[clazz.value]
    {
      if clazz.Some? && clazz.value in caches then Some(caches[clazz.value]) else None
    }
  }
}
