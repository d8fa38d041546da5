/** The Redis read-through cache (app/core/cache.py): key composition, and a
    key/value store with get, set, delete and KEYS-pattern invalidation.
    A stored value is the JSON document `json.dumps` produced, modelled by the
    value it encodes (the type parameter `V`). Expiry is not modelled. */
module Cache {
  import opened Common

  /** One element of `key_parts`: a string or an integer. */
  datatype KeyPart = Str(s: string) | Int(i: int)

  predicate IsDigit(c: char)
  {
    '0' <= c <= '9'
  }

  /** The decimal digits of `n`, most significant first, as `str(n)`. */
  function NatToString(n: nat): (s: string)
    ensures |s| >= 1
    ensures forall k :: 0 <= k < |s| ==> IsDigit(s[k])
    ensures n < 10 <==> |s| == 1
    decreases n
  {
    if n < 10 then [Digit(n)] else NatToString(n / 10) + [Digit(n % 10)]
  }

  function Digit(d: nat): (c: char)
    requires d < 10
    ensures IsDigit(c) && (c as int) - ('0' as int) == d
  {
    (('0' as int) + d) as char
  }

  /** Reads back a string of decimal digits. */
  function ParseNat(s: string): nat
    requires forall k :: 0 <= k < |s| ==> IsDigit(s[k])
    decreases |s|
  {
    if s == [] then 0
    else 10 * ParseNat(s[..|s| - 1]) + DigitValue(s[|s| - 1])
  }

  function DigitValue(c: char): (d: nat)
    requires IsDigit(c)
    ensures d < 10 && Digit(d) == c
  {
    (c as int) - ('0' as int)
  }

  /** `str(i)` for an integer. */
  function IntToString(i: int): (s: string)
    ensures |s| >= 1 && (IsDigit(s[0]) || s[0] == '-')
  {
    if i < 0 then "-" + NatToString(-i) else NatToString(i)
  }

  /** Reading the digits of `str(n)` gives back `n`. */
  lemma {:induction false} ParseNatToString(n: nat)
    ensures ParseNat(NatToString(n)) == n
    decreases n
  {
    if n >= 10 {
      var s := NatToString(n);
      assert s[..|s| - 1] == NatToString(n / 10);
      ParseNatToString(n / 10);
    }
  }

  /** Distinct naturals have distinct decimal forms. */
  lemma NatToStringInjective(a: nat, b: nat)
    requires NatToString(a) == NatToString(b)
    ensures a == b
  {
    ParseNatToString(a);
    ParseNatToString(b);
  }

  /** `str` is injective on integers, so distinct ids give distinct keys. */
  lemma IntToStringInjective(i: int, j: int)
    requires IntToString(i) == IntToString(j)
    ensures i == j
  {
    if i < 0 && j < 0 {
      assert NatToString(-i) == IntToString(i)[1..];
      assert NatToString(-j) == IntToString(j)[1..];
      NatToStringInjective(-i, -j);
    } else if i >= 0 && j >= 0 {
      NatToStringInjective(i, j);
    }
  }

  function PartToString(p: KeyPart): string
  {
    match p
    case Str(s) => s
    case Int(i) => IntToString(i)
  }

  /** `sep.join(parts)`. */
  function Join(sep: string, parts: seq<string>): string
  {
    if parts == [] then ""
    else if |parts| == 1 then parts[0]
    else parts[0] + sep + Join(sep, parts[1..])
  }

  /** `_generate_key`: `":".join(str(part) for part in key_parts)`. */
  function GenerateKey(parts: seq<KeyPart>): (key: string)
    ensures |parts| == 2 ==> key == PartToString(parts[0]) + ":" + PartToString(parts[1])
  {
    var strs := seq(|parts|, k requires 0 <= k < |parts| => PartToString(parts[k]));
    assert |parts| == 2 ==> strs[1..] == [PartToString(parts[1])] && Join(":", strs[1..]) == strs[1];
    Join(":", strs)
  }

  /** The key of one entity, `"<prefix>:<id>"`, as every service builds it. */
  function EntityKey(prefix: string, id: int): (key: string)
    ensures key == prefix + ":" + IntToString(id)
  {
    GenerateKey([Str(prefix), Int(id)])
  }

  lemma GenerateKeyExample()
    ensures GenerateKey([Str("order"), Int(5)]) == "order:5"
  {
    assert NatToString(5) == "5";
  }

  /** A key built from `str(id)` (the delivery service) equals the key built
      from the integer itself. */
  lemma StringPartSameKey(prefix: string, id: int)
    ensures GenerateKey([Str(prefix), Str(IntToString(id))]) == EntityKey(prefix, id)
  {
  }

  /** Entity keys with the same prefix collide only for the same id. */
  lemma EntityKeyInjective(prefix: string, a: int, b: int)
    requires EntityKey(prefix, a) == EntityKey(prefix, b)
    ensures a == b
  {
    var ka, kb := EntityKey(prefix, a), EntityKey(prefix, b);
    assert IntToString(a) == ka[|prefix| + 1..];
    assert IntToString(b) == kb[|prefix| + 1..];
    IntToStringInjective(a, b);
  }

  /** Redis KEYS glob matching for `*` (any run) and `?` (any one
      character); every other character matches itself. */
  predicate GlobMatch(pattern: string, key: string)
    decreases |pattern| + |key|
  {
    if pattern == [] then key == []
    else if pattern[0] == '*' then
      GlobMatch(pattern[1..], key) || (key != [] && GlobMatch(pattern, key[1..]))
    else key != [] && (pattern[0] == '?' || pattern[0] == key[0]) && GlobMatch(pattern[1..], key[1..])
  }

  predicate NoWildcards(s: string)
  {
    forall k :: 0 <= k < |s| ==> s[k] != '*' && s[k] != '?'
  }

  lemma {:induction false} StarMatchesAll(key: string)
    ensures GlobMatch("*", key)
    decreases |key|
  {
    if key != [] {
      StarMatchesAll(key[1..]);
    }
  }

  /** The pattern `P*`, for a literal `P`, matches exactly the keys that
      start with `P`. */
  lemma {:induction false} PrefixPattern(prefix: string, key: string)
    requires NoWildcards(prefix)
    ensures GlobMatch(prefix + "*", key) <==> prefix <= key
    decreases |prefix|
  {
    if prefix == [] {
      assert prefix + "*" == "*";
      StarMatchesAll(key);
    } else {
      assert (prefix + "*")[1..] == prefix[1..] + "*";
      if key != [] && prefix[0] == key[0] {
        PrefixPattern(prefix[1..], key[1..]);
      }
    }
  }

  /** The keys left after `invalidate_pattern(pattern)`. */
  function RemoveMatching<V>(m: map<string, V>, pattern: string): (r: map<string, V>)
    ensures forall k :: k in r ==> k in m && r[k] == m[k]
  {
    map k | k in m && !GlobMatch(pattern, k) :: m[k]
  }

  /** Invalidating `P*` removes every key with prefix `P` and no other key. */
  lemma InvalidatePrefix<V>(m: map<string, V>, prefix: string, key: string)
    requires NoWildcards(prefix)
    ensures key in RemoveMatching(m, prefix + "*") <==> key in m && !(prefix <= key)
  {
    PrefixPattern(prefix, key);
  }

  /** Invalidating a prefix nothing carries leaves the cache as it was. */
  lemma InvalidateNoMatch<V>(m: map<string, V>, prefix: string)
    requires NoWildcards(prefix)
    requires forall k :: k in m ==> !(prefix <= k)
    ensures RemoveMatching(m, prefix + "*") == m
  {
    forall k | k in m
      ensures k in RemoveMatching(m, prefix + "*")
    {
      PrefixPattern(prefix, k);
    }
  }

  /** An entity key `"<prefix>:<id>"` is never matched by the list pattern
      `"<prefix>:list:*"` that the services invalidate. */
  lemma EntityKeySurvivesListPattern(prefix: string, id: int)
    requires NoWildcards(prefix)
    ensures !GlobMatch(prefix + ":list:*", EntityKey(prefix, id))
  {
    var lit := prefix + ":list:";
    assert NoWildcards(lit) by {
      assert forall k :: |prefix| <= k < |lit| ==> lit[k] in ":list:";
    }
    assert prefix + ":list:*" == lit + "*";
    var key := EntityKey(prefix, id);
    PrefixPattern(lit, key);
    assert key[|prefix| + 1] == IntToString(id)[0] != 'l' == lit[|prefix| + 1];
  }

  /** Writing a key twice leaves the second value. */
  lemma OverwriteKey<K, V>(m: map<K, V>, k: K, a: V, b: V)
    ensures m[k := a][k := b] == m[k := b]
  {
  }

  /** The cache itself: the Redis key space as a map. */
  class RedisCache<V> {
    var entries: map<string, V>

    constructor ()
      ensures entries == map[]
    {
      entries := map[];
    }

    /** `get`: the stored value, or `None` for a key never set or deleted. */
    method Get(parts: seq<KeyPart>) returns (r: Option<V>)
      ensures GenerateKey(parts) in entries ==> r == Some(entries[GenerateKey(parts)])
      ensures GenerateKey(parts) !in entries ==> r == None
    {
      var key := GenerateKey(parts);
      r := if key in entries then Some(entries[key]) else None;
    }

    /** `set`: stores (or overwrites) one key. */
    method Set(parts: seq<KeyPart>, value: V)
      modifies this
      ensures entries == old(entries)[GenerateKey(parts) := value]
    {
      entries := entries[GenerateKey(parts) := value];
    }

    /** `delete`: removes exactly one key. */
    method Delete(parts: seq<KeyPart>)
      modifies this
      ensures entries == old(entries) - {GenerateKey(parts)}
    {
      entries := entries - {GenerateKey(parts)};
    }

    /** `invalidate_pattern`: deletes every key the pattern matches. */
    method InvalidatePattern(pattern: string)
      modifies this
      ensures entries == RemoveMatching(old(entries), pattern)
    {
      var keys := set k | k in entries && GlobMatch(pattern, k);
      if keys != {} {
        entries := entries - keys;
      }
      forall k | k in old(entries)
        ensures k in entries <==> !GlobMatch(pattern, k)
      {
        assert k in keys <==> GlobMatch(pattern, k);
      }
    }
  }

  /** Set, then get, returns the value set; a second set overwrites; a delete
      makes the key miss again, and other keys are untouched throughout. */
  method SetGetDelete<V>(c: RedisCache<V>, parts: seq<KeyPart>, other: seq<KeyPart>, v: V, w: V)
    requires GenerateKey(other) != GenerateKey(parts)
    modifies c
    ensures GenerateKey(other) in c.entries <==> GenerateKey(other) in old(c.entries)
    ensures GenerateKey(other) in c.entries ==> c.entries[GenerateKey(other)] == old(c.entries)[GenerateKey(other)]
    ensures c.entries == old(c.entries) - {GenerateKey(parts)}
  {
    c.Set(parts, v);
    var r := c.Get(parts);
    assert r == Some(v);
    c.Set(parts, w);
    r := c.Get(parts);
    assert r == Some(w);
    c.Delete(parts);
    r := c.Get(parts);
    assert r == None;
  }
}
