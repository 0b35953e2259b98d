/**
 * The symbol table: label names to word addresses. A label registered in a
 * scope (block) is stored under the key `"<block>-<name>"`; a bind entry
 * redirects a lookup of one name to another key (used for START labels).
 */
module LabelMaps {
  import opened Common
  import opened JsText

  /** The key of `name` in block `block`. */
  function BlockedName(name: string, block: int): string
  {
    IntToString(block) + "-" + name
  }

  /** The key a plain `add(key, _, block)` writes. */
  function AddKey(key: string, block: Option<int>): string
  {
    if block.Some? then BlockedName(key, block.value) else key
  }

  /**
   * `get(key, block)`: a bound key is looked up through its bind target,
   * otherwise under its scoped key (or bare key without a block); when that
   * key has no entry the bare key is tried.
   */
  function Lookup(entries: map<string, int>, binds: map<string, string>, key: string, block: Option<int>): Option<int>
  {
    var k := if key in binds then binds[key] else AddKey(key, block);
    if k in entries then Some(entries[k])
    else if key in entries then Some(entries[key])
    else None
  }

  /** `new Map(entries)`: later pairs win. */
  function MapOfEntries(es: seq<(string, int)>): map<string, int>
  {
    if es == [] then map[] else MapOfEntries(es[..|es| - 1])[es[|es| - 1].0 := es[|es| - 1].1]
  }

  class LabelMap {
    var entries: map<string, int>
    var binds: map<string, string>

    constructor()
      ensures entries == map[] && binds == map[]
    {
      entries := map[];
      binds := map[];
    }

    constructor FromEntries(es: seq<(string, int)>)
      ensures entries == MapOfEntries(es) && binds == map[]
    {
      entries := MapOfEntries(es);
      binds := map[];
    }

    /** `has(key)`: a bind source or a bare key; scoped entries are not seen under their bare name. */
    function Has(key: string): (r: bool)
      reads this
      ensures r <==> key in binds || key in entries
    {
      key in binds || key in entries
    }

    function Get(key: string, block: Option<int>): (r: Option<int>)
      reads this
      ensures r == Lookup(entries, binds, key, block)
    {
      Lookup(entries, binds, key, block)
    }

    /** `add(key, address, block)` sets exactly one entry and leaves the rest alone. */
    method Add(key: string, address: int, block: Option<int>)
      modifies this
      ensures entries == old(entries)[AddKey(key, block) := address]
      ensures binds == old(binds)
      ensures forall k :: k != AddKey(key, block) ==> (k in entries <==> k in old(entries))
      ensures forall k :: k != AddKey(key, block) && k in entries ==> entries[k] == old(entries)[k]
    {
      if block.None? {
        entries := entries[key := address];
      } else {
        entries := entries[BlockedName(key, block.value) := address];
      }
    }

    /** `bindAdd(key, bindTo, block)` sets exactly one bind entry, to `bindTo` or to its scoped key. */
    method BindAdd(key: string, bindTo: string, block: Option<int>)
      modifies this
      ensures binds == old(binds)[key := AddKey(bindTo, block)]
      ensures entries == old(entries)
    {
      if block.None? {
        binds := binds[key := bindTo];
      } else {
        binds := binds[key := BlockedName(bindTo, block.value)];
      }
    }
  }

  /** After `add(k, a)`, `get(k)` is `a` when `k` has no bind entry. */
  lemma AddThenGet(entries: map<string, int>, binds: map<string, string>, k: string, a: int)
    requires k !in binds
    ensures Lookup(entries[k := a], binds, k, None) == Some(a)
  {
  }

  /** After `add(k, a, b)`, `get(k, b)` is `a` when `k` is unbound, and the entry sits under `"b-k"`. */
  lemma AddScopedThenGet(entries: map<string, int>, binds: map<string, string>, k: string, a: int, b: int)
    requires k !in binds
    ensures AddKey(k, Some(b)) == IntToString(b) + "-" + k
    ensures Lookup(entries[BlockedName(k, b) := a], binds, k, Some(b)) == Some(a)
  {
  }

  /** After `bindAdd(k, t)` and `add(t, a)`, `get(k)` is `a`, in any block. */
  lemma BindThenGet(entries: map<string, int>, binds: map<string, string>, k: string, t: string, a: int, block: Option<int>)
    ensures Lookup(entries[t := a], binds[k := t], k, block) == Some(a)
  {
  }

  /** `bindAdd(k, t, b)` redirects `k` to the scoped key `"b-t"`, whatever block the lookup names. */
  lemma BindScopedRedirects(entries: map<string, int>, binds: map<string, string>, k: string, t: string, b: int, a: int, block: Option<int>)
    ensures Lookup(entries[BlockedName(t, b) := a], binds[k := BlockedName(t, b)], k, block) == Some(a)
  {
  }

  /** When the redirected or scoped key has no entry, the bare key is used, and none at all gives `undefined`. */
  lemma LookupFallback(entries: map<string, int>, binds: map<string, string>, key: string, block: Option<int>)
    ensures var k := if key in binds then binds[key] else AddKey(key, block);
      k !in entries ==> Lookup(entries, binds, key, block) == (if key in entries then Some(entries[key]) else None)
    ensures Lookup(entries, binds, key, block).Some? ==>
      (key in entries || (key in binds && binds[key] in entries) || (key !in binds && AddKey(key, block) in entries))
  {
  }

  /**
   * Keys of different labels, or of the same label in different blocks, never
   * collide: `"<b>-<name>"` determines both the block and the name.
   */
  lemma BlockedNameInjective(n1: string, b1: nat, n2: string, b2: nat)
    requires BlockedName(n1, b1) == BlockedName(n2, b2)
    ensures n1 == n2 && b1 == b2
  {
    var d1, d2 := NatToString(b1), NatToString(b2);
    var s := BlockedName(n1, b1);
    assert s == d1 + "-" + n1 && s == d2 + "-" + n2;
    DashPosition(d1, n1);
    DashPosition(d2, n2);
    assert d1 == s[..|d1|] == d2;
    assert n1 == s[|d1| + 1..] == n2;
    DigitsValueOfNatToString(b1);
    DigitsValueOfNatToString(b2);
  }

  /** A bare label is never mistaken for a scoped key: a name without `-` differs from every `"<b>-<name>"`. */
  lemma BareKeyIsNotScoped(key: string, name: string, b: int)
    requires '-' !in key
    ensures key != BlockedName(name, b)
  {
    var s := BlockedName(name, b);
    if b < 0 {
      assert s[0] == '-';
    } else {
      assert s[|NatToString(b)|] == '-';
    }
  }

  /** Position of the first `-` in `s` (or `|s|`). */
  function DashIndex(s: string): nat
  {
    if s == [] || s[0] == '-' then 0 else 1 + DashIndex(s[1..])
  }

  lemma {:induction false} DashPosition(d: string, n: string)
    requires '-' !in d
    ensures DashIndex(d + "-" + n) == |d|
  {
    if d != [] {
      assert (d + "-" + n)[1..] == d[1..] + "-" + n;
      DashPosition(d[1..], n);
    }
  }
}
