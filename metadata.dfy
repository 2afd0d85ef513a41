/**
 * The overlay of the configuration onto `metadata.yaml` (`update_metadata`).
 *
 * The parsed YAML document is a Python dictionary: an insertion-ordered mapping from keys
 * to values. `dict.update` keeps the position of a key that is already present and appends
 * a key that is not, and the document is dumped back in that order.
 */
module Metadata {
  import opened Text
  import opened Settings

  /** A value in the metadata mapping; values the overlay never writes are carried as `Foreign`. */
  datatype Value = Str(s: string) | StrList(items: seq<string>) | Foreign(node: string)

  /** An insertion-ordered dictionary: its keys in order, and the value of each. */
  datatype Mapping = Mapping(keys: seq<string>, values: map<string, Value>) {
    /** The order lists each key of the dictionary exactly once. */
    ghost predicate Valid() {
      && (forall k :: k in values <==> k in keys)
      && (forall i, j :: 0 <= i < j < |keys| ==> keys[i] != keys[j])
    }
  }

  const Empty := Mapping([], map[])

  /** `d[key] = value`: an existing key keeps its position, a new key goes last. */
  function Put(d: Mapping, key: string, value: Value): (r: Mapping)
    requires d.Valid()
    ensures r.Valid()
    ensures r.values == d.values[key := value]
    ensures key in d.values ==> r.keys == d.keys
    ensures key !in d.values ==> r.keys == d.keys + [key]
  {
    if key in d.values then Mapping(d.keys, d.values[key := value])
    else Mapping(d.keys + [key], d.values[key := value])
  }

  /** `d.update(pairs)`: the pairs stored one after the other, in order. */
  function Overlay(d: Mapping, pairs: seq<(string, Value)>): (r: Mapping)
    requires d.Valid()
    ensures r.Valid()
    decreases |pairs|
  {
    if pairs == [] then d else Overlay(Put(d, pairs[0].0, pairs[0].1), pairs[1..])
  }

  /** The mapping the pairs describe on their own, a later pair winning over an earlier one. */
  function PairsMap(pairs: seq<(string, Value)>): map<string, Value>
    decreases |pairs|
  {
    if pairs == [] then map[] else map[pairs[0].0 := pairs[0].1] + PairsMap(pairs[1..])
  }

  /** The keys of the pairs that are not in `present`, each once, in order of first appearance. */
  function Fresh(present: set<string>, pairs: seq<(string, Value)>): seq<string>
    decreases |pairs|
  {
    if pairs == [] then []
    else if pairs[0].0 in present then Fresh(present, pairs[1..])
    else [pairs[0].0] + Fresh(present + {pairs[0].0}, pairs[1..])
  }

  /** The keys of the pairs, in order. */
  function KeysOf(pairs: seq<(string, Value)>): (ks: seq<string>)
    ensures |ks| == |pairs| && forall i :: 0 <= i < |pairs| ==> ks[i] == pairs[i].0
    decreases |pairs|
  {
    if pairs == [] then [] else [pairs[0].0] + KeysOf(pairs[1..])
  }

  predicate Distinct(ks: seq<string>) {
    forall i, j :: 0 <= i < j < |ks| ==> ks[i] != ks[j]
  }

  /** Storing a key and then overlaying a map is overlaying the map that stores it first. */
  lemma StoreThenUnion(m: map<string, Value>, k: string, v: Value, later: map<string, Value>)
    ensures m[k := v] + later == m + (map[k := v] + later)
  {
    var a := m[k := v] + later;
    var b := m + (map[k := v] + later);
    assert a.Keys == b.Keys;
    forall key | key in a ensures a[key] == b[key] {
    }
  }

  /** The values after the update: the pairs override, every other key keeps its value. */
  lemma {:induction false} OverlayValues(d: Mapping, pairs: seq<(string, Value)>)
    requires d.Valid()
    ensures Overlay(d, pairs).values == d.values + PairsMap(pairs)
    decreases |pairs|
  {
    if pairs != [] {
      var next := Put(d, pairs[0].0, pairs[0].1);
      OverlayValues(next, pairs[1..]);
      StoreThenUnion(d.values, pairs[0].0, pairs[0].1, PairsMap(pairs[1..]));
    }
  }

  /** The first pair adds its key to the order when it is new, and nothing when it is not. */
  lemma FreshFirst(keys: seq<string>, present: set<string>, pairs: seq<(string, Value)>)
    requires pairs != []
    ensures pairs[0].0 in present ==> keys + Fresh(present, pairs) == keys + Fresh(present, pairs[1..])
    ensures pairs[0].0 !in present ==>
      keys + Fresh(present, pairs) == (keys + [pairs[0].0]) + Fresh(present + {pairs[0].0}, pairs[1..])
  {
    var k := pairs[0].0;
    if k !in present {
      var later := Fresh(present + {k}, pairs[1..]);
      assert Fresh(present, pairs) == [k] + later;
      assert (keys + [k]) + later == keys + ([k] + later);
    }
  }

  /** The order after the update: the old order, then the keys that were new, in order of arrival. */
  lemma {:induction false} OverlayKeys(d: Mapping, pairs: seq<(string, Value)>)
    requires d.Valid()
    ensures Overlay(d, pairs).keys == d.keys + Fresh(d.values.Keys, pairs)
    decreases |pairs|
  {
    if pairs != [] {
      var k := pairs[0].0;
      var next := Put(d, k, pairs[0].1);
      OverlayKeys(next, pairs[1..]);
      FreshFirst(d.keys, d.values.Keys, pairs);
      if k in d.values {
        assert next.values.Keys == d.values.Keys;
      } else {
        assert next.values.Keys == d.values.Keys + {k};
      }
    }
  }

  /** The mapping the pairs describe has exactly their keys. */
  lemma {:induction false} PairsMapKeys(pairs: seq<(string, Value)>)
    ensures forall k :: k in PairsMap(pairs) <==> k in KeysOf(pairs)
    decreases |pairs|
  {
    if pairs != [] {
      PairsMapKeys(pairs[1..]);
      assert KeysOf(pairs) == [pairs[0].0] + KeysOf(pairs[1..]);
    }
  }

  /** With distinct keys, each key maps to the value paired with it. */
  lemma {:induction false} PairsMapAt(pairs: seq<(string, Value)>, i: nat)
    requires Distinct(KeysOf(pairs)) && i < |pairs|
    ensures pairs[i].0 in PairsMap(pairs) && PairsMap(pairs)[pairs[i].0] == pairs[i].1
    decreases |pairs|
  {
    var ks := KeysOf(pairs);
    var rest := PairsMap(pairs[1..]);
    assert KeysOf(pairs[1..]) == ks[1..];
    assert Distinct(ks[1..]) by {
      forall a, b | 0 <= a < b < |ks| - 1 ensures ks[1..][a] != ks[1..][b] {
        assert ks[a + 1] != ks[b + 1];
      }
    }
    if i == 0 {
      PairsMapKeys(pairs[1..]);
      assert pairs[0].0 !in rest by {
        forall j | 0 <= j < |ks| - 1 ensures ks[1..][j] != ks[0] {
          assert ks[0] != ks[j + 1];
        }
      }
    } else {
      PairsMapAt(pairs[1..], i - 1);
      assert pairs[1..][i - 1] == pairs[i];
    }
  }

  /** Dropping a key that is not wanted from the present set changes nothing missing. */
  lemma {:induction false} MissingIgnores(present: set<string>, k: string, wanted: seq<string>)
    requires k !in wanted
    ensures Missing(present + {k}, wanted) == Missing(present, wanted)
    decreases |wanted|
  {
    if wanted != [] {
      MissingIgnores(present, k, wanted[1..]);
    }
  }

  /** With distinct keys, the new keys are those missing from the present set, in order. */
  lemma {:induction false} FreshDistinct(present: set<string>, pairs: seq<(string, Value)>)
    requires Distinct(KeysOf(pairs))
    ensures Fresh(present, pairs) == Missing(present, KeysOf(pairs))
    decreases |pairs|
  {
    if pairs != [] {
      var ks := KeysOf(pairs);
      assert KeysOf(pairs[1..]) == ks[1..];
      FreshDistinct(present, pairs[1..]);
      if ks[0] !in present {
        assert ks[0] !in ks[1..];
        FreshDistinct(present + {ks[0]}, pairs[1..]);
        MissingIgnores(present, ks[0], ks[1..]);
      }
    }
  }

  /** No key is new when every key of the pairs is already present. */
  lemma {:induction false} NothingFresh(present: set<string>, pairs: seq<(string, Value)>)
    requires forall k :: k in KeysOf(pairs) ==> k in present
    ensures Fresh(present, pairs) == []
    decreases |pairs|
  {
    if pairs != [] {
      assert KeysOf(pairs) == [pairs[0].0] + KeysOf(pairs[1..]);
      NothingFresh(present, pairs[1..]);
    }
  }

  /** Overlaying the same map a second time adds nothing. */
  lemma UnionAbsorbs(m: map<string, Value>, later: map<string, Value>)
    ensures (m + later) + later == m + later
  {
    var once := m + later;
    assert (once + later).Keys == once.Keys;
    forall k | k in once ensures (once + later)[k] == once[k] {
    }
  }

  /** Updating twice with the same pairs gives what updating once gives. */
  lemma OverlayIdempotent(d: Mapping, pairs: seq<(string, Value)>)
    requires d.Valid()
    ensures Overlay(Overlay(d, pairs), pairs) == Overlay(d, pairs)
  {
    var once := Overlay(d, pairs);
    OverlayValues(d, pairs);
    OverlayValues(once, pairs);
    UnionAbsorbs(d.values, PairsMap(pairs));
    PairsMapKeys(pairs);
    OverlayKeys(once, pairs);
    NothingFresh(once.values.Keys, pairs);
  }

  /** The five keys the initializer owns, in the order it writes them. */
  const OwnedKeys: seq<string> := ["title", "author", "publication_date", "publisher", "rights"]

  /** The copyright line: the year, then the authors separated by ", ". */
  function Rights(authors: seq<string>, year: nat): string {
    "© " + Decimal(year) + " " + Join(authors, ", ")
  }

  /** The pairs written into the metadata, in the order of the update. */
  function Owned(config: Config, year: nat): seq<(string, Value)> {
    [ ("title", Str(config.title)),
      ("author", StrList(config.authors)),
      ("publication_date", Str(config.date)),
      ("publisher", Str(config.publisher)),
      ("rights", Str(Rights(config.authors, year))) ]
  }

  /** The metadata after `update_metadata`. */
  function Updated(d: Mapping, config: Config, year: nat): (r: Mapping)
    requires d.Valid()
    ensures r.Valid()
  {
    Overlay(d, Owned(config, year))
  }

  /** The owned pairs carry the owned keys, each once. */
  lemma OwnedKeysOf(config: Config, year: nat)
    ensures KeysOf(Owned(config, year)) == OwnedKeys
    ensures Distinct(OwnedKeys)
  {
  }

  /**
   * After the update the five owned keys hold the configuration's title, authors, date,
   * publisher and copyright line.
   */
  lemma UpdatedValues(d: Mapping, config: Config, year: nat)
    requires d.Valid()
    ensures var r := Updated(d, config, year).values;
      && "title" in r && r["title"] == Str(config.title)
      && "author" in r && r["author"] == StrList(config.authors)
      && "publication_date" in r && r["publication_date"] == Str(config.date)
      && "publisher" in r && r["publisher"] == Str(config.publisher)
      && "rights" in r && r["rights"] == Str(Rights(config.authors, year))
  {
    var pairs := Owned(config, year);
    OverlayValues(d, pairs);
    OwnedKeysOf(config, year);
    PairsMapAt(pairs, 0);
    PairsMapAt(pairs, 1);
    PairsMapAt(pairs, 2);
    PairsMapAt(pairs, 3);
    PairsMapAt(pairs, 4);
  }

  /**
   * The update adds the owned keys and no other; every key it does not own keeps the value
   * it had.
   */
  lemma UpdatedForeign(d: Mapping, config: Config, year: nat)
    requires d.Valid()
    ensures var r := Updated(d, config, year).values;
      && (forall k :: k in r <==> k in d.values || k in OwnedKeys)
      && (forall k :: k in d.values && k !in OwnedKeys ==> r[k] == d.values[k])
  {
    var pairs := Owned(config, year);
    OverlayValues(d, pairs);
    OwnedKeysOf(config, year);
    PairsMapKeys(pairs);
  }

  /**
   * After the update the keys keep their order, and the owned keys that were missing follow
   * them in the order title, author, publication_date, publisher, rights.
   */
  lemma UpdatedKeys(d: Mapping, config: Config, year: nat)
    requires d.Valid()
    ensures Updated(d, config, year).keys == d.keys + Missing(d.values.Keys, OwnedKeys)
  {
    OverlayKeys(d, Owned(config, year));
    OwnedKeysOf(config, year);
    FreshDistinct(d.values.Keys, Owned(config, year));
  }

  /** The keys of `wanted` outside `present`, in order. */
  function Missing(present: set<string>, wanted: seq<string>): (r: seq<string>)
    ensures forall k :: k in r <==> k in wanted && k !in present
    decreases |wanted|
  {
    if wanted == [] then []
    else (if wanted[0] in present then [] else [wanted[0]]) + Missing(present, wanted[1..])
  }

  /** Running the update twice with the same configuration and year is the same as running it once. */
  lemma UpdateIdempotent(d: Mapping, config: Config, year: nat)
    requires d.Valid()
    ensures Updated(Updated(d, config, year), config, year) == Updated(d, config, year)
  {
    OverlayIdempotent(d, Owned(config, year));
  }

  /**
   * The loaded metadata dictionary, updated in place. `keys` and `values` together are the
   * dictionary; `Contents` reads them as a value.
   */
  class Dict {
    var keys: seq<string>
    var values: map<string, Value>

    function Contents(): Mapping
      reads this
    {
      Mapping(keys, values)
    }

    constructor (d: Mapping)
      ensures Contents() == d
    {
      keys := d.keys;
      values := d.values;
    }

    /** `dict.update(pairs)`. */
    method Update(pairs: seq<(string, Value)>)
      requires Contents().Valid()
      modifies this
      ensures Contents() == Overlay(old(Contents()), pairs)
    {
      var i := 0;
      while i < |pairs|
        invariant 0 <= i <= |pairs|
        invariant Contents().Valid()
        invariant Overlay(Contents(), pairs[i..]) == Overlay(old(Contents()), pairs)
      {
        var (key, value) := pairs[i];
        assert pairs[i..][1..] == pairs[i + 1..];
        ghost var next := Put(Contents(), key, value);
        if key !in values {
          keys := keys + [key];
        }
        values := values[key := value];
        assert Contents() == next;
        i := i + 1;
      }
    }
  }

  /** `update_metadata` on the loaded dictionary: the owned pairs written in place. */
  method UpdateMetadata(dict: Dict, config: Config, year: nat)
    requires dict.Contents().Valid()
    modifies dict
    ensures dict.Contents() == Updated(old(dict.Contents()), config, year)
  {
    dict.Update(Owned(config, year));
  }
}
