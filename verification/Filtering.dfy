/** Filters and the payload index. */
module Filters {
  import opened Bytes
  import opened LogFormat

  // The index answers which vectors a filter matches without reading payloads.

  datatype Json =
    | Null
    | Boolean(bool)
    | Integer(int)
    | Float(real)
    | Words(chars: string)
    | List(items: seq<Json>)
    | Object(fields: map<string, Json>)

  const MAX_INDEXED_CHARS := 128

  /** A value as Python compares it: True equals 1, and False equals 0. */
  datatype Value = Number(int) | Chars(string)

  datatype Key = Key(field: string, kind: string, value: Value)

  /** `_key`. */
  function KeyOf(field: string, value: Json): (key: Option<Key>)
    ensures key.Some? ==> key.value.field == field
  {
    match value
    case Words(s) => if |s| <= MAX_INDEXED_CHARS then Some(Key(field, "str", Chars(s))) else None
    case Boolean(b) => Some(Key(field, "bool", Number(if b then 1 else 0)))
    case Integer(n) => Some(Key(field, "int", Number(n)))
    case _ => None
  }

  predicate Indexable(value: Json) {
    value.Boolean? || value.Integer? || (value.Words? && |value.chars| <= MAX_INDEXED_CHARS)
  }

  /** A key names one value of one field: True and 1 have different ones. */
  lemma KeysKeepTypesApart(f: string, g: string, x: Json, y: Json)
    requires KeyOf(f, x).Some? || KeyOf(g, y).Some?
    ensures KeyOf(f, x) == KeyOf(g, y) <==> f == g && x == y
  {
    assert "str"[0] != "bool"[0] && "str"[0] != "int"[0] && "bool"[0] != "int"[0];
  }

  // ---------------------------------------------------------------- filters

  /** A filter in normal form: every field with the values it may have. */
  type Filter = map<string, seq<Json>>

  function Wanted(value: Json): seq<Json> {
    if value.List? then value.items else [value]
  }

  predicate Answerable(value: Json) {
    Wanted(value) != [] && forall v :: v in Wanted(value) ==> Indexable(v)
  }

  datatype Normalized = NoFilter | Normal(filter: Filter) | Refused(field: string)

  /**
    `normalize_filter`: refused exactly if some field has no values, or one the index does not
    hold; nothing is dropped, and what is already in normal form stays as it is.
    */
  method NormalizeFilter(where: map<string, Json>) returns (r: Normalized)
    ensures r.NoFilter? <==> where == map[]
    ensures r.Refused? <==> exists f :: f in where && !Answerable(where[f])
    ensures r.Refused? ==> r.field in where && !Answerable(where[r.field])
    ensures r.Normal? ==>
              r.filter.Keys == where.Keys
              && forall f :: f in where ==> r.filter[f] == if where[f].List? then where[f].items else [where[f]]
    ensures r.Normal? ==> IsNormal(r.filter)
  {
    if where == map[] {
      return NoFilter;
    }
    var normalized: Filter := map[];
    var rest := where.Keys;
    while rest != {}
      invariant rest <= where.Keys && normalized.Keys == where.Keys - rest
      invariant forall f :: f in normalized ==> normalized[f] == Wanted(where[f]) && Answerable(where[f])
      decreases |rest|
    {
      var field :| field in rest;
      var values := Wanted(where[field]);
      if values == [] || exists v :: v in values && KeyOf(field, v).None? {
        return Refused(field);
      }
      normalized := normalized[field := values];
      rest := rest - {field};
    }
    return Normal(normalized);
  }

  predicate IsNormal(filter: Filter) {
    forall f :: f in filter ==> filter[f] != [] && forall v :: v in filter[f] ==> Indexable(v)
  }

  // ---------------------------------------------------------------- what a filter means

  /** Read directly: the field is there, and it is the value, or a list with the value in it. */
  predicate HasValue(payload: Json, field: string, value: Json) {
    && payload.Object? && field in payload.fields
    && var held := payload.fields[field];
       if held.List? then value in held.items else value == held
  }

  /** All fields, each with any of its values. */
  predicate Matches(filter: Filter, payload: Json) {
    forall f :: f in filter ==> exists v :: v in filter[f] && HasValue(payload, f, v)
  }

  predicate HasKey(payload: Json, key: Key) {
    && payload.Object? && key.field in payload.fields
    && exists item :: item in Wanted(payload.fields[key.field]) && KeyOf(key.field, item) == Some(key)
  }

  /** For a value a filter may ask for, looking up its key is looking for the value. */
  lemma KeyStandsForValue(payload: Json, field: string, value: Json)
    requires Indexable(value)
    ensures KeyOf(field, value).Some?
    ensures HasKey(payload, KeyOf(field, value).value) <==> HasValue(payload, field, value)
  {
    if payload.Object? && field in payload.fields {
      forall item | item in Wanted(payload.fields[field])
        ensures KeyOf(field, item) == KeyOf(field, value) <==> item == value
      {
        KeysKeepTypesApart(field, field, item, value);
      }
      if HasKey(payload, KeyOf(field, value).value) {
        var item :| item in Wanted(payload.fields[field]) && KeyOf(field, item) == KeyOf(field, value);
      }
    }
  }

  // ---------------------------------------------------------------- the index

  function IdsOf(ids: map<Key, seq<nat>>, key: Key): seq<nat> {
    if key in ids then ids[key] else []
  }

  /** The payload of a vector, if it has one. */
  function Parsed(read: Text -> Json, text: Text): (json: Json)
    ensures if text == [] then !json.Object? else json == read(text)
  {
    if text == [] then Null else read(text)
  }

  ghost predicate Indexes(ids: map<Key, seq<nat>>, read: Text -> Json, payloads: seq<Text>) {
    forall key, id: nat {:trigger id in IdsOf(ids, key)} ::
      id in IdsOf(ids, key) <==> id < |payloads| && HasKey(Parsed(read, payloads[id]), key)
  }

  /** One of the items has this key. */
  predicate AmongKeys(field: string, items: seq<Json>, key: Key) {
    exists item :: item in items && KeyOf(field, item) == Some(key)
  }

  /** The id has been entered under exactly the keys for which `entered` holds. */
  ghost predicate Entered(before: map<Key, seq<nat>>, later: map<Key, seq<nat>>, id: nat, entered: Key -> bool) {
    forall key, other: nat ::
      other in IdsOf(later, key) <==> other in IdsOf(before, key) || (other == id && entered(key))
  }

  /** Fields of the payload gone through so far hold the key. */
  predicate HasKeyIn(payload: Json, fields: set<string>, key: Key)
    requires payload.Object?
  {
    key.field in fields && HasKey(payload, key)
  }

  class PayloadIndex {
    const read: Text -> Json              // json.loads
    var ids: map<Key, seq<nat>>
    var indexed: nat
    ghost var payloads: seq<Text>         // those indexed so far

    ghost predicate Valid()
      reads this
    {
      indexed == |payloads| && Indexes(ids, read, payloads)
    }

    constructor (read: Text -> Json)
      ensures Valid() && payloads == [] && this.read == read
    {
      this.read := read;
      ids, indexed, payloads := map[], 0, [];
      new;
      assert forall key :: IdsOf(ids, key) == [];
    }

    /** The inner loop of `add`, over the items of one field. */
    method AddItems(id: nat, field: string, items: seq<Json>)
      modifies `ids
      ensures Entered(old(ids), ids, id, key => AmongKeys(field, items, key))
    {
      for i := 0 to |items|
        invariant Entered(old(ids), ids, id, key => AmongKeys(field, items[..i], key))
      {
        var key := KeyOf(field, items[i]);
        ghost var before := ids;
        if key.Some? {
          ids := ids[key.value := IdsOf(ids, key.value) + [id]];
        }
        assert items[..i + 1] == items[..i] + [items[i]];
        forall k, other
          ensures other in IdsOf(ids, k) <==>
                    other in IdsOf(old(ids), k) || (other == id && AmongKeys(field, items[..i + 1], k))
        {
          assert AmongKeys(field, items[..i + 1], k) <==> AmongKeys(field, items[..i], k) || key == Some(k);
          assert other in IdsOf(before, k) <==>
                   other in IdsOf(old(ids), k) || (other == id && (k => AmongKeys(field, items[..i], k))(k));
        }
      }
      assert items[..|items|] == items;
    }

    /** `add`: enter the id under every key of its payload. */
    method Add(id: nat, text: Text)
      modifies `ids
      ensures Entered(old(ids), ids, id, key => HasKey(Parsed(read, text), key))
    {
      if text == [] {
        return;
      }
      var payload := read(text);
      if !payload.Object? {
        return;
      }
      var rest := payload.fields.Keys;
      while rest != {}
        invariant rest <= payload.fields.Keys
        invariant Entered(old(ids), ids, id, key => HasKeyIn(payload, payload.fields.Keys - rest, key))
        decreases |rest|
      {
        var field :| field in rest;
        ghost var before := ids;
        AddItems(id, field, Wanted(payload.fields[field]));
        rest := rest - {field};
      }
      assert payload.fields.Keys - {} == payload.fields.Keys;
    }

    /**
      `catch_up`: index what has been added to the payloads since the last time. However the
      indexing is split over calls, the index says the same.
      */
    method CatchUp(all: seq<Text>)
      requires Valid() && payloads <= all
      modifies this
      ensures Valid() && payloads == all
    {
      assert all[..indexed] == payloads;
      for id := indexed to |all|
        invariant indexed == old(indexed) && payloads == old(payloads)
        invariant Indexes(ids, read, all[..id])
      {
        ghost var before := ids;
        Add(id, all[id]);
        IndexGrows(before, ids, read, all, id);
      }
      assert all[..|all|] == all;
      indexed := |all|;
      payloads := all;
    }

    /**
      `matching`: true for exactly the vectors whose payload, read directly, satisfies the
      filter.
      */
    method Matching(where: Filter, size: nat) returns (allowed: seq<bool>)
      requires Valid() && IsNormal(where) && indexed <= size
      ensures |allowed| == size
      ensures forall id: nat :: id < |payloads| ==> (allowed[id] <==> Matches(where, Parsed(read, payloads[id])))
    {
      hide Indexes, Satisfies, Indexable, Matches;
      var marks := new bool[size](_ => true);
      NoConditions(read, payloads, where);
      var rest := where.Keys;
      while rest != {}
        invariant rest <= where.Keys
        invariant forall id: nat :: id < size ==>
                    (marks[id] <==> Satisfies(read, payloads, where, where.Keys - rest, id))
        decreases |rest|
      {
        var field :| field in rest;
        var hasField := HasAny(field, where[field], size);
        MoreConditions(read, payloads, where, where.Keys - rest, field);
        AndInto(marks, hasField);
        assert where.Keys - (rest - {field}) == where.Keys - rest + {field};
        rest := rest - {field};
      }
      assert where.Keys - {} == where.Keys;
      forall id: nat | id < |payloads|
        ensures marks[id] <==> Matches(where, Parsed(read, payloads[id]))
      {
        SatisfiesIsMatches(read, payloads, where, id);
      }
      return marks[..];
    }

    /** `has_field`: marks the ids entered under any of the values. */
    method HasAny(field: string, values: seq<Json>, size: nat) returns (marks: array<bool>)
      requires Valid() && indexed <= size && forall v :: v in values ==> Indexable(v)
      ensures fresh(marks) && marks.Length == size
      ensures forall id: nat :: id < size ==> (marks[id] <==> AnyHolds(read, payloads, field, values, id))
    {
      hide Indexes, AnyHolds, Indexable, KeyOf;
      marks := new bool[size](_ => false);
      NothingHolds(read, payloads, field);
      assert values[..0] == [];
      for i := 0 to |values|
        invariant fresh(marks)
        invariant forall id: nat :: id < size ==> (marks[id] <==> AnyHolds(read, payloads, field, values[..i], id))
      {
        var value := values[i];
        IdsFound(ids, read, payloads, field, value);
        OrHolds(read, payloads, field, values, i);
        MarkAll(marks, IdsOf(ids, KeyOf(field, value).value));
      }
      assert values[..|values|] == values;
    }
  }

  /** `marks[ids] = True`. */
  method MarkAll(marks: array<bool>, ids: seq<nat>)
    requires forall id :: id in ids ==> id < marks.Length
    modifies marks
    ensures forall id: nat :: id < marks.Length ==> (marks[id] <==> old(marks[id]) || id in ids)
  {
    for j := 0 to |ids|
      invariant forall id: nat :: id < marks.Length ==> (marks[id] <==> old(marks[id]) || id in ids[..j])
    {
      assert ids[..j + 1] == ids[..j] + [ids[j]] && ids[j] in ids;
      marks[ids[j]] := true;
    }
    assert ids[..|ids|] == ids;
  }

  /** `marks &= others`. */
  method AndInto(marks: array<bool>, others: array<bool>)
    requires marks.Length == others.Length && marks != others
    modifies marks
    ensures forall id: nat :: id < marks.Length ==> (marks[id] <==> old(marks[id]) && others[id])
  {
    for i := 0 to marks.Length
      invariant forall id: nat :: id < marks.Length ==>
        (marks[id] <==> old(marks[id]) && (id < i ==> others[id]))
    {
      marks[i] := marks[i] && others[i];
    }
  }

  // ---------------------------------------------------------------- what the marks stand for

  ghost predicate Holds(read: Text -> Json, payloads: seq<Text>, field: string, value: Json, id: nat) {
    id < |payloads| && HasValue(Parsed(read, payloads[id]), field, value)
  }

  ghost predicate AnyHolds(read: Text -> Json, payloads: seq<Text>, field: string, values: seq<Json>, id: nat) {
    exists v :: v in values && Holds(read, payloads, field, v, id)
  }

  /** Vector number id satisfies the filter's conditions on these fields. */
  ghost predicate Satisfies(read: Text -> Json, payloads: seq<Text>, where: Filter, fields: set<string>, id: nat) {
    forall f :: f in fields && f in where ==> AnyHolds(read, payloads, f, where[f], id)
  }

  /** For a vector that has been indexed, that is: its payload matches the filter. */
  lemma SatisfiesIsMatches(read: Text -> Json, payloads: seq<Text>, where: Filter, id: nat)
    requires id < |payloads|
    ensures Satisfies(read, payloads, where, where.Keys, id) <==> Matches(where, Parsed(read, payloads[id]))
  {
    forall f | f in where
      ensures AnyHolds(read, payloads, f, where[f], id) <==>
                exists v :: v in where[f] && HasValue(Parsed(read, payloads[id]), f, v)
    {
      if v :| v in where[f] && HasValue(Parsed(read, payloads[id]), f, v) {
        assert Holds(read, payloads, f, v, id);
      }
    }
  }

  lemma NoConditions(read: Text -> Json, payloads: seq<Text>, where: Filter)
    ensures where.Keys - where.Keys == {}
    ensures forall id: nat :: Satisfies(read, payloads, where, {}, id)
  {
  }

  lemma MoreConditions(read: Text -> Json, payloads: seq<Text>, where: Filter, fields: set<string>, field: string)
    requires field in where
    ensures forall id: nat :: Satisfies(read, payloads, where, fields + {field}, id) <==>
              Satisfies(read, payloads, where, fields, id) && AnyHolds(read, payloads, field, where[field], id)
  {
    hide AnyHolds;
  }

  lemma NothingHolds(read: Text -> Json, payloads: seq<Text>, field: string)
    ensures forall id: nat :: !AnyHolds(read, payloads, field, [], id)
  {
  }

  lemma OrHolds(read: Text -> Json, payloads: seq<Text>, field: string, values: seq<Json>, i: nat)
    requires i < |values|
    ensures forall id: nat :: AnyHolds(read, payloads, field, values[..i + 1], id) <==>
              AnyHolds(read, payloads, field, values[..i], id) || Holds(read, payloads, field, values[i], id)
  {
    hide Holds;
    assert values[..i + 1] == values[..i] + [values[i]];
  }

  lemma IdsFound(ids: map<Key, seq<nat>>, read: Text -> Json, payloads: seq<Text>, field: string, value: Json)
    requires Indexes(ids, read, payloads) && Indexable(value)
    ensures KeyOf(field, value).Some?
    ensures forall id: nat :: id in IdsOf(ids, KeyOf(field, value).value) <==> Holds(read, payloads, field, value, id)
    ensures forall id: nat :: id in IdsOf(ids, KeyOf(field, value).value) ==> id < |payloads|
  {
    assert KeyOf(field, value).Some?;
    var key := KeyOf(field, value).value;
    forall id: nat
      ensures id in IdsOf(ids, key) <==> Holds(read, payloads, field, value, id)
    {
      if id < |payloads| {
        KeyStandsForValue(Parsed(read, payloads[id]), field, value);
        assert id in IdsOf(ids, key) <==> HasKey(Parsed(read, payloads[id]), key);
      }
    }
  }

  lemma IndexGrows(before: map<Key, seq<nat>>, later: map<Key, seq<nat>>, read: Text -> Json, all: seq<Text>, id: nat)
    requires id < |all| && Indexes(before, read, all[..id])
    requires Entered(before, later, id, key => HasKey(Parsed(read, all[id]), key))
    ensures Indexes(later, read, all[..id + 1])
  {
    var some, more := all[..id], all[..id + 1];
    assert |some| == id && |more| == id + 1 && more[id] == all[id];
    assert forall other: nat :: other < id ==> more[other] == some[other];
    forall key, other: nat
      ensures other in IdsOf(later, key) <==> other < |more| && HasKey(Parsed(read, more[other]), key)
    {
      IndexSays(before, read, some, key, other);
    }
  }

  lemma IndexSays(ids: map<Key, seq<nat>>, read: Text -> Json, payloads: seq<Text>, key: Key, id: nat)
    requires Indexes(ids, read, payloads)
    ensures id in IdsOf(ids, key) <==> id < |payloads| && HasKey(Parsed(read, payloads[id]), key)
  {
  }
}
