/**
 Indexed tables of stored data, the recording proxy in front of such a table, and the read-only
 store made from what the proxy recorded.
 */
module Tables {
  import opened Wrappers

  /** How a kind of data names itself: its id, and the queries that find it. */
  datatype Schema<!D, Q> = Schema(id: D -> int, queries: D -> seq<Q>)

  /** Data by id, and ids by query. */
  datatype Table<Q(==), D> = Table(data: map<int, D>, query: map<Q, int>)

  /** An item sits under its own id and is found by all of its queries. */
  ghost predicate ItemIndexed<Q, D>(schema: Schema<D, Q>, t: Table<Q, D>, id: int) {
    && id in t.data && schema.id(t.data[id]) == id
    && forall q <- schema.queries(t.data[id]) :: q in t.query && t.query[q] == id
  }

  /** A query leads to an item that generates it. */
  ghost predicate QueryIndexed<Q, D>(schema: Schema<D, Q>, t: Table<Q, D>, q: Q) {
    q in t.query && t.query[q] in t.data && q in schema.queries(t.data[t.query[q]])
  }

  /** Items and queries belong together; so no two items share a query. */
  ghost predicate WellIndexed<Q, D>(schema: Schema<D, Q>, t: Table<Q, D>) {
    && (forall id {:trigger ItemIndexed(schema, t, id)} | id in t.data :: ItemIndexed(schema, t, id))
    && (forall q {:trigger QueryIndexed(schema, t, q)} | q in t.query :: QueryIndexed(schema, t, q))
  }

  /** The lookup of a live table: a missing query is an ordinary answer. */
  function Lookup<Q, D>(t: Table<Q, D>, q: Q): Option<D> {
    if q in t.query && t.query[q] in t.data then Some(t.data[t.query[q]]) else None
  }

  /** A query finds exactly the stored item that generates it. */
  lemma FoundIff<Q, D>(schema: Schema<D, Q>, t: Table<Q, D>, q: Q, item: D)
    requires WellIndexed(schema, t)
    ensures Lookup(t, q) == Some(item) <==>
            schema.id(item) in t.data && t.data[schema.id(item)] == item && q in schema.queries(item)
  {
    if q in t.query {
      assert QueryIndexed(schema, t, q) && ItemIndexed(schema, t, t.query[q]);
    }
    if schema.id(item) in t.data {
      assert ItemIndexed(schema, t, schema.id(item));
    }
  }

  /** The part of a table that holds the given ids. */
  ghost function Restrict<Q, D>(t: Table<Q, D>, ids: set<int>): Table<Q, D> {
    Table(map id | id in t.data && id in ids :: t.data[id],
          map q | q in t.query && t.query[q] in ids :: t.query[q])
  }

  lemma RestrictWellIndexed<Q, D>(schema: Schema<D, Q>, t: Table<Q, D>, ids: set<int>)
    requires WellIndexed(schema, t)
    ensures WellIndexed(schema, Restrict(t, ids))
  {
    var r := Restrict(t, ids);
    forall q | q in r.query
      ensures QueryIndexed(schema, r, q)
    {
      assert QueryIndexed(schema, t, q);
    }
    forall id | id in r.data
      ensures ItemIndexed(schema, r, id)
    {
      assert ItemIndexed(schema, t, id);
    }
  }

  /** The items decide the whole table: the order in which they were inserted leaves no trace. */
  lemma ItemsDecideTable<Q, D>(schema: Schema<D, Q>, a: Table<Q, D>, b: Table<Q, D>)
    requires WellIndexed(schema, a) && WellIndexed(schema, b)
    requires a.data == b.data
    ensures a == b
  {
    forall q
      ensures q in a.query <==> q in b.query
      ensures q in a.query && q in b.query ==> a.query[q] == b.query[q]
    {
      if q in a.query {
        assert QueryIndexed(schema, a, q);
        assert ItemIndexed(schema, b, a.query[q]);
      }
      if q in b.query {
        assert QueryIndexed(schema, b, q);
        assert ItemIndexed(schema, a, b.query[q]);
      }
    }
  }

  /** A well-indexed table made of a larger table's items is the larger table's restriction. */
  lemma SubtableIsRestriction<Q, D>(schema: Schema<D, Q>, part: Table<Q, D>, whole: Table<Q, D>)
    requires WellIndexed(schema, part) && WellIndexed(schema, whole)
    requires forall id <- part.data :: id in whole.data && part.data[id] == whole.data[id]
    ensures part == Restrict(whole, part.data.Keys)
  {
    RestrictWellIndexed(schema, whole, part.data.Keys);
    var r := Restrict(whole, part.data.Keys);
    forall id
      ensures id in part.data <==> id in r.data
      ensures id in part.data ==> part.data[id] == r.data[id]
    {
      if id in part.data {
        assert id in whole.data && part.data[id] == whole.data[id];
      }
    }
    assert part.data == r.data;
    ItemsDecideTable(schema, part, r);
  }

  /** A restriction answers a query about one of its ids as the whole table does, and no other query. */
  lemma RestrictLookup<Q, D>(schema: Schema<D, Q>, t: Table<Q, D>, ids: set<int>, q: Q)
    requires WellIndexed(schema, t)
    ensures q in Restrict(t, ids).query <==> q in t.query && t.query[q] in ids
    ensures Lookup(Restrict(t, ids), q) ==
            if q in t.query && t.query[q] in ids then Lookup(t, q) else None
  {
    if q in t.query {
      assert QueryIndexed(schema, t, q);
    }
  }

  /** The recording proxy: it forwards lookups to a source and keeps what they returned. */
  class ProxyStorage<Q(==), D> {
    const schema: Schema<D, Q>
    const source: Table<Q, D>
    var data: Option<map<int, D>>
    var query: Option<map<Q, int>>

    /** Nothing was exported yet, and the recorded maps are the source's part for the recorded ids. */
    ghost predicate Valid()
      reads this
    {
      && data.Some? && query.Some?
      && data.value.Keys <= source.data.Keys
      && Table(data.value, query.value) == Restrict(source, data.value.Keys)
    }

    ghost function Recorded(): set<int>
      requires data.Some?
      reads this
    {
      data.value.Keys
    }

    constructor (schema: Schema<D, Q>, source: Table<Q, D>)
      ensures Valid() && Recorded() == {}
      ensures this.schema == schema && this.source == source
    {
      this.schema := schema;
      this.source := source;
      data := Some(map[]);
      query := Some(map[]);
    }

    method InsertData(item: D)
      requires Valid() && WellIndexed(schema, source)
      requires schema.id(item) in source.data && source.data[schema.id(item)] == item
      modifies this
      ensures Valid() && Recorded() == old(Recorded()) + {schema.id(item)}
    {
      var id := schema.id(item);
      var queries := schema.queries(item);
      assert ItemIndexed(schema, source, id);
      for i := 0 to |queries|
        invariant query.Some? && data == old(data)
        invariant forall q :: q in query.value <==> q in old(query).value || q in queries[..i]
        invariant forall q :: q in query.value ==>
            query.value[q] == if q in queries[..i] then id else old(query).value[q]
      {
        query := Some(query.value[queries[i] := id]);
      }
      assert queries[..|queries|] == queries;
      data := Some(data.value[id := item]);
      var whole := Restrict(source, data.value.Keys);
      assert forall q <- source.query :: QueryIndexed(schema, source, q);
      assert data.value == whole.data;
      assert query.value == whole.query;
    }

    method FindOptional(q: Q) returns (r: Option<D>)
      requires Valid() && WellIndexed(schema, source)
      modifies this
      ensures r == Lookup(source, q)
      ensures Valid()
      ensures Recorded() == old(Recorded()) + (if r.Some? then {schema.id(r.value)} else {})
    {
      r := Lookup(source, q);
      if r.Some? {
        var id := source.query[q];
        assert ItemIndexed(schema, source, id);
        InsertData(r.value);
      }
    }

    /** Hands the recorded maps out; the proxy accepts no further data. */
    method ExportData() returns (t: Table<Q, D>)
      requires Valid()
      modifies this
      ensures t == Restrict(source, old(Recorded()))
      ensures WellIndexed(schema, source) ==> WellIndexed(schema, t)
      ensures data == None && query == None
    {
      t := Table(data.value, query.value);
      if WellIndexed(schema, source) {
        RestrictWellIndexed(schema, source, data.value.Keys);
      }
      data := None;
      query := None;
    }
  }

  // The read-only store panics on a miss, so its lookups demand a recorded query.

  predicate Answers<Q, D>(t: Table<Q, D>, q: Q) {
    q in t.query && t.query[q] in t.data
  }

  function FindId<Q, D>(t: Table<Q, D>, q: Q): int
    requires q in t.query
  {
    t.query[q]
  }

  function Find<Q, D>(t: Table<Q, D>, q: Q): D
    requires Answers(t, q)
  {
    t.data[FindId(t, q)]
  }
}
