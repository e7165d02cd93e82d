/**
 * The process-wide cache of compiled binders and deserializers, keyed by the SQL text, the
 * result type and the parameter object's runtime type. The concurrent dictionary is a map held
 * by a `Cache` object; adding is `TryAdd`: an identity already present keeps its entry.
 */
module SignatureCache {
  import opened Wrappers
  import opened Values
  import opened Binding
  import opened Deserialization

  datatype Identity = Identity(sql: string, resultType: Option<Ty>, parametersType: Option<Ty>)

  /** `Identity.Equals(object)`: false for null (or a non-identity), otherwise field-wise. */
  function IdentityEquals(self: Identity, other: Option<Identity>): (eq: bool)
    ensures eq <==> other == Some(self)
  {
    match other
    case None => false
    case Some(o) => self.sql == o.sql && self.resultType == o.resultType && self.parametersType == o.parametersType
  }

  /** `GetHashCode`: the hash of the (Sql, ResultType, ParametersType) tuple, whatever function
      the runtime uses to hash tuples. */
  function IdentityHash(self: Identity, tupleHash: ((string, Option<Ty>, Option<Ty>)) -> int): int {
    tupleHash((self.sql, self.resultType, self.parametersType))
  }

  /** Equal identities have equal hash codes, so the dictionary finds an entry by any equal key. */
  lemma EqualIdentitiesHashEqual(a: Identity, b: Identity, tupleHash: ((string, Option<Ty>, Option<Ty>)) -> int)
    requires IdentityEquals(a, Some(b))
    ensures IdentityHash(a, tupleHash) == IdentityHash(b, tupleHash)
  {
  }

  /** A cache entry: either half may be absent. */
  datatype Entry = Entry(deserializer: Option<Deserializer>, generator: Option<Binder>)

  /** `TryGetValue`. */
  function Lookup(entries: map<Identity, Entry>, id: Identity): (e: Option<Entry>)
    ensures e.Some? <==> id in entries
    ensures e.Some? ==> e.value == entries[id]
  {
    if id in entries then Some(entries[id]) else None
  }

  /** `TryAdd`: stores the entry only when the identity is absent. */
  function TryAdd(entries: map<Identity, Entry>, id: Identity, e: Entry): (r: map<Identity, Entry>)
    ensures r.Keys == entries.Keys + {id}
    ensures r[id] == (if id in entries then entries[id] else e)
    ensures forall k :: k in entries && k != id ==> r[k] == entries[k]
  {
    if id in entries then entries else entries[id := e]
  }

  /** The first writer wins: a second add for the same identity changes nothing, whatever it
      carries, so the halves of two entries are never merged. */
  lemma FirstWriterWins(entries: map<Identity, Entry>, id: Identity, first: Entry, second: Entry)
    ensures TryAdd(TryAdd(entries, id, first), id, second) == TryAdd(entries, id, first)
    ensures Lookup(TryAdd(TryAdd(entries, id, first), id, second), id) ==
            Some(if id in entries then entries[id] else first)
  {
  }

  /** Entries are never removed or replaced: every earlier lookup hit still answers the same. */
  lemma AddNeverEvicts(entries: map<Identity, Entry>, id: Identity, e: Entry, other: Identity)
    requires Lookup(entries, other).Some?
    ensures Lookup(TryAdd(entries, id, e), other) == Lookup(entries, other)
  {
  }

  /** Every cached deserializer was compiled for the result type of its identity. */
  predicate DeserializersFit(entries: map<Identity, Entry>) {
    forall id :: id in entries && entries[id].deserializer.Some? ==>
      id.resultType == Some(entries[id].deserializer.value.target) && Compiled(entries[id].deserializer.value)
  }

  /** Adding a binder-only entry, or a deserializer compiled for the identity's result type,
      keeps every cached deserializer fitting. */
  lemma AddKeepsDeserializersFit(entries: map<Identity, Entry>, id: Identity, e: Entry)
    requires DeserializersFit(entries)
    requires e.deserializer.Some? ==> id.resultType == Some(e.deserializer.value.target) && Compiled(e.deserializer.value)
    ensures DeserializersFit(TryAdd(entries, id, e))
  {
  }

  class Cache {
    var entries: map<Identity, Entry>

    constructor ()
      ensures entries == map[]
    {
      entries := map[];
    }

    method GetCache(id: Identity) returns (e: Option<Entry>)
      ensures e.Some? <==> id in entries
      ensures e == Lookup(entries, id)
    {
      if id in entries {
        e := Some(entries[id]);
      } else {
        e := None;
      }
    }

    method AddCache(id: Identity, deserializer: Option<Deserializer>, generator: Option<Binder>)
      modifies this
      ensures entries == TryAdd(old(entries), id, Entry(deserializer, generator))
    {
      if id !in entries {
        entries := entries[id := Entry(deserializer, generator)];
      }
    }
  }
}
