/**
  The shard's registry of per-guild server instances (the ServerInstances map
  of a ShardInstance): add, look up and remove by guild id.  The instance type
  is a parameter; a missing id answers None where Go answers a nil pointer.
*/
module Registry {
  import opened Wrappers

  class ShardRegistry<T> {
    var serverInstances: map<string, T>

    constructor ()
      ensures serverInstances == map[]
    {
      serverInstances := map[];
    }

    /** addServerInstance: the entry for the guild becomes the instance, replacing any earlier one. */
    method Add(guildId: string, instance: T)
      modifies this
      ensures serverInstances == old(serverInstances)[guildId := instance]
    {
      serverInstances := serverInstances[guildId := instance];
    }

    /** getServerInstance: the registered instance, or None (Go's nil) when the guild has none. */
    method Get(guildId: string) returns (r: Option<T>)
      ensures r == Lookup(serverInstances, guildId)
    {
      if guildId in serverInstances {
        r := Some(serverInstances[guildId]);
      } else {
        r := None;
      }
    }

    /** removeServerInstance: only the guild's entry goes; removing a missing id changes nothing. */
    method Remove(guildId: string)
      modifies this
      ensures serverInstances == old(serverInstances) - {guildId}
    {
      serverInstances := serverInstances - {guildId};
    }
  }

  /** What a map read gives: Some(entry) when the key is present, None otherwise. */
  function Lookup<T>(m: map<string, T>, k: string): (r: Option<T>)
    ensures r.Some? <==> k in m
    ensures r.Some? ==> r.value == m[k]
  {
    if k in m then Some(m[k]) else None
  }

  /** After add(id, x), looking up id gives x, whatever was there before. */
  lemma AddThenGet<T>(m: map<string, T>, id: string, x: T)
    ensures Lookup(m[id := x], id) == Some(x)
  {
  }

  /** Adding twice under one id keeps only the second instance. */
  lemma AddOverwrites<T>(m: map<string, T>, id: string, x: T, y: T)
    ensures m[id := x][id := y] == m[id := y]
  {
  }

  /** Adding under one id leaves every other id's lookup as it was. */
  lemma AddKeepsOthers<T>(m: map<string, T>, id: string, x: T, other: string)
    requires other != id
    ensures Lookup(m[id := x], other) == Lookup(m, other)
  {
  }

  /** After remove(id), id is missing and every other id's lookup is as it was. */
  lemma RemoveOnlyThatKey<T>(m: map<string, T>, id: string, other: string)
    ensures Lookup(m - {id}, id) == None
    ensures other != id ==> Lookup(m - {id}, other) == Lookup(m, other)
    ensures m.Keys - {id} == (m - {id}).Keys
  {
  }

  /** Removing the id just added gives back the registry as it was when id was missing. */
  lemma AddThenRemove<T>(m: map<string, T>, id: string, x: T)
    requires id !in m
    ensures m[id := x] - {id} == m
  {
  }
}
