/**
  The correlation index (OrderMap, config.go): client id to the live leg it
  routes notifications to.
 */
module OrderIndex {
  import opened Types

  type Index = map<ClientId, LegRef>

  /** Lookup: the leg registered under `id`, if any. */
  function Get(m: Index, id: ClientId): Option<LegRef> {
    if id in m then Some(m[id]) else None
  }

  /** An index that knows no id. */
  function NewOrderMap(): (m: Index)
    ensures forall id :: Get(m, id) == None
  {
    map[]
  }

  /** Registers a leg under its own client id, replacing whatever was there. */
  function Add(m: Index, o: GridOrder, side: Side): (m': Index)
    ensures Get(m', o.clientId) == Some(LegRef(o.pair, side))
    ensures forall id :: id != o.clientId ==> Get(m', id) == Get(m, id)
    ensures m'.Keys == m.Keys + {o.clientId}
  {
    m[o.clientId := LegRef(o.pair, side)]
  }

  /** Unregisters an id; absent ids are ignored. */
  function Remove(m: Index, id: ClientId): (m': Index)
    ensures Get(m', id) == None
    ensures forall other :: other != id ==> Get(m', other) == Get(m, other)
    ensures id !in m ==> m' == m
  {
    m - {id}
  }

  /** Adding then looking up returns the added leg; removing then looking up
      finds nothing, whatever was registered before. */
  lemma AddThenRemove(m: Index, o: GridOrder, side: Side)
    ensures Get(Remove(Add(m, o, side), o.clientId), o.clientId) == None
    ensures Remove(Add(m, o, side), o.clientId) == Remove(m, o.clientId)
  {
  }
}
