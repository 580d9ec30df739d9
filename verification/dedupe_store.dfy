/** The durable "already sent" table: signal id to the integer timestamp it
    was last sent at, with lookup, insert-or-replace and purge-older-than.
    The SQLite table is a map; connections and the module lock are not
    modelled. */
module DedupeStore {
  import opened Common

  /** Contents of the `sent_signals` table. */
  type Table = map<string, int>

  /** `get(signal_id)`: the stored timestamp, or `None` for an unknown id. */
  function Get(table: Table, signalId: string): (r: Option<int>)
    ensures r.Some? <==> signalId in table
    ensures r.Some? ==> r.value == table[signalId]
  {
    if signalId in table then Some(table[signalId]) else None
  }

  /** `set(signal_id, ts)`: INSERT OR REPLACE with `int(ts)`. */
  function Set(table: Table, signalId: string, ts: real): (t: Table)
    ensures t.Keys == table.Keys + {signalId}
    ensures t[signalId] == TruncToInt(ts)
    ensures forall id :: id in table && id != signalId ==> t[id] == table[id]
  {
    table[signalId := TruncToInt(ts)]
  }

  /** `cleanup(older_than_ts)`: DELETE every row with `ts < int(older_than_ts)`. */
  function Cleanup(table: Table, olderThan: real): (t: Table)
    ensures forall id :: id in t <==> id in table && table[id] >= TruncToInt(olderThan)
    ensures forall id :: id in t ==> t[id] == table[id]
  {
    var cutoff := TruncToInt(olderThan);
    map id | id in table && table[id] >= cutoff :: table[id]
  }

  /** Reading back what was just set gives the truncated timestamp; every
      other id reads as before. */
  lemma GetAfterSet(table: Table, signalId: string, ts: real, other: string)
    ensures Get(Set(table, signalId, ts), signalId) == Some(TruncToInt(ts))
    ensures other != signalId ==> Get(Set(table, signalId, ts), other) == Get(table, other)
  {
  }

  /** Cleanup only removes rows, keeps exactly those at or after the cutoff,
      and a second cleanup with the same cutoff changes nothing. */
  lemma CleanupShrinksAndIsIdempotent(table: Table, olderThan: real)
    ensures Cleanup(table, olderThan).Keys <= table.Keys
    ensures forall id :: id in Cleanup(table, olderThan) ==> Cleanup(table, olderThan)[id] >= TruncToInt(olderThan)
    ensures Cleanup(Cleanup(table, olderThan), olderThan) == Cleanup(table, olderThan)
  {
  }
}
