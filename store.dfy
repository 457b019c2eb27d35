/**
 * The backing store of the `orders` table, shared by the customer and staff pages:
 * rows keyed by an id the store assigns on insert, updated by field-wise merge.
 */
module Store {
  import opened Records

  class OrderStore {
    var rows: map<nat, Record>
    /** The id the next insert receives; ids start at 1 and are never reused. */
    var nextId: nat

    ghost predicate Valid()
      reads this
    {
      nextId >= 1 && forall id :: id in rows ==> 1 <= id < nextId
    }

    constructor ()
      ensures Valid() && rows == map[] && nextId == 1
    {
      rows := map[];
      nextId := 1;
    }

    /** `insert(record)`: stores the record under a fresh id and returns that id. */
    method Insert(record: Record) returns (id: nat)
      requires Valid()
      modifies this
      ensures Valid()
      ensures id == old(nextId) && id !in old(rows)
      ensures rows == old(rows)[id := record]
      ensures nextId == id + 1
    {
      id := nextId;
      rows := rows[id := record];
      nextId := nextId + 1;
    }

    /**
     * `update(patch).eq("id", id)`: merges the patch into the row with that id;
     * when there is no such row nothing changes.
     */
    method Update(id: nat, patch: Record)
      requires Valid()
      modifies this
      ensures Valid() && nextId == old(nextId)
      ensures rows == if id in old(rows) then old(rows)[id := Merge(old(rows)[id], patch)] else old(rows)
    {
      if id in rows {
        rows := rows[id := Merge(rows[id], patch)];
      }
    }

    /** `select("*").eq("id", id).single()`: the row, if there is one. */
    function Fetch(id: nat): (r: Option<Record>)
      reads this
      ensures r.Some? <==> id in rows
      ensures r.Some? ==> r.value == rows[id]
    {
      if id in rows then Some(rows[id]) else None
    }

    /** The ids below `n` that have a row, in ascending order. */
    function IdsBelow(n: nat): (ids: seq<nat>)
      reads this
      ensures forall i, j :: 0 <= i < j < |ids| ==> ids[i] < ids[j]
      ensures forall id :: id in ids <==> id in rows && id < n
    {
      if n == 0 then []
      else
        var below := IdsBelow(n - 1);
        assert forall i :: 0 <= i < |below| ==> below[i] in below && below[i] < n - 1;
        below + (if n - 1 in rows then [n - 1] else [])
    }

    /** `select("*").order("id", desc=False)`: every stored id, ascending. */
    function ListIds(): (ids: seq<nat>)
      requires Valid()
      reads this
      ensures forall i, j :: 0 <= i < j < |ids| ==> ids[i] < ids[j]
      ensures forall id :: id in ids <==> id in rows
    {
      IdsBelow(nextId)
    }
  }
}
