/**
 * The canonical writer (pcomirror/writer.py): the one path every mutation of the
 * mirror goes through. Its methods update `rows` a statement at a time; module
 * Stores says what each of them does to the whole store.
 */
module Writer {
  import opened Types
  import opened Rows
  import opened Stores

  class CanonicalWriter {
    var rows: Store

    constructor ()
      ensures rows == map[]
    {
      rows := map[];
    }

    method Upsert(k: Key, p: Payload)
      modifies this
      ensures rows == Stores.Upsert(old(rows), k, p)
    {
      if k in rows {
        rows := rows[k := UpsertRow(rows[k], p)];
      } else {
        rows := rows[k := NewRow(p)];
      }
      Uncascade(k);
    }

    method UpsertUntimed(k: Key, p: Payload)
      modifies this
      ensures rows == Stores.UpsertUntimed(old(rows), k, p)
    {
      if k !in rows {
        rows := rows[k := NewRow(p)];
      } else if rows[k].Live() {
        rows := rows[k := rows[k].(raw := p)];
      }
    }

    method Tombstone(k: Key, uat: Option<Time>, reason: Reason, into: Option<Id>, now: Time)
      modifies this
      ensures rows == Stores.Tombstone(old(rows), k, uat, reason, into, now)
    {
      if k in rows && BurialAccepted(rows[k], uat, reason) {
        var row := rows[k];
        rows := rows[k := Row(row.raw, Some(now),
                              Coalesce(Coalesce(uat, row.raw.updatedAt), Some(now)),
                              Some(reason), Coalesce(into, row.mergedInto))];
      }
      if Gone(reason) {
        Cascade(k, now);
      }
    }

    /** One statement per owned child table. */
    method Cascade(owner: Key, now: Time)
      modifies this
      ensures rows == Stores.Cascade(old(rows), owner, now)
    {
      var children := OwnedChildren(owner.table);
      assert CascadeTo(rows, children[..0], owner, now) == rows;
      for i := 0 to |children|
        invariant rows == CascadeTo(old(rows), children[..i], owner, now)
      {
        OrphanChildren(children[i], owner, now);
        CascadeOneMore(old(rows), children, i, owner, now);
      }
      assert children[..|children|] == children;
    }

    method OrphanChildren(child: Table, owner: Key, now: Time)
      requires OwnerTable(child) == Some(owner.table)
      modifies this
      ensures rows == CascadeTo(old(rows), [child], owner, now)
    {
      var s := rows;
      var t := map k | k in s ::
        if k.table == child && s[k].raw.owner == Some(owner.id) && s[k].Live()
        then OrphanRow(s[k], now) else s[k];
      OrphansOf(s, t, child, owner, now);
      rows := t;
    }

    method ConfirmLive(k: Key, p: Payload)
      modifies this
      ensures rows == Stores.ConfirmLive(old(rows), k, p)
    {
      rows := rows[k := Row(p, None, None, None, None)];
      Uncascade(k);
    }

    /** One statement per owned child table, each guarded by the owner being live. */
    method Uncascade(owner: Key)
      modifies this
      ensures rows == Stores.Uncascade(old(rows), owner)
    {
      var children := OwnedChildren(owner.table);
      assert UncascadeTo(rows, children[..0], owner) == rows;
      for i := 0 to |children|
        invariant rows == UncascadeTo(old(rows), children[..i], owner)
      {
        AdoptChildren(children[i], owner);
        UncascadeOneMore(old(rows), children, i, owner);
      }
      assert children[..|children|] == children;
    }

    method AdoptChildren(child: Table, owner: Key)
      requires OwnerTable(child) == Some(owner.table)
      modifies this
      ensures rows == UncascadeTo(old(rows), [child], owner)
    {
      var s := rows;
      var t := map k | k in s ::
        if k.table == child && s[k].raw.owner == Some(owner.id)
           && s[k].reason == Some(OwnerDeleted) && LiveAt(s, owner)
        then AdoptRow(s[k]) else s[k];
      AdoptedBy(s, t, child, owner);
      rows := t;
    }

    method Route(r: Resource)
      modifies this
      ensures rows == Stores.Route(old(rows), r)
    {
      if r.table.None? {
        return;
      }
      if Timestamped(r.table.value) && r.payload.updatedAt.None? {
        return;
      }
      if Timestamped(r.table.value) {
        Upsert(Key(r.table.value, r.id), r.payload);
      } else {
        UpsertUntimed(Key(r.table.value, r.id), r.payload);
      }
    }

    /** Sideloads first, so that of two equally complete copies the primary one stays. */
    method RoutePage(data: seq<Resource>, included: seq<Resource>) returns (n: nat)
      modifies this
      ensures rows == RouteAll(old(rows), included + data)
      ensures n == |data|
    {
      for i := 0 to |included|
        invariant rows == RouteAll(old(rows), included[..i])
      {
        Route(included[i]);
        assert included[..i + 1][..i] == included[..i];
      }
      n := 0;
      assert included[..|included|] == included + data[..0];
      for i := 0 to |data|
        invariant n == i
        invariant rows == RouteAll(old(rows), included + data[..i])
      {
        Route(data[i]);
        n := n + 1;
        assert (included + data[..i + 1])[..|included| + i] == included + data[..i];
      }
      assert data[..|data|] == data;
    }
  }
}
