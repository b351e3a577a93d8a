// The name maps under each change of the in-memory index.
module CatalogNames {
  import opened CatalogRows
  import opened CatalogState
  import opened CatalogEdits

  lemma {:induction false} TableNamed(c: Cache, e: Entry)
    requires Named(c) && Ahead(c) && e.id !in c.byId && (e.schema, e.name) !in c.byName
    ensures Named(InsertTable(c, e)) && Ahead(InsertTable(c, e))
  {
    var c' := InsertTable(c, e);
    forall id | id in c'.byId ensures NameOk(c', id) {
      assert id != e.id ==> NameOk(c, id);
    }
    forall k | k in c'.byName ensures LabelOk(c', k) {
      assert k != (e.schema, e.name) ==> LabelOk(c, k);
    }
    forall x | x in c'.indexes ensures IndexNameOk(c', x) {
      assert IndexNameOk(c, x);
    }
    forall k | k in c'.indexByName ensures IndexLabelOk(c', k) {
      assert IndexLabelOk(c, k);
    }
  }

  lemma {:induction false} ColumnNamed(c: Cache, id: nat, def: ColumnDef)
    requires Named(c) && Ahead(c) && id in c.byId
    ensures var c' := c.(byId := c.byId[id := WithColumn(c.byId[id], def)]); Named(c') && Ahead(c')
  {
    var c' := c.(byId := c.byId[id := WithColumn(c.byId[id], def)]);
    forall x | x in c'.byId ensures NameOk(c', x) {
      assert NameOk(c, x);
    }
    forall k | k in c'.byName ensures LabelOk(c', k) {
      assert LabelOk(c, k);
    }
    forall x | x in c'.indexes ensures IndexNameOk(c', x) {
      assert IndexNameOk(c, x);
    }
    forall k | k in c'.indexByName ensures IndexLabelOk(c', k) {
      assert IndexLabelOk(c, k);
    }
  }

  lemma {:induction false} IndexNamed(c: Cache, d: IndexDef, schema: string)
    requires Named(c) && Ahead(c) && d.id !in c.indexes && d.table in c.byId && d.columns != []
    requires schema == c.byId[d.table].schema && (schema, d.name) !in c.indexByName
    ensures Named(InsertIndex(c, d, schema)) && Ahead(InsertIndex(c, d, schema))
  {
    var c' := InsertIndex(c, d, schema);
    forall id | id in c'.byId ensures NameOk(c', id) {
      assert NameOk(c, id);
    }
    forall k | k in c'.byName ensures LabelOk(c', k) {
      assert LabelOk(c, k);
    }
    forall x | x in c'.indexes ensures IndexNameOk(c', x) {
      assert x != d.id ==> IndexNameOk(c, x);
    }
    forall k | k in c'.indexByName ensures IndexLabelOk(c', k) {
      assert k != (c.byId[d.table].schema, d.name) ==> IndexLabelOk(c, k);
    }
  }

  lemma {:induction false} IndexUnnamed(c: Cache, id: nat)
    requires Named(c) && Ahead(c) && id in c.indexes
    ensures Named(RemoveIndex(c, id)) && Ahead(RemoveIndex(c, id))
  {
    var c' := RemoveIndex(c, id);
    assert IndexNameOk(c, id);
    forall x | x in c'.byId ensures NameOk(c', x) {
      assert NameOk(c, x);
    }
    forall k | k in c'.byName ensures LabelOk(c', k) {
      assert LabelOk(c, k);
    }
    forall x | x in c'.indexes ensures IndexNameOk(c', x) {
      assert IndexNameOk(c, x);
    }
    forall k | k in c'.indexByName ensures IndexLabelOk(c', k) {
      assert IndexLabelOk(c, k);
    }
  }

  lemma {:induction false} TableUnnamed(c: Cache, id: nat)
    requires Named(c) && Ahead(c) && id in c.byId && forall x :: x in c.indexes ==> c.indexes[x].table != id
    ensures Named(RemoveTable(c, id)) && Ahead(RemoveTable(c, id))
  {
    var c' := RemoveTable(c, id);
    assert NameOk(c, id);
    forall x | x in c'.byId ensures NameOk(c', x) {
      assert NameOk(c, x);
    }
    forall k | k in c'.byName ensures LabelOk(c', k) {
      assert LabelOk(c, k);
    }
    forall x | x in c'.indexes ensures IndexNameOk(c', x) {
      assert IndexNameOk(c, x);
    }
    forall k | k in c'.indexByName ensures IndexLabelOk(c', k) {
      assert IndexLabelOk(c, k);
    }
  }
}
