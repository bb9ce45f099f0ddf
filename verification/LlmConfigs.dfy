/** The LLM configuration table: one active row in each scope that has rows, through every
    operation and both migrations. */
module LlmConfigs {
  import opened Wrappers

  datatype Config = Config(name: string, apiKey: Option<string>, baseUrl: string, model: string, active: bool, scope: string)

  const EVOLUTION := "evolution"
  const EXECUTOR := "executor"
  const COPY_SUFFIX := "（执行端副本）"

  predicate InScope(rows: map<nat, Config>, id: nat, scope: string) {
    id in rows && rows[id].scope == scope
  }

  predicate IsActive(rows: map<nat, Config>, id: nat, scope: string) {
    InScope(rows, id, scope) && rows[id].active
  }

  /** Each scope that has rows has exactly one active row. */
  ghost predicate OneActive(rows: map<nat, Config>) {
    && (forall id: nat, scope :: InScope(rows, id, scope) ==> exists a: nat :: IsActive(rows, a, scope))
    && (forall a: nat, b: nat, scope :: IsActive(rows, a, scope) && IsActive(rows, b, scope) ==> a == b)
  }

  predicate IsEmpty(rows: map<nat, Config>, scope: string) {
    forall k: nat | k in rows :: rows[k].scope != scope
  }

  /** The row of a scope with the smallest id. */
  ghost predicate IsFirst(rows: map<nat, Config>, id: nat, scope: string) {
    InScope(rows, id, scope) && forall k: nat :: InScope(rows, k, scope) ==> id <= k
  }

  /** One row of the scope is active, and no other. */
  ghost predicate Served(rows: map<nat, Config>, scope: string) {
    exists id: nat :: IsActive(rows, id, scope) && forall other: nat :: IsActive(rows, other, scope) ==> other == id
  }

  lemma EachScopeServed(rows: map<nat, Config>)
    requires OneActive(rows)
    ensures forall scope :: IsEmpty(rows, scope) || Served(rows, scope)
  {
    forall scope | !IsEmpty(rows, scope) ensures Served(rows, scope) {
      var k: nat :| k in rows && rows[k].scope == scope;
      assert InScope(rows, k, scope);
      var id: nat :| IsActive(rows, id, scope);
    }
  }

  function Activated(rows: map<nat, Config>, id: nat): map<nat, Config>
    requires id in rows
  {
    map k: nat | k in rows :: if rows[k].scope == rows[id].scope then rows[k].(active := k == id) else rows[k]
  }

  lemma ActivatedOne(rows: map<nat, Config>, id: nat)
    requires OneActive(rows) && id in rows
    ensures OneActive(Activated(rows, id))
  {
    var after := Activated(rows, id);
    forall k: nat, scope | InScope(after, k, scope) ensures exists a: nat :: IsActive(after, a, scope) {
      assert InScope(rows, k, scope);
      if scope == rows[id].scope {
        assert IsActive(after, id, scope);
      } else {
        var a: nat :| IsActive(rows, a, scope);
        assert IsActive(after, a, scope);
      }
    }
    forall a: nat, b: nat, scope | IsActive(after, a, scope) && IsActive(after, b, scope) ensures a == b {
      if scope != rows[id].scope { assert IsActive(rows, a, scope) && IsActive(rows, b, scope); }
    }
  }

  lemma InsertedOne(rows: map<nat, Config>, id: nat, row: Config)
    requires OneActive(rows) && id !in rows
    requires row.active <==> IsEmpty(rows, row.scope)
    ensures OneActive(rows[id := row])
  {
    var after := rows[id := row];
    forall k: nat, scope | InScope(after, k, scope) ensures exists a: nat :: IsActive(after, a, scope) {
      if scope == row.scope && row.active {
        assert IsActive(after, id, scope);
      } else {
        var j: nat :| InScope(rows, j, scope) by {
          if k != id {
            assert InScope(rows, k, scope);
          } else {
            var i :| i in rows && rows[i].scope == scope;
            assert InScope(rows, i, scope);
          }
        }
        var a: nat :| IsActive(rows, a, scope);
        assert IsActive(after, a, scope);
      }
    }
    forall a: nat, b: nat, scope | IsActive(after, a, scope) && IsActive(after, b, scope) ensures a == b {
      if a != id && b != id { assert IsActive(rows, a, scope) && IsActive(rows, b, scope); }
    }
  }

  /** Deleting a row that is not active, or the only one of its scope. */
  lemma DeletedOne(rows: map<nat, Config>, id: nat)
    requires OneActive(rows) && id in rows
    requires !rows[id].active || forall k: nat :: InScope(rows, k, rows[id].scope) ==> k == id
    ensures OneActive(rows - {id})
  {
    var after := rows - {id};
    forall k: nat, scope | InScope(after, k, scope) ensures exists a: nat :: IsActive(after, a, scope) {
      assert InScope(rows, k, scope);
      var a: nat :| IsActive(rows, a, scope);
      assert a != id;
      assert IsActive(after, a, scope);
    }
    forall a: nat, b: nat, scope | IsActive(after, a, scope) && IsActive(after, b, scope) ensures a == b {
      assert IsActive(rows, a, scope) && IsActive(rows, b, scope);
    }
  }

  /** Deleting the active row and activating another one of the scope. */
  lemma ReplacedOne(rows: map<nat, Config>, id: nat, next: nat)
    requires OneActive(rows) && id in rows && rows[id].active && InScope(rows, next, rows[id].scope) && next != id
    ensures OneActive((rows - {id})[next := rows[next].(active := true)])
  {
    ActivatedOne(rows, next);
    var after := (rows - {id})[next := rows[next].(active := true)];
    assert forall k: nat :: k in after ==> after[k] == Activated(rows, next)[k] by {
      forall k: nat | k in after && k != next && rows[k].scope == rows[id].scope ensures !rows[k].active {
        if rows[k].active { assert IsActive(rows, k, rows[id].scope) && IsActive(rows, id, rows[id].scope); }
      }
    }
    assert after == Activated(rows, next) - {id};
    DeletedOne(Activated(rows, next), id);
  }

  // ---------------------------------------------------------------- the repository

  datatype Operation =
    | Create(name: string, apiKey: string, baseUrl: string, model: string, scope: string)
    | Update(id: nat, newName: Option<string>, newKey: string, newUrl: Option<string>, newModel: Option<string>)
    | Delete(id: nat)
    | Activate(id: nat)
    | Restart

  class Repository {
    /** The old single-row table: absent, empty or with its row; `scoped`: the scope column exists. */
    var legacy: Option<Option<Config>>
    var scoped: bool
    var rows: map<nat, Config>
    var nextId: nat

    ghost predicate Valid()
      reads this
    {
      && OneActive(rows)
      && (forall id: nat :: id in rows ==> id < nextId)
      && (!scoped ==> forall id: nat :: id in rows ==> rows[id].scope == EVOLUTION)
    }

    constructor ()
      ensures Valid() && rows == map[] && scoped && legacy == None
    {
      legacy, scoped, rows, nextId := None, true, map[], 1;
    }

    method Create(name: string, apiKey: string, baseUrl: string, model: string, scope: string) returns (id: nat)
      requires Valid() && scoped
      modifies this`rows, this`nextId
      ensures Valid() && id !in old(rows)
      ensures rows == old(rows)[id := Config(name, Some(apiKey), baseUrl, model, IsEmpty(old(rows), scope), scope)]
    {
      var first := IsEmpty(rows, scope);
      id := nextId;
      InsertedOne(rows, id, Config(name, Some(apiKey), baseUrl, model, first, scope));
      rows, nextId := rows[id := Config(name, Some(apiKey), baseUrl, model, first, scope)], nextId + 1;
    }

    /** Which fields change; scope and activity never do. */
    method Update(id: nat, name: Option<string>, apiKey: string, baseUrl: Option<string>, model: Option<string>) returns (ok: bool)
      requires Valid()
      modifies this`rows
      ensures Valid() && ok == (id in old(rows)) && rows.Keys == old(rows).Keys
      ensures forall k: nat :: k in rows ==>
                rows[k] == if k != id then old(rows)[k]
                           else old(rows)[k].(name := name.GetOr(old(rows)[k].name),
                                              apiKey := if apiKey != "" then Some(apiKey) else old(rows)[k].apiKey,
                                              baseUrl := baseUrl.GetOr(old(rows)[k].baseUrl),
                                              model := model.GetOr(old(rows)[k].model))
    {
      ok := id in rows;
      if ok {
        var row := rows[id];
        if name.Some? { row := row.(name := name.value); }
        if apiKey != "" { row := row.(apiKey := Some(apiKey)); }
        if baseUrl.Some? { row := row.(baseUrl := baseUrl.value); }
        if model.Some? { row := row.(model := model.value); }
        SameActivity(rows, rows[id := row]);
        rows := rows[id := row];
      }
    }

    /** The remaining row of the scope with the smallest id. */
    method FirstInScope(scope: string) returns (id: Option<nat>)
      ensures id.None? ==> forall k: nat :: !InScope(rows, k, scope)
      ensures id.Some? ==> IsFirst(rows, id.value, scope)
    {
      id := None;
      var todo := rows.Keys;
      while todo != {}
        invariant todo <= rows.Keys
        invariant id.None? ==> forall k: nat :: InScope(rows, k, scope) ==> k in todo
        invariant id.Some? ==> InScope(rows, id.value, scope) && forall k: nat :: InScope(rows, k, scope) && k !in todo ==> id.value <= k
        decreases todo
      {
        var k: nat :| k in todo;
        if rows[k].scope == scope && (id.None? || k < id.value) { id := Some(k); }
        todo := todo - {k};
      }
    }

    /** An active row hands its activity to the first row left in its scope. */
    method Delete(id: nat) returns (ok: bool)
      requires Valid()
      modifies this`rows
      ensures Valid() && ok == (id in old(rows)) && rows.Keys == old(rows).Keys - {id}
      ensures forall k: nat :: k in rows ==>
                rows[k] == if ok && old(rows)[id].active && IsFirst(old(rows) - {id}, k, old(rows)[id].scope)
                           then old(rows)[k].(active := true) else old(rows)[k]
    {
      ok := id in rows;
      if !ok { return; }
      ghost var before := rows;
      var wasActive, scope := rows[id].active, rows[id].scope;
      rows := rows - {id};
      if wasActive {
        var next: Option<nat> := FirstInScope(scope);
        if next.Some? {
          ReplacedOne(before, id, next.value);
          rows := rows[next.value := rows[next.value].(active := true)];
          return;
        }
        forall k: nat | InScope(before, k, scope) ensures k == id { assert k != id ==> InScope(before - {id}, k, scope); }
      }
      DeletedOne(before, id);
    }

    method Activate(id: nat) returns (ok: bool)
      requires Valid()
      modifies this`rows
      ensures Valid() && ok == (id in old(rows))
      ensures !ok ==> rows == old(rows)
      ensures ok ==> rows.Keys == old(rows).Keys && forall k: nat :: k in rows ==>
                rows[k] == if old(rows)[k].scope == old(rows)[id].scope then old(rows)[k].(active := k == id) else old(rows)[k]
    {
      ok := id in rows;
      if !ok { return; }
      ActivatedOne(rows, id);
      var scope := rows[id].scope;
      rows := map k: nat | k in rows :: if rows[k].scope == scope then rows[k].(active := false) else rows[k];
      rows := rows[id := rows[id].(active := true)];
      assert rows == Activated(old(rows), id);
    }

    /** `_migrate_llm_configs_multi`: the row of the old table moves into an empty new one. */
    method MigrateMulti()
      requires Valid()
      modifies this`legacy, this`rows, this`nextId
      ensures Valid() && legacy == None
      ensures if old(rows) == map[] && old(legacy).Some? && old(legacy).value.Some?
              then rows.Keys == {1} && IsMoved(old(legacy).value.value, rows[1])
              else rows == old(rows) && nextId == old(nextId)
    {
      if rows != map[] || legacy.None? || legacy.value.None? {
        legacy := None;
        return;
      }
      var row := Moved(legacy.value.value);
      InsertedOne(rows, 1, row);
      rows, legacy := rows[1 := row], None;
      nextId := if nextId < 2 then 2 else nextId;
    }

    /** `_migrate_llm_configs_scope`: where the scope column is missing it is added, and every
        row gets one copy in the executor scope. */
    method MigrateScope() returns (ghost copies: map<nat, nat>)
      requires Valid()
      modifies this`scoped, this`rows, this`nextId
      ensures Valid() && scoped
      ensures if old(scoped) then rows == old(rows) && nextId == old(nextId) else Doubled(old(rows), rows, copies)
      ensures !old(scoped) ==> forall id: nat :: id in old(rows) ==>
                id in copies && copies[id] in rows && IsCopy(old(rows)[id], rows[copies[id]])
    {
      copies := map[];
      if scoped { return; }
      copies := CopyRows();
      scoped := true;
      DoubledOne(old(rows), rows, copies);
    }

    method CopyRows() returns (ghost copies: map<nat, nat>)
      requires forall id: nat :: id in rows ==> id < nextId
      modifies this`rows, this`nextId
      ensures Doubled(old(rows), rows, copies) && forall id: nat :: id in rows ==> id < nextId
    {
      copies := map[];
      var todo := rows.Keys;
      while todo != {}
        invariant todo <= old(rows).Keys && (forall id: nat :: id in rows ==> id < nextId)
        invariant copies.Keys == old(rows).Keys - todo
        invariant Extends(old(rows), rows, copies)
        decreases todo
      {
        var id: nat :| id in todo;
        ExtendedOne(old(rows), rows, copies, id, nextId);
        copies := copies[id := nextId];
        rows := rows[nextId := CopyOf(rows[id])];
        nextId, todo := nextId + 1, todo - {id};
      }
    }

    /** Both migrations, as the start of the service runs them; a second start changes
        nothing. The executor scope is left without a configuration exactly when the table
        already had the scope column and held no executor row, or when there was no row at all. */
    method Migrate() returns (ghost again: bool)
      requires Valid()
      modifies this
      ensures Valid() && scoped && legacy == None && again
      ensures IsEmpty(rows, EXECUTOR) <==>
              if old(scoped) then IsEmpty(old(rows), EXECUTOR)
              else old(rows) == map[] && (old(legacy).None? || old(legacy).value.None?)
    {
      ScopesDiffer();
      MigrateMulti();
      ghost var moved := rows;
      MovedEmpty(old(rows), old(legacy), moved);
      ghost var copies := MigrateScope();
      if !old(scoped) { ExecutorRows(moved, rows, copies); }
      ghost var rows1, nextId1 := rows, nextId;
      MigrateMulti();
      ghost var more := MigrateScope();
      again := rows == rows1 && nextId == nextId1;
    }

    /** Any life of the table, from whatever an older service left: the start migrates it, and
        operations and further starts follow in any order. */
    method Run(steps: seq<Operation>)
      requires Valid()
      modifies this
      ensures Valid() && scoped && legacy == None
      ensures forall scope :: IsEmpty(rows, scope) || Served(rows, scope)
    {
      ghost var again := Migrate();
      for i := 0 to |steps|
        invariant Valid() && scoped && legacy == None
      {
        match steps[i]
        case Create(name, apiKey, baseUrl, model, scope) => var _ := Create(name, apiKey, baseUrl, model, scope);
        case Update(id, name, apiKey, baseUrl, model) => var _ := Update(id, name, apiKey, baseUrl, model);
        case Delete(id) => var _ := Delete(id);
        case Activate(id) => var _ := Activate(id);
        case Restart => again := Migrate();
      }
      EachScopeServed(rows);
    }
  }

  // ---------------------------------------------------------------- the migrations

  /** The old row, active in the evolution scope, and named "default" if it had no name. */
  ghost predicate IsMoved(old_: Config, row: Config) {
    && row == old_.(name := row.name, active := true, scope := "evolution")
    && (old_.name == "" ==> row.name == "default") && (old_.name != "" ==> row.name == old_.name)
  }

  /** A row of the executor scope, its name marked, and otherwise the same. */
  ghost predicate IsCopy(old_: Config, row: Config) {
    row == old_.(name := row.name, scope := "executor") && row.name == old_.name + COPY_SUFFIX
  }

  function Moved(row: Config): Config {
    row.(name := if row.name == "" then "default" else row.name, active := true, scope := EVOLUTION)
  }

  function CopyOf(row: Config): Config {
    row.(name := row.name + COPY_SUFFIX, scope := EXECUTOR)
  }

  /** `rows` is `before` and one executor copy for each row that `copies` lists. */
  ghost predicate Extends(before: map<nat, Config>, rows: map<nat, Config>, copies: map<nat, nat>) {
    && copies.Keys <= before.Keys
    && (forall id: nat :: id in before ==> id in rows && rows[id] == before[id])
    && (forall id: nat :: id in copies ==> copies[id] !in before && copies[id] in rows && rows[copies[id]] == CopyOf(before[id]))
    && (forall id: nat, other: nat :: id in copies && other in copies && copies[id] == copies[other] ==> id == other)
    && (forall k: nat :: k in rows ==> k in before || exists id: nat :: id in copies && copies[id] == k)
  }

  /** Every row has exactly one copy. */
  ghost predicate Doubled(before: map<nat, Config>, rows: map<nat, Config>, copies: map<nat, nat>) {
    Extends(before, rows, copies) && copies.Keys == before.Keys
  }

  lemma ExtendedOne(before: map<nat, Config>, rows: map<nat, Config>, copies: map<nat, nat>, id: nat, fresh_: nat)
    requires Extends(before, rows, copies) && id in before && id !in copies && fresh_ !in rows
    ensures Extends(before, rows[fresh_ := CopyOf(rows[id])], copies[id := fresh_])
  {
    var rows', copies' := rows[fresh_ := CopyOf(rows[id])], copies[id := fresh_];
    forall k: nat | k in rows' ensures k in before || exists i: nat :: i in copies' && copies'[i] == k {
      if k == fresh_ {
        assert copies'[id] == k;
      } else if k !in before {
        var i: nat :| i in copies && copies[i] == k;
        assert copies'[i] == k;
      }
    }
  }

  lemma DoubledOne(before: map<nat, Config>, rows: map<nat, Config>, copies: map<nat, nat>)
    requires OneActive(before) && Doubled(before, rows, copies)
    requires forall id: nat :: id in before ==> before[id].scope == EVOLUTION
    ensures OneActive(rows)
  {
    forall k: nat, scope | InScope(rows, k, scope) ensures exists a: nat :: IsActive(rows, a, scope) {
      var id: nat := k;
      if k !in before { id :| id in copies && copies[id] == k; }
      assert InScope(before, id, EVOLUTION);
      var a: nat :| IsActive(before, a, EVOLUTION);
      assert IsActive(rows, a, EVOLUTION) && IsActive(rows, copies[a], EXECUTOR);
    }
    forall a: nat, b: nat, scope | IsActive(rows, a, scope) && IsActive(rows, b, scope) ensures a == b {
      var i: nat, j: nat := a, b;
      if a !in before { i :| i in copies && copies[i] == a; }
      if b !in before { j :| j in copies && copies[j] == b; }
      assert IsActive(before, i, EVOLUTION) && IsActive(before, j, EVOLUTION);
    }
  }

  lemma MovedEmpty(before: map<nat, Config>, legacy: Option<Option<Config>>, moved: map<nat, Config>)
    requires if before == map[] && legacy.Some? && legacy.value.Some? then moved == map[1 := Moved(legacy.value.value)]
             else moved == before
    ensures moved == map[] <==> before == map[] && (legacy.None? || legacy.value.None?)
    ensures IsEmpty(moved, EXECUTOR) <==> IsEmpty(before, EXECUTOR)
  {
    ScopesDiffer();
    if before == map[] && legacy.Some? && legacy.value.Some? { assert 1 in moved; }
  }

  lemma ScopesDiffer()
    ensures EVOLUTION != EXECUTOR
  {
    assert |EVOLUTION| != |EXECUTOR|;
  }

  lemma ExecutorRows(before: map<nat, Config>, rows: map<nat, Config>, copies: map<nat, nat>)
    requires Doubled(before, rows, copies)
    requires forall id: nat :: id in before ==> before[id].scope == EVOLUTION
    ensures IsEmpty(rows, EXECUTOR) <==> before == map[]
  {
    ScopesDiffer();
    if before != map[] {
      var id: nat :| id in before;
      assert rows[copies[id]].scope == EXECUTOR;
    }
  }

  lemma SameActivity(rows: map<nat, Config>, after: map<nat, Config>)
    requires OneActive(rows) && after.Keys == rows.Keys
    requires forall k: nat :: k in rows ==> after[k].scope == rows[k].scope && after[k].active == rows[k].active
    ensures OneActive(after)
  {
    forall k: nat, scope | InScope(after, k, scope) ensures exists a: nat :: IsActive(after, a, scope) {
      assert InScope(rows, k, scope);
      var a: nat :| IsActive(rows, a, scope);
      assert IsActive(after, a, scope);
    }
    forall a: nat, b: nat, scope | IsActive(after, a, scope) && IsActive(after, b, scope) ensures a == b {
      assert IsActive(rows, a, scope) && IsActive(rows, b, scope);
    }
  }
}
