/** The content-addressed payload directory and the tables that govern it: what is stored,
    what a trace deletion, an expiry purge and an orphan sweep remove, and what they keep. */
module PayloadStore {
  import opened Wrappers
  import opened PayloadGate
  import opened PayloadHash

  /** sha256 of the canonical bytes, as a free constructor: equal ids mean equal bytes. */
  datatype PayloadId = Sha256(canonical: Json)

  datatype FileName = BodyOf(id: PayloadId) | Temporary(n: nat)

  datatype File = File(content: Json, written: int)

  datatype Row = Row(expires: Option<int>, isSealed: bool, deleted: bool)

  datatype LinkKey = LinkKey(trace: string, event: string, field: string)

  datatype Revision = Revision(payload: PayloadId, producer: string)

  datatype PutError = Refused(cause: Rejected) | ReadbackMismatch

  /** `_expired`. */
  predicate Expired(expires: Option<int>, now: int) {
    expires.Some? && expires.value <= now
  }

  /** Some link, revision or outcome still names the payload. */
  predicate Referenced(id: PayloadId, links: map<LinkKey, PayloadId>, revisions: map<string, Revision>,
                       outcomes: map<string, PayloadId>)
  {
    || (exists k :: k in links && links[k] == id)
    || (exists k :: k in revisions && revisions[k].payload == id)
    || (exists k :: k in outcomes && outcomes[k] == id)
  }

  function LinkedTo(trace: string, links: map<LinkKey, PayloadId>): set<PayloadId> {
    set k | k in links && k.trace == trace :: links[k]
  }

  function Unlinked(trace: string, links: map<LinkKey, PayloadId>): map<LinkKey, PayloadId> {
    map k | k in links && k.trace != trace :: links[k]
  }

  function NotBy(trace: string, revisions: map<string, Revision>): map<string, Revision> {
    map k | k in revisions && revisions[k].producer != trace :: revisions[k]
  }

  /** The rows of `ids` are tombstoned and their bodies removed; all else stays as it was. */
  ghost predicate Erased(rows: map<PayloadId, Row>, files: map<FileName, File>, ids: set<PayloadId>,
                         rows': map<PayloadId, Row>, files': map<FileName, File>)
  {
    && rows'.Keys == rows.Keys
    && (forall id :: id in rows ==> rows'[id] == if id in ids then rows[id].(deleted := true) else rows[id])
    && (forall name :: name in files' <==> name in files && !(name.BodyOf? && name.id in ids))
    && forall name :: name in files' ==> files'[name] == files[name]
  }

  lemma ErasedRows(rows: map<PayloadId, Row>, files: map<FileName, File>, ids: set<PayloadId>)
    ensures Erased(rows, files, ids, Tombstoned(rows, ids), WithoutBodies(files, ids))
  {
  }

  /** The links of the trace and the revisions it produced are gone, all others stay. */
  ghost predicate Detached(links: map<LinkKey, PayloadId>, revisions: map<string, Revision>,
                           links': map<LinkKey, PayloadId>, revisions': map<string, Revision>, trace: string)
  {
    && (forall k :: k in links' <==> k in links && k.trace != trace) && (forall k :: k in links' ==> links'[k] == links[k])
    && (forall k :: k in revisions' <==> k in revisions && revisions[k].producer != trace)
    && forall k :: k in revisions' ==> revisions'[k] == revisions[k]
  }

  /** The trace had linked the payload, and no link, no revision and no outcome names it any more. */
  ghost predicate Abandoned(id: PayloadId, trace: string, before: map<LinkKey, PayloadId>, links: map<LinkKey, PayloadId>,
                            revisions: map<string, Revision>, outcomes: map<string, PayloadId>)
  {
    && (exists k :: k in before && k.trace == trace && before[k] == id)
    && (forall k :: k in links ==> links[k] != id) && (forall k :: k in revisions ==> revisions[k].payload != id)
    && forall k :: k in outcomes ==> outcomes[k] != id
  }

  /** The trace loses its links and revisions; the payloads that it abandons lose their rows
      and bodies; all else stays. */
  ghost predicate Deleted(trace: string, rows: map<PayloadId, Row>, files: map<FileName, File>, links: map<LinkKey, PayloadId>,
                          revisions: map<string, Revision>, outcomes: map<string, PayloadId>, rows': map<PayloadId, Row>,
                          files': map<FileName, File>, links': map<LinkKey, PayloadId>, revisions': map<string, Revision>)
  {
    && Detached(links, revisions, links', revisions', trace)
    && exists gone: set<PayloadId> ::
         && Erased(rows, files, gone, rows', files')
         && forall id :: id in gone <==> Abandoned(id, trace, links, links', revisions', outcomes)
  }

  lemma TraceIsDeleted(trace: string, rows: map<PayloadId, Row>, files: map<FileName, File>, links: map<LinkKey, PayloadId>,
                       revisions: map<string, Revision>, outcomes: map<string, PayloadId>)
    ensures var links', revisions' := Unlinked(trace, links), NotBy(trace, revisions);
            var gone := Orphans(LinkedTo(trace, links), links', revisions', outcomes);
            Deleted(trace, rows, files, links, revisions, outcomes, Tombstoned(rows, gone), WithoutBodies(files, gone), links', revisions')
  {
    var links', revisions' := Unlinked(trace, links), NotBy(trace, revisions);
    var gone := Orphans(LinkedTo(trace, links), links', revisions', outcomes);
    ErasedRows(rows, files, gone);
    AbandonedAre(trace, links, links', revisions', outcomes);
  }

  lemma AbandonedAre(trace: string, before: map<LinkKey, PayloadId>, links: map<LinkKey, PayloadId>,
                     revisions: map<string, Revision>, outcomes: map<string, PayloadId>)
    ensures forall id :: id in Orphans(LinkedTo(trace, before), links, revisions, outcomes) <==>
                         Abandoned(id, trace, before, links, revisions, outcomes)
  {
  }

  /** The rows with those of `ids` tombstoned. */
  function Tombstoned(rows: map<PayloadId, Row>, ids: set<PayloadId>): map<PayloadId, Row> {
    map id | id in rows :: if id in ids then rows[id].(deleted := true) else rows[id]
  }

  function WithoutBodies(files: map<FileName, File>, ids: set<PayloadId>): map<FileName, File> {
    map name | name in files && !(name.BodyOf? && name.id in ids) :: files[name]
  }

  /** Those of `ids` that nothing names. */
  function Orphans(ids: set<PayloadId>, links: map<LinkKey, PayloadId>, revisions: map<string, Revision>,
                   outcomes: map<string, PayloadId>): set<PayloadId>
  {
    set id | id in ids && !Referenced(id, links, revisions, outcomes)
  }

  lemma TombstoneOneMore(rows: map<PayloadId, Row>, ids: set<PayloadId>, id: PayloadId)
    ensures Tombstoned(rows, ids + {id}) ==
            if id in rows then Tombstoned(rows, ids)[id := rows[id].(deleted := true)] else Tombstoned(rows, ids)
  {
  }

  predicate IsLive(rows: map<PayloadId, Row>, id: PayloadId) {
    id in rows && !rows[id].deleted
  }

  /** Not deleted, not sealed, and past its expiry, if it has one. */
  ghost predicate Lapsed(row: Row, now: int) {
    !row.deleted && !row.isSealed && exists t :: row.expires == Some(t) && t <= now
  }

  lemma LapsedRows(rows: map<PayloadId, Row>, now: int)
    ensures (set id | id in rows && Lapsed(rows[id], now))
         == set id | id in rows && IsLive(rows, id) && !rows[id].isSealed && Expired(rows[id].expires, now)
  {
  }

  /** What the sweep removes: crash leftovers and bodies without a live row, past the grace period. */
  predicate Sweepable(name: FileName, file: File, rows: map<PayloadId, Row>, now: int, grace: int) {
    now - file.written >= grace && (name.BodyOf? ==> !IsLive(rows, name.id))
  }

  /** Live, sealed, with its body, and named by an outcome. */
  ghost predicate IsEvidence(id: PayloadId, files: map<FileName, File>, rows: map<PayloadId, Row>,
                             outcomes: map<string, PayloadId>, bodiless: set<PayloadId>)
  {
    && IsLive(rows, id) && rows[id].isSealed && id !in bodiless && BodyOf(id) in files
    && Named(id, outcomes)
  }

  ghost predicate Named(id: PayloadId, outcomes: map<string, PayloadId>) {
    exists k :: k in outcomes && outcomes[k] == id
  }

  lemma NamedStill(id: PayloadId, outcomes: map<string, PayloadId>, more: map<string, PayloadId>)
    requires Named(id, outcomes) && forall k :: k in outcomes ==> k in more && more[k] == outcomes[k]
    ensures Named(id, more)
  {
    var k :| k in outcomes && outcomes[k] == id;
    assert k in more;
  }

  datatype Event =
    | Kept(value: Json, temp: nat, landed: Json, seal: bool)
    | Indexed(id: PayloadId, expires: Option<int>)
    | Crashed(temp: nat, landed: Json)
    | Referred(reference: Reference)
    | TraceDeleted(trace: string)
    | Purged
    | Swept(grace: int)
    | Time(elapsed: nat)

  datatype Reference =
    | ByLink(link: LinkKey, id: PayloadId)
    | ByRevision(key: string, producer: string, id: PayloadId)
    | ByOutcome(key: string, id: PayloadId)

  /** Bodies have the content that their names say; live rows have bodies, unless an import left
      them without; links and revisions name rows. */
  ghost predicate Consistent(files: map<FileName, File>, rows: map<PayloadId, Row>, links: map<LinkKey, PayloadId>,
                             revisions: map<string, Revision>, bodiless: set<PayloadId>, now: int)
  {
    && (forall id :: BodyOf(id) in files ==> files[BodyOf(id)].content == id.canonical)
    && (forall name :: name in files ==> files[name].written <= now)
    && (forall id :: IsLive(rows, id) && id !in bodiless ==> BodyOf(id) in files)
    && (forall k :: k in links ==> links[k] in rows)
    && (forall k :: k in revisions ==> revisions[k].payload in rows)
  }

  lemma DeletedConsistent(trace: string, files: map<FileName, File>, rows: map<PayloadId, Row>, links: map<LinkKey, PayloadId>,
                          revisions: map<string, Revision>, bodiless: set<PayloadId>, now: int, gone: set<PayloadId>)
    requires Consistent(files, rows, links, revisions, bodiless, now)
    ensures Consistent(WithoutBodies(files, gone), Tombstoned(rows, gone), Unlinked(trace, links), NotBy(trace, revisions), bodiless, now)
  {
  }

  class Store {
    const retention: nat
    var now: int
    var files: map<FileName, File>
    var rows: map<PayloadId, Row>
    var links: map<LinkKey, PayloadId>
    var revisions: map<string, Revision>
    var outcomes: map<string, PayloadId>
    /** Payloads that an import indexed without ever having their body. */
    ghost var bodiless: set<PayloadId>

    ghost predicate Valid()
      reads this
    {
      Consistent(files, rows, links, revisions, bodiless, now)
    }

    constructor (retention: nat, now: int)
      ensures Valid() && files == map[] && rows == map[] && links == map[] && revisions == map[] && outcomes == map[]
      ensures this.retention == retention && this.now == now && bodiless == {}
    {
      this.retention, this.now := retention, now;
      files, rows, links, revisions, outcomes, bodiless := map[], map[], map[], map[], map[], {};
    }

    /** `read_payload`: the sealed flag plays no part in it. */
    function Read(id: PayloadId): (r: Option<Json>)
      reads this
      ensures r.Some? <==> && id in rows && !rows[id].deleted && BodyOf(id) in files
                           && (rows[id].expires.Some? ==> now < rows[id].expires.value)
      ensures r.Some? ==> r.value == files[BodyOf(id)].content
    {
      if !IsLive(rows, id) || Expired(rows[id].expires, now) || BodyOf(id) !in files then None
      else Some(files[BodyOf(id)].content)
    }

    /** `put`: `temp` is the fresh temporary name, `landed` what the disk holds after the write. */
    method Put(value: Json, secretLike: string -> bool, temp: nat, landed: Json)
      returns (r: Result<PayloadId, PutError>)
      requires Valid() && Temporary(temp) !in files
      modifies this`files
      ensures Valid()
      ensures r.Err? ==> files == old(files)
      ensures match Normalize(value, secretLike)
              case Err(cause) => r == Err(Refused(cause))
              case Ok((kept, _)) =>
                var id := Sha256(Canon(kept));
                if BodyOf(id) in old(files) then r == Ok(id) && files == old(files)
                else if landed == Canon(kept) then r == Ok(id) && files == old(files)[BodyOf(id) := File(landed, now)]
                else r == Err(ReadbackMismatch)
    {
      var prepared := Normalize(value, secretLike);
      if prepared.Err? { return Err(Refused(prepared.error)); }
      var id := Sha256(Canon(prepared.value.0));
      if BodyOf(id) !in files {
        files := files[Temporary(temp) := File(landed, now)];
        if Sha256(files[Temporary(temp)].content) != id {
          files := files - {Temporary(temp)};
          return Err(ReadbackMismatch);
        }
        files := files[BodyOf(id) := files[Temporary(temp)]] - {Temporary(temp)};
      }
      return Ok(id);
    }

    /** A put and the row upsert that follows it. The recorder's upsert moves the expiry of an
        existing row, the recovery's seals it; neither clears a tombstone. */
    method Keep(value: Json, secretLike: string -> bool, temp: nat, landed: Json, seal: bool)
      returns (r: Result<PayloadId, PutError>)
      requires Valid() && Temporary(temp) !in files
      modifies this`files, this`rows, this`bodiless
      ensures Valid()
      ensures r.Err? ==> files == old(files) && rows == old(rows) && bodiless == old(bodiless)
      ensures r.Ok? <==> match Normalize(value, secretLike)
                         case Err(_) => false
                         case Ok((kept, _)) => BodyOf(Sha256(Canon(kept))) in old(files) || landed == Canon(kept)
      ensures r.Ok? ==>
                var id := r.value;
                && Normalize(value, secretLike).Ok? && id == Sha256(Canon(Normalize(value, secretLike).value.0))
                && BodyOf(id) in files && files.Keys == old(files).Keys + {BodyOf(id)}
                && (forall name :: name in old(files) ==> files[name] == old(files)[name])
                && bodiless == old(bodiless) - {id}
                && rows == old(rows)[id :=
                     if id !in old(rows) then Row(Some(now + retention), seal, false)
                     else if seal then old(rows)[id].(isSealed := true)
                     else old(rows)[id].(expires := Some(now + retention))]
      ensures r.Ok? ==>
                Read(r.value) == if (r.value in old(rows) && old(rows)[r.value].deleted) || Expired(rows[r.value].expires, now)
                                 then None else Some(r.value.canonical)
    {
      r := Put(value, secretLike, temp, landed);
      if r.Err? { return; }
      var id := r.value;
      var row := if id !in rows then Row(Some(now + retention), seal, false)
                 else if seal then rows[id].(isSealed := true)
                 else rows[id].(expires := Some(now + retention));
      rows, bodiless := rows[id := row], bodiless - {id};
    }

    /** The importer indexes a payload whose body did not come with the trace. */
    method Index(id: PayloadId, expires: Option<int>)
      requires Valid()
      modifies this`rows, this`bodiless
      ensures Valid()
      ensures rows == old(rows)[id := if id in old(rows) then old(rows)[id].(expires := expires) else Row(expires, false, false)]
      ensures bodiless == old(bodiless) + if BodyOf(id) in files then {} else {id}
    {
      rows := rows[id := if id in rows then rows[id].(expires := expires) else Row(expires, false, false)];
      if BodyOf(id) !in files { bodiless := bodiless + {id}; }
    }

    /** The process dies between writing a temporary file and renaming it. */
    method Crash(temp: nat, landed: Json)
      requires Valid()
      modifies this`files
      ensures Valid() && files == old(files)[Temporary(temp) := File(landed, now)]
    {
      files := files[Temporary(temp) := File(landed, now)];
    }

    /** New references. A foreign key demands the row of a link and of a revision; outcomes
        are append-only. */
    method Refer(reference: Reference)
      requires Valid()
      modifies this`links, this`revisions, this`outcomes
      ensures Valid()
      ensures outcomes == if reference.ByOutcome? && reference.key !in old(outcomes)
                          then old(outcomes)[reference.key := reference.id] else old(outcomes)
      ensures links == if reference.ByLink? && reference.id in rows then old(links)[reference.link := reference.id] else old(links)
      ensures revisions == if reference.ByRevision? && reference.id in rows
                           then old(revisions)[reference.key := Revision(reference.id, reference.producer)] else old(revisions)
    {
      match reference
      case ByLink(link, id) => if id in rows { links := links[link := id]; }
      case ByRevision(key, producer, id) => if id in rows { revisions := revisions[key := Revision(id, producer)]; }
      case ByOutcome(key, id) => if key !in outcomes { outcomes := outcomes[key := id]; }
    }

    /** `delete_trace_payloads`: what becomes an orphan is exactly what the trace linked and
        nothing else names any more; everything else keeps its row and its body. */
    method DeleteTrace(trace: string)
      requires Valid()
      modifies this`files, this`rows, this`links, this`revisions
      ensures Valid()
      ensures links == Unlinked(trace, old(links)) && revisions == NotBy(trace, old(revisions))
      ensures var orphans := Orphans(LinkedTo(trace, old(links)), links, revisions, outcomes);
              rows == Tombstoned(old(rows), orphans) && files == WithoutBodies(old(files), orphans)
      ensures Deleted(trace, old(rows), old(files), old(links), old(revisions), outcomes, rows, files, links, revisions)
    {
      ghost var rows0, files0, links0, revisions0 := rows, files, links, revisions;
      var linked := LinkedTo(trace, links);
      revisions, links := NotBy(trace, revisions), Unlinked(trace, links);
      var orphaned := Tombstone(linked);
      Erase(orphaned);
      TraceIsDeleted(trace, rows0, files0, links0, revisions0, outcomes);
      DeletedConsistent(trace, files0, rows0, links0, revisions0, bodiless, now, orphaned);
    }

    /** The loop of the deletion's transaction. */
    method Tombstone(linked: set<PayloadId>) returns (orphaned: set<PayloadId>)
      modifies this`rows
      ensures orphaned == Orphans(linked, links, revisions, outcomes) && rows == Tombstoned(old(rows), orphaned)
    {
      var todo := linked;
      orphaned := {};
      while todo != {}
        invariant todo <= linked && rows == Tombstoned(old(rows), orphaned)
        invariant orphaned == Orphans(linked - todo, links, revisions, outcomes)
        decreases todo
      {
        var id :| id in todo;
        if !Referenced(id, links, revisions, outcomes) {
          TombstoneOneMore(old(rows), orphaned, id);
          if id in rows { rows := rows[id := rows[id].(deleted := true)]; }
          orphaned := orphaned + {id};
        }
        todo := todo - {id};
      }
    }

    method Erase(ids: set<PayloadId>)
      modifies this`files
      ensures files == WithoutBodies(old(files), ids)
    {
      ghost var files0 := files;
      var todo := ids;
      while todo != {}
        invariant todo <= ids && files == WithoutBodies(files0, ids - todo)
        decreases todo
      {
        var id :| id in todo;
        files := files - {BodyOf(id)};
        todo := todo - {id};
      }
    }

    /** `purge_expired_payloads`. */
    method Purge() returns (count: nat)
      requires Valid()
      modifies this`files, this`rows
      ensures Valid()
      ensures var gone := set id | id in old(rows) && Lapsed(old(rows)[id], now);
              rows == Tombstoned(old(rows), gone) && files == WithoutBodies(old(files), gone) && count == |gone|
      ensures Erased(old(rows), old(files), (set id | id in old(rows) && Lapsed(old(rows)[id], now)), rows, files)
    {
      LapsedRows(rows, now);
      ghost var rows0, files0 := rows, files;
      var gone := set id | id in rows && IsLive(rows, id) && !rows[id].isSealed && Expired(rows[id].expires, now);
      var todo := gone;
      while todo != {}
        invariant todo <= gone
        invariant rows == Tombstoned(rows0, gone - todo) && files == WithoutBodies(files0, gone - todo)
        decreases todo
      {
        var id :| id in todo;
        files := files - {BodyOf(id)};
        rows := rows[id := rows[id].(deleted := true)];
        todo := todo - {id};
      }
      ErasedRows(rows0, files0, gone);
      return |gone|;
    }

    /** `cleanup_orphan_payload_files`. */
    method Sweep(grace: int) returns (removed: nat)
      requires Valid()
      modifies this`files
      ensures Valid()
      ensures forall name :: name in files <==>
                && name in old(files)
                && (old(files)[name].written > now - grace || (name.BodyOf? && name.id in rows && !rows[name.id].deleted))
      ensures forall name :: name in files ==> files[name] == old(files)[name]
      ensures |files| + removed == |old(files)|
    {
      ghost var files0 := files;
      var todo := files.Keys;
      removed := 0;
      while todo != {}
        invariant todo <= files0.Keys
        invariant files == map name | name in files0 && (name in todo || !Sweepable(name, files0[name], rows, now, grace)) :: files0[name]
        invariant |files| + removed == |files0|
        decreases todo
      {
        var name :| name in todo;
        if Sweepable(name, files[name], rows, now, grace) {
          files := files - {name};
          removed := removed + 1;
        }
        todo := todo - {name};
      }
    }

    method Tick(elapsed: nat)
      requires Valid()
      modifies this`now
      ensures Valid() && now == old(now) + elapsed
    {
      now := now + elapsed;
    }

    /** Storing a payload again after its row was tombstoned succeeds, yet it stays unreadable:
        the upsert leaves the tombstone, and a sweep after the grace period takes the body. */
    method KeepTombstoned(value: Json, secretLike: string -> bool, temp: nat, landed: Json, grace: nat)
      returns (r: Result<PayloadId, PutError>, readable: Option<Json>)
      requires Valid() && Temporary(temp) !in files && Normalize(value, secretLike).Ok?
      requires landed == Canon(Normalize(value, secretLike).value.0)
      requires var id := Sha256(landed); id in rows && rows[id].deleted
      modifies this`files, this`rows, this`bodiless, this`now
      ensures Valid()
      ensures r == Ok(Sha256(landed)) && readable == None && BodyOf(Sha256(landed)) !in files
    {
      r := Keep(value, secretLike, temp, landed, false);
      readable := Read(r.value);
      Tick(grace);
      var _ := Sweep(grace);
    }

    ghost predicate Protected(id: PayloadId)
      reads this
    {
      IsEvidence(id, files, rows, outcomes, bodiless)
    }

    /** Any run: the directory and the tables stay in step, and evidence that is sealed and
        named by an outcome keeps its row and its body, whatever is deleted, purged or swept. */
    method Run(steps: seq<Event>, secretLike: string -> bool)
      requires Valid()
      modifies this
      ensures Valid()
      ensures forall id :: old(Protected(id)) ==> Protected(id)
    {
      for i := 0 to |steps|
        invariant Valid()
        invariant forall id :: old(Protected(id)) ==> Protected(id)
      {
        Do(steps[i], secretLike);
      }
    }

    method Do(event: Event, secretLike: string -> bool)
      requires Valid()
      modifies this
      ensures Valid()
      ensures forall id :: old(Protected(id)) ==> Protected(id)
    {
      ghost var outcomes0 := outcomes;
      match event
      case Kept(value, temp, landed, seal) =>
        if Temporary(temp) !in files { var _ := Keep(value, secretLike, temp, landed, seal); }
      case Indexed(id, expires) => Index(id, expires);
      case Crashed(temp, landed) => Crash(temp, landed);
      case Referred(reference) =>
        Refer(reference);
        forall id | Named(id, outcomes0) ensures Named(id, outcomes) { NamedStill(id, outcomes0, outcomes); }
      case TraceDeleted(trace) => DeleteTrace(trace);
      case Purged => var _ := Purge();
      case Swept(grace) => var _ := Sweep(grace);
      case Time(elapsed) => Tick(elapsed);
    }
  }

  /** Sealing keeps the row and the body of a payload, but not its readability: once the
      expiry has passed the purge spares it and the read still refuses it. */
  method SealedAfterExpiry(value: Json, secretLike: string -> bool, retention: nat)
    returns (purged: nat, body: Option<Json>, readable: Option<Json>)
    requires Normalize(value, secretLike).Ok?
    ensures purged == 0 && body == Some(Canon(Normalize(value, secretLike).value.0)) && readable == None
  {
    var store := new Store(retention, 0);
    var landed := Canon(Normalize(value, secretLike).value.0);
    var kept := store.Keep(value, secretLike, 0, landed, true);
    store.Tick(retention);
    purged := store.Purge();
    var id := kept.value;
    body := if BodyOf(id) in store.files then Some(store.files[BodyOf(id)].content) else None;
    readable := store.Read(id);
  }
}
