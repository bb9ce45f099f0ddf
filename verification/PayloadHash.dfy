/** The canonical form whose bytes are hashed (sorted keys at every level), and what equal
    hashes mean. */
module PayloadHash {
  import opened Wrappers
  import opened Text
  import opened PayloadGate

  // ---------------------------------------------------------------- canonical form

  function InsertEntry(entries: seq<Entry>, e: Entry): seq<Entry> {
    if entries == [] || StringLess(e.key, entries[0].key) then [e] + entries
    else [entries[0]] + InsertEntry(entries[1..], e)
  }

  /** The value as `json.dumps(sort_keys=True)` writes it. */
  function Canon(v: Json): Json
    decreases v, 1
  {
    match v
    case List(items) => List(CanonItems(items))
    case Dict(entries) => Dict(CanonEntries(entries))
    case _ => v
  }

  function CanonItems(items: seq<Json>): seq<Json>
    decreases items, 0
  {
    if items == [] then [] else [Canon(items[0])] + CanonItems(items[1..])
  }

  function CanonEntries(entries: seq<Entry>): seq<Entry>
    decreases entries, 0
  {
    if entries == [] then []
    else InsertEntry(CanonEntries(entries[1..]), Entry(entries[0].key, Canon(entries[0].value)))
  }

  ghost predicate SortedEntries(entries: seq<Entry>) {
    forall i, j :: 0 <= i < j < |entries| ==> StringLess(entries[i].key, entries[j].key)
  }

  lemma {:induction false} InsertEntrySorted(entries: seq<Entry>, e: Entry)
    requires SortedEntries(entries) && Lookup(entries, e.key).None?
    ensures SortedEntries(InsertEntry(entries, e))
    ensures forall key :: Lookup(InsertEntry(entries, e), key) == if key == e.key then Some(e.value) else Lookup(entries, key)
  {
    if entries == [] {
      assert [e][1..] == [];
    } else if StringLess(e.key, entries[0].key) {
      assert ([e] + entries)[1..] == entries;
      forall j | 0 <= j < |entries| ensures StringLess(e.key, entries[j].key) {
        if j > 0 { StringLessTransitive(e.key, entries[0].key, entries[j].key); }
      }
    } else {
      StringLessTrichotomy(e.key, entries[0].key);
      InsertEntrySorted(entries[1..], e);
      var tail := InsertEntry(entries[1..], e);
      assert ([entries[0]] + tail)[1..] == tail;
      forall j | 0 <= j < |tail| ensures StringLess(entries[0].key, tail[j].key) {
        InsertEntryMember(entries[1..], e, j);
      }
    }
  }

  lemma {:induction false} InsertEntryMember(entries: seq<Entry>, e: Entry, j: nat)
    requires j < |InsertEntry(entries, e)|
    ensures InsertEntry(entries, e)[j] == e || InsertEntry(entries, e)[j] in entries
  {
    if entries != [] && !StringLess(e.key, entries[0].key) && j > 0 { InsertEntryMember(entries[1..], e, j - 1); }
  }

  function CanonOption(v: Option<Json>): Option<Json> {
    if v.None? then None else Some(Canon(v.value))
  }

  lemma {:induction false} CanonEntriesLookup(entries: seq<Entry>)
    requires DistinctKeys(entries)
    ensures SortedEntries(CanonEntries(entries))
    ensures forall key :: Lookup(CanonEntries(entries), key) == CanonOption(Lookup(entries, key))
  {
    if entries != [] {
      CanonEntriesLookup(entries[1..]);
      NoLookup(entries[1..], entries[0].key);
      InsertEntrySorted(CanonEntries(entries[1..]), Entry(entries[0].key, Canon(entries[0].value)));
    }
  }

  lemma {:induction false} NoLookup(entries: seq<Entry>, key: string)
    requires forall i :: 0 <= i < |entries| ==> entries[i].key != key
    ensures Lookup(entries, key).None?
  {
    if entries != [] { NoLookup(entries[1..], key); }
  }

  lemma {:induction false} CanonItemsAt(items: seq<Json>)
    ensures |CanonItems(items)| == |items|
    ensures forall i :: 0 <= i < |items| ==> CanonItems(items)[i] == Canon(items[i])
  {
    if items != [] { CanonItemsAt(items[1..]); }
  }

  // ---------------------------------------------------------------- same payload

  /** What one position shows by itself. */
  datatype Head = Nothing | Scalar(v: Json) | ListOf(n: nat) | DictThere

  function HeadOf(v: Option<Json>): Head {
    match v
    case None => Nothing
    case Some(List(items)) => ListOf(|items|)
    case Some(Dict(_)) => DictThere
    case Some(x) => Scalar(x)
  }

  /** The same scalars, list lengths and keys at the same positions: equal up to the order
      in which keys were inserted. */
  ghost predicate SameTree(v: Json, w: Json) {
    forall path :: HeadOf(At(v, path)) == HeadOf(At(w, path))
  }

  lemma {:induction false} LookupWellKeyed(entries: seq<Entry>, key: string)
    requires Lookup(entries, key).Some?
    requires forall i :: 0 <= i < |entries| ==> WellKeyed(entries[i].value)
    ensures WellKeyed(Lookup(entries, key).value)
  {
    if entries[0].key != key { LookupWellKeyed(entries[1..], key); }
  }

  lemma {:induction false} CanonAt(v: Json, path: seq<Step>)
    requires WellKeyed(v)
    ensures At(Canon(v), path) == CanonOption(At(v, path))
    decreases |path|
  {
    if path != [] {
      match v
      case List(items) =>
        CanonItemsAt(items);
        if path[0].Index? && path[0].i < |items| { CanonAt(items[path[0].i], path[1..]); }
      case Dict(entries) =>
        CanonEntriesLookup(entries);
        if path[0].Key? && Lookup(entries, path[0].key).Some? {
          LookupWellKeyed(entries, path[0].key);
          CanonAt(Lookup(entries, path[0].key).value, path[1..]);
        }
      case _ =>
    }
  }

  lemma CanonHead(v: Json)
    ensures HeadOf(Some(Canon(v))) == HeadOf(Some(v))
  {
    if v.List? { CanonItemsAt(v.items); }
  }

  lemma SameTreeBelow(v: Json, w: Json, step: Step)
    requires SameTree(v, w)
    ensures At(v, [step]).Some? <==> At(w, [step]).Some?
    ensures At(v, [step]).Some? ==> SameTree(At(v, [step]).value, At(w, [step]).value)
  {
    assert HeadOf(At(v, [step])) == HeadOf(At(w, [step]));
    assert [step][1..] == [];
    if At(v, [step]).Some? {
      forall path ensures HeadOf(At(At(v, [step]).value, path)) == HeadOf(At(At(w, [step]).value, path)) {
        assert ([step] + path)[0] == step && ([step] + path)[1..] == path;
        assert HeadOf(At(v, [step] + path)) == HeadOf(At(w, [step] + path));
      }
    }
  }

  lemma {:induction false} SortedEntriesUnique(a: seq<Entry>, b: seq<Entry>)
    requires SortedEntries(a) && SortedEntries(b) && forall key :: Lookup(a, key) == Lookup(b, key)
    ensures a == b
    decreases |a|
  {
    if a == [] {
      assert b == [] || Lookup(a, b[0].key) == Lookup(b, b[0].key);
    } else {
      assert Lookup(a, a[0].key) == Some(a[0].value);
      FirstKey(a, b);
      FirstKey(b, a);
      StringLessTrichotomy(a[0].key, b[0].key);
      assert Lookup(b, b[0].key) == Some(b[0].value);
      assert a[0] == b[0];
      forall key ensures Lookup(a[1..], key) == Lookup(b[1..], key) {
        assert Lookup(a, key) == Lookup(b, key);
        if key == a[0].key {
          AfterFirst(a);
          AfterFirst(b);
        }
      }
      SortedEntriesUnique(a[1..], b[1..]);
      assert a == [a[0]] + a[1..] && b == [b[0]] + b[1..];
    }
  }

  lemma AfterFirst(a: seq<Entry>)
    requires a != [] && SortedEntries(a)
    ensures Lookup(a[1..], a[0].key).None?
  {
    forall i | 0 <= i < |a[1..]| ensures a[1..][i].key != a[0].key {
      StringLessTrichotomy(a[0].key, a[i + 1].key);
    }
    NoLookup(a[1..], a[0].key);
  }

  /** The first key of one list is not after the first key of the other. */
  lemma FirstKey(a: seq<Entry>, b: seq<Entry>)
    requires a != [] && SortedEntries(a) && SortedEntries(b) && forall key :: Lookup(a, key) == Lookup(b, key)
    ensures b != [] && !StringLess(a[0].key, b[0].key)
  {
    assert Lookup(a, a[0].key).Some?;
    assert Lookup(b, a[0].key).Some?;
    assert b != [];
    if StringLess(a[0].key, b[0].key) {
      forall i | 0 <= i < |b| ensures b[i].key != a[0].key {
        StringLessTrichotomy(a[0].key, b[i].key);
        if i > 0 { StringLessTransitive(a[0].key, b[0].key, b[i].key); }
      }
      NoLookup(b, a[0].key);
      assert false;
    }
  }

  lemma {:induction false} SameTreeSameCanon(v: Json, w: Json)
    requires WellKeyed(v) && WellKeyed(w) && SameTree(v, w)
    ensures Canon(v) == Canon(w)
    decreases v
  {
    assert HeadOf(At(v, [])) == HeadOf(At(w, []));
    match v
    case List(items) =>
      CanonItemsAt(items);
      CanonItemsAt(w.items);
      forall i | 0 <= i < |items| ensures Canon(items[i]) == Canon(w.items[i]) {
        SameTreeBelow(v, w, Index(i));
        AtItem(v, i);
        AtItem(w, i);
        SameTreeSameCanon(items[i], w.items[i]);
      }
      assert CanonItems(items) == CanonItems(w.items);
    case Dict(entries) =>
      CanonEntriesLookup(entries);
      CanonEntriesLookup(w.entries);
      forall key ensures CanonOption(Lookup(entries, key)) == CanonOption(Lookup(w.entries, key)) {
        SameTreeBelow(v, w, Key(key));
        AtKey(v, key);
        AtKey(w, key);
        if Lookup(entries, key).Some? {
          LookupWellKeyed(entries, key);
          LookupWellKeyed(w.entries, key);
          var i := LookupIndex(entries, key);
          SameTreeSameCanon(entries[i].value, Lookup(w.entries, key).value);
        }
      }
      SortedEntriesUnique(CanonEntries(entries), CanonEntries(w.entries));
    case _ =>
  }

  lemma AtItem(v: Json, i: nat)
    requires v.List? && i < |v.items|
    ensures At(v, [Index(i)]) == Some(v.items[i])
  {
    assert [Index(i)][1..] == [];
  }

  lemma AtKey(v: Json, key: string)
    requires v.Dict?
    ensures At(v, [Key(key)]) == Lookup(v.entries, key)
  {
    assert [Key(key)][1..] == [];
  }

  lemma {:induction false} LookupIndex(entries: seq<Entry>, key: string) returns (i: nat)
    requires Lookup(entries, key).Some?
    ensures i < |entries| && entries[i].key == key && Lookup(entries, key) == Some(entries[i].value)
  {
    if entries[0].key == key {
      i := 0;
    } else {
      var j := LookupIndex(entries[1..], key);
      i := j + 1;
    }
  }

  /** Two values have the same canonical form exactly when they are the same payload up to
      the insertion order of keys. */
  lemma CanonicalExactly(v: Json, w: Json)
    requires WellKeyed(v) && WellKeyed(w)
    ensures Canon(v) == Canon(w) <==> SameTree(v, w)
  {
    if Canon(v) == Canon(w) {
      forall path ensures HeadOf(At(v, path)) == HeadOf(At(w, path)) {
        CanonAt(v, path);
        CanonAt(w, path);
        if At(v, path).Some? { CanonHead(At(v, path).value); }
        if At(w, path).Some? { CanonHead(At(w, path).value); }
      }
    }
    if SameTree(v, w) { SameTreeSameCanon(v, w); }
  }

  // ---------------------------------------------------------------- through the gate

  lemma NormalizedHead(v: Json, secretLike: string -> bool)
    requires Normalize(v, secretLike).Ok?
    ensures HeadOf(Some(Normalize(v, secretLike).value.0)) == HeadOf(Some(v))
  {
    if v.List? { ItemsOk(v.items, secretLike); }
  }

  lemma SameForbidden(v: Json, w: Json, path: seq<Step>, secretLike: string -> bool)
    requires SameTree(v, w) && HoldsForbidden(v, path, secretLike)
    ensures HoldsForbidden(w, path, secretLike)
  {
    assert HeadOf(At(v, path)) == HeadOf(At(w, path));
    var node := At(v, path).value;
    if node.Dict? {
      var key :| Lookup(node.entries, key).Some? && IsSecretKey(key) && !IsReasoningKey(key);
      AtSnoc(v, path, Key(key));
      AtSnoc(w, path, Key(key));
      AtKey(node, key);
      AtKey(At(w, path).value, key);
      assert HeadOf(At(v, path + [Key(key)])) == HeadOf(At(w, path + [Key(key)]));
    }
  }

  lemma {:induction false} AtSnoc(v: Json, path: seq<Step>, step: Step)
    ensures At(v, path + [step]) == if At(v, path).None? then None else At(At(v, path).value, [step])
    decreases |path|
  {
    var whole := path + [step];
    if path != [] {
      assert whole[0] == path[0] && whole[1..] == path[1..] + [step];
      if v.List? && path[0].Index? && path[0].i < |v.items| {
        AtSnoc(v.items[path[0].i], path[1..], step);
      } else if v.Dict? && path[0].Key? && Lookup(v.entries, path[0].key).Some? {
        AtSnoc(Lookup(v.entries, path[0].key).value, path[1..], step);
      }
    } else {
      assert whole == [step];
    }
  }

  lemma {:induction false} NormalizedWellKeyed(v: Json, secretLike: string -> bool)
    requires WellKeyed(v) && Normalize(v, secretLike).Ok?
    ensures WellKeyed(Normalize(v, secretLike).value.0)
    decreases v
  {
    match v
    case List(items) =>
      ItemsOk(items, secretLike);
      forall i | 0 <= i < |items| ensures WellKeyed(Normalize(items[i], secretLike).value.0) {
        NormalizedWellKeyed(items[i], secretLike);
      }
    case Dict(entries) =>
      var kept := NormalizeEntries(entries, secretLike).value.0;
      EntriesWellKeyed(entries, secretLike);
    case _ =>
  }

  lemma {:induction false} EntriesWellKeyed(entries: seq<Entry>, secretLike: string -> bool)
    requires NormalizeEntries(entries, secretLike).Ok? && DistinctKeys(entries)
    requires forall i :: 0 <= i < |entries| ==> WellKeyed(entries[i].value)
    ensures var kept := NormalizeEntries(entries, secretLike).value.0;
            && DistinctKeys(kept)
            && (forall i :: 0 <= i < |kept| ==> WellKeyed(kept[i].value) && exists j :: 0 <= j < |entries| && entries[j].key == kept[i].key)
    decreases entries
  {
    if entries != [] {
      EntriesWellKeyed(entries[1..], secretLike);
      var kept, rest := NormalizeEntries(entries, secretLike).value.0, NormalizeEntries(entries[1..], secretLike).value.0;
      if !IsReasoningKey(entries[0].key) {
        NormalizedWellKeyed(entries[0].value, secretLike);
        assert kept[1..] == rest;
      }
      forall i | 0 <= i < |rest| ensures exists j :: 1 <= j < |entries| && entries[j].key == rest[i].key {
        var j :| 0 <= j < |entries[1..]| && entries[1..][j].key == rest[i].key;
        assert entries[j + 1].key == rest[i].key;
      }
    }
  }

  /** The gate and the hash do not see the order in which keys were inserted: of two payloads
      that are the same up to that order both pass or both are rejected, and when they pass,
      the same canonical form is hashed. */
  lemma HashIgnoresKeyOrder(v: Json, w: Json, secretLike: string -> bool)
    requires WellKeyed(v) && WellKeyed(w) && SameTree(v, w)
    ensures Normalize(v, secretLike).Ok? <==> Normalize(w, secretLike).Ok?
    ensures Normalize(v, secretLike).Ok? ==>
              Canon(Normalize(v, secretLike).value.0) == Canon(Normalize(w, secretLike).value.0)
  {
    RejectsExactly(v, secretLike);
    RejectsExactly(w, secretLike);
    if path :| HoldsForbidden(v, path, secretLike) { SameForbidden(v, w, path, secretLike); }
    if path :| HoldsForbidden(w, path, secretLike) { SameForbidden(w, v, path, secretLike); }
    if Normalize(v, secretLike).Ok? {
      NormalizedSame(v, w, secretLike);
      NormalizedWellKeyed(v, secretLike);
      NormalizedWellKeyed(w, secretLike);
      SameTreeSameCanon(Normalize(v, secretLike).value.0, Normalize(w, secretLike).value.0);
    }
  }

  lemma NormalizedSame(v: Json, w: Json, secretLike: string -> bool)
    requires SameTree(v, w) && Normalize(v, secretLike).Ok? && Normalize(w, secretLike).Ok?
    ensures SameTree(Normalize(v, secretLike).value.0, Normalize(w, secretLike).value.0)
  {
    var n, m := Normalize(v, secretLike).value.0, Normalize(w, secretLike).value.0;
    forall path ensures HeadOf(At(n, path)) == HeadOf(At(m, path)) {
      KeepsExactly(v, path, secretLike);
      KeepsExactly(w, path, secretLike);
      assert HeadOf(At(v, path)) == HeadOf(At(w, path));
      if ReasoningFree(path) && At(v, path).Some? {
        NormalizedHead(At(v, path).value, secretLike);
        NormalizedHead(At(w, path).value, secretLike);
      }
    }
  }
}
