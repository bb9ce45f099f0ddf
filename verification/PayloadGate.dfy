/** The gate every trace payload passes: reasoning fields are stripped, secrets reject the
    whole payload, everything else is kept. */
module PayloadGate {
  import opened Wrappers
  import opened Text

  datatype Json =
    | Null | Bool(b: bool) | Number(n: int) | Str(s: string)
    | Binary | Unsupported
    | List(items: seq<Json>)
    | Dict(entries: seq<Entry>)

  datatype Entry = Entry(key: string, value: Json)

  datatype Rejected = SecretLikeValue | BinaryPayload | ForbiddenField(key: string) | UnsupportedType

  const REASONING_PARTS := ["chain_of_thought", "cot", "reasoning", "thinking"]
  const SECRET_PARTS := [
    "authorization", "cookie", "secret", "password", "api_key", "apikey",
    "access_token", "refresh_token", "environment", "env", "embedding"]

  /** `key.lower().replace("-", "_")`, for ASCII letters. */
  function Lowered(key: string): string {
    seq(|key|, i requires 0 <= i < |key| =>
      if 'A' <= key[i] <= 'Z' then key[i] - 'A' + 'a' else if key[i] == '-' then '_' else key[i])
  }

  predicate HasPart(key: string, parts: seq<string>) {
    exists i :: 0 <= i < |parts| && Find(Lowered(key), parts[i]).Some?
  }

  predicate IsReasoningKey(key: string) {
    HasPart(key, REASONING_PARTS)
  }

  predicate IsSecretKey(key: string) {
    HasPart(key, SECRET_PARTS)
  }

  /** The same key up to the case of ASCII letters and up to hyphens for underscores. */
  ghost predicate SameSpelling(a: string, b: string) {
    |a| == |b| && forall i :: 0 <= i < |a| ==> SameSign(a[i], b[i])
  }

  predicate SameSign(c: char, d: char) {
    || c == d || (c in "-_" && d in "-_")
    || ('A' <= c <= 'Z' && d == c - 'A' + 'a') || ('A' <= d <= 'Z' && c == d - 'A' + 'a')
  }

  /** Keys are told apart only up to their spelling, and a key in small letters with
      underscores stands for itself. */
  lemma SpellingDoesNotMatter(a: string, b: string)
    ensures Lowered(a) == Lowered(b) <==> SameSpelling(a, b)
    ensures (forall i :: 0 <= i < |a| ==> !('A' <= a[i] <= 'Z') && a[i] != '-') ==> Lowered(a) == a
  {
    if |a| == |b| {
      forall i | 0 <= i < |a| ensures Lowered(a)[i] == Lowered(b)[i] <==> SameSign(a[i], b[i]) { }
    }
  }

  /** Reasoning keys and secret keys, in any spelling, are those that contain one of the words. */
  lemma KeysMeaning(key: string)
    ensures IsReasoningKey(key) <==>
            exists word, k: nat :: word in {"chain_of_thought", "cot", "reasoning", "thinking"} && OccursAt(word, Lowered(key), k)
    ensures IsSecretKey(key) <==>
            exists word, k: nat :: word in {"authorization", "cookie", "secret", "password", "api_key", "apikey", "access_token",
                                            "refresh_token", "environment", "env", "embedding"} && OccursAt(word, Lowered(key), k)
  {
    WordsMeaning(key, REASONING_PARTS, {"chain_of_thought", "cot", "reasoning", "thinking"});
    WordsMeaning(key, SECRET_PARTS, {"authorization", "cookie", "secret", "password", "api_key", "apikey", "access_token",
                                     "refresh_token", "environment", "env", "embedding"});
  }

  lemma WordsMeaning(key: string, parts: seq<string>, words: set<string>)
    requires forall word :: word in parts <==> word in words
    ensures HasPart(key, parts) <==> exists word, k: nat :: word in words && OccursAt(word, Lowered(key), k)
  {
    if HasPart(key, parts) {
      var i :| 0 <= i < |parts| && Find(Lowered(key), parts[i]).Some?;
      FindMeaning(Lowered(key), parts[i]);
      assert parts[i] in parts;
      assert OccursAt(parts[i], Lowered(key), Find(Lowered(key), parts[i]).value);
    }
    if word, k: nat :| word in words && OccursAt(word, Lowered(key), k) {
      assert word in parts;
      var i :| 0 <= i < |parts| && parts[i] == word;
      FindMeaning(Lowered(key), word);
    }
  }

  // ---------------------------------------------------------------- normalising

  type Normalized<T> = Result<(T, seq<string>), Rejected>

  /** The normalised value and the reasoning keys that were stripped from it. `secretLike`
      stands for the secret patterns. */
  function Normalize(v: Json, secretLike: string -> bool): Normalized<Json>
    decreases v, 1
  {
    match v
    case Str(s) => if secretLike(s) then Err(SecretLikeValue) else Ok((v, []))
    case Binary => Err(BinaryPayload)
    case Unsupported => Err(UnsupportedType)
    case List(items) =>
      (match NormalizeItems(items, secretLike)
       case Ok((kept, stripped)) => Ok((List(kept), stripped))
       case Err(e) => Err(e))
    case Dict(entries) =>
      (match NormalizeEntries(entries, secretLike)
       case Ok((kept, stripped)) => Ok((Dict(kept), stripped))
       case Err(e) => Err(e))
    case _ => Ok((v, []))
  }

  function NormalizeItems(items: seq<Json>, secretLike: string -> bool): Normalized<seq<Json>>
    decreases items, 0
  {
    if items == [] then Ok(([], []))
    else match Normalize(items[0], secretLike)
      case Err(e) => Err(e)
      case Ok((item, stripped)) =>
        match NormalizeItems(items[1..], secretLike)
        case Err(e) => Err(e)
        case Ok((rest, more)) => Ok(([item] + rest, stripped + more))
  }

  function NormalizeEntries(entries: seq<Entry>, secretLike: string -> bool): Normalized<seq<Entry>>
    decreases entries, 0
  {
    if entries == [] then Ok(([], []))
    else
      var Entry(key, value) := entries[0];
      if IsReasoningKey(key) then
        match NormalizeEntries(entries[1..], secretLike)
        case Err(e) => Err(e)
        case Ok((rest, more)) => Ok((rest, [key] + more))
      else if IsSecretKey(key) then Err(ForbiddenField(key))
      else match Normalize(value, secretLike)
        case Err(e) => Err(e)
        case Ok((child, stripped)) =>
          match NormalizeEntries(entries[1..], secretLike)
          case Err(e) => Err(e)
          case Ok((rest, more)) => Ok(([Entry(key, child)] + rest, stripped + more))
  }

  // ---------------------------------------------------------------- positions in a payload

  datatype Step = Index(i: nat) | Key(key: string)

  function Lookup(entries: seq<Entry>, key: string): Option<Json> {
    if entries == [] then None
    else if entries[0].key == key then Some(entries[0].value)
    else Lookup(entries[1..], key)
  }

  /** The value at a position. */
  function At(v: Json, path: seq<Step>): Option<Json>
    decreases |path|
  {
    if path == [] then Some(v)
    else match (v, path[0])
      case (List(items), Index(i)) => if i < |items| then At(items[i], path[1..]) else None
      case (Dict(entries), Key(key)) =>
        var child := Lookup(entries, key);
        if child.None? then None else At(child.value, path[1..])
      case _ => None
  }

  /** No reasoning key on the way. */
  ghost predicate ReasoningFree(path: seq<Step>) {
    forall i :: 0 <= i < |path| && path[i].Key? ==> !IsReasoningKey(path[i].key)
  }

  ghost predicate DistinctKeys(entries: seq<Entry>) {
    forall i, j :: 0 <= i < j < |entries| ==> entries[i].key != entries[j].key
  }

  /** Every dictionary in the value has distinct keys, as Python's have. */
  ghost predicate WellKeyed(v: Json) {
    match v
    case List(items) => forall i :: 0 <= i < |items| ==> WellKeyed(items[i])
    case Dict(entries) => DistinctKeys(entries) && forall i :: 0 <= i < |entries| ==> WellKeyed(entries[i].value)
    case _ => true
  }

  // ---------------------------------------------------------------- item by item, entry by entry

  lemma {:induction false} ItemsOk(items: seq<Json>, secretLike: string -> bool)
    ensures var r := NormalizeItems(items, secretLike);
            && (r.Ok? <==> forall i :: 0 <= i < |items| ==> Normalize(items[i], secretLike).Ok?)
            && (r.Ok? ==> && |r.value.0| == |items|
                          && forall i :: 0 <= i < |items| ==> r.value.0[i] == Normalize(items[i], secretLike).value.0)
  {
    if items != [] {
      ItemsOk(items[1..], secretLike);
      assert items == [items[0]] + items[1..];
    }
  }

  predicate EntryOk(entry: Entry, secretLike: string -> bool) {
    IsReasoningKey(entry.key) || (!IsSecretKey(entry.key) && Normalize(entry.value, secretLike).Ok?)
  }

  lemma {:induction false} EntriesOk(entries: seq<Entry>, secretLike: string -> bool)
    ensures NormalizeEntries(entries, secretLike).Ok?
       <==> forall i :: 0 <= i < |entries| ==> EntryOk(entries[i], secretLike)
  {
    if entries != [] {
      EntriesOk(entries[1..], secretLike);
      assert entries == [entries[0]] + entries[1..];
    }
  }

  /** Looking up a key in the normalised entries: reasoning keys are gone, any other key
      leads to its normalised value. */
  lemma {:induction false} EntriesLookup(entries: seq<Entry>, key: string, secretLike: string -> bool)
    requires NormalizeEntries(entries, secretLike).Ok?
    ensures !IsReasoningKey(key) && Lookup(entries, key).Some? ==> Normalize(Lookup(entries, key).value, secretLike).Ok?
    ensures Lookup(NormalizeEntries(entries, secretLike).value.0, key)
         == if IsReasoningKey(key) || Lookup(entries, key).None? then None
            else Some(Normalize(Lookup(entries, key).value, secretLike).value.0)
  {
    if entries != [] {
      EntriesLookup(entries[1..], key, secretLike);
      if !IsReasoningKey(entries[0].key) {
        var child := Normalize(entries[0].value, secretLike).value.0;
        var rest := NormalizeEntries(entries[1..], secretLike).value.0;
        assert ([Entry(entries[0].key, child)] + rest)[1..] == rest;
      }
    }
  }

  // ---------------------------------------------------------------- what is kept

  /** Normalising commutes with looking: what stands at a position of the normalised value
      is the normalised value of what stood there, if no reasoning key is on the way, and
      nothing otherwise. In particular every leaf outside reasoning fields is kept as it is. */
  lemma {:induction false} KeepsExactly(v: Json, path: seq<Step>, secretLike: string -> bool)
    requires Normalize(v, secretLike).Ok?
    ensures ReasoningFree(path) && At(v, path).Some? ==> Normalize(At(v, path).value, secretLike).Ok?
    ensures At(Normalize(v, secretLike).value.0, path)
         == if ReasoningFree(path) && At(v, path).Some? then Some(Normalize(At(v, path).value, secretLike).value.0) else None
    decreases |path|
  {
    if path != [] {
      var rest := path[1..];
      ReasoningFreeCons(path);
      match v
      case List(items) =>
        ItemsOk(items, secretLike);
        if path[0].Index? && path[0].i < |items| { KeepsExactly(items[path[0].i], rest, secretLike); }
      case Dict(entries) =>
        if path[0].Key? {
          EntriesLookup(entries, path[0].key, secretLike);
          var child := Lookup(entries, path[0].key);
          if child.Some? && !IsReasoningKey(path[0].key) { KeepsExactly(child.value, rest, secretLike); }
        }
      case _ =>
    }
  }

  lemma ReasoningFreeCons(path: seq<Step>)
    requires path != []
    ensures ReasoningFree(path) <==> (path[0].Key? ==> !IsReasoningKey(path[0].key)) && ReasoningFree(path[1..])
  {
    if (path[0].Key? ==> !IsReasoningKey(path[0].key)) && ReasoningFree(path[1..]) {
      forall i | 0 <= i < |path| && path[i].Key? ensures !IsReasoningKey(path[i].key) {
        if i > 0 { assert path[i] == path[1..][i - 1]; }
      }
    }
    if ReasoningFree(path) {
      forall i | 0 <= i < |path[1..]| && path[1..][i].Key? ensures !IsReasoningKey(path[1..][i].key) {
        assert path[1..][i] == path[i + 1];
      }
    }
  }

  // ---------------------------------------------------------------- what is rejected

  /** A value that must not stand anywhere outside reasoning fields. */
  ghost predicate Forbidden(v: Json, secretLike: string -> bool) {
    || v.Binary? || v.Unsupported? || (v.Str? && secretLike(v.s))
    || (v.Dict? && exists key :: Lookup(v.entries, key).Some? && IsSecretKey(key) && !IsReasoningKey(key))
  }

  ghost predicate HoldsForbidden(v: Json, path: seq<Step>, secretLike: string -> bool) {
    ReasoningFree(path) && At(v, path).Some? && Forbidden(At(v, path).value, secretLike)
  }

  lemma ForbiddenBelow(v: Json, step: Step, path: seq<Step>, secretLike: string -> bool)
    requires At(v, [step]).Some? && (step.Key? ==> !IsReasoningKey(step.key))
    requires HoldsForbidden(At(v, [step]).value, path, secretLike)
    ensures HoldsForbidden(v, [step] + path, secretLike)
  {
    var whole := [step] + path;
    assert whole[0] == step && whole[1..] == path && [step][1..] == [];
    ReasoningFreeCons(whole);
  }

  /** A payload that is not rejected holds nothing forbidden outside reasoning fields. */
  lemma {:induction false} AcceptedIsClean(v: Json, path: seq<Step>, secretLike: string -> bool)
    requires Normalize(v, secretLike).Ok?
    ensures !HoldsForbidden(v, path, secretLike)
  {
    KeepsExactly(v, path, secretLike);
    if ReasoningFree(path) && At(v, path).Some? {
      var node := At(v, path).value;
      if node.Dict? {
        forall key | Lookup(node.entries, key).Some? && IsSecretKey(key) ensures IsReasoningKey(key) {
          SecretEntryRejects(node.entries, key, secretLike);
        }
      }
    }
  }

  lemma {:induction false} SecretEntryRejects(entries: seq<Entry>, key: string, secretLike: string -> bool)
    requires NormalizeEntries(entries, secretLike).Ok? && Lookup(entries, key).Some? && IsSecretKey(key)
    ensures IsReasoningKey(key)
  {
    if entries[0].key != key { SecretEntryRejects(entries[1..], key, secretLike); }
  }

  lemma {:induction false} LookupAt(entries: seq<Entry>, i: nat)
    requires DistinctKeys(entries) && i < |entries|
    ensures Lookup(entries, entries[i].key) == Some(entries[i].value)
  {
    if i > 0 {
      assert entries[0].key != entries[i].key;
      LookupAt(entries[1..], i - 1);
    }
  }

  /** A rejected payload holds something forbidden outside reasoning fields. */
  lemma {:induction false} RejectedHasCause(v: Json, secretLike: string -> bool) returns (path: seq<Step>)
    requires WellKeyed(v) && Normalize(v, secretLike).Err?
    ensures HoldsForbidden(v, path, secretLike)
    decreases v
  {
    path := [];
    match v
    case List(items) =>
      ItemsOk(items, secretLike);
      var i :| 0 <= i < |items| && Normalize(items[i], secretLike).Err?;
      var below := RejectedHasCause(items[i], secretLike);
      assert [Index(i)][1..] == [];
      ForbiddenBelow(v, Index(i), below, secretLike);
      path := [Index(i)] + below;
    case Dict(entries) =>
      EntriesOk(entries, secretLike);
      var i :| 0 <= i < |entries| && !EntryOk(entries[i], secretLike);
      LookupAt(entries, i);
      if !IsSecretKey(entries[i].key) {
        var below := RejectedHasCause(entries[i].value, secretLike);
        assert [Key(entries[i].key)][1..] == [];
        ForbiddenBelow(v, Key(entries[i].key), below, secretLike);
        path := [Key(entries[i].key)] + below;
      }
    case _ =>
  }

  /** The gate rejects exactly the payloads that hold something forbidden at a position
      that no reasoning key leads to. */
  lemma RejectsExactly(v: Json, secretLike: string -> bool)
    requires WellKeyed(v)
    ensures Normalize(v, secretLike).Err? <==> exists path :: HoldsForbidden(v, path, secretLike)
  {
    if Normalize(v, secretLike).Err? {
      var path := RejectedHasCause(v, secretLike);
    } else {
      forall path ensures !HoldsForbidden(v, path, secretLike) { AcceptedIsClean(v, path, secretLike); }
    }
  }

  // ---------------------------------------------------------------- normal forms

  lemma {:induction false} NormalizedTwice(v: Json, secretLike: string -> bool)
    requires Normalize(v, secretLike).Ok?
    ensures Normalize(Normalize(v, secretLike).value.0, secretLike) == Ok((Normalize(v, secretLike).value.0, []))
    decreases v, 1
  {
    match v
    case List(items) => ItemsTwice(items, secretLike);
    case Dict(entries) => EntriesTwice(entries, secretLike);
    case _ =>
  }

  lemma {:induction false} ItemsTwice(items: seq<Json>, secretLike: string -> bool)
    requires NormalizeItems(items, secretLike).Ok?
    ensures var kept := NormalizeItems(items, secretLike).value.0;
            NormalizeItems(kept, secretLike) == Ok((kept, []))
    decreases items, 0
  {
    if items != [] {
      NormalizedTwice(items[0], secretLike);
      ItemsTwice(items[1..], secretLike);
      var kept := NormalizeItems(items, secretLike).value.0;
      assert kept[0] == Normalize(items[0], secretLike).value.0;
      assert kept[1..] == NormalizeItems(items[1..], secretLike).value.0;
      var none: seq<string> := [];
      assert [kept[0]] + kept[1..] == kept && none + none == none;
    }
  }

  lemma {:induction false} EntriesTwice(entries: seq<Entry>, secretLike: string -> bool)
    requires NormalizeEntries(entries, secretLike).Ok?
    ensures var kept := NormalizeEntries(entries, secretLike).value.0;
            NormalizeEntries(kept, secretLike) == Ok((kept, []))
    decreases entries, 0
  {
    if entries != [] {
      EntriesTwice(entries[1..], secretLike);
      if !IsReasoningKey(entries[0].key) {
        NormalizedTwice(entries[0].value, secretLike);
        var kept := NormalizeEntries(entries, secretLike).value.0;
        assert kept[0] == Entry(entries[0].key, Normalize(entries[0].value, secretLike).value.0);
        assert kept[1..] == NormalizeEntries(entries[1..], secretLike).value.0;
        var none: seq<string> := [];
      assert [kept[0]] + kept[1..] == kept && none + none == none;
      }
    }
  }

  // ---------------------------------------------------------------- the strip report

  /** `key` is a reasoning key of the dictionary at `path`. */
  ghost predicate StrippedAt(v: Json, path: seq<Step>, key: string) {
    && ReasoningFree(path) && IsReasoningKey(key)
    && At(v, path).Some? && At(v, path).value.Dict? && Lookup(At(v, path).value.entries, key).Some?
  }

  /** The report names exactly the reasoning keys met outside other reasoning fields. */
  lemma {:induction false} ReportSound(v: Json, secretLike: string -> bool, key: string) returns (path: seq<Step>)
    requires WellKeyed(v) && Normalize(v, secretLike).Ok? && key in Normalize(v, secretLike).value.1
    ensures StrippedAt(v, path, key)
    decreases v
  {
    path := [];
    match v
    case List(items) =>
      var i := ItemsReport(items, secretLike, key);
      var below := ReportSound(items[i], secretLike, key);
      StrippedBelow(v, Index(i), below, key);
      path := [Index(i)] + below;
    case Dict(entries) =>
      var i := EntriesReport(entries, secretLike, key);
      LookupAt(entries, i);
      if !IsReasoningKey(entries[i].key) {
        var below := ReportSound(entries[i].value, secretLike, key);
        StrippedBelow(v, Key(entries[i].key), below, key);
        path := [Key(entries[i].key)] + below;
      }
    case _ =>
  }

  lemma StrippedBelow(v: Json, step: Step, path: seq<Step>, key: string)
    requires step.Key? ==> !IsReasoningKey(step.key)
    requires (v.List? && step.Index? && step.i < |v.items| && StrippedAt(v.items[step.i], path, key))
          || (v.Dict? && step.Key? && Lookup(v.entries, step.key).Some? && StrippedAt(Lookup(v.entries, step.key).value, path, key))
    ensures StrippedAt(v, [step] + path, key)
  {
    var whole := [step] + path;
    assert whole[0] == step && whole[1..] == path;
    ReasoningFreeCons(whole);
  }

  lemma {:induction false} ItemsReport(items: seq<Json>, secretLike: string -> bool, key: string) returns (i: nat)
    requires NormalizeItems(items, secretLike).Ok? && key in NormalizeItems(items, secretLike).value.1
    ensures i < |items| && Normalize(items[i], secretLike).Ok? && key in Normalize(items[i], secretLike).value.1
  {
    if key in Normalize(items[0], secretLike).value.1 {
      i := 0;
    } else {
      var j := ItemsReport(items[1..], secretLike, key);
      i := j + 1;
    }
  }

  lemma {:induction false} EntriesReport(entries: seq<Entry>, secretLike: string -> bool, key: string) returns (i: nat)
    requires NormalizeEntries(entries, secretLike).Ok? && key in NormalizeEntries(entries, secretLike).value.1
    ensures i < |entries|
    ensures if IsReasoningKey(entries[i].key) then entries[i].key == key
            else Normalize(entries[i].value, secretLike).Ok? && key in Normalize(entries[i].value, secretLike).value.1
  {
    if (if IsReasoningKey(entries[0].key) then entries[0].key == key
        else key in Normalize(entries[0].value, secretLike).value.1) {
      i := 0;
    } else {
      var j := EntriesReport(entries[1..], secretLike, key);
      i := j + 1;
    }
  }

  lemma {:induction false} ReportComplete(v: Json, path: seq<Step>, key: string, secretLike: string -> bool)
    requires Normalize(v, secretLike).Ok? && StrippedAt(v, path, key)
    ensures key in Normalize(v, secretLike).value.1
    decreases |path|
  {
    if path == [] {
      EntryReported(v.entries, key, secretLike);
    } else {
      ReasoningFreeCons(path);
      match v
      case List(items) =>
        ItemsOk(items, secretLike);
        ReportComplete(items[path[0].i], path[1..], key, secretLike);
        ItemReported(items, path[0].i, key, secretLike);
      case Dict(entries) =>
        EntriesLookup(entries, path[0].key, secretLike);
        ReportComplete(Lookup(entries, path[0].key).value, path[1..], key, secretLike);
        ChildReported(entries, path[0].key, key, secretLike);
      case _ =>
    }
  }

  lemma {:induction false} EntryReported(entries: seq<Entry>, key: string, secretLike: string -> bool)
    requires NormalizeEntries(entries, secretLike).Ok? && Lookup(entries, key).Some? && IsReasoningKey(key)
    ensures key in NormalizeEntries(entries, secretLike).value.1
  {
    if entries[0].key != key { EntryReported(entries[1..], key, secretLike); }
  }

  lemma {:induction false} ItemReported(items: seq<Json>, i: nat, key: string, secretLike: string -> bool)
    requires i < |items| && NormalizeItems(items, secretLike).Ok? && Normalize(items[i], secretLike).Ok?
    requires key in Normalize(items[i], secretLike).value.1
    ensures key in NormalizeItems(items, secretLike).value.1
  {
    if i > 0 { ItemReported(items[1..], i - 1, key, secretLike); }
  }

  lemma {:induction false} ChildReported(entries: seq<Entry>, child: string, key: string, secretLike: string -> bool)
    requires NormalizeEntries(entries, secretLike).Ok? && Lookup(entries, child).Some? && !IsReasoningKey(child)
    requires Normalize(Lookup(entries, child).value, secretLike).Ok?
    requires key in Normalize(Lookup(entries, child).value, secretLike).value.1
    ensures key in NormalizeEntries(entries, secretLike).value.1
  {
    if entries[0].key != child { ChildReported(entries[1..], child, key, secretLike); }
  }
}
