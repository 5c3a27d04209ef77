/**
 * The database module of `src/db.js` as the object the views talk to: the
 * three record stores and the settings store live in the fields of one
 * `Database`, and each exported operation is a method proved against the
 * functional description of module `Store` (and `DrawStats` for the draw
 * statistics). Transactions are atomic: a failing one leaves the fields as
 * they were.
 */
module Db {
  import opened Wrappers
  import opened Json
  import opened Seqs
  import opened Store
  import opened DrawStats

  class Database {
    var collections: map<StoreName, Collection>
    var settings: Option<Record>
    var tirage: Option<Record>

    /** The database as a value. */
    function Snap(): Snapshot
      reads this
    {
      Snapshot(collections, settings, tirage)
    }

    predicate Valid()
      reads this
    {
      ValidSnapshot(Snap())
    }

    /** `openDB()` on a first visit: the four object stores, empty. */
    constructor ()
      ensures Valid() && Snap() == EmptySnapshot
    {
      EmptySnapshotValid();
      collections := EmptySnapshot.collections;
      settings := None;
      tirage := None;
    }

    /** `addFiche(store, data)`: resolves with the new key, or rejects with the request's error. */
    method AddFiche(store: StoreName, data: Record, now: string) returns (r: Result<int, StoreError>)
      requires Valid()
      modifies this
      ensures Valid()
      ensures var spec := Store.AddFiche(old(collections)[store], data, now);
        match spec
        case Ok((c, k)) => r == Ok(k) && Snap() == old(Snap()).(collections := old(collections)[store := c])
        case Err(e) => r == Err(e) && Snap() == old(Snap())
    {
      var added := Store.AddFiche(collections[store], data, now);
      match added
      case Ok((c, k)) =>
        collections := collections[store := c];
        r := Ok(k);
      case Err(e) =>
        r := Err(e);
    }

    /** `getFiche(store, id)`. */
    function GetFiche(store: StoreName, id: int): (r: Option<Record>)
      reads this
      requires Valid()
      ensures r.Some? ==> Get(r.value, "id") == Some(JNum(id))
    {
      Lookup(collections[store], id)
    }

    /** `getAllFiches(store)`: every record, by ascending key. */
    function GetAllFiches(store: StoreName): (r: seq<Json>)
      reads this
      requires Valid()
      ensures |r| == |Keys(collections[store])|
      ensures forall i :: 0 <= i < |r| ==> r[i].JObj? && Get(r[i].fields, "id") == Some(JNum(Keys(collections[store])[i]))
    {
      AllRecords(collections[store])
    }

    /** `updateFiche(store, id, data)`: resolves with `id`. */
    method UpdateFiche(store: StoreName, id: int, data: Record) returns (k: int)
      requires Valid()
      modifies this
      ensures Valid() && k == id
      ensures Snap() == old(Snap()).(collections := old(collections)[store := Store.UpdateFiche(old(collections)[store], id, data)])
    {
      collections := collections[store := Store.UpdateFiche(collections[store], id, data)];
      k := id;
    }

    /** `deleteFiche(store, id)`. */
    method DeleteFiche(store: StoreName, id: int)
      requires Valid()
      modifies this
      ensures Valid()
      ensures Snap() == old(Snap()).(collections := old(collections)[store := Store.DeleteFiche(old(collections)[store], id)])
    {
      collections := collections[store := Store.DeleteFiche(collections[store], id)];
    }

    /** `getSettings()`. */
    function GetSettings(): (r: Record)
      reads this
      requires Valid()
      ensures Get(r, "id") == Some(JNum(1))
    {
      Store.GetSettings(Snap())
    }

    /** `isOnboardingDone()`. */
    predicate IsOnboardingDone()
      reads this
    {
      Store.IsOnboardingDone(Snap())
    }

    /** `saveSettings(settings)`. */
    method SaveSettings(value: Json)
      requires Valid()
      modifies this
      ensures Valid() && Snap() == Store.SaveSettings(old(Snap()), value)
    {
      settings := Some(Spread(Some(value))["id" := JNum(1)]);
    }

    /** `getTirageData()`. */
    function GetTirageData(): (r: Record)
      reads this
      requires Valid()
      ensures Get(r, "id") == Some(JStr("tirage"))
    {
      GetTirage(Snap())
    }

    /** `saveTirageData(data)`. */
    method SaveTirageData(data: Json)
      requires Valid()
      modifies this
      ensures Valid() && Snap() == SaveTirage(old(Snap()), data)
    {
      tirage := Some(Spread(Some(data))["id" := JStr("tirage")]);
    }

    /** `exportAllData()`: reads every store and changes nothing. */
    method ExportAllData(now: string) returns (doc: Json)
      requires Valid()
      ensures doc == ExportAll(Snap(), now)
      ensures DetectShape(doc).Ok?
    {
      var data := map[
        "recherche" := JArr(GetAllFiches(Recherche)),
        "obeissance" := JArr(GetAllFiches(Obeissance)),
        "divers" := JArr(GetAllFiches(Divers)),
        "settings" := JObj(GetSettings()),
        "tirage" := JObj(GetTirageData())];
      doc := JObj(map["version" := JNum(2), "exportDate" := JStr(now), "data" := JObj(data)]);
    }

    /**
     * `importAllData(doc)`: one transaction per record store, each clearing
     * the store and adding the items in order; a failure rejects the promise
     * and leaves that store and the later ones untouched. Then the settings
     * and the draw data, when present.
     */
    method ImportAllData(doc: Json) returns (outcome: Outcome<StoreError>)
      requires Valid()
      modifies this
      ensures Valid()
      ensures (Snap(), outcome) == ImportAll(old(Snap()), doc)
    {
      var plan := DetectShape(doc);
      if plan.Err? {
        return Fail(plan.error);
      }
      var p := plan.value;
      ghost var s0 := old(Snap());
      assert ImportAll(s0, doc) == ApplyPlan(s0, p);
      var i := 0;
      while i < 3
        invariant 0 <= i <= 3 && Valid()
        invariant ImportStores(s0, p, i) == (Snap(), Pass)
      {
        var name := FicheStores[i];
        var items := p.Items(name);
        ImportStoresAdvance(s0, p, i, Snap());
        if !items.JArr? {
          return Fail(TypeError);
        }
        var refilled := RefillStore(Clear(collections[name]), items.items);
        if refilled.Err? {
          return Fail(refilled.error);
        }
        collections := collections[name := refilled.value];
        i := i + 1;
      }
      ghost var t := Snap();
      if Present(p.settings) {
        SaveSettings(p.settings.value);
      }
      if Present(p.tirage) {
        SaveTirageData(p.tirage.value);
      }
      outcome := Pass;
    }

    /**
     * `recordTirageResult(results)`: for each name at its position, start
     * from its entry (a zeroed one when missing), pad its counts with zeros
     * up to the number of participants, count the position and the draw;
     * then save the table with the draw data and return it.
     */
    method RecordTirageResult(results: seq<string>) returns (r: Result<Json, StoreError>)
      requires Valid()
      modifies this
      ensures Valid()
      ensures match RecordTirage(old(Snap()), results)
        case Ok((s, stats)) => r == Ok(stats) && Snap() == s
        case Err(e) => r == Err(e) && Snap() == old(Snap())
    {
      var data := GetTirageData();
      var table := Or(Get(data, "stats"), JObj(map[]));
      if results == [] {
        SaveTirageData(JObj(data["stats" := table]));
        return Ok(table);
      }
      if !table.JObj? {
        return Err(TypeError);
      }
      var stats := table.fields;
      var i := 0;
      while i < |results|
        invariant 0 <= i <= |results|
        invariant Valid() && Snap() == old(Snap())
        invariant RecordPrefix(table.fields, results, i) == Ok(stats)
      {
        var next := CountDraw(stats, results[i], i, |results|);
        if next.Err? {
          assert RecordPrefix(table.fields, results, i + 1) == next;
          RecordPrefixStops(table.fields, results, i + 1);
          assert RecordTirage(Snap(), results) == Err(next.error);
          return Err(next.error);
        }
        stats := next.value;
        i := i + 1;
      }
      SaveTirageData(JObj(data["stats" := JObj(stats)]));
      r := Ok(JObj(stats));
    }

    /** `resetDatabase()`: clears the four object stores in turn and resolves with `true`. */
    method ResetDatabase() returns (done: bool)
      requires Valid()
      modifies this
      ensures Valid() && done
      ensures Snap() == ResetPrefix(old(Snap()), |ResetOrder|)
    {
      var i := 0;
      while i < |ResetOrder|
        invariant 0 <= i <= |ResetOrder| && Valid()
        invariant Snap() == ResetPrefix(old(Snap()), i)
      {
        match ResetOrder[i] {
          case Fiches(n) =>
            collections := collections[n := Clear(collections[n])];
          case SettingsStore =>
            settings, tirage := None, None;
        }
        i := i + 1;
      }
      done := true;
    }
  }

  /** The `forEach` of one store transaction: add the items in order, stopping at the first failure. */
  method RefillStore(start: Collection, items: seq<Json>) returns (r: Result<Collection, StoreError>)
    ensures r == Refill(start, items)
  {
    var c := start;
    var j := 0;
    while j < |items|
      invariant 0 <= j <= |items|
      invariant Refill(start, items[..j]) == Ok(c)
    {
      assert items[..j + 1][..j] == items[..j];
      var added := AddRecord(c, items[j]);
      if added.Err? {
        RefillFailure(start, items, j + 1);
        return Err(added.error);
      }
      c := added.value.0;
      j := j + 1;
    }
    assert items[..j] == items;
    r := Ok(c);
  }

  /**
   * Transaction `i` of an import after the earlier ones succeeded: on success
   * the loop goes on from the replaced store; on failure it is the outcome of
   * the whole loop.
   */
  lemma ImportStoresAdvance(s0: Snapshot, p: ImportPlan, i: nat, prev: Snapshot)
    requires ValidSnapshot(s0) && i < 3 && ImportStores(s0, p, i) == (prev, Pass)
    ensures var r := ReplaceStore(prev, FicheStores[i], p.Items(FicheStores[i]));
      (r.Ok? ==> ImportStores(s0, p, i + 1) == (r.value, Pass))
      && (r.Err? ==> ImportStores(s0, p, |FicheStores|) == (prev, Fail(r.error)))
  {
    ImportStoresPassOn(s0, p, i, prev);
    ImportStoresFailEnds(s0, p, i, prev);
  }

  lemma ImportStoresPassOn(s0: Snapshot, p: ImportPlan, i: nat, prev: Snapshot)
    requires ValidSnapshot(s0) && i < 3 && ImportStores(s0, p, i) == (prev, Pass)
    ensures var r := ReplaceStore(prev, FicheStores[i], p.Items(FicheStores[i]));
      r.Ok? ==> ImportStores(s0, p, i + 1) == (r.value, Pass)
  {
    ImportStoresStep(s0, p, i + 1);
  }

  lemma ImportStoresFailEnds(s0: Snapshot, p: ImportPlan, i: nat, prev: Snapshot)
    requires ValidSnapshot(s0) && i < 3 && ImportStores(s0, p, i) == (prev, Pass)
    ensures var r := ReplaceStore(prev, FicheStores[i], p.Items(FicheStores[i]));
      r.Err? ==> ImportStores(s0, p, |FicheStores|) == (prev, Fail(r.error))
  {
    ImportStoresStep(s0, p, i + 1);
    if ImportStores(s0, p, i + 1).1.Fail? {
      ImportStoresStops(s0, p, i + 1, |FicheStores|);
    }
  }

  /** A failing add among the first `j` items makes the whole refill fail with its error. */
  lemma {:induction false} RefillFailure(c: Collection, items: seq<Json>, j: nat)
    requires 0 < j <= |items|
    requires Refill(c, items[..j]).Err?
    ensures Refill(c, items) == Refill(c, items[..j])
    decreases |items| - j
  {
    if j < |items| {
      assert items[..j + 1][..j] == items[..j];
      RefillFailure(c, items, j + 1);
    } else {
      assert items[..j] == items;
    }
  }

  /**
   * One iteration of the `forEach` of `recordTirageResult`: the entry of the
   * name drawn at `position` among `n`, padded with zeros and counted.
   */
  method CountDraw(stats: Record, name: string, position: nat, n: nat) returns (r: Result<Record, StoreError>)
    requires position < n
    ensures r == Step(stats, name, position, n)
  {
    var base: Record;
    var positions: seq<int>;
    var total: int;
    if FindsInherited(stats, name) {
      // `stats[name]` is a member of `Object.prototype`: truthy, without `positions`
      return Err(TypeError);
    }
    if !(name in stats && Truthy(stats[name])) {
      base, positions, total := map[], Zeros(n), 0;
    } else {
      var entry := DecodeStat(stats[name]);
      if entry.None? {
        return Err(TypeError);
      }
      base, positions, total := stats[name].fields, entry.value.positions, entry.value.total;
    }
    ghost var stored := positions;
    while |positions| < n
      invariant Grow(positions, n) == Grow(stored, n)
      decreases n - |positions|
    {
      positions := positions + [0];
    }
    positions := positions[position := positions[position] + 1];
    r := Ok(stats[name := EncodeStat(base, Stat(positions, total + 1))]);
  }

  /** A failing iteration ends the draw's recording with its error. */
  lemma {:induction false} RecordPrefixStops(stats: Record, results: seq<string>, i: nat)
    requires 0 < i <= |results|
    requires RecordPrefix(stats, results, i).Err?
    ensures RecordDraw(stats, results) == RecordPrefix(stats, results, i)
    decreases |results| - i
  {
    if i < |results| {
      RecordPrefixStops(stats, results, i + 1);
    }
  }
}
