/**
 * The IndexedDB database of `src/db.js`, as values: three record stores
 * keyed by an auto-incremented integer `id`, and the `settings` store that
 * holds two singletons, the settings under key 1 and the draw data under key
 * 'tirage'. Every function here is the specification of one operation; the
 * class `Db.Database` performs them step by step.
 */
module Store {
  import opened Wrappers
  import opened Json
  import opened Seqs

  /** The three record stores (`recherche`, `obeissance`, `divers`). */
  datatype StoreName = Recherche | Obeissance | Divers

  const FicheStores: seq<StoreName> := [Recherche, Obeissance, Divers]

  /** The store's name, also its key in export documents. */
  function StoreKey(n: StoreName): string {
    match n
    case Recherche => "recherche"
    case Obeissance => "obeissance"
    case Divers => "divers"
  }

  /** The DOMException names a request can fail with, and the TypeError a script can throw. */
  datatype StoreError = ConstraintError | DataError | TypeError

  /**
   * An object store with `keyPath: 'id'` and `autoIncrement: true`: the
   * records by key and the key generator's next value.
   */
  datatype Collection = Collection(records: map<int, Record>, nextKey: int)

  const EmptyCollection: Collection := Collection(map[], 1)

  /** Every record carries its own key as `id`, and the generator is above every key. */
  predicate ValidCollection(c: Collection) {
    c.nextKey >= 1
    && forall k :: k in c.records ==> k < c.nextKey && Get(c.records[k], "id") == Some(JNum(k))
  }

  function Max(a: int, b: int): int {
    if a >= b then a else b
  }

  /**
   * `store.add(v)`: a value with a numeric `id` is stored under it unless the
   * key is taken (ConstraintError); a value without `id` gets the generator's
   * key injected; anything else is a DataError. An explicit key raises the
   * generator above it.
   */
  function AddRecord(c: Collection, v: Json): (r: Result<(Collection, int), StoreError>)
    ensures r.Ok? ==> r.value.1 in r.value.0.records
    ensures ValidCollection(c) && r.Ok? ==> r.value.1 !in c.records
    ensures r.Ok? ==> r.value.0.records == c.records[r.value.1 := r.value.0.records[r.value.1]]
    ensures r.Ok? ==> r.value.0.nextKey >= c.nextKey
    ensures ValidCollection(c) && r.Ok? ==> ValidCollection(r.value.0)
    ensures r.Err? <==> !v.JObj? || ("id" in v.fields && (!v.fields["id"].JNum? || v.fields["id"].n in c.records))
    ensures r.Ok? && "id" !in v.fields ==>
      r.value.1 == c.nextKey && r.value.0.nextKey == c.nextKey + 1
      && r.value.0.records[r.value.1] == v.fields["id" := JNum(c.nextKey)]
    ensures r.Ok? && "id" in v.fields ==>
      r.value.1 == v.fields["id"].n && r.value.0.records[r.value.1] == v.fields
      && r.value.0.nextKey == Max(c.nextKey, r.value.1 + 1)
  {
    if !v.JObj? then Err(DataError)
    else if "id" !in v.fields then
      var k := c.nextKey;
      Ok((Collection(c.records[k := v.fields["id" := JNum(k)]], k + 1), k))
    else if !v.fields["id"].JNum? then Err(DataError)
    else
      var k := v.fields["id"].n;
      if k in c.records then Err(ConstraintError)
      else Ok((Collection(c.records[k := v.fields], Max(c.nextKey, k + 1)), k))
  }

  /** `store.put(v)`: as `add`, except that a record already under the key is replaced. */
  function PutRecord(c: Collection, v: Json): (r: Result<(Collection, int), StoreError>)
    ensures r.Ok? ==> r.value.1 in r.value.0.records
    ensures r.Ok? ==> r.value.0.records == c.records[r.value.1 := r.value.0.records[r.value.1]]
    ensures r.Ok? ==> r.value.0.nextKey >= c.nextKey
    ensures ValidCollection(c) && r.Ok? ==> ValidCollection(r.value.0)
    ensures r.Err? <==> !v.JObj? || ("id" in v.fields && !v.fields["id"].JNum?)
    ensures r.Ok? && "id" !in v.fields ==>
      r.value.1 == c.nextKey && r.value.0.nextKey == c.nextKey + 1
      && r.value.0.records[r.value.1] == v.fields["id" := JNum(c.nextKey)]
    ensures r.Ok? && "id" in v.fields ==>
      r.value.1 == v.fields["id"].n && r.value.0.records[r.value.1] == v.fields
      && r.value.0.nextKey == Max(c.nextKey, r.value.1 + 1)
  {
    if !v.JObj? then Err(DataError)
    else if "id" !in v.fields then
      var k := c.nextKey;
      Ok((Collection(c.records[k := v.fields["id" := JNum(k)]], k + 1), k))
    else if !v.fields["id"].JNum? then Err(DataError)
    else
      var k := v.fields["id"].n;
      Ok((Collection(c.records[k := v.fields], Max(c.nextKey, k + 1)), k))
  }

  /** `store.get(k)`; `None` is the `undefined` a missing key gives. */
  function Lookup(c: Collection, k: int): (r: Option<Record>)
    ensures r.Some? <==> k in c.records
  {
    if k in c.records then Some(c.records[k]) else None
  }

  /** `store.delete(k)`: succeeds whether or not the key is present; the generator is kept. */
  function DeleteRecord(c: Collection, k: int): (r: Collection)
    ensures k !in r.records && r.nextKey == c.nextKey
    ensures forall j :: j != k ==> Lookup(r, j) == Lookup(c, j)
    ensures ValidCollection(c) ==> ValidCollection(r)
  {
    Collection(c.records - {k}, c.nextKey)
  }

  /** `store.clear()`: no record is left, and the key generator is not reset. */
  function Clear(c: Collection): (r: Collection)
    ensures r.records == map[] && r.nextKey == c.nextKey
    ensures ValidCollection(c) ==> ValidCollection(r)
  {
    Collection(map[], c.nextKey)
  }

  /** `addFiche(store, data)`: the form data plus its creation time, under a fresh key. */
  function AddFiche(c: Collection, data: Record, now: string): Result<(Collection, int), StoreError> {
    AddRecord(c, JObj(data["created_at" := JStr(now)]))
  }

  /** `updateFiche(store, id, data)`: `put({...data, id})`. */
  function UpdateFiche(c: Collection, id: int, data: Record): (r: Collection)
    ensures ValidCollection(c) ==> ValidCollection(r)
  {
    var v := JObj(data["id" := JNum(id)]);
    assert PutRecord(c, v).Ok?;
    PutRecord(c, v).value.0
  }

  /** `deleteFiche(store, id)`. */
  function DeleteFiche(c: Collection, id: int): Collection {
    DeleteRecord(c, id)
  }

  /**
   * A record added without an `id` is stored under the generator's key, which
   * no record holds; reading it back gives the data, its `created_at` and its
   * `id`, and every other key reads as before.
   */
  lemma AddFicheThenGet(c: Collection, data: Record, now: string)
    requires ValidCollection(c) && "id" !in data
    ensures AddFiche(c, data, now).Ok?
    ensures var (c', k) := AddFiche(c, data, now).value;
      k == c.nextKey && k !in c.records && c'.nextKey == k + 1
      && Lookup(c', k) == Some(data["created_at" := JStr(now)]["id" := JNum(k)])
      && (forall j :: j != k ==> Lookup(c', j) == Lookup(c, j))
      && ValidCollection(c')
  {
  }

  /** Adding fails exactly when the data carries an `id` that is taken or is not a number. */
  lemma AddFicheFails(c: Collection, data: Record, now: string)
    requires ValidCollection(c)
    ensures AddFiche(c, data, now).Err? <==>
      "id" in data && (!data["id"].JNum? || data["id"].n in c.records)
    ensures AddFiche(c, data, now).Ok? ==> AddFiche(c, data, now).value.1 !in c.records
  {
    assert "id" in data["created_at" := JStr(now)] <==> "id" in data;
  }

  /**
   * `updateFiche` leaves exactly `{...data, id}` under `id`: the argument
   * overrides any `id` in the data, old fields such as `created_at` survive
   * only if the data carries them, a missing key is inserted rather than
   * refused, and no other record changes.
   */
  lemma UpdateFicheReplaces(c: Collection, id: int, data: Record)
    ensures Lookup(UpdateFiche(c, id, data), id) == Some(data["id" := JNum(id)])
    ensures forall j :: j != id ==> Lookup(UpdateFiche(c, id, data), j) == Lookup(c, j)
    ensures forall f :: f != "id" ==> Get(Lookup(UpdateFiche(c, id, data), id).value, f) == Get(data, f)
  {
  }

  /** Deleting twice is deleting once; afterwards the key reads as missing and nothing else changed. */
  lemma DeleteFicheIdempotent(c: Collection, id: int)
    ensures DeleteFiche(DeleteFiche(c, id), id) == DeleteFiche(c, id)
    ensures Lookup(DeleteFiche(c, id), id) == None
    ensures id !in c.records ==> DeleteFiche(c, id) == c
  {
  }

  function Keys(c: Collection): seq<int> {
    SortedKeys(c.records.Keys)
  }

  /** `getAll()`: every record of the store, by ascending key. */
  function AllRecords(c: Collection): (r: seq<Json>)
    ensures |r| == |Keys(c)|
    ensures forall i :: 0 <= i < |r| ==> r[i] == JObj(c.records[Keys(c)[i]])
  {
    var ks := Keys(c);
    seq(|ks|, i requires 0 <= i < |ks| => JObj(c.records[ks[i]]))
  }

  /** A store lists each of its records exactly once. */
  lemma AllRecordsComplete(c: Collection, k: int)
    requires k in c.records
    ensures exists i :: 0 <= i < |AllRecords(c)| && Keys(c)[i] == k && AllRecords(c)[i] == JObj(c.records[k])
  {
    var ks := Keys(c);
    var i :| 0 <= i < |ks| && ks[i] == k;
  }

  /** Settings when none were saved: `{id: 1, nom_chien: '', substances: [], poseurs: [], onboarding_done: false}`. */
  const DefaultSettings: Record :=
    map["id" := JNum(1), "nom_chien" := JStr(""), "substances" := JArr([]),
        "poseurs" := JArr([]), "onboarding_done" := JBool(false)]

  /** Draw data when none was saved: `{id: 'tirage', participants: [], stats: {}}`. */
  const DefaultTirage: Record :=
    map["id" := JStr("tirage"), "participants" := JArr([]), "stats" := JObj(map[])]

  /** The whole database: the three record stores and the two singletons of the settings store. */
  datatype Snapshot = Snapshot(collections: map<StoreName, Collection>, settings: Option<Record>, tirage: Option<Record>)

  predicate ValidSnapshot(s: Snapshot) {
    (forall n: StoreName :: n in s.collections && ValidCollection(s.collections[n]))
    && (s.settings.Some? ==> Get(s.settings.value, "id") == Some(JNum(1)))
    && (s.tirage.Some? ==> Get(s.tirage.value, "id") == Some(JStr("tirage")))
  }

  /** A freshly created database. */
  const EmptySnapshot: Snapshot :=
    Snapshot(map[Recherche := EmptyCollection, Obeissance := EmptyCollection, Divers := EmptyCollection], None, None)

  lemma EmptySnapshotValid()
    ensures ValidSnapshot(EmptySnapshot)
  {
    forall n: StoreName
      ensures n in EmptySnapshot.collections && ValidCollection(EmptySnapshot.collections[n])
    {
      match n
      case Recherche =>
      case Obeissance =>
      case Divers =>
    }
  }

  /** `getSettings()`: the stored singleton, or the default one. */
  function GetSettings(s: Snapshot): (r: Record)
    ensures ValidSnapshot(s) ==> Get(r, "id") == Some(JNum(1))
    ensures s.settings.None? ==> r == DefaultSettings
  {
    s.settings.GetOr(DefaultSettings)
  }

  /** `isOnboardingDone()`: the flag is the boolean `true`, not merely truthy. */
  predicate IsOnboardingDone(s: Snapshot) {
    Get(GetSettings(s), "onboarding_done") == Some(JBool(true))
  }

  /** `saveSettings(settings)`: `put({...settings, id: 1})`, replacing the singleton wholesale. */
  function SaveSettings(s: Snapshot, settings: Json): (r: Snapshot)
    ensures r.collections == s.collections && r.tirage == s.tirage
    ensures ValidSnapshot(s) ==> ValidSnapshot(r)
  {
    s.(settings := Some(Spread(Some(settings))["id" := JNum(1)]))
  }

  /** `getTirageData()`: the stored draw data, or the default. */
  function GetTirage(s: Snapshot): (r: Record)
    ensures ValidSnapshot(s) ==> Get(r, "id") == Some(JStr("tirage"))
    ensures s.tirage.None? ==> r == DefaultTirage
  {
    s.tirage.GetOr(DefaultTirage)
  }

  /** `saveTirageData(data)`: `put({...data, id: 'tirage'})`. */
  function SaveTirage(s: Snapshot, data: Json): (r: Snapshot)
    ensures r.collections == s.collections && r.settings == s.settings
    ensures ValidSnapshot(s) ==> ValidSnapshot(r)
  {
    s.(tirage := Some(Spread(Some(data))["id" := JStr("tirage")]))
  }

  /**
   * Saving settings replaces them: what is read back is the saved object with
   * `id` 1 and nothing else, and onboarding is done exactly when the saved
   * flag is `true`. Before any save, onboarding is not done.
   */
  lemma SaveSettingsThenGet(s: Snapshot, settings: Record)
    ensures GetSettings(SaveSettings(s, JObj(settings))) == settings["id" := JNum(1)]
    ensures IsOnboardingDone(SaveSettings(s, JObj(settings))) <==> Get(settings, "onboarding_done") == Some(JBool(true))
    ensures s.settings.None? ==> !IsOnboardingDone(s)
  {
    assert "onboarding_done" != "id";
  }

  /** Saving draw data replaces it; the settings singleton under the other key is untouched. */
  lemma SaveTirageThenGet(s: Snapshot, data: Record)
    ensures GetTirage(SaveTirage(s, JObj(data))) == data["id" := JStr("tirage")]
    ensures GetSettings(SaveTirage(s, JObj(data))) == GetSettings(s)
  {
  }

  /** The shape of an import document, tried in this order. */
  datatype Shape = Legacy | Versioned | Flat

  /** `importData.fiches` truthy: legacy; else `importData.data` truthy: exported by this version; else flat. */
  function ShapeOf(doc: Json): Shape {
    if Present(Prop(doc, "fiches")) then Legacy
    else if Present(Prop(doc, "data")) then Versioned
    else Flat
  }

  /** What an import will write: each collection (after `|| []`), the settings, the draw data. */
  datatype ImportPlan = ImportPlan(recherche: Json, obeissance: Json, divers: Json, settings: Option<Json>, tirage: Option<Json>) {
    function Items(n: StoreName): Json {
      match n
      case Recherche => recherche
      case Obeissance => obeissance
      case Divers => divers
    }
  }

  /** The three collections held by `src`, each defaulting to `[]`. */
  function CollectionsOf(src: Json, settings: Option<Json>, tirage: Option<Json>): (p: ImportPlan)
    ensures forall n :: p.Items(n) == Or(Prop(src, StoreKey(n)), JArr([]))
  {
    var p := ImportPlan(Or(Prop(src, "recherche"), JArr([])), Or(Prop(src, "obeissance"), JArr([])),
      Or(Prop(src, "divers"), JArr([])), settings, tirage);
    p
  }

  /**
   * The shape selection of `importAllData`: reading a property of `null`
   * throws a TypeError; a legacy document never carries draw data.
   */
  function DetectShape(doc: Json): (r: Result<ImportPlan, StoreError>)
    ensures r.Err? <==> doc.JNull?
    ensures r.Ok? && ShapeOf(doc) == Legacy ==> r.value.tirage.None?
  {
    if doc.JNull? then Err(TypeError)
    else match ShapeOf(doc)
      case Legacy => Ok(CollectionsOf(Prop(doc, "fiches").value, Prop(doc, "settings"), None))
      case Versioned =>
        var d := Prop(doc, "data").value;
        Ok(CollectionsOf(d, Prop(d, "settings"), Prop(d, "tirage")))
      case Flat => Ok(CollectionsOf(doc, Prop(doc, "settings"), Prop(doc, "tirage")))
  }

  /** `items.forEach(item => store.add(item))`, stopping at the first failing request. */
  function Refill(c: Collection, items: seq<Json>): (r: Result<Collection, StoreError>)
    ensures ValidCollection(c) && r.Ok? ==> ValidCollection(r.value)
    decreases |items|
  {
    if items == [] then Ok(c)
    else match Refill(c, items[..|items| - 1])
      case Err(e) => Err(e)
      case Ok(c') =>
        match AddRecord(c', items[|items| - 1])
        case Err(e) => Err(e)
        case Ok((c'', _)) => Ok(c'')
  }

  /**
   * One store's transaction of the import: clear, then add every item. A
   * collection that is not an array makes `forEach` throw; a failing request
   * aborts the transaction, so the store is left as it was.
   */
  function ReplaceStore(s: Snapshot, n: StoreName, items: Json): (r: Result<Snapshot, StoreError>)
    requires ValidSnapshot(s)
    ensures r.Ok? ==> ValidSnapshot(r.value) && r.value == s.(collections := r.value.collections)
    ensures r.Ok? ==> forall m :: m != n ==> m in r.value.collections && r.value.collections[m] == s.collections[m]
  {
    if !items.JArr? then Err(TypeError)
    else match Refill(Clear(s.collections[n]), items.items)
      case Err(e) => Err(e)
      case Ok(c) => Ok(s.(collections := s.collections[n := c]))
  }

  /** The first `i` store transactions of an import; a failure stops the loop and is reported. */
  function ImportStores(s: Snapshot, p: ImportPlan, i: nat): (r: (Snapshot, Outcome<StoreError>))
    requires ValidSnapshot(s) && i <= 3
    ensures ValidSnapshot(r.0)
    ensures r.0.settings == s.settings && r.0.tirage == s.tirage
  {
    if i == 0 then (s, Pass)
    else
      var (t, o) := ImportStores(s, p, i - 1);
      if o.Fail? then (t, o)
      else match ReplaceStore(t, FicheStores[i - 1], p.Items(FicheStores[i - 1]))
        case Ok(t') => (t', Pass)
        case Err(e) => (t, Fail(e))
  }

  /** Once a store transaction has failed, the later ones are not attempted. */
  lemma {:induction false} ImportStoresStops(s: Snapshot, p: ImportPlan, i: nat, k: nat)
    requires ValidSnapshot(s) && i <= k <= 3
    requires ImportStores(s, p, i).1.Fail?
    ensures ImportStores(s, p, k) == ImportStores(s, p, i)
    decreases k
  {
    if k > i {
      ImportStoresStops(s, p, i, k - 1);
    }
  }

  /**
   * `importAllData(doc)`: pick the shape, replace the three stores in turn,
   * then save the settings if truthy and the draw data if truthy. Returns the
   * new database and whether the promise resolves.
   */
  function ImportAll(s: Snapshot, doc: Json): (r: (Snapshot, Outcome<StoreError>))
    requires ValidSnapshot(s)
    ensures ValidSnapshot(r.0)
  {
    match DetectShape(doc)
    case Err(e) => (s, Fail(e))
    case Ok(p) => ApplyPlan(s, p)
  }

  /** The writes of an import once its plan is known. */
  function ApplyPlan(s: Snapshot, p: ImportPlan): (r: (Snapshot, Outcome<StoreError>))
    requires ValidSnapshot(s)
    ensures ValidSnapshot(r.0)
  {
    var (t, o) := ImportStores(s, p, 3);
    if o.Fail? then (t, o)
    else
      var t1 := if Present(p.settings) then SaveSettings(t, p.settings.value) else t;
      var t2 := if Present(p.tirage) then SaveTirage(t1, p.tirage.value) else t1;
      (t2, Pass)
  }


  /** `exportAllData()`: version 2, the export time, and every store's content. */
  function ExportAll(s: Snapshot, now: string): (doc: Json)
    requires ValidSnapshot(s)
    ensures ShapeOf(doc) == Versioned
  {
    var d := ExportData(s);
    VersionedShape(now, d);
    JObj(map["version" := JNum(2), "exportDate" := JStr(now), "data" := JObj(d)])
  }

  /** A document with a `data` object reads as the versioned shape. */
  lemma VersionedShape(now: string, d: Record)
    ensures ShapeOf(JObj(map["version" := JNum(2), "exportDate" := JStr(now), "data" := JObj(d)])) == Versioned
  {
    assert "fiches" != "version" && "fiches" != "exportDate" && "fiches" != "data";
  }

  /** The `data` member of an export: each store's listing and both singletons. */
  function ExportData(s: Snapshot): Record
    requires ValidSnapshot(s)
  {
    DataMap(JArr(AllRecords(s.collections[Recherche])), JArr(AllRecords(s.collections[Obeissance])),
      JArr(AllRecords(s.collections[Divers])), JObj(GetSettings(s)), JObj(GetTirage(s)))
  }

  function DataMap(recherche: Json, obeissance: Json, divers: Json, settings: Json, tirage: Json): Record {
    map["recherche" := recherche, "obeissance" := obeissance, "divers" := divers,
      "settings" := settings, "tirage" := tirage]
  }

  /** Each member of the `data` object reads back as written. */
  lemma DataMapProps(recherche: Json, obeissance: Json, divers: Json, settings: Json, tirage: Json)
    ensures var d := JObj(DataMap(recherche, obeissance, divers, settings, tirage));
      && Prop(d, StoreKey(Recherche)) == Some(recherche)
      && Prop(d, StoreKey(Obeissance)) == Some(obeissance)
      && Prop(d, StoreKey(Divers)) == Some(divers)
      && Prop(d, "settings") == Some(settings)
      && Prop(d, "tirage") == Some(tirage)
  {
  }


  /** An import item that names its own numeric key. */
  predicate HasNumId(j: Json) {
    j.JObj? && "id" in j.fields && j.fields["id"].JNum?
  }

  function IdOf(j: Json): int
    requires HasNumId(j)
  {
    j.fields["id"].n
  }

  /** Refilling only ever adds: every item with a numeric key is stored under it. */
  lemma {:induction false} RefillStoresIds(c: Collection, items: seq<Json>)
    requires Refill(c, items).Ok?
    ensures forall k :: k in c.records ==> k in Refill(c, items).value.records
    ensures forall i :: 0 <= i < |items| && HasNumId(items[i]) ==> IdOf(items[i]) in Refill(c, items).value.records
    decreases |items|
  {
    if items != [] {
      var pre := items[..|items| - 1];
      RefillStoresIds(c, pre);
      forall i | 0 <= i < |items| - 1 && HasNumId(items[i])
        ensures IdOf(items[i]) in Refill(c, pre).value.records
      {
        assert items[i] == pre[i];
      }
    }
  }

  /**
   * A successful refill saw no key twice: two items naming the same numeric
   * key make the second `add` fail with a ConstraintError, which rejects the import.
   */
  lemma {:induction false} RefillIdsDistinct(c: Collection, items: seq<Json>)
    requires Refill(c, items).Ok?
    ensures forall i, j :: 0 <= i < j < |items| && HasNumId(items[i]) && HasNumId(items[j]) ==> IdOf(items[i]) != IdOf(items[j])
    decreases |items|
  {
    if items != [] {
      var pre := items[..|items| - 1];
      var last := items[|items| - 1];
      RefillIdsDistinct(c, pre);
      RefillStoresIds(c, pre);
      var c' := Refill(c, pre).value;
      assert AddRecord(c', last).Ok?;
      forall i, j | 0 <= i < j < |items| && HasNumId(items[i]) && HasNumId(items[j])
        ensures IdOf(items[i]) != IdOf(items[j])
      {
        assert items[i] == pre[i];
        if j < |items| - 1 {
          assert items[j] == pre[j];
        } else {
          assert IdOf(items[i]) in c'.records;
        }
      }
    }
  }

  /**
   * Refilling an empty store with objects carrying distinct numeric keys
   * succeeds, and stores exactly those objects, each under its own key.
   */
  lemma {:induction false} RefillWithIds(c: Collection, items: seq<Json>)
    requires c.records == map[]
    requires forall i :: 0 <= i < |items| ==> HasNumId(items[i])
    requires forall i, j :: 0 <= i < j < |items| ==> IdOf(items[i]) != IdOf(items[j])
    ensures Refill(c, items).Ok?
    ensures forall i :: 0 <= i < |items| ==> Lookup(Refill(c, items).value, IdOf(items[i])) == Some(items[i].fields)
    ensures forall k :: k in Refill(c, items).value.records ==> exists i :: 0 <= i < |items| && IdOf(items[i]) == k
    decreases |items|
  {
    if items != [] {
      var n := |items| - 1;
      var pre := items[..n];
      var last := items[n];
      assert forall i :: 0 <= i < n ==> pre[i] == items[i];
      RefillWithIds(c, pre);
      var c' := Refill(c, pre).value;
      forall k | k in c'.records
        ensures k != IdOf(last)
      {
        var i :| 0 <= i < n && IdOf(pre[i]) == k;
        assert IdOf(items[i]) != IdOf(items[n]);
      }
      var c'' := AddRecord(c', last).value.0;
      assert c''.records == c'.records[IdOf(last) := last.fields];
      forall i | 0 <= i < |items|
        ensures Lookup(c'', IdOf(items[i])) == Some(items[i].fields)
      {
        if i < n {
          assert IdOf(items[i]) != IdOf(items[n]);
        }
      }
      forall k | k in c''.records
        ensures exists i :: 0 <= i < |items| && IdOf(items[i]) == k
      {
        if k != IdOf(last) {
          var i :| 0 <= i < n && IdOf(pre[i]) == k;
          assert IdOf(items[i]) == k;
        } else {
          assert IdOf(items[n]) == k;
        }
      }
    }
  }

  /** Refilling a cleared store with another store's listing reproduces that store's records. */
  lemma RefillAllRecords(c0: Collection, c: Collection)
    requires c0.records == map[] && ValidCollection(c)
    ensures Refill(c0, AllRecords(c)).Ok?
    ensures Refill(c0, AllRecords(c)).value.records == c.records
  {
    var items := AllRecords(c);
    var ks := Keys(c);
    forall i | 0 <= i < |items|
      ensures HasNumId(items[i]) && IdOf(items[i]) == ks[i]
    {
    }
    RefillWithIds(c0, items);
    var r := Refill(c0, items).value;
    forall k | k in c.records
      ensures k in r.records && r.records[k] == c.records[k]
    {
      var i :| 0 <= i < |ks| && ks[i] == k;
      assert Lookup(r, IdOf(items[i])) == Some(items[i].fields);
    }
    forall k | k in r.records
      ensures k in c.records
    {
      var i :| 0 <= i < |items| && IdOf(items[i]) == k;
    }
  }

  /** A plan restores snapshot `s` when each collection it carries is `s`'s listing. */
  predicate PlanRestores(p: ImportPlan, s: Snapshot)
    requires ValidSnapshot(s)
  {
    forall n :: p.Items(n) == JArr(AllRecords(s.collections[n]))
  }

  /** The three store transactions of a plan made of `s`'s listings succeed and restore each of `s`'s stores. */
  lemma ImportStoresRestore(s0: Snapshot, p: ImportPlan, s: Snapshot) returns (t: Snapshot)
    requires ValidSnapshot(s0) && ValidSnapshot(s) && PlanRestores(p, s)
    ensures ImportStores(s0, p, 3) == (t, Pass)
    ensures t.collections[Recherche].records == s.collections[Recherche].records
    ensures t.collections[Obeissance].records == s.collections[Obeissance].records
    ensures t.collections[Divers].records == s.collections[Divers].records
  {
    t := RestoreAll(s0, p, s.collections[Recherche], s.collections[Obeissance], s.collections[Divers]);
  }

  /** The three transactions of a plan carrying the listings of three collections restore them in turn. */
  lemma RestoreAll(s0: Snapshot, p: ImportPlan, r: Collection, o: Collection, d: Collection) returns (t: Snapshot)
    requires ValidSnapshot(s0) && ValidCollection(r) && ValidCollection(o) && ValidCollection(d)
    requires p.Items(Recherche) == JArr(AllRecords(r))
    requires p.Items(Obeissance) == JArr(AllRecords(o))
    requires p.Items(Divers) == JArr(AllRecords(d))
    ensures ImportStores(s0, p, 3) == (t, Pass)
    ensures t.collections[Recherche].records == r.records
    ensures t.collections[Obeissance].records == o.records
    ensures t.collections[Divers].records == d.records
  {
    var t1 := RestoreStep(s0, p, Recherche, 1, s0, r);
    var t2 := RestoreStep(s0, p, Obeissance, 2, t1, o);
    t := RestoreStep(s0, p, Divers, 3, t2, d);
  }

  /** Transaction `i`, on store `n`, of a plan carrying the listing of `c` succeeds and gives `n` the records of `c`. */
  lemma RestoreStep(s0: Snapshot, p: ImportPlan, n: StoreName, i: nat, prev: Snapshot, c: Collection) returns (t: Snapshot)
    requires ValidSnapshot(s0) && 0 < i <= 3 && FicheStores[i - 1] == n
    requires ValidCollection(c) && p.Items(n) == JArr(AllRecords(c))
    requires ImportStores(s0, p, i - 1) == (prev, Pass)
    ensures ImportStores(s0, p, i) == (t, Pass)
    ensures t.collections[n].records == c.records
    ensures t.collections == prev.collections[n := t.collections[n]]
  {
    ReplaceStoreRestores(prev, n, c);
    ImportStoresStep(s0, p, i);
    t := ReplaceStore(prev, n, p.Items(n)).value;
  }

  /** One more store transaction after the earlier ones succeeded. */
  lemma ImportStoresStep(s: Snapshot, p: ImportPlan, i: nat)
    requires ValidSnapshot(s) && 0 < i <= 3 && ImportStores(s, p, i - 1).1 == Pass
    ensures var t := ImportStores(s, p, i - 1).0;
      var r := ReplaceStore(t, FicheStores[i - 1], p.Items(FicheStores[i - 1]));
      ImportStores(s, p, i) == if r.Ok? then (r.value, Pass) else (t, Fail(r.error))
  {
  }

  /** Replacing a store by another store's listing gives it that store's records and touches no other. */
  lemma ReplaceStoreRestores(t: Snapshot, n: StoreName, c: Collection)
    requires ValidSnapshot(t) && ValidCollection(c)
    ensures var r := ReplaceStore(t, n, JArr(AllRecords(c)));
      r.Ok? && r.value.collections[n].records == c.records
      && r.value.collections == t.collections[n := r.value.collections[n]]
  {
    RefillAllRecords(Clear(t.collections[n]), c);
  }

  /**
   * Importing an export restores the three collections, the settings and the
   * draw data of the exported database, whatever the database imported into.
   */
  lemma ExportImportRoundTrip(s0: Snapshot, s: Snapshot, now: string) returns (t: Snapshot)
    requires ValidSnapshot(s0) && ValidSnapshot(s)
    ensures ImportAll(s0, ExportAll(s, now)) == (t, Pass)
    ensures GetSettings(t) == GetSettings(s) && GetTirage(t) == GetTirage(s)
    ensures forall n :: t.collections[n].records == s.collections[n].records
  {
    var p := ExportPlan(s, now);
    var t0 := ImportStoresRestore(s0, p, s);
    var settings := GetSettings(s);
    var tirage := GetTirage(s);
    ApplyPlanSingletons(s0, p, settings, tirage);
    t := SaveTirage(SaveSettings(t0, JObj(settings)), JObj(tirage));
    SingletonsRestored(t0, s);
    AllStoresRestored(t0, s);
  }

  /** Saving a database's own singletons back gives the same singletons. */
  lemma SingletonsRestored(t: Snapshot, s: Snapshot)
    requires ValidSnapshot(s)
    ensures var t' := SaveTirage(SaveSettings(t, JObj(GetSettings(s))), JObj(GetTirage(s)));
      GetSettings(t') == GetSettings(s) && GetTirage(t') == GetTirage(s) && t'.collections == t.collections
  {
    var settings := GetSettings(s);
    var tirage := GetTirage(s);
    assert settings["id" := JNum(1)] == settings;
    assert tirage["id" := JStr("tirage")] == tirage;
  }

  lemma AllStoresRestored(t: Snapshot, s: Snapshot)
    requires ValidSnapshot(t) && ValidSnapshot(s)
    requires t.collections[Recherche].records == s.collections[Recherche].records
    requires t.collections[Obeissance].records == s.collections[Obeissance].records
    requires t.collections[Divers].records == s.collections[Divers].records
    ensures forall n :: t.collections[n].records == s.collections[n].records
  {
    forall n
      ensures t.collections[n].records == s.collections[n].records
    {
      match n
      case Recherche =>
      case Obeissance =>
      case Divers =>
    }
  }

  /** When every store transaction succeeds, both singletons of a plan that carries them are saved. */
  lemma ApplyPlanSingletons(s: Snapshot, p: ImportPlan, settings: Record, tirage: Record)
    requires ValidSnapshot(s) && ImportStores(s, p, 3).1 == Pass
    requires p.settings == Some(JObj(settings)) && p.tirage == Some(JObj(tirage))
    ensures ApplyPlan(s, p) == (SaveTirage(SaveSettings(ImportStores(s, p, 3).0, JObj(settings)), JObj(tirage)), Pass)
  {
  }

  /** The plan read from an export document: the listings and both singletons. */
  lemma ExportPlan(s: Snapshot, now: string) returns (p: ImportPlan)
    requires ValidSnapshot(s)
    ensures DetectShape(ExportAll(s, now)) == Ok(p)
    ensures PlanRestores(p, s)
    ensures p.settings == Some(JObj(GetSettings(s))) && p.tirage == Some(JObj(GetTirage(s)))
  {
    var doc := ExportAll(s, now);
    var d := JObj(ExportData(s));
    assert Prop(doc, "data") == Some(d);
    p := CollectionsOf(d, Prop(d, "settings"), Prop(d, "tirage"));
    assert DetectShape(doc) == Ok(p);
    ExportListing(s, Recherche);
    forall n
      ensures p.Items(n) == JArr(AllRecords(s.collections[n]))
    {
      ExportListing(s, n);
    }
  }

  lemma ExportListing(s: Snapshot, n: StoreName)
    requires ValidSnapshot(s)
    ensures Prop(JObj(ExportData(s)), StoreKey(n)) == Some(JArr(AllRecords(s.collections[n])))
    ensures Prop(JObj(ExportData(s)), "settings") == Some(JObj(GetSettings(s)))
    ensures Prop(JObj(ExportData(s)), "tirage") == Some(JObj(GetTirage(s)))
  {
    DataMapProps(JArr(AllRecords(s.collections[Recherche])), JArr(AllRecords(s.collections[Obeissance])),
      JArr(AllRecords(s.collections[Divers])), JObj(GetSettings(s)), JObj(GetTirage(s)));
    match n
    case Recherche =>
    case Obeissance =>
    case Divers =>
  }

  /**
   * A legacy document never touches the draw data, and an import that fails
   * in a store writes neither singleton.
   */
  lemma ImportSingletons(s: Snapshot, doc: Json)
    requires ValidSnapshot(s)
    ensures ShapeOf(doc) == Legacy ==> ImportAll(s, doc).0.tirage == s.tirage
    ensures ImportAll(s, doc).1.Fail? ==>
      ImportAll(s, doc).0.settings == s.settings && ImportAll(s, doc).0.tirage == s.tirage
  {
  }

  /**
   * After a successful import every collection holds exactly its imported
   * items under their own keys, no two of which were equal; a collection the
   * document lacks (or holds a falsy value for) is left empty.
   */
  lemma ImportedContents(s: Snapshot, doc: Json, n: StoreName)
    requires ValidSnapshot(s) && ImportAll(s, doc).1 == Pass
    ensures DetectShape(doc).Ok?
    ensures var items := DetectShape(doc).value.Items(n);
      items.JArr?
      && Refill(Clear(s.collections[n]), items.items).Ok?
      && ImportAll(s, doc).0.collections[n].records == Refill(Clear(s.collections[n]), items.items).value.records
      && (items.items == [] ==> ImportAll(s, doc).0.collections[n].records == map[])
  {
    var p := DetectShape(doc).value;
    ApplyPlanCollections(s, p);
    var t := ImportStoresTouchAll(s, p);
    assert ImportAll(s, doc).0.collections == t.collections;
    match n
    case Recherche =>
    case Obeissance =>
    case Divers =>
  }

  /** The singleton writes after the store transactions leave the collections alone. */
  lemma ApplyPlanCollections(s: Snapshot, p: ImportPlan)
    requires ValidSnapshot(s)
    ensures ApplyPlan(s, p).0.collections == ImportStores(s, p, 3).0.collections
    ensures ApplyPlan(s, p).1 == ImportStores(s, p, 3).1
  {
  }

  /** Store `n` of `t` holds exactly the refill of its cleared store in `s` with the plan's items. */
  predicate Touched(s: Snapshot, p: ImportPlan, t: Snapshot, n: StoreName)
    requires ValidSnapshot(s) && ValidSnapshot(t)
  {
    && p.Items(n).JArr?
    && Refill(Clear(s.collections[n]), p.Items(n).items).Ok?
    && t.collections[n].records == Refill(Clear(s.collections[n]), p.Items(n).items).value.records
  }

  /** When all three transactions succeed, each store was replaced once, by its own items. */
  lemma ImportStoresTouchAll(s: Snapshot, p: ImportPlan) returns (t: Snapshot)
    requires ValidSnapshot(s) && ImportStores(s, p, 3).1 == Pass
    ensures ImportStores(s, p, 3) == (t, Pass)
    ensures Touched(s, p, t, Recherche) && Touched(s, p, t, Obeissance) && Touched(s, p, t, Divers)
  {
    ImportStoresPassPrefix(s, p, 2, 3);
    ImportStoresPassPrefix(s, p, 1, 3);
    var t1 := TouchStep(s, p, Recherche, 1, s);
    var t2 := TouchStep(s, p, Obeissance, 2, t1);
    t := TouchStep(s, p, Divers, 3, t2);
  }

  /** A run that succeeds succeeded at every earlier step. */
  lemma {:induction false} ImportStoresPassPrefix(s: Snapshot, p: ImportPlan, i: nat, k: nat)
    requires ValidSnapshot(s) && i <= k <= 3 && ImportStores(s, p, k).1 == Pass
    ensures ImportStores(s, p, i).1 == Pass
    decreases k
  {
    if i < k {
      ImportStoresPassPrefix(s, p, i, k - 1);
    }
  }

  /** Transaction `i`, on store `n`, when it succeeds: only `n` changes, to the refill of its items. */
  lemma TouchStep(s: Snapshot, p: ImportPlan, n: StoreName, i: nat, prev: Snapshot) returns (t: Snapshot)
    requires ValidSnapshot(s) && 0 < i <= 3 && FicheStores[i - 1] == n
    requires ImportStores(s, p, i - 1) == (prev, Pass) && ImportStores(s, p, i).1 == Pass
    requires prev.collections[n] == s.collections[n]
    ensures ImportStores(s, p, i) == (t, Pass)
    ensures ValidSnapshot(t) && Touched(s, p, t, n)
    ensures t.collections == prev.collections[n := t.collections[n]]
  {
    ImportStoresStep(s, p, i);
    t := ReplaceStore(prev, n, p.Items(n)).value;
  }

  /** The four object stores `resetDatabase` clears, in order. */
  datatype ObjectStore = Fiches(name: StoreName) | SettingsStore

  const ResetOrder: seq<ObjectStore> := [Fiches(Recherche), Fiches(Obeissance), Fiches(Divers), SettingsStore]

  /** `store.clear()` on one object store; clearing `settings` drops both singletons. */
  function ClearStore(s: Snapshot, os: ObjectStore): (r: Snapshot)
    requires ValidSnapshot(s)
    ensures ValidSnapshot(r)
  {
    match os
    case Fiches(n) => s.(collections := s.collections[n := Clear(s.collections[n])])
    case SettingsStore => s.(settings := None, tirage := None)
  }

  /** The first `i` transactions of `resetDatabase`. */
  function ResetPrefix(s: Snapshot, i: nat): (r: Snapshot)
    requires ValidSnapshot(s) && i <= |ResetOrder|
    ensures ValidSnapshot(r)
  {
    if i == 0 then s else ClearStore(ResetPrefix(s, i - 1), ResetOrder[i - 1])
  }

  /**
   * After `resetDatabase` every record store is empty (its key generator
   * kept), settings and draw data read as their defaults, and onboarding is
   * no longer done.
   */
  lemma ResetEffect(s: Snapshot)
    requires ValidSnapshot(s)
    ensures var r := ResetPrefix(s, 4);
      (forall n :: r.collections[n].records == map[] && r.collections[n].nextKey == s.collections[n].nextKey)
      && GetSettings(r) == DefaultSettings && GetTirage(r) == DefaultTirage && !IsOnboardingDone(r)
  {
    var r1 := ClearStore(s, Fiches(Recherche));
    var r2 := ClearStore(r1, Fiches(Obeissance));
    var r3 := ClearStore(r2, Fiches(Divers));
    assert ResetPrefix(s, 1) == r1;
    assert ResetPrefix(s, 2) == r2;
    assert ResetPrefix(s, 3) == r3;
    assert "onboarding_done" != "id";
    forall n
      ensures r3.collections[n].records == map[] && r3.collections[n].nextKey == s.collections[n].nextKey
    {
      match n
      case Recherche =>
      case Obeissance =>
      case Divers =>
    }
  }
}
