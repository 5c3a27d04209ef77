/**
 * The settings page (`src/views/Reglages.jsx`): the form loaded from the
 * stored settings, the list edits, the saves, and the checks and preview
 * that come before an import or a reset.
 */
module Reglages {
  import opened Wrappers
  import opened Text
  import opened Json
  import opened Seqs
  import opened Store
  import opened SettingsLists

  datatype ListKind = Substances | Poseurs

  /** The page's settings state: the dog's name, both lists and the onboarding flag. */
  datatype SettingsForm = SettingsForm(nomChien: Json, substances: seq<string>, poseurs: seq<string>, onboardingDone: Json) {
    function List(k: ListKind): seq<string> {
      match k
      case Substances => substances
      case Poseurs => poseurs
    }

    function WithList(k: ListKind, l: seq<string>): (f: SettingsForm)
      ensures f.List(k) == l
      ensures forall other :: other != k ==> f.List(other) == List(other)
      ensures f.nomChien == nomChien && f.onboardingDone == onboardingDone
    {
      match k
      case Substances => this.(substances := l)
      case Poseurs => this.(poseurs := l)
    }
  }

  function ListKey(k: ListKind): string {
    match k
    case Substances => "substances"
    case Poseurs => "poseurs"
  }

  /** The state before the stored settings arrive. */
  const InitialForm: SettingsForm := SettingsForm(JStr(""), [], [], JBool(true))

  /**
   * `loadSettings`: the name `|| ''`, each list `|| []`, and the onboarding
   * flag as stored, or `true` when the stored object has none.
   */
  function LoadSettings(loaded: Record): (r: SettingsForm)
    ensures Present(Get(loaded, "nom_chien")) ==> r.nomChien == loaded["nom_chien"]
    ensures !Present(Get(loaded, "nom_chien")) ==> r.nomChien == JStr("")
    ensures !Present(Get(loaded, "substances")) ==> r.substances == []
    ensures !Present(Get(loaded, "poseurs")) ==> r.poseurs == []
    ensures "onboarding_done" !in loaded ==> r.onboardingDone == JBool(true)
    ensures "onboarding_done" in loaded ==> r.onboardingDone == loaded["onboarding_done"]
  {
    SettingsForm(
      Or(Get(loaded, "nom_chien"), JStr("")),
      Names(Or(Get(loaded, "substances"), JArr([]))),
      Names(Or(Get(loaded, "poseurs"), JArr([]))),
      if "onboarding_done" in loaded then loaded["onboarding_done"] else JBool(true))
  }

  /** `{...settings}`: the object the page saves. */
  function FormRecord(f: SettingsForm): (r: Record)
    ensures r.Keys == {"nom_chien", "substances", "poseurs", "onboarding_done"}
  {
    map["nom_chien" := f.nomChien, "substances" := Strings(f.substances),
        "poseurs" := Strings(f.poseurs), "onboarding_done" := f.onboardingDone]
  }

  /**
   * On a fresh database the page shows an empty name, empty lists and
   * onboarding not done; a stored object without the flag reads as done.
   */
  lemma LoadDefaults(loaded: Record)
    ensures LoadSettings(DefaultSettings) == SettingsForm(JStr(""), [], [], JBool(false))
    ensures "onboarding_done" !in loaded ==> LoadSettings(loaded).onboardingDone == JBool(true)
  {
    assert Names(JArr([])) == [];
  }

  /**
   * Saving the form and loading it again gives the same form back, as long
   * as the name is not a falsy value other than `''` (which `|| ''` turns
   * into `''`).
   */
  lemma SaveLoadRoundTrip(s: Snapshot, f: SettingsForm)
    requires Truthy(f.nomChien) || f.nomChien == JStr("")
    ensures LoadSettings(GetSettings(SaveSettings(s, JObj(FormRecord(f))))) == f
  {
    var loaded := GetSettings(SaveSettings(s, JObj(FormRecord(f))));
    assert loaded == FormRecord(f)["id" := JNum(1)];
    NamesOfStrings(f.substances);
    NamesOfStrings(f.poseurs);
    assert Truthy(Strings(f.substances)) && Truthy(Strings(f.poseurs));
  }

  /** `addSubstance` / `addPoseur`: a blank entry at the end of that list only. */
  function AddEntry(f: SettingsForm, k: ListKind): (r: SettingsForm)
    ensures r.List(k) == f.List(k) + [""]
    ensures forall other :: other != k ==> r.List(other) == f.List(other)
    ensures r.nomChien == f.nomChien && r.onboardingDone == f.onboardingDone
  {
    f.WithList(k, f.List(k) + [""])
  }

  /** `updateSubstance(i, v)` / `updatePoseur(i, v)`: entry `i` of that list only. */
  function UpdateEntry(f: SettingsForm, k: ListKind, i: int, v: string): (r: SettingsForm)
    ensures |r.List(k)| == |f.List(k)|
    ensures forall j :: 0 <= j < |f.List(k)| ==> r.List(k)[j] == if j == i then v else f.List(k)[j]
    ensures forall other :: other != k ==> r.List(other) == f.List(other)
    ensures r.nomChien == f.nomChien && r.onboardingDone == f.onboardingDone
  {
    f.WithList(k, SetAt(f.List(k), i, v))
  }

  /** `removeSubstance(i)` / `removePoseur(i)`: entry `i` of that list only. */
  function RemoveEntry(f: SettingsForm, k: ListKind, i: int): (r: SettingsForm)
    ensures |r.List(k)| == if 0 <= i < |f.List(k)| then |f.List(k)| - 1 else |f.List(k)|
    ensures forall j :: 0 <= j < |r.List(k)| ==> r.List(k)[j] == if 0 <= i <= j then f.List(k)[j + 1] else f.List(k)[j]
    ensures forall other :: other != k ==> r.List(other) == f.List(other)
    ensures r.nomChien == f.nomChien && r.onboardingDone == f.onboardingDone
  {
    f.WithList(k, RemoveAt(f.List(k), i))
  }

  /** An entry just added can be edited, and removing it restores the list. */
  lemma AddThenRemove(f: SettingsForm, k: ListKind)
    ensures RemoveEntry(AddEntry(f, k), k, |f.List(k)|) == f
  {
    var l := f.List(k) + [""];
    assert RemoveAt(l, |f.List(k)|) == f.List(k);
    match k
    case Substances =>
    case Poseurs =>
  }

  /**
   * `saveSubstances` / `savePoseurs`: the object saved is the form with
   * that list cleaned of blank entries; the form shows the cleaned list.
   */
  function SaveList(f: SettingsForm, k: ListKind): (r: (SettingsForm, Record))
    ensures r.0 == f.WithList(k, NonBlank(f.List(k)))
    ensures r.1 == FormRecord(r.0)
  {
    var cleaned := NonBlank(f.List(k));
    var saved := FormRecord(f)[ListKey(k) := Strings(cleaned)];
    var f' := f.WithList(k, cleaned);
    FormRecordWithList(f, k, cleaned);
    (f', saved)
  }

  lemma FormRecordWithList(f: SettingsForm, k: ListKind, l: seq<string>)
    ensures FormRecord(f.WithList(k, l)) == FormRecord(f)[ListKey(k) := Strings(l)]
  {
    match k
    case Substances =>
    case Poseurs =>
  }

  /**
   * After saving one list, the stored settings hold the cleaned list, the
   * other list, the name and the flag as the form had them, and id 1.
   */
  lemma SaveListStored(s: Snapshot, f: SettingsForm, k: ListKind, other: ListKind)
    requires other != k
    ensures var st := GetSettings(SaveSettings(s, JObj(SaveList(f, k).1)));
      Get(st, ListKey(k)) == Some(Strings(NonBlank(f.List(k))))
      && Get(st, ListKey(other)) == Some(Strings(f.List(other)))
      && Get(st, "nom_chien") == Some(f.nomChien)
      && Get(st, "onboarding_done") == Some(f.onboardingDone)
      && Get(st, "id") == Some(JNum(1))
  {
    var f' := SaveList(f, k).0;
    assert f'.List(k) == NonBlank(f.List(k)) && f'.List(other) == f.List(other);
    SavedForm(s, f', k);
    SavedForm(s, f', other);
  }

  /** Saving a form's record stores each of its fields, under id 1. */
  lemma SavedForm(s: Snapshot, g: SettingsForm, k: ListKind)
    ensures var st := GetSettings(SaveSettings(s, JObj(FormRecord(g))));
      Get(st, ListKey(k)) == Some(Strings(g.List(k)))
      && Get(st, "nom_chien") == Some(g.nomChien)
      && Get(st, "onboarding_done") == Some(g.onboardingDone)
      && Get(st, "id") == Some(JNum(1))
  {
    SaveSettingsThenGet(s, FormRecord(g));
    match k
    case Substances =>
    case Poseurs =>
  }

  /** Why an import file is refused before anything is written. */
  datatype ImportRejection = InvalidFormat | NullDocument

  /** What the confirmation dialog shows: the dog and each collection's size. */
  datatype Preview = Preview(dog: Json, recherche: Json, obeissance: Json, divers: Json) {
    function Items(n: StoreName): Json {
      match n
      case Recherche => recherche
      case Obeissance => obeissance
      case Divers => divers
    }
  }

  /** `!!data.fiches || !!data.data || !!data.recherche`. */
  predicate KnownFormat(data: Json) {
    Present(Prop(data, "fiches")) || Present(Prop(data, "data")) || Present(Prop(data, "recherche"))
  }

  /**
   * The checks of `importDatabase` before the confirmation: reading a
   * property of `null` throws, a document with none of the three keys is
   * refused, and otherwise the collections are picked in the same order as
   * the import, with the dog's name `|| 'Inconnu'`.
   */
  function CheckImport(data: Json): (r: Result<Preview, ImportRejection>)
    ensures r == Err(NullDocument) <==> data.JNull?
    ensures r == Err(InvalidFormat) <==> !data.JNull? && !KnownFormat(data)
  {
    if data.JNull? then Err(NullDocument)
    else if !KnownFormat(data) then Err(InvalidFormat)
    else
      var src := if Present(Prop(data, "fiches")) then Prop(data, "fiches").value
        else if Present(Prop(data, "data")) then Prop(data, "data").value
        else data;
      var settings := if Present(Prop(data, "data")) && !Present(Prop(data, "fiches")) then Prop(src, "settings")
        else Prop(data, "settings");
      var dog := Or(if settings.Some? then Prop(settings.value, "nom_chien") else None, JStr("Inconnu"));
      Ok(Preview(dog, Or(Prop(src, "recherche"), JArr([])), Or(Prop(src, "obeissance"), JArr([])),
        Or(Prop(src, "divers"), JArr([]))))
  }

  /**
   * The preview counts what the import will write: every accepted document
   * is one `importAllData` can read, its collections are the ones the
   * import picks, and the dog named is that of the settings it will save.
   */
  lemma PreviewMatchesImport(data: Json)
    requires CheckImport(data).Ok?
    ensures DetectShape(data).Ok?
    ensures forall n :: CheckImport(data).value.Items(n) == DetectShape(data).value.Items(n)
    ensures var settings := DetectShape(data).value.settings;
      CheckImport(data).value.dog == Or(if settings.Some? then Prop(settings.value, "nom_chien") else None, JStr("Inconnu"))
  {
  }

  /** `.length` of a collection as the preview reads it: `undefined` for a non-array, non-string value. */
  function Length(j: Json): Option<int> {
    match j
    case JArr(items) => Some(|items|)
    case JStr(s) => Some(|s|)
    case _ => None
  }

  /** The total shown: the sum of the three sizes; `None` is the NaN of a missing size. */
  function Total(p: Preview): (r: Option<int>)
    ensures r.Some? <==> Length(p.recherche).Some? && Length(p.obeissance).Some? && Length(p.divers).Some?
  {
    match (Length(p.recherche), Length(p.obeissance), Length(p.divers))
    case (Some(a), Some(b), Some(c)) => Some(a + b + c)
    case _ => None
  }

  /**
   * An exported document passes the check, and its preview lists exactly
   * the records of each store.
   */
  lemma ExportPreview(s: Snapshot, now: string) returns (p: Preview)
    requires ValidSnapshot(s)
    ensures CheckImport(ExportAll(s, now)) == Ok(p)
    ensures p.recherche == JArr(AllRecords(s.collections[Recherche]))
    ensures p.obeissance == JArr(AllRecords(s.collections[Obeissance]))
    ensures p.divers == JArr(AllRecords(s.collections[Divers]))
  {
    var doc := ExportAll(s, now);
    assert Prop(doc, "data") == Some(JObj(ExportData(s)));
    var plan := ExportPlan(s, now);
    PreviewMatchesImport(doc);
    p := CheckImport(doc).value;
    assert p.Items(Recherche) == p.recherche && p.Items(Obeissance) == p.obeissance && p.Items(Divers) == p.divers;
  }

  /** A preview of three store listings counts every record of the three stores. */
  lemma PreviewTotal(p: Preview, r: Collection, o: Collection, d: Collection)
    requires p.recherche == JArr(AllRecords(r)) && p.obeissance == JArr(AllRecords(o)) && p.divers == JArr(AllRecords(d))
    ensures Total(p) == Some(|Keys(r)| + |Keys(o)| + |Keys(d)|)
  {
    ListingLength(r);
    ListingLength(o);
    ListingLength(d);
    TotalOfLengths(p, |Keys(r)|, |Keys(o)|, |Keys(d)|);
  }

  /** Three known sizes add up. */
  lemma TotalOfLengths(p: Preview, a: int, b: int, c: int)
    requires Length(p.recherche) == Some(a) && Length(p.obeissance) == Some(b) && Length(p.divers) == Some(c)
    ensures Total(p) == Some(a + b + c)
  {
  }

  /** A store's listing has one item per record. */
  lemma ListingLength(c: Collection)
    ensures Length(JArr(AllRecords(c))) == Some(|Keys(c)|)
  {
  }

  /** What choosing an import file ends in. */
  datatype ImportOutcome = Rejected(why: ImportRejection) | Declined | Imported(outcome: Outcome<StoreError>)

  /**
   * `importDatabase`: the checks, then the user's answer to the
   * confirmation, then `importAllData`. A refused file or a declined
   * confirmation writes nothing.
   */
  function ImportDatabase(s: Snapshot, data: Json, confirmed: bool): (r: (Snapshot, ImportOutcome))
    requires ValidSnapshot(s)
    ensures ValidSnapshot(r.0)
    ensures r.1.Imported? <==> confirmed && CheckImport(data).Ok?
    ensures !r.1.Imported? ==> r.0 == s
    ensures r.1.Imported? ==> r == (ImportAll(s, data).0, Imported(ImportAll(s, data).1))
  {
    match CheckImport(data)
    case Err(why) => (s, Rejected(why))
    case Ok(_) =>
      if !confirmed then (s, Declined)
      else
        var (t, o) := ImportAll(s, data);
        (t, Imported(o))
  }

  /**
   * The format check is stricter than the import itself: a flat document
   * holding only `obeissance` or `divers` records is refused here, though
   * `importAllData` would accept it.
   */
  lemma FlatWithoutRechercheRefused(items: Json)
    requires Truthy(items)
    ensures var doc := JObj(map["divers" := items]);
      CheckImport(doc) == Err(InvalidFormat) && DetectShape(doc).Ok?
  {
    var doc := JObj(map["divers" := items]);
    assert Prop(doc, "fiches") == None && Prop(doc, "data") == None && Prop(doc, "recherche") == None;
  }

  /**
   * `resetDatabase` on the page: the reset runs only after the confirmation
   * and the typed word `SUPPRIMER`; otherwise nothing changes.
   */
  function ResetRequest(s: Snapshot, confirmed: bool, typed: Option<string>): (r: Snapshot)
    requires ValidSnapshot(s)
    ensures ValidSnapshot(r)
    ensures confirmed && typed == Some("SUPPRIMER") ==> r == ResetPrefix(s, |ResetOrder|)
    ensures !(confirmed && typed == Some("SUPPRIMER")) ==> r == s
  {
    if confirmed && typed == Some("SUPPRIMER") then ResetPrefix(s, |ResetOrder|) else s
  }
}
