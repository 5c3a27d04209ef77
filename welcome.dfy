/**
 * The onboarding wizard (`src/views/Welcome.jsx`): a step counter guarded
 * on the dog's name, lists that never become empty while they are edited,
 * and the three ways out: finishing, skipping, or restoring a backup.
 */
module Welcome {
  import opened Wrappers
  import opened Text
  import opened Json
  import opened Seqs
  import opened Store
  import opened SettingsLists

  /** The wizard's state: the current step and the settings being entered. */
  datatype Wizard = Wizard(step: int, nomChien: string, substances: seq<string>, poseurs: seq<string>)

  datatype ListKind = Substances | Poseurs

  /** The wizard when it opens: step 1, an empty name, one blank entry per list. */
  const Start: Wizard := Wizard(1, "", [""], [""])

  function List(w: Wizard, k: ListKind): seq<string> {
    match k
    case Substances => w.substances
    case Poseurs => w.poseurs
  }

  function WithList(w: Wizard, k: ListKind, l: seq<string>): (r: Wizard)
    ensures List(r, k) == l
    ensures forall other :: other != k ==> List(r, other) == List(w, other)
    ensures r.step == w.step && r.nomChien == w.nomChien
  {
    match k
    case Substances => w.(substances := l)
    case Poseurs => w.(poseurs := l)
  }

  /** Both lists hold at least one entry, so each always shows an input. */
  predicate ListsShown(w: Wizard) {
    |w.substances| >= 1 && |w.poseurs| >= 1
  }

  /** `nextStep`: refused on step 1 while the name is blank; otherwise one step on. */
  function NextStep(w: Wizard): (r: Wizard)
    ensures w.step == 1 && IsBlank(w.nomChien) ==> r == w
    ensures !(w.step == 1 && IsBlank(w.nomChien)) ==> r == w.(step := w.step + 1)
  {
    if w.step == 1 && Trim(w.nomChien) == [] then w else w.(step := w.step + 1)
  }

  /** `prevStep`: one step back, keeping what was entered; stepping forward again returns. */
  function PrevStep(w: Wizard): (r: Wizard)
    ensures r.step == w.step - 1
    ensures r.nomChien == w.nomChien && r.substances == w.substances && r.poseurs == w.poseurs
    ensures !(r.step == 1 && IsBlank(r.nomChien)) ==> NextStep(r) == w
  {
    w.(step := w.step - 1)
  }

  /** Going back undoes an accepted step forward; the settings entered are kept. */
  lemma NextThenPrev(w: Wizard)
    requires !(w.step == 1 && IsBlank(w.nomChien))
    ensures PrevStep(NextStep(w)) == w
  {
  }

  /** A blank name cannot get past step 1. */
  lemma {:induction false} BlankNameStaysOnFirstStep(w: Wizard, n: nat)
    requires w.step == 1 && IsBlank(w.nomChien)
    ensures Iterate(w, n) == w
  {
    if n > 0 {
      BlankNameStaysOnFirstStep(w, n - 1);
    }
  }

  /** `n` presses of the next button. */
  function Iterate(w: Wizard, n: nat): Wizard {
    if n == 0 then w else NextStep(Iterate(w, n - 1))
  }

  /** `handleDogName`. */
  function SetName(w: Wizard, name: string): (r: Wizard)
    ensures r.nomChien == name && r.step == w.step
    ensures r.substances == w.substances && r.poseurs == w.poseurs
  {
    w.(nomChien := name)
  }

  /** `addSubstance` / `addPoseur`. */
  function AddEntry(w: Wizard, k: ListKind): (r: Wizard)
    ensures List(r, k) == List(w, k) + [""]
    ensures forall other :: other != k ==> List(r, other) == List(w, other)
    ensures r.step == w.step && r.nomChien == w.nomChien
  {
    WithList(w, k, List(w, k) + [""])
  }

  /** `updateSubstance(i, v)` / `updatePoseur(i, v)`. */
  function UpdateEntry(w: Wizard, k: ListKind, i: int, v: string): (r: Wizard)
    ensures |List(r, k)| == |List(w, k)|
    ensures forall j :: 0 <= j < |List(w, k)| ==> List(r, k)[j] == if j == i then v else List(w, k)[j]
    ensures forall other :: other != k ==> List(r, other) == List(w, other)
    ensures r.step == w.step && r.nomChien == w.nomChien
  {
    WithList(w, k, SetAt(List(w, k), i, v))
  }

  /** `removeSubstance(i)` / `removePoseur(i)`: nothing happens to a list of one entry. */
  function RemoveEntry(w: Wizard, k: ListKind, i: int): (r: Wizard)
    ensures |List(w, k)| <= 1 ==> r == w
    ensures |List(w, k)| > 1 ==> List(r, k) == RemoveAt(List(w, k), i)
    ensures forall other :: other != k ==> List(r, other) == List(w, other)
    ensures r.step == w.step && r.nomChien == w.nomChien
  {
    if |List(w, k)| > 1 then WithList(w, k, RemoveAt(List(w, k), i)) else w
  }

  /** The wizard opens with both lists shown, and every edit keeps them shown. */
  lemma EditsKeepListsShown(w: Wizard, k: ListKind, i: int, v: string, name: string)
    requires ListsShown(w)
    ensures ListsShown(Start)
    ensures ListsShown(AddEntry(w, k)) && ListsShown(UpdateEntry(w, k, i, v))
    ensures ListsShown(RemoveEntry(w, k, i)) && ListsShown(SetName(w, name))
    ensures ListsShown(NextStep(w)) && ListsShown(PrevStep(w))
  {
    var r := RemoveEntry(w, k, i);
    match k
    case Substances =>
      assert List(r, Poseurs) == w.poseurs;
    case Poseurs =>
      assert List(r, Substances) == w.substances;
  }

  /** `'Mon chien'`, the name used when none is given. */
  const DefaultDogName: string := "Mon chien"

  /** The name `finish` saves: the typed one trimmed, or the default one when that is blank. */
  function DogName(typed: string): (r: string)
    ensures IsBlank(typed) ==> r == DefaultDogName
    ensures !IsBlank(typed) ==> r == Trim(typed)
  {
    var name := Trim(typed);
    if name == [] then DefaultDogName else name
  }

  /** The saved name is never blank. */
  lemma DogNameNotBlank(typed: string)
    ensures !IsBlank(DogName(typed))
  {
    var name := Trim(typed);
    if name == [] {
      assert DefaultDogName[0] == 'M';
      HeadNotBlank(DefaultDogName);
    } else {
      HeadNotBlank(name);
    }
  }

  /**
   * `finish`: the trimmed name or the default one, both lists without their
   * blank entries, and onboarding marked done.
   */
  function FinishSettings(w: Wizard): (r: Record)
    ensures r.Keys == {"nom_chien", "substances", "poseurs", "onboarding_done"}
  {
    map["nom_chien" := JStr(DogName(w.nomChien)),
        "substances" := Strings(NonBlank(w.substances)),
        "poseurs" := Strings(NonBlank(w.poseurs)),
        "onboarding_done" := JBool(true)]
  }

  /**
   * After finishing, onboarding is done and the stored settings name the dog
   * with `DogName` of the typed name (never blank) and hold both lists
   * cleaned of blank entries, in their order.
   */
  lemma FinishSaves(s: Snapshot, w: Wizard)
    ensures var st := GetSettings(SaveSettings(s, JObj(FinishSettings(w))));
      IsOnboardingDone(SaveSettings(s, JObj(FinishSettings(w))))
      && Get(st, "substances") == Some(Strings(NonBlank(w.substances)))
      && Get(st, "poseurs") == Some(Strings(NonBlank(w.poseurs)))
      && Get(st, "nom_chien") == Some(JStr(DogName(w.nomChien)))
  {
    var r := FinishSettings(w);
    SaveSettingsThenGet(s, r);
    FinishFields(w);
    var st := r["id" := JNum(1)];
    assert Get(st, "substances") == Get(r, "substances");
    assert Get(st, "poseurs") == Get(r, "poseurs");
    assert Get(st, "nom_chien") == Get(r, "nom_chien");
    assert Get(st, "onboarding_done") == Get(r, "onboarding_done");
  }

  /** The fields `finish` writes, before the key is added. */
  lemma FinishFields(w: Wizard)
    ensures var r := FinishSettings(w);
      Get(r, "onboarding_done") == Some(JBool(true))
      && Get(r, "substances") == Some(Strings(NonBlank(w.substances)))
      && Get(r, "poseurs") == Some(Strings(NonBlank(w.poseurs)))
      && Get(r, "nom_chien") == Some(JStr(DogName(w.nomChien)))
  {
  }

  /** `skipSetup`: the default name, empty lists, onboarding done. */
  const SkipSettings: Record :=
    map["nom_chien" := JStr(DefaultDogName), "substances" := JArr([]), "poseurs" := JArr([]),
        "onboarding_done" := JBool(true)]

  /** Skipping is finishing the untouched wizard. */
  lemma SkipIsFinishFromStart()
    ensures FinishSettings(Start) == SkipSettings
  {
    var w := Start;
    assert Trim(w.nomChien) == [];
    OneBlankEntryCleaned();
    assert Strings([]) == JArr([]);
  }

  lemma OneBlankEntryCleaned()
    ensures NonBlank([""]) == []
  {
    NonBlankEffect([""], "");
  }

  /**
   * `processImport`: the import, then, when it resolves, the settings read
   * back and saved again with only `onboarding_done` set to `true`.
   */
  function ProcessImport(s: Snapshot, doc: Json): (r: (Snapshot, Outcome<StoreError>))
    requires ValidSnapshot(s)
    ensures ValidSnapshot(r.0)
  {
    var (t, o) := ImportAll(s, doc);
    if o.Fail? then (t, o)
    else (SaveSettings(t, JObj(GetSettings(t)["onboarding_done" := JBool(true)])), Pass)
  }

  /**
   * A restored backup ends the onboarding; every other field of the
   * settings is the one the import left, and the records and draw data are
   * those of the import.
   */
  lemma ProcessImportEffect(s: Snapshot, doc: Json)
    requires ValidSnapshot(s)
    ensures var (r, o) := ProcessImport(s, doc);
      o == ImportAll(s, doc).1
      && (o.Pass? ==>
        IsOnboardingDone(r)
        && r.collections == ImportAll(s, doc).0.collections && r.tirage == ImportAll(s, doc).0.tirage
        && forall k :: k != "onboarding_done" ==> Get(GetSettings(r), k) == Get(GetSettings(ImportAll(s, doc).0), k))
  {
    var t := ImportAll(s, doc).0;
    SaveSettingsThenGet(t, GetSettings(t)["onboarding_done" := JBool(true)]);
    assert "onboarding_done" != "id";
    assert Get(GetSettings(t), "id") == Some(JNum(1));
  }
}
