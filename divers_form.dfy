/**
 * The miscellaneous form (`src/views/DiversForm.jsx`): one week of weight,
 * grooming, food, veterinary follow-up, exercise and behaviour notes, each
 * textarea limited to a number of lines.
 */
module DiversForm {
  import opened Wrappers
  import opened Text
  import opened Json
  import opened Store
  import opened Dates
  import opened Forms

  /** The form's fields. */
  const Fields: set<string> :=
    {"semaine_numero", "date_debut", "date_fin", "poids", "toilettage", "alimentation",
     "suivi_veterinaire", "activites_physiques", "comportement", "observations_generales"}

  /** The general observations take over the `points_attention` field of older records. */
  const Merged: string := "observations_generales"
  const Legacy: string := "points_attention"

  /** The line limit of each textarea, as its `onChange` passes it to `handleTextareaChange`. */
  const Limits: map<string, int> :=
    map["toilettage" := 2, "alimentation" := 3, "suivi_veterinaire" := 4,
        "activites_physiques" := 4, "comportement" := 4, "observations_generales" := 10]

  /** The empty form: every field `''`. */
  const InitialForm: Record := map k | k in Fields :: JStr("")

  /** The page: the form, the date shown in the week picker, and whether it edits a record. */
  datatype Page = Page(form: Record, weekDate: Json, editing: bool)

  /** Opening the page either shows it or, for an id naming no record, leaves for the list. */
  datatype Opening = Opened(page: Page) | Missing

  /** The loaded form: each field or `''`, the general observations falling back on `points_attention`. */
  function LoadForm(fiche: Record): (r: Record)
    ensures r.Keys == Fields
  {
    LoadFields(fiche, Fields, Merged, Legacy)
  }

  /** The page's initialisation: the record the id names, or a new form on the week of `today`. */
  function Open(s: Snapshot, ficheId: Option<string>, today: Day): (r: Opening)
    requires ValidSnapshot(s)
    ensures r.Opened? ==> r.page.form.Keys == Fields && (r.page.editing <==> HasId(ficheId))
    ensures !HasId(ficheId) ==> r.Opened?
  {
    if HasId(ficheId) then OpenRecord(s, ficheId.value) else Opened(NewPage(today))
  }

  /**
   * Edit mode: the record loaded into the form, with its Monday in the week
   * picker; leaving for the list when no record has the id, and keeping the
   * empty form when the id is not a number.
   */
  function OpenRecord(s: Snapshot, id: string): (r: Opening)
    requires ValidSnapshot(s)
    ensures r.Opened? ==> r.page.form.Keys == Fields && r.page.editing
  {
    match LoadForEdit(s, Divers, id)
    case Found(fiche) =>
      var weekDate := if Present(Get(fiche, "date_debut")) then fiche["date_debut"] else JStr("");
      Opened(Page(LoadForm(fiche), weekDate, true))
    case NotFound => Missing
    case LoadFailed(_) => Opened(Page(InitialForm, JStr(""), true))
  }

  /** A new record: the empty form, on the week of today. */
  function NewPage(today: Day): (r: Page)
    ensures r.form.Keys == Fields && !r.editing
  {
    assert WeekFields <= Fields;
    WeekFieldsKept(InitialForm, today);
    Page(UpdateWeekInfo(InitialForm, today), JStr(FormatDateISO(today)), false)
  }

  /** `handleTextareaChange(e, maxLines)` on one of the limited textareas. */
  function TextareaChange(form: Record, name: string, value: string): (r: Record)
    requires name in Limits
  {
    LimitedChange(form, name, value, Limits[name])
  }

  /**
   * A new form respects every limit, and the limits hold from then on:
   * through the textareas' guarded edits, through the weight field's plain
   * edit, and through a change of week.
   */
  lemma EditsKeepLimits(form: Record, name: string, value: string, weight: string, date: string)
    requires AllFit(form, Limits)
    ensures AllFit(InitialForm, Limits)
    ensures name in Limits ==> AllFit(TextareaChange(form, name, value), Limits)
    ensures AllFit(SetField(form, "poids", JStr(weight)), Limits)
    ensures AllFit(WeekChange(form, date), Limits)
  {
    InitialFits();
    if name in Limits {
      LimitsKept(form, Limits, name, value);
    }
    assert "poids" !in Limits;
    LimitsFrame(form, SetField(form, "poids", JStr(weight)), Limits);
    WeekFieldsUnlimited();
    LimitsFrame(form, WeekChange(form, date), Limits);
  }

  /** Every empty textarea holds one line, within its limit. */
  lemma InitialFits()
    ensures AllFit(InitialForm, Limits)
  {
    assert LineCount("") == 1;
    forall k | k in Limits
      ensures Fits(InitialForm, k, Limits[k])
    {
      assert k in Fields;
    }
  }

  /** No week field is a textarea. */
  lemma WeekFieldsUnlimited()
    ensures forall k :: k in Limits ==> k !in WeekFields
  {
    assert "semaine_numero" !in Limits;
    assert "date_debut" !in Limits;
    assert "date_fin" !in Limits;
  }

  /** `handleSubmit`: update in edit mode when an id is present, add otherwise. */
  function SubmitPage(s: Snapshot, page: Page, ficheId: Option<string>, now: string): (r: Result<(Snapshot, int), StoreError>)
    requires ValidSnapshot(s)
    ensures r.Ok? ==> ValidSnapshot(r.value.0) && r.value.0.settings == s.settings && r.value.0.tirage == s.tirage
    ensures r.Ok? ==> forall m :: m != Divers ==> r.value.0.collections[m] == s.collections[m]
    ensures "id" !in page.form ==> (r.Err? <==> page.editing && HasId(ficheId) && ParseInt(ficheId.value).None?)
    ensures "id" !in page.form && r.Ok? ==>
      Lookup(r.value.0.collections[Divers], r.value.1).Some?
      && forall f :: f in page.form && f != "created_at" ==>
        Get(Lookup(r.value.0.collections[Divers], r.value.1).value, f) == Some(page.form[f])
  {
    if "id" !in page.form then
      SubmitStores(s, Divers, page.editing, ficheId, page.form, now);
      Submit(s, Divers, page.editing, ficheId, page.form, now)
    else Submit(s, Divers, page.editing, ficheId, page.form, now)
  }

  /**
   * Saving a form of strings and opening the saved record again shows the
   * same form, in edit mode, whether the save added or updated the record.
   */
  lemma SaveThenReopen(s: Snapshot, page: Page, ficheId: Option<string>, now: string, today: Day)
    requires ValidSnapshot(s)
    requires page.form.Keys == Fields && forall k :: k in Fields ==> page.form[k].JStr?
    requires page.editing && HasId(ficheId) ==> ParseInt(ficheId.value).Some?
    ensures SubmitPage(s, page, ficheId, now).Ok?
    ensures var (t, k) := SubmitPage(s, page, ficheId, now).value;
      Open(t, Some(IntToString(k)), today).Opened?
      && Open(t, Some(IntToString(k)), today).page.form == page.form
      && Open(t, Some(IntToString(k)), today).page.editing
  {
    assert "id" !in Fields;
    assert "created_at" !in Fields;
    assert Legacy !in Fields;
    var t, k, stored := SubmitThenLoad(s, Divers, page.editing, ficheId, page.form, now);
    var id := IntToString(k);
    assert HasId(Some(id));
    LoadFieldsOfSaved(stored, page.form, Fields, Merged, Legacy);
  }

  /** `handleDelete` on this page: the id of the address, once confirmed. */
  function DeletePage(s: Snapshot, ficheId: Option<string>, confirmed: bool): (r: Result<Snapshot, StoreError>)
    requires ValidSnapshot(s)
    ensures !HasId(ficheId) || !confirmed ==> r == Ok(s)
    ensures r.Err? <==> HasId(ficheId) && confirmed && ParseInt(ficheId.value).None?
    ensures r.Ok? ==> ValidSnapshot(r.value) && r.value.settings == s.settings && r.value.tirage == s.tirage
    ensures r.Ok? ==> forall m :: m != Divers ==> r.value.collections[m] == s.collections[m]
    ensures r.Ok? && HasId(ficheId) && confirmed ==>
      Lookup(r.value.collections[Divers], ParseInt(ficheId.value).value).None?
  {
    Delete(s, Divers, ficheId, confirmed)
  }

  /** A new page shows the week of the day it was opened. */
  lemma NewPageShowsWeek(s: Snapshot, today: Day)
    requires ValidSnapshot(s)
    requires 1000 <= CivilOf(WeekMonday(today)).year && CivilOf(WeekMonday(today) + 6).year <= 9999
    ensures var page := Open(s, None, today).page;
      !page.editing &&
      WeekDisplay(page.form, DiversPrefix) ==
        Some(DiversPrefix + IntToString(WeekNumber(today)) + " (du " + FormatDateCourt(WeekMonday(today))
          + " au " + FormatDateCourt(WeekMonday(today) + 6) + ")")
  {
    WeekDisplayAfterUpdate(InitialForm, today, DiversPrefix);
  }
}
