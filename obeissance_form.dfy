/**
 * The obedience form (`src/views/ObeissanceForm.jsx`): one week of
 * training, five sessions, keyed by the week of a chosen date.
 */
module ObeissanceForm {
  import opened Wrappers
  import opened Text
  import opened Json
  import opened Store
  import opened Dates
  import opened Forms

  /** The form's fields. */
  const Fields: set<string> :=
    {"semaine_numero", "date_debut", "date_fin", "seance1", "seance2", "seance3", "seance4", "seance5"}

  /** The first session takes over the single `observations` field of older records. */
  const Merged: string := "seance1"
  const Legacy: string := "observations"

  /** The empty form: every field `''`. */
  const InitialForm: Record := map k | k in Fields :: JStr("")

  /** The page: the form, the date shown in the week picker, and whether it edits a record. */
  datatype Page = Page(form: Record, weekDate: Json, editing: bool)

  /** Opening the page either shows it or, for an id naming no record, leaves for the list. */
  datatype Opening = Opened(page: Page) | Missing

  /** The loaded form: each field or `''`, the first session falling back on `observations`. */
  function LoadForm(fiche: Record): (r: Record)
    ensures r.Keys == Fields
  {
    LoadFields(fiche, Fields, Merged, Legacy)
  }

  /**
   * The page's initialisation: with an id, the record it names; without
   * one, the empty form set to the week of `today`.
   */
  function Open(s: Snapshot, ficheId: Option<string>, today: Day): (r: Opening)
    requires ValidSnapshot(s)
    ensures r.Opened? ==> r.page.form.Keys == Fields && (r.page.editing <==> HasId(ficheId))
    ensures !HasId(ficheId) ==> r.Opened?
  {
    if HasId(ficheId) then OpenRecord(s, ficheId.value) else Opened(NewPage(today))
  }

  /**
   * Edit mode: the record loaded into the form, with its Monday in the week
   * picker; leaving for the list when no record has the id, and keeping the
   * empty form when the id is not a number.
   */
  function OpenRecord(s: Snapshot, id: string): (r: Opening)
    requires ValidSnapshot(s)
    ensures r.Opened? ==> r.page.form.Keys == Fields && r.page.editing
  {
    match LoadForEdit(s, Obeissance, id)
    case Found(fiche) =>
      var weekDate := if Present(Get(fiche, "date_debut")) then fiche["date_debut"] else JStr("");
      Opened(Page(LoadForm(fiche), weekDate, true))
    case NotFound => Missing
    case LoadFailed(_) => Opened(Page(InitialForm, JStr(""), true))
  }

  /** A new record: the empty form, on the week of today. */
  function NewPage(today: Day): (r: Page)
    ensures r.form.Keys == Fields && !r.editing
  {
    assert WeekFields <= Fields;
    WeekFieldsKept(InitialForm, today);
    Page(UpdateWeekInfo(InitialForm, today), JStr(FormatDateISO(today)), false)
  }

  /** An id naming no record leaves the page, and only then. */
  lemma OpenMissing(s: Snapshot, ficheId: Option<string>, today: Day)
    requires ValidSnapshot(s)
    ensures Open(s, ficheId, today) == Missing <==>
      HasId(ficheId) && ParseInt(ficheId.value).Some? && ParseInt(ficheId.value).value !in s.collections[Obeissance].records
  {
  }

  /** `handleSubmit`: update in edit mode when an id is present, add otherwise. */
  function SubmitPage(s: Snapshot, page: Page, ficheId: Option<string>, now: string): (r: Result<(Snapshot, int), StoreError>)
    requires ValidSnapshot(s)
    ensures r.Ok? ==> ValidSnapshot(r.value.0) && r.value.0.settings == s.settings && r.value.0.tirage == s.tirage
    ensures r.Ok? ==> forall m :: m != Obeissance ==> r.value.0.collections[m] == s.collections[m]
    ensures "id" !in page.form ==> (r.Err? <==> page.editing && HasId(ficheId) && ParseInt(ficheId.value).None?)
    ensures "id" !in page.form && r.Ok? ==>
      Lookup(r.value.0.collections[Obeissance], r.value.1).Some?
      && forall f :: f in page.form && f != "created_at" ==>
        Get(Lookup(r.value.0.collections[Obeissance], r.value.1).value, f) == Some(page.form[f])
  {
    if "id" !in page.form then
      SubmitStores(s, Obeissance, page.editing, ficheId, page.form, now);
      Submit(s, Obeissance, page.editing, ficheId, page.form, now)
    else Submit(s, Obeissance, page.editing, ficheId, page.form, now)
  }

  /**
   * Saving a form of strings and opening the saved record again shows the
   * same form, in edit mode, whether the save added or updated the record.
   */
  lemma SaveThenReopen(s: Snapshot, page: Page, ficheId: Option<string>, now: string, today: Day)
    requires ValidSnapshot(s)
    requires page.form.Keys == Fields && forall k :: k in Fields ==> page.form[k].JStr?
    requires page.editing && HasId(ficheId) ==> ParseInt(ficheId.value).Some?
    ensures SubmitPage(s, page, ficheId, now).Ok?
    ensures var (t, k) := SubmitPage(s, page, ficheId, now).value;
      Open(t, Some(IntToString(k)), today).Opened?
      && Open(t, Some(IntToString(k)), today).page.form == page.form
      && Open(t, Some(IntToString(k)), today).page.editing
  {
    assert "id" !in Fields;
    assert "created_at" !in Fields;
    assert Legacy !in Fields;
    var t, k, stored := SubmitThenLoad(s, Obeissance, page.editing, ficheId, page.form, now);
    var id := IntToString(k);
    assert HasId(Some(id));
    LoadFieldsOfSaved(stored, page.form, Fields, Merged, Legacy);
  }

  /** `handleDelete` on this page: the id of the address, once confirmed. */
  function DeletePage(s: Snapshot, ficheId: Option<string>, confirmed: bool): (r: Result<Snapshot, StoreError>)
    requires ValidSnapshot(s)
    ensures !HasId(ficheId) || !confirmed ==> r == Ok(s)
    ensures r.Err? <==> HasId(ficheId) && confirmed && ParseInt(ficheId.value).None?
    ensures r.Ok? ==> ValidSnapshot(r.value) && r.value.settings == s.settings && r.value.tirage == s.tirage
    ensures r.Ok? ==> forall m :: m != Obeissance ==> r.value.collections[m] == s.collections[m]
    ensures r.Ok? && HasId(ficheId) && confirmed ==>
      Lookup(r.value.collections[Obeissance], ParseInt(ficheId.value).value).None?
  {
    Delete(s, Obeissance, ficheId, confirmed)
  }

  /** A new page shows the week of the day it was opened. */
  lemma NewPageShowsWeek(s: Snapshot, today: Day)
    requires ValidSnapshot(s)
    requires 1000 <= CivilOf(WeekMonday(today)).year && CivilOf(WeekMonday(today) + 6).year <= 9999
    ensures var page := Open(s, None, today).page;
      !page.editing &&
      WeekDisplay(page.form, ObeissancePrefix) ==
        Some(ObeissancePrefix + IntToString(WeekNumber(today)) + " (du " + FormatDateCourt(WeekMonday(today))
          + " au " + FormatDateCourt(WeekMonday(today) + 6) + ")")
  {
    WeekDisplayAfterUpdate(InitialForm, today, ObeissancePrefix);
  }
}
