/**
 * What the three record forms (`RechercheForm`, `ObeissanceForm`,
 * `DiversForm`) share: field updates by name, textareas limited to a number
 * of lines, the week fields filled from a chosen date, the week heading, and
 * the way an id in the address decides between loading, updating, adding and
 * deleting a record.
 */
module Forms {
  import opened Wrappers
  import opened Text
  import opened Json
  import opened Store
  import opened Dates

  /** `setFormData(prev => ({...prev, [name]: value}))`: only the named field changes. */
  function SetField(form: Record, name: string, value: Json): (r: Record)
    ensures Get(r, name) == Some(value)
    ensures forall k :: k != name ==> Get(r, k) == Get(form, k)
  {
    form[name := value]
  }

  /** `value.split('\n').length`. */
  function LineCount(v: string): nat {
    |Split(v, '\n')|
  }

  /** The number of lines is one more than the number of line breaks. */
  lemma LineCountBreaks(v: string)
    ensures LineCount(v) == CountChar(v, '\n') + 1
  {
  }

  lemma {:induction false} CountCharConcat(a: string, b: string, c: char)
    ensures CountChar(a + b, c) == CountChar(a, c) + CountChar(b, c)
  {
    if a == [] {
      assert a + b == b;
    } else {
      assert (a + b)[0] == a[0];
      assert (a + b)[1..] == a[1..] + b;
      CountCharConcat(a[1..], b, c);
    }
  }

  /** A string field holding at most `maxLines` lines. */
  predicate Fits(form: Record, name: string, maxLines: int) {
    name in form && form[name].JStr? && LineCount(form[name].s) <= maxLines
  }

  /**
   * The guarded `onChange` of a line-limited textarea: the new text is taken
   * only when it has at most `maxLines` lines; otherwise nothing changes.
   */
  function LimitedChange(form: Record, name: string, value: string, maxLines: int): (r: Record)
    ensures r == form || r == SetField(form, name, JStr(value))
  {
    if LineCount(value) <= maxLines then SetField(form, name, JStr(value)) else form
  }

  /**
   * A guarded field keeps its limit: whatever is typed, the field still fits
   * afterwards, the change is taken exactly when the new text fits, and no
   * other field changes.
   */
  lemma LimitedChangeKeepsFit(form: Record, name: string, value: string, maxLines: int)
    requires Fits(form, name, maxLines)
    ensures Fits(LimitedChange(form, name, value, maxLines), name, maxLines)
    ensures LimitedChange(form, name, value, maxLines)[name] == JStr(value) <==> LineCount(value) <= maxLines || form[name] == JStr(value)
    ensures forall k :: k != name ==> Get(LimitedChange(form, name, value, maxLines), k) == Get(form, k)
  {
  }

  /** The `onKeyDown` guard: Enter is let through only while the text has fewer than `maxLines` lines. */
  predicate EnterAllowed(current: string, maxLines: int) {
    LineCount(current) < maxLines
  }

  /**
   * The two guards agree: a line break typed anywhere in the text is
   * accepted by the `onChange` guard exactly when the `onKeyDown` guard let
   * Enter through.
   */
  lemma EnterMatchesChange(form: Record, name: string, before: string, after: string, maxLines: int)
    ensures var typed := before + "\n" + after;
      LimitedChange(form, name, typed, maxLines) == SetField(form, name, JStr(typed))
      <==> EnterAllowed(before + after, maxLines) || form == SetField(form, name, JStr(typed))
  {
    var typed := before + "\n" + after;
    assert typed == before + ("\n" + after);
    CountCharConcat(before, "\n" + after, '\n');
    assert ("\n" + after)[1..] == after;
    assert CountChar("\n" + after, '\n') == CountChar(after, '\n') + 1;
    CountCharConcat(before, after, '\n');
    LineCountBreaks(typed);
    LineCountBreaks(before + after);
    assert LineCount(typed) == LineCount(before + after) + 1;
  }

  /** Every guarded field of the form, at most as many lines as its limit. */
  predicate AllFit(form: Record, limits: map<string, int>) {
    forall k :: k in limits ==> Fits(form, k, limits[k])
  }

  /** A guarded edit keeps every guarded field within its limit. */
  lemma LimitsKept(form: Record, limits: map<string, int>, name: string, value: string)
    requires AllFit(form, limits) && name in limits
    ensures AllFit(LimitedChange(form, name, value, limits[name]), limits)
  {
    var r := LimitedChange(form, name, value, limits[name]);
    forall k | k in limits
      ensures Fits(r, k, limits[k])
    {
      LimitedChangeKeepsFit(form, name, value, limits[name]);
      if k != name {
        assert Get(r, k) == Get(form, k);
      }
    }
  }

  /** Edits that leave the guarded fields alone keep them within their limits. */
  lemma LimitsFrame(form: Record, r: Record, limits: map<string, int>)
    requires AllFit(form, limits)
    requires forall k :: k in limits ==> Get(r, k) == Get(form, k)
    ensures AllFit(r, limits)
  {
    forall k | k in limits
      ensures Fits(r, k, limits[k])
    {
      assert Get(r, k) == Get(form, k);
    }
  }

  /**
   * The load-time normalisation of the week forms: each field is the stored
   * value when it is truthy and `''` otherwise, except that the field
   * `merged` falls back on the older field `legacy` before `''`.
   */
  function LoadFields(fiche: Record, fields: set<string>, merged: string, legacy: string): (r: Record)
    ensures r.Keys == fields
    ensures forall k :: k in fields ==> Truthy(r[k]) || r[k] == JStr("")
  {
    map k | k in fields ::
      if k == merged then Or(Get(fiche, k), Or(Get(fiche, legacy), JStr("")))
      else Or(Get(fiche, k), JStr(""))
  }

  /**
   * A stored field wins when it is set; the merged field takes the legacy
   * one only when its own is missing or empty; the stored record's other
   * fields, the legacy one included, are dropped.
   */
  lemma LoadFieldsFallback(fiche: Record, fields: set<string>, merged: string, legacy: string, k: string)
    requires k in fields
    ensures var r := LoadFields(fiche, fields, merged, legacy);
      && (Present(Get(fiche, k)) ==> r[k] == fiche[k])
      && (k != merged && !Present(Get(fiche, k)) ==> r[k] == JStr(""))
      && (k == merged && !Present(Get(fiche, k)) && Present(Get(fiche, legacy)) ==> r[k] == fiche[legacy])
      && (k == merged && !Present(Get(fiche, k)) && !Present(Get(fiche, legacy)) ==> r[k] == JStr(""))
      && (legacy !in fields ==> legacy !in r)
  {
  }

  /**
   * Reopening a saved form gives the form back: a record holding every
   * field of a form of strings, plus its `id` and `created_at`, loads as
   * that form.
   */
  lemma LoadFieldsOfSaved(stored: Record, form: Record, fields: set<string>, merged: string, legacy: string)
    requires form.Keys == fields && forall k :: k in fields ==> form[k].JStr?
    requires legacy !in fields && legacy != "id" && legacy != "created_at"
    requires "id" !in fields && "created_at" !in fields
    requires forall f :: f != "id" && f != "created_at" ==> Get(stored, f) == Get(form, f)
    ensures LoadFields(stored, fields, merged, legacy) == form
  {
    var r := LoadFields(stored, fields, merged, legacy);
    assert Get(stored, legacy) == None;
    forall k | k in fields
      ensures r[k] == form[k]
    {
      assert Get(stored, k) == Some(form[k]);
    }
  }

  /** The three week fields. */
  const WeekFields: set<string> := {"semaine_numero", "date_debut", "date_fin"}

  /** `updateWeekInfo(date)`: the week number as text, and the ISO dates of its Monday and Sunday. */
  function UpdateWeekInfo(form: Record, n: Day): (r: Record)
    ensures forall k :: k !in WeekFields ==> Get(r, k) == Get(form, k)
  {
    var range := GetWeekRange(n);
    form["semaine_numero" := JStr(IntToString(WeekNumber(n)))]["date_debut" := JStr(range.start)]["date_fin" := JStr(range.end)]
  }

  /**
   * After `updateWeekInfo`, the week number reads back as the ISO week of
   * the date, the range names the Monday and the Sunday of that week, which
   * hold the date, and no other field changed.
   */
  lemma UpdateWeekInfoEffect(form: Record, n: Day)
    requires 1000 <= CivilOf(WeekMonday(n)).year && CivilOf(WeekMonday(n) + 6).year <= 9999
    ensures var r := UpdateWeekInfo(form, n);
      && r["semaine_numero"].JStr? && ParseInt(r["semaine_numero"].s) == Some(WeekNumber(n))
      && r["date_debut"].JStr? && ParseISODate(r["date_debut"].s) == Some(WeekMonday(n))
      && r["date_fin"].JStr? && ParseISODate(r["date_fin"].s) == Some(WeekMonday(n) + 6)
      && WeekMonday(n) <= n <= WeekMonday(n) + 6
      && IsoWeekday(WeekMonday(n)) == 1
      && forall k :: k !in WeekFields ==> Get(r, k) == Get(form, k)
  {
    var range := GetWeekRange(n);
    var r := UpdateWeekInfo(form, n);
    assert r["semaine_numero"] == JStr(IntToString(WeekNumber(n)));
    assert r["date_debut"] == JStr(range.start);
    assert r["date_fin"] == JStr(range.end);
    ParseIntOfIntToString(WeekNumber(n));
    WeekMondayBounds(n);
  }

  /** On a form that already has the three week fields, the week update adds no field. */
  lemma WeekFieldsKept(form: Record, n: Day)
    requires WeekFields <= form.Keys
    ensures UpdateWeekInfo(form, n).Keys == form.Keys
  {
    assert "semaine_numero" in WeekFields && "date_debut" in WeekFields && "date_fin" in WeekFields;
  }

  /** The week fields a date that cannot be read gives: `NaN` everywhere. */
  function InvalidWeekInfo(form: Record): Record {
    form["semaine_numero" := JStr("NaN")]["date_debut" := JStr("NaN-NaN-NaN")]["date_fin" := JStr("NaN-NaN-NaN")]
  }

  /**
   * `handleWeekChange`: an empty date leaves the form as it is; otherwise the
   * date is read as `YYYY-MM-DD` at midnight and the week fields follow it.
   */
  function WeekChange(form: Record, value: string): (r: Record)
    ensures value == [] ==> r == form
    ensures forall k :: k !in WeekFields ==> Get(r, k) == Get(form, k)
  {
    if value == [] then form
    else match ParseISODate(value)
      case Some(n) => UpdateWeekInfo(form, n)
      case None => InvalidWeekInfo(form)
  }

  const Placeholder: string := "Sélectionnez une date"

  /** The heading of the obedience form, `Semaine n° N (du D1 au D2)`. */
  const ObeissancePrefix: string := "Semaine n° "

  /** The heading of the miscellaneous form, `Semaine N (du D1 au D2)`. */
  const DiversPrefix: string := "Semaine "

  /** All three week fields are set (truthy). */
  predicate HasWeek(form: Record) {
    Present(Get(form, "semaine_numero")) && Present(Get(form, "date_debut")) && Present(Get(form, "date_fin"))
  }

  /**
   * `getWeekDisplay`: the placeholder until the three week fields are set,
   * then the heading with both dates as `DD/MM/YYYY`. `None` is the
   * TypeError `formatDateCourt` throws on a date that is not a string.
   */
  function WeekDisplay(form: Record, prefix: string): (r: Option<string>)
    ensures !HasWeek(form) ==> r == Some(Placeholder)
    ensures r.None? <==> HasWeek(form) && !(form["date_debut"].JStr? && form["date_fin"].JStr?)
  {
    if !HasWeek(form) then Some(Placeholder)
    else
      var start := form["date_debut"];
      var end := form["date_fin"];
      if start.JStr? && end.JStr? then
        Some(prefix + ToText(form["semaine_numero"]) + " (du " + FormatDateCourtText(start.s)
          + " au " + FormatDateCourtText(end.s) + ")")
      else None
  }

  /** The placeholder shows exactly when one of the week fields is missing or empty. */
  lemma WeekDisplayPlaceholder(form: Record, prefix: string)
    requires prefix == ObeissancePrefix || prefix == DiversPrefix
    ensures WeekDisplay(form, prefix) == Some(Placeholder) <==> !HasWeek(form)
  {
    if HasWeek(form) && WeekDisplay(form, prefix).Some? {
      assert WeekDisplay(form, prefix).value[1] == 'e';
    }
  }

  /**
   * Once a date was chosen, the heading names its ISO week and the Monday
   * and Sunday of that week in the short French format.
   */
  lemma WeekDisplayAfterUpdate(form: Record, n: Day, prefix: string)
    requires 1000 <= CivilOf(WeekMonday(n)).year && CivilOf(WeekMonday(n) + 6).year <= 9999
    ensures WeekDisplay(UpdateWeekInfo(form, n), prefix) ==
      Some(prefix + IntToString(WeekNumber(n)) + " (du " + FormatDateCourt(WeekMonday(n))
        + " au " + FormatDateCourt(WeekMonday(n) + 6) + ")")
  {
    WeekFieldsSet(form, n);
    var range := GetWeekRange(n);
    var r := UpdateWeekInfo(form, n);
    HeadingOf(r, prefix, IntToString(WeekNumber(n)), range.start, range.end);
    assert FormatDateCourtText(range.start) == FormatDateCourt(WeekMonday(n));
    assert FormatDateCourtText(range.end) == FormatDateCourt(WeekMonday(n) + 6);
  }

  /** The heading of a form whose three week fields hold the given non-empty strings. */
  lemma HeadingOf(form: Record, prefix: string, w: string, start: string, end: string)
    requires HasWeek(form)
    requires form["semaine_numero"] == JStr(w) && form["date_debut"] == JStr(start) && form["date_fin"] == JStr(end)
    ensures WeekDisplay(form, prefix) ==
      Some(prefix + w + " (du " + FormatDateCourtText(start) + " au " + FormatDateCourtText(end) + ")")
  {
  }

  /** The week update sets all three week fields, to the number and the two ends of the range. */
  lemma WeekFieldsSet(form: Record, n: Day)
    ensures var r := UpdateWeekInfo(form, n);
      && HasWeek(r)
      && r["semaine_numero"] == JStr(IntToString(WeekNumber(n)))
      && r["date_debut"] == JStr(GetWeekRange(n).start)
      && r["date_fin"] == JStr(GetWeekRange(n).end)
  {
    var range := GetWeekRange(n);
    var w := IntToString(WeekNumber(n));
    assert range.start == FormatDateISO(WeekMonday(n));
    assert range.end == FormatDateISO(WeekMonday(n) + 6);
    FilledWeek(form, w, range.start, range.end);
  }

  /** Writing three non-empty strings into the week fields sets them. */
  lemma FilledWeek(form: Record, w: string, start: string, end: string)
    requires w != [] && start != [] && end != []
    ensures var r := form["semaine_numero" := JStr(w)]["date_debut" := JStr(start)]["date_fin" := JStr(end)];
      HasWeek(r) && r["semaine_numero"] == JStr(w) && r["date_debut"] == JStr(start) && r["date_fin"] == JStr(end)
  {
  }

  /** `searchParams.get('id')` is truthy: an `id` parameter that is not empty. */
  predicate HasId(ficheId: Option<string>) {
    ficheId.Some? && ficheId.value != []
  }

  /** What loading a record for editing gives. */
  datatype EditLoad = Found(fiche: Record) | NotFound | LoadFailed(error: StoreError)

  /**
   * `getFiche(store, parseInt(id))` in edit mode: the record, or nothing
   * when the key is free; an id that is not a number is a key IndexedDB
   * refuses with a DataError.
   */
  function LoadForEdit(s: Snapshot, n: StoreName, ficheId: string): (r: EditLoad)
    requires ValidSnapshot(s)
    ensures r.Found? ==> ParseInt(ficheId).Some? && Get(r.fiche, "id") == Some(JNum(ParseInt(ficheId).value))
  {
    match ParseInt(ficheId)
    case None => LoadFailed(DataError)
    case Some(id) =>
      match Lookup(s.collections[n], id)
      case Some(fiche) => Found(fiche)
      case None => NotFound
  }

  /**
   * `handleSubmit`: `updateFiche(store, parseInt(id), data)` in edit mode,
   * `addFiche(store, data)` otherwise; the key the page navigates to comes
   * back with the new database.
   */
  function Submit(s: Snapshot, n: StoreName, editing: bool, ficheId: Option<string>, data: Record, now: string): (r: Result<(Snapshot, int), StoreError>)
    requires ValidSnapshot(s)
    ensures r.Ok? ==> ValidSnapshot(r.value.0)
    ensures r.Ok? ==> forall m :: m != n ==> r.value.0.collections[m] == s.collections[m]
    ensures r.Ok? ==> r.value.0.settings == s.settings && r.value.0.tirage == s.tirage
  {
    if editing && HasId(ficheId) then
      match ParseInt(ficheId.value)
      case None => Err(DataError)
      case Some(id) => Ok((s.(collections := s.collections[n := UpdateFiche(s.collections[n], id, data)]), id))
    else
      match AddFiche(s.collections[n], data, now)
      case Ok((c, k)) => Ok((s.(collections := s.collections[n := c]), k))
      case Err(e) => Err(e)
  }

  /**
   * Submitting form data (which has no `id` of its own) succeeds unless an
   * edit names an id that is not a number; the record then stored under the
   * returned key holds every field of the data, under the edited id in edit
   * mode and under a key no record held otherwise, and the other records of
   * the store are unchanged.
   */
  lemma SubmitStores(s: Snapshot, n: StoreName, editing: bool, ficheId: Option<string>, data: Record, now: string)
    requires ValidSnapshot(s) && "id" !in data
    ensures var r := Submit(s, n, editing, ficheId, data, now);
      && (r.Err? <==> editing && HasId(ficheId) && ParseInt(ficheId.value).None?)
      && (r.Ok? ==>
        var (t, k) := r.value;
        && (editing && HasId(ficheId) ==> k == ParseInt(ficheId.value).value)
        && (!(editing && HasId(ficheId)) ==> k !in s.collections[n].records)
        && Lookup(t.collections[n], k).Some?
        && Get(Lookup(t.collections[n], k).value, "id") == Some(JNum(k))
        && (forall f :: f != "id" && f != "created_at" ==> Get(Lookup(t.collections[n], k).value, f) == Get(data, f))
        && (forall j :: j != k ==> Lookup(t.collections[n], j) == Lookup(s.collections[n], j)))
  {
    var c := s.collections[n];
    if editing && HasId(ficheId) {
      match ParseInt(ficheId.value)
      case None =>
      case Some(id) =>
        UpdateFicheReplaces(c, id, data);
    } else {
      AddFicheThenGet(c, data, now);
    }
  }

  /** The record a successful submission stored, read back through the key it returned. */
  lemma SubmitThenLoad(s: Snapshot, n: StoreName, editing: bool, ficheId: Option<string>, data: Record, now: string)
    returns (t: Snapshot, k: int, stored: Record)
    requires ValidSnapshot(s) && "id" !in data
    requires editing && HasId(ficheId) ==> ParseInt(ficheId.value).Some?
    ensures Submit(s, n, editing, ficheId, data, now) == Ok((t, k))
    ensures ValidSnapshot(t) && LoadForEdit(t, n, IntToString(k)) == Found(stored)
    ensures forall f :: f != "id" && f != "created_at" ==> Get(stored, f) == Get(data, f)
  {
    SubmitStores(s, n, editing, ficheId, data, now);
    var r := Submit(s, n, editing, ficheId, data, now);
    t, k := r.value.0, r.value.1;
    stored := Lookup(t.collections[n], k).value;
    ParseIntOfIntToString(k);
  }

  /**
   * `handleDelete`: nothing without an id or without the user's
   * confirmation; otherwise `deleteFiche(store, parseInt(id))`.
   */
  function Delete(s: Snapshot, n: StoreName, ficheId: Option<string>, confirmed: bool): (r: Result<Snapshot, StoreError>)
    requires ValidSnapshot(s)
    ensures r.Ok? ==> ValidSnapshot(r.value)
  {
    if !HasId(ficheId) || !confirmed then Ok(s)
    else match ParseInt(ficheId.value)
      case None => Err(DataError)
      case Some(id) => Ok(s.(collections := s.collections[n := DeleteFiche(s.collections[n], id)]))
  }

  /**
   * A record is deleted only with an id and a confirmation; the deleted key
   * then reads as missing and every other record, store and singleton is
   * as before.
   */
  lemma DeleteNeedsIdAndConfirmation(s: Snapshot, n: StoreName, ficheId: Option<string>, confirmed: bool)
    requires ValidSnapshot(s)
    ensures !HasId(ficheId) || !confirmed ==> Delete(s, n, ficheId, confirmed) == Ok(s)
    ensures HasId(ficheId) && confirmed && ParseInt(ficheId.value).Some? ==>
      var id := ParseInt(ficheId.value).value;
      var t := Delete(s, n, ficheId, confirmed).value;
      && Lookup(t.collections[n], id) == None
      && (forall j :: j != id ==> Lookup(t.collections[n], j) == Lookup(s.collections[n], j))
      && (forall m :: m != n ==> t.collections[m] == s.collections[m])
      && t.settings == s.settings && t.tirage == s.tirage
  {
  }
}
