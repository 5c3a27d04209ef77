/**
 * The search-exercise form (`src/views/RechercheForm.jsx`): the exercise's
 * date, time slot and kinds of search, ten rows of hidden charges, and two
 * line-limited textareas.
 */
module RechercheForm {
  import opened Wrappers
  import opened Text
  import opened Json
  import opened Seqs
  import opened Store
  import opened Forms

  /** The number of charge rows the form shows. */
  const Slots: nat := 10

  /** A row nobody filled in. */
  const EmptyCharge: Json :=
    JObj(map["substance" := JStr(""), "quantite" := JStr(""), "hauteur" := JStr(""), "commentaire" := JStr("")])

  /** `n` rows nobody filled in. */
  function EmptyRows(n: nat): seq<Json> {
    seq(n, _ => EmptyCharge)
  }

  /** The fields edited as plain text. */
  const TextFields: set<string> :=
    {"date", "plage_horaire", "ordre_passage", "poseur", "temps_pose", "description", "bilan"}

  /** The line limits of the description (3) and of the assessment (9). */
  const Limits: map<string, int> := map["description" := 3, "bilan" := 9]

  /** The three heights a charge can be hidden at. */
  const Heights: seq<string> := ["bas", "moyen", "haut"]

  /** `j?.[i]`: an array's element, a string's character, an object's property named `i`. */
  function Index(j: Json, i: nat): Option<Json> {
    match j
    case JArr(items) => if i < |items| then Some(items[i]) else None
    case JStr(s) => if i < |s| then Some(JStr([s[i]])) else None
    case JObj(fields) => Get(fields, NatToString(i))
    case _ => None
  }

  /** The rows of a loaded record: `fiche.charges?.[i] || emptyCharge` for each of the ten. */
  function LoadCharges(charges: Option<Json>): (r: seq<Json>)
    ensures |r| == Slots
    ensures forall i :: 0 <= i < Slots ==> Truthy(r[i])
  {
    assert Truthy(EmptyCharge);
    seq(Slots, i requires 0 <= i < Slots => Slot(charges, i))
  }

  /** Row `i` of a loaded record. */
  function Slot(charges: Option<Json>, i: nat): (c: Json)
    ensures Truthy(c)
  {
    assert Truthy(EmptyCharge);
    Or(if charges.Some? then Index(charges.value, i) else None, EmptyCharge)
  }

  /**
   * A stored array fills the rows in order; a missing or falsy entry, and
   * every row past the stored ones, is an empty row. A record without
   * charges shows ten empty rows.
   */
  lemma LoadChargesSlots(items: seq<Json>, i: nat)
    requires i < Slots
    ensures LoadCharges(Some(JArr(items)))[i] == if i < |items| && Truthy(items[i]) then items[i] else EmptyCharge
    ensures LoadCharges(None)[i] == EmptyCharge
  {
  }

  /** The form's fields once loaded or created. */
  predicate Shaped(form: Record) {
    && form.Keys == TextFields + {"types_recherche", "charges"}
    && form["charges"].JArr? && |form["charges"].items| == Slots
  }

  /** The loaded form: each text field or `''`, the kinds of search or `[]`, and ten rows. */
  function LoadForm(fiche: Record): (r: Record)
    ensures Shaped(r)
  {
    (map k | k in TextFields :: Or(Get(fiche, k), JStr("")))
      ["types_recherche" := Or(Get(fiche, "types_recherche"), JArr([]))]
      ["charges" := JArr(LoadCharges(Get(fiche, "charges")))]
  }

  /** The new form: today's date, nothing else filled in, ten empty rows. */
  function InitialForm(today: string): (r: Record)
    ensures Shaped(r)
  {
    (map k | k in TextFields :: JStr(""))["date" := JStr(today)]
      ["types_recherche" := JArr([])]
      ["charges" := JArr(seq(Slots, _ => EmptyCharge))]
  }

  /**
   * The page's initialisation: in edit mode the record the id names; when
   * there is none, or the id is not a number, the new form stays.
   */
  function Open(s: Snapshot, ficheId: Option<string>, today: string): (r: Record)
    requires ValidSnapshot(s)
    ensures Shaped(r)
  {
    if HasId(ficheId) then
      match LoadForEdit(s, Recherche, ficheId.value)
      case Found(fiche) => LoadForm(fiche)
      case _ => InitialForm(today)
    else InitialForm(today)
  }

  /** The characters of a string, as spreading it gives them. */
  function Chars(s: string): (r: seq<Json>)
    ensures |r| == |s|
  {
    seq(|s|, i requires 0 <= i < |s| => JStr([s[i]]))
  }

  /** `t => t !== value`. */
  function OtherKind(value: string): Json -> bool {
    t => t != JStr(value)
  }

  /**
   * The kinds-of-search checkbox: checking appends the value, unchecking
   * keeps every other kind. `None` is the TypeError spreading or filtering
   * a value that is not an array throws (a string spreads to its characters
   * but cannot be filtered).
   */
  function ToggleType(types: Option<Json>, value: string, checked: bool): (r: Option<Json>)
    ensures r.Some? <==> types.Some? && (types.value.JArr? || (types.value.JStr? && checked))
    ensures r.Some? ==> r.value.JArr?
    ensures r.Some? && checked ==> |r.value.items| > 0 && r.value.items[|r.value.items| - 1] == JStr(value)
    ensures r.Some? && !checked ==> forall j :: 0 <= j < |r.value.items| ==> r.value.items[j] != JStr(value)
  {
    if types.None? then None
    else match types.value
      case JArr(items) =>
        Some(JArr(if checked then items + [JStr(value)] else Filter(items, OtherKind(value))))
      case JStr(s) => if checked then Some(JArr(Chars(s) + [JStr(value)])) else None
      case _ => None
  }

  /**
   * On a list of kinds: checking appends the value at the end; unchecking
   * removes every occurrence of it and keeps every other kind as often as
   * before, in order; unchecking after checking is unchecking alone, and
   * unchecking twice is unchecking once.
   */
  lemma ToggleTypeEffect(items: seq<Json>, value: string, x: Json)
    ensures ToggleType(Some(JArr(items)), value, true) == Some(JArr(items + [JStr(value)]))
    ensures var r := ToggleType(Some(JArr(items)), value, false).value.items;
      && r == Filter(items, OtherKind(value))
      && multiset(r)[JStr(value)] == 0
      && (x != JStr(value) ==> multiset(r)[x] == multiset(items)[x])
      && ToggleType(Some(JArr(r)), value, false) == Some(JArr(r))
    ensures ToggleType(Some(ToggleType(Some(JArr(items)), value, true).value), value, false)
      == ToggleType(Some(JArr(items)), value, false)
  {
    UncheckEffect(items, value, x);
    CheckThenUncheck(items, value);
  }

  /** Unchecking a kind removes it and keeps the others; a second unchecking changes nothing. */
  lemma UncheckEffect(items: seq<Json>, value: string, x: Json)
    ensures var r := ToggleType(Some(JArr(items)), value, false).value.items;
      && r == Filter(items, OtherKind(value))
      && multiset(r)[JStr(value)] == 0
      && (x != JStr(value) ==> multiset(r)[x] == multiset(items)[x])
      && ToggleType(Some(JArr(r)), value, false) == Some(JArr(r))
  {
    var keep := OtherKind(value);
    FilterCount(items, keep, x);
    FilterCount(items, keep, JStr(value));
    FilterIdempotent(items, keep);
  }

  /** Unchecking after checking is unchecking alone. */
  lemma CheckThenUncheck(items: seq<Json>, value: string)
    ensures ToggleType(Some(ToggleType(Some(JArr(items)), value, true).value), value, false)
      == ToggleType(Some(JArr(items)), value, false)
  {
    UncheckAfterCheck(items, value);
  }

  lemma UncheckAfterCheck(items: seq<Json>, value: string)
    ensures Filter(items + [JStr(value)], OtherKind(value)) == Filter(items, OtherKind(value))
  {
    var keep := OtherKind(value);
    FilterConcat(items, [JStr(value)], keep);
    assert !keep(JStr(value));
    assert Filter([JStr(value)], keep) == [] + Filter([JStr(value)][1..], keep);
    assert [JStr(value)][1..] == [];
  }

  /**
   * `handleChange`: the time slot is single-choice (checking selects it,
   * unchecking clears it), a kind of search is toggled, any other field
   * takes the value typed.
   */
  function HandleChange(form: Record, name: string, value: string, checked: bool): (r: Option<Record>)
    ensures name != "type_recherche" ==> r.Some?
    ensures r.Some? ==> forall k :: k != name && k != "types_recherche" ==> Get(r.value, k) == Get(form, k)
  {
    if name == "plage_horaire" then Some(SetField(form, name, JStr(if checked then value else "")))
    else if name == "type_recherche" then
      match ToggleType(Get(form, "types_recherche"), value, checked)
      case Some(types) => Some(SetField(form, "types_recherche", types))
      case None => None
    else Some(SetField(form, name, JStr(value)))
  }

  /** The time slot holds the value checked last, and is `''` once unchecked. */
  lemma TimeSlotSingleChoice(form: Record, value: string, other: string)
    ensures HandleChange(form, "plage_horaire", value, true).value["plage_horaire"] == JStr(value)
    ensures HandleChange(form, "plage_horaire", value, false).value["plage_horaire"] == JStr("")
    ensures var once := HandleChange(form, "plage_horaire", other, true).value;
      HandleChange(once, "plage_horaire", value, true).value["plage_horaire"] == JStr(value)
  {
  }

  /** `handleChargeChange(i, field, value)`: `charges[i] = {...charges[i], [field]: value}`. */
  function ChargeChange(form: Record, i: nat, field: string, value: string): (r: Record)
    requires Shaped(form) && i < Slots
    ensures Shaped(r)
  {
    var items := form["charges"].items;
    SetField(form, "charges", JArr(items[i := JObj(Spread(Some(items[i]))[field := JStr(value)])]))
  }

  /**
   * Only the field edited of the row edited changes: the other rows, the
   * other fields of that row and the other fields of the form stay.
   */
  lemma ChargeChangeEffect(form: Record, i: nat, field: string, value: string, j: nat, f: string, k: string)
    requires Shaped(form) && i < Slots
    ensures var r := ChargeChange(form, i, field, value);
      && Prop(r["charges"].items[i], field) == Some(JStr(value))
      && (f != field && form["charges"].items[i].JObj? ==>
        Prop(r["charges"].items[i], f) == Prop(form["charges"].items[i], f))
      && (j < Slots && j != i ==> r["charges"].items[j] == form["charges"].items[j])
      && (k != "charges" ==> Get(r, k) == Get(form, k))
  {
  }

  /** The height checkbox `h` of row `i`: clicking the selected height clears it, any other selects it. */
  function HeightClick(form: Record, i: nat, h: string): (r: Record)
    requires Shaped(form) && i < Slots
    ensures Shaped(r)
    ensures forall j :: 0 <= j < Slots && j != i ==> r["charges"].items[j] == form["charges"].items[j]
    ensures forall k :: k != "charges" ==> Get(r, k) == Get(form, k)
  {
    var current := Prop(form["charges"].items[i], "hauteur");
    ChargeChange(form, i, "hauteur", if current == Some(JStr(h)) then "" else h)
  }

  /** Whether row `i` shows height `h` as checked. */
  predicate HeightChecked(form: Record, i: nat, h: string)
    requires Shaped(form) && i < Slots
  {
    Prop(form["charges"].items[i], "hauteur") == Some(JStr(h))
  }

  /**
   * The heights behave as one choice: a click checks the height exactly
   * when it was not checked, and leaves every other height unchecked, so at
   * most one is checked; a second click on the same height restores its state.
   */
  lemma HeightSingleChoice(form: Record, i: nat, h: string, other: string)
    requires Shaped(form) && i < Slots && h in Heights
    ensures var r := HeightClick(form, i, h);
      && (HeightChecked(r, i, h) <==> !HeightChecked(form, i, h))
      && (other != h && other in Heights ==> !HeightChecked(r, i, other))
    ensures HeightChecked(HeightClick(HeightClick(form, i, h), i, h), i, h) == HeightChecked(form, i, h)
  {
    var r := HeightClick(form, i, h);
    ChargeChangeEffect(form, i, "hauteur", if HeightChecked(form, i, h) then "" else h, i, "hauteur", "charges");
    ChargeChangeEffect(r, i, "hauteur", if HeightChecked(r, i, h) then "" else h, i, "hauteur", "charges");
  }

  /** A row is kept on submission when its substance is set: `charges.filter(c => c.substance)`. */
  predicate HasSubstance(c: Json) {
    Present(Prop(c, "substance"))
  }

  function KeptCharges(items: seq<Json>): (r: seq<Json>)
    ensures |r| <= |items|
  {
    Filter(items, HasSubstance)
  }

  /** The data submitted: the form with only the rows whose substance is set. */
  function SubmitData(form: Record): (r: Record)
    requires Shaped(form)
    ensures forall k :: k != "charges" ==> Get(r, k) == Get(form, k)
  {
    SetField(form, "charges", JArr(KeptCharges(form["charges"].items)))
  }

  /**
   * Submission drops exactly the rows without a substance: every row with
   * one is kept as often as it occurs, in order, and no row without one is.
   */
  lemma SubmitKeepsFilledRows(form: Record, x: Json)
    requires Shaped(form)
    ensures var kept := SubmitData(form)["charges"].items;
      && (forall i :: 0 <= i < |kept| ==> HasSubstance(kept[i]))
      && multiset(kept)[x] == (if HasSubstance(x) then multiset(form["charges"].items)[x] else 0)
      && KeptCharges(kept) == kept
  {
    FilterCount(form["charges"].items, HasSubstance, x);
    FilterIdempotent(form["charges"].items, HasSubstance);
  }

  /** Reloading the kept rows shows them first, in order, then empty rows up to ten. */
  lemma ReloadCharges(items: seq<Json>)
    requires |items| == Slots
    ensures var kept := KeptCharges(items);
      LoadCharges(Some(JArr(kept))) == kept + EmptyRows(Slots - |kept|)
  {
    var kept := KeptCharges(items);
    var padded := kept + EmptyRows(Slots - |kept|);
    forall i | 0 <= i < Slots
      ensures LoadCharges(Some(JArr(kept)))[i] == padded[i]
    {
      if i < |kept| {
        assert HasSubstance(kept[i]);
      }
    }
  }

  /**
   * `handleSubmit`: the filled rows only, saved by `updateFiche` with the
   * parsed id when the address has one, by `addFiche` otherwise.
   */
  function SubmitPage(s: Snapshot, form: Record, ficheId: Option<string>, now: string): (r: Result<(Snapshot, int), StoreError>)
    requires ValidSnapshot(s) && Shaped(form)
    ensures r.Ok? ==> ValidSnapshot(r.value.0) && r.value.0.settings == s.settings && r.value.0.tirage == s.tirage
    ensures r.Ok? ==> forall m :: m != Recherche ==> r.value.0.collections[m] == s.collections[m]
    ensures "id" !in form ==> (r.Err? <==> HasId(ficheId) && ParseInt(ficheId.value).None?)
    ensures "id" !in form && r.Ok? ==>
      Lookup(r.value.0.collections[Recherche], r.value.1).Some?
      && Get(Lookup(r.value.0.collections[Recherche], r.value.1).value, "charges") == Some(JArr(KeptCharges(form["charges"].items)))
  {
    var data := SubmitData(form);
    if "id" !in form then
      assert "id" != "charges";
      SubmitStores(s, Recherche, HasId(ficheId), ficheId, data, now);
      Submit(s, Recherche, HasId(ficheId), ficheId, data, now)
    else Submit(s, Recherche, HasId(ficheId), ficheId, data, now)
  }

  /**
   * Saving a form and opening the saved record again shows the same form,
   * except that its filled rows come first, followed by empty rows.
   */
  lemma SaveThenReopen(s: Snapshot, form: Record, ficheId: Option<string>, now: string, today: string)
    requires ValidSnapshot(s) && Shaped(form)
    requires forall k :: k in TextFields ==> form[k].JStr?
    requires form["types_recherche"].JArr?
    requires HasId(ficheId) ==> ParseInt(ficheId.value).Some?
    ensures SubmitPage(s, form, ficheId, now).Ok?
    ensures var (t, k) := SubmitPage(s, form, ficheId, now).value;
      var kept := KeptCharges(form["charges"].items);
      Open(t, Some(IntToString(k)), today)
        == SetField(form, "charges", JArr(kept + EmptyRows(Slots - |kept|)))
  {
    assert "id" !in TextFields;
    assert "id" != "types_recherche";
    assert "id" != "charges";
    var data := SubmitData(form);
    assert "id" !in data;
    var t, k, stored := SubmitThenLoad(s, Recherche, HasId(ficheId), ficheId, data, now);
    var id := IntToString(k);
    assert HasId(Some(id));
    LoadFormOfSaved(stored, form);
  }

  /** A record saved from a form loads as that form, its filled rows first and empty rows after. */
  lemma LoadFormOfSaved(stored: Record, form: Record)
    requires Shaped(form)
    requires forall k :: k in TextFields ==> form[k].JStr?
    requires form["types_recherche"].JArr?
    requires forall f :: f != "id" && f != "created_at" ==> Get(stored, f) == Get(SubmitData(form), f)
    ensures var kept := KeptCharges(form["charges"].items);
      LoadForm(stored) == SetField(form, "charges", JArr(kept + EmptyRows(Slots - |kept|)))
  {
    var data := SubmitData(form);
    var kept := KeptCharges(form["charges"].items);
    var padded := JArr(kept + EmptyRows(Slots - |kept|));
    var reopened := LoadForm(stored);
    var expected := SetField(form, "charges", padded);
    forall f | f in TextFields
      ensures reopened[f] == expected[f]
    {
      SavedTextField(stored, form, f);
    }
    SavedKinds(stored, form);
    SavedRows(stored, form);
    assert reopened.Keys == expected.Keys;
  }

  /** A text field is neither of the two fields the store adds, nor the rows. */
  lemma TextFieldApart(f: string)
    requires f in TextFields
    ensures f != "id" && f != "created_at" && f != "charges"
  {
  }

  lemma SavedKinds(stored: Record, form: Record)
    requires Shaped(form)
    requires form["types_recherche"].JArr?
    requires forall f :: f != "id" && f != "created_at" ==> Get(stored, f) == Get(SubmitData(form), f)
    ensures LoadForm(stored)["types_recherche"] == form["types_recherche"]
  {
    assert "types_recherche" != "id";
    assert "types_recherche" != "created_at";
    assert Get(stored, "types_recherche") == Get(SubmitData(form), "types_recherche");
  }

  lemma SavedRows(stored: Record, form: Record)
    requires Shaped(form)
    requires forall f :: f != "id" && f != "created_at" ==> Get(stored, f) == Get(SubmitData(form), f)
    ensures var kept := KeptCharges(form["charges"].items);
      LoadForm(stored)["charges"] == JArr(kept + EmptyRows(Slots - |kept|))
  {
    assert "charges" != "id";
    assert "charges" != "created_at";
    assert Get(stored, "charges") == Get(SubmitData(form), "charges");
    ReloadCharges(form["charges"].items);
  }

  lemma SavedTextField(stored: Record, form: Record, f: string)
    requires Shaped(form)
    requires forall k :: k in TextFields ==> form[k].JStr?
    requires forall f :: f != "id" && f != "created_at" ==> Get(stored, f) == Get(SubmitData(form), f)
    requires f in TextFields
    ensures LoadForm(stored)[f] == form[f]
  {
    TextFieldApart(f);
    assert Get(stored, f) == Get(SubmitData(form), f) == Some(form[f]);
  }

  /** `handleDelete`: the id of the address, once confirmed. */
  function DeletePage(s: Snapshot, ficheId: Option<string>, confirmed: bool): (r: Result<Snapshot, StoreError>)
    requires ValidSnapshot(s)
    ensures !HasId(ficheId) || !confirmed ==> r == Ok(s)
    ensures r.Err? <==> HasId(ficheId) && confirmed && ParseInt(ficheId.value).None?
    ensures r.Ok? ==> ValidSnapshot(r.value) && r.value.settings == s.settings && r.value.tirage == s.tirage
    ensures r.Ok? ==> forall m :: m != Recherche ==> r.value.collections[m] == s.collections[m]
    ensures r.Ok? && HasId(ficheId) && confirmed ==>
      Lookup(r.value.collections[Recherche], ParseInt(ficheId.value).value).None?
  {
    Delete(s, Recherche, ficheId, confirmed)
  }

  /**
   * A new form respects both line limits, and they hold from then on:
   * through the textareas' guarded edits, the other fields' edits and the
   * rows' edits.
   */
  lemma EditsKeepLimits(form: Record, today: string, name: string, value: string, checked: bool, i: nat, field: string)
    requires Shaped(form) && AllFit(form, Limits)
    ensures AllFit(InitialForm(today), Limits)
    ensures name in Limits ==> AllFit(LimitedChange(form, name, value, Limits[name]), Limits)
    ensures name !in Limits && HandleChange(form, name, value, checked).Some? ==>
      AllFit(HandleChange(form, name, value, checked).value, Limits)
    ensures i < Slots ==> AllFit(ChargeChange(form, i, field, value), Limits)
  {
    InitialFits(today);
    if name in Limits {
      LimitsKept(form, Limits, name, value);
    }
    if name !in Limits && HandleChange(form, name, value, checked).Some? {
      assert "types_recherche" !in Limits;
      LimitsFrame(form, HandleChange(form, name, value, checked).value, Limits);
    }
    if i < Slots {
      LimitsFrame(form, ChargeChange(form, i, field, value), Limits);
    }
  }

  /** The new form's two limited textareas are empty, one line each. */
  lemma InitialFits(today: string)
    ensures AllFit(InitialForm(today), Limits)
  {
    assert LineCount("") == 1;
    assert "description" in TextFields && "bilan" in TextFields;
  }
}
