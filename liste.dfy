/**
 * The list of records (`src/views/Liste.jsx`): the count on each tab, the
 * merged listing of the three stores sorted by descending date, and the
 * title and summary line of each card.
 */
module Liste {
  import opened Wrappers
  import opened Text
  import opened Json
  import opened Seqs
  import opened Store
  import opened Dates

  /** The badges of the four tabs. */
  datatype Counts = Counts(all: int, recherche: int, obeissance: int, divers: int)

  /** `counts`, from the three lists `getAllFiches` returned. */
  function CountsOf(rs: seq<Json>, os: seq<Json>, ds: seq<Json>): Counts {
    Counts(|rs| + |os| + |ds|, |rs|, |os|, |ds|)
  }

  /** `items.map(f => ({ ...f, _type: kind }))`. */
  function Tag(items: seq<Json>, kind: string): (r: seq<Record>)
    ensures |r| == |items|
    ensures forall i :: 0 <= i < |r| ==> Get(r[i], "_type") == Some(JStr(kind))
  {
    seq(|items|, i requires 0 <= i < |items| => Spread(Some(items[i]))["_type" := JStr(kind)])
  }

  /** The three stores' records, tagged with their store, before sorting. */
  function Merged(rs: seq<Json>, os: seq<Json>, ds: seq<Json>): seq<Record> {
    Tag(rs, "recherche") + Tag(os, "obeissance") + Tag(ds, "divers")
  }

  // Ordering of strings

  /** `a` sorts strictly before `b`, comparing character codes. */
  predicate Below(a: string, b: string) {
    if a == [] then b != []
    else b != [] && (a[0] < b[0] || (a[0] == b[0] && Below(a[1..], b[1..])))
  }

  lemma {:induction false} BelowIrreflexive(a: string)
    ensures !Below(a, a)
  {
    if a != [] {
      BelowIrreflexive(a[1..]);
    }
  }

  lemma {:induction false} BelowTransitive(a: string, b: string, c: string)
    requires Below(a, b) && Below(b, c)
    ensures Below(a, c)
  {
    if a != [] && a[0] == b[0] && b[0] == c[0] {
      BelowTransitive(a[1..], b[1..], c[1..]);
    }
  }

  lemma {:induction false} BelowTotal(a: string, b: string)
    ensures a == b || Below(a, b) || Below(b, a)
  {
    if a != [] && b != [] && a[0] == b[0] {
      BelowTotal(a[1..], b[1..]);
      if a[1..] == b[1..] {
        assert a == [a[0]] + a[1..] && b == [b[0]] + b[1..];
      }
    }
  }

  // The sorted listing

  /** `a.date || a.date_debut || ''`, as the comparison reads it. */
  function SortKey(f: Record): (r: string)
    ensures Present(Get(f, "date")) ==> r == ToText(f["date"])
    ensures !Present(Get(f, "date")) && !Present(Get(f, "date_debut")) ==> r == ""
  {
    ToText(Or(Get(f, "date"), Or(Get(f, "date_debut"), JStr(""))))
  }

  /** No element has a greater key than one placed before it. */
  predicate Descending<T>(s: seq<T>, key: T -> string) {
    forall i, j :: 0 <= i < j < |s| ==> !Below(key(s[i]), key(s[j]))
  }

  /** `x` placed after every element whose key is not below its own. */
  function Insert<T>(x: T, s: seq<T>, key: T -> string): (r: seq<T>)
    ensures multiset(r) == multiset(s) + multiset{x}
  {
    if s == [] then [x]
    else if Below(key(s[0]), key(x)) then [x] + s
    else
      assert s == [s[0]] + s[1..];
      [s[0]] + Insert(x, s[1..], key)
  }

  /**
   * `all.sort((a, b) => dateB.localeCompare(dateA))`: a stable sort by
   * descending key, each element inserted after those that came before it.
   */
  function SortDesc<T>(s: seq<T>, key: T -> string): (r: seq<T>)
    ensures multiset(r) == multiset(s)
    ensures Descending(r, key)
  {
    if s == [] then []
    else
      var init, last := s[..|s| - 1], s[|s| - 1];
      assert s == init + [last];
      InsertDescending(last, SortDesc(init, key), key);
      Insert(last, SortDesc(init, key), key)
  }

  lemma {:induction false} InsertDescending<T>(x: T, s: seq<T>, key: T -> string)
    requires Descending(s, key)
    ensures Descending(Insert(x, s, key), key)
  {
    if s != [] {
      var r := Insert(x, s, key);
      var kx := key(x);
      if Below(key(s[0]), kx) {
        forall j | 0 <= j < |s|
          ensures !Below(kx, key(s[j]))
        {
          if Below(kx, key(s[j])) {
            BelowTransitive(key(s[0]), kx, key(s[j]));
            if j == 0 {
              BelowIrreflexive(key(s[0]));
            }
          }
        }
        assert r == [x] + s;
        assert forall j :: 1 <= j < |r| ==> r[j] == s[j - 1];
      } else {
        var tail := Insert(x, s[1..], key);
        InsertDescending(x, s[1..], key);
        forall j | 0 <= j < |tail|
          ensures !Below(key(s[0]), key(tail[j]))
        {
          assert tail[j] in multiset(s[1..]) + multiset{x};
          if tail[j] != x {
            assert tail[j] in s[1..];
            var m :| 0 <= m < |s[1..]| && s[1..][m] == tail[j];
            assert s[m + 1] == tail[j];
          }
        }
        assert r == [s[0]] + tail;
      }
    }
  }

  /** The elements whose key is `k`. */
  function HasKey<T>(key: T -> string, k: string): T -> bool {
    f => key(f) == k
  }

  lemma {:induction false} FilterNoneKept<T>(s: seq<T>, keep: T -> bool)
    requires forall i :: 0 <= i < |s| ==> !keep(s[i])
    ensures Filter(s, keep) == []
  {
    if s != [] {
      FilterNoneKept(s[1..], keep);
    }
  }

  /** Inserting puts `x` after the elements of its own key already there. */
  lemma {:induction false} InsertFilter<T>(x: T, s: seq<T>, key: T -> string, k: string)
    requires Descending(s, key)
    ensures Filter(Insert(x, s, key), HasKey(key, k)) == Filter(s, HasKey(key, k)) + (if key(x) == k then [x] else [])
  {
    var keep := HasKey(key, k);
    if s == [] {
      assert [x][1..] == [];
    } else if Below(key(s[0]), key(x)) {
      assert Insert(x, s, key) == [x] + s;
      assert ([x] + s)[1..] == s;
      if key(x) == k {
        forall i | 0 <= i < |s|
          ensures !keep(s[i])
        {
          if i == 0 {
            BelowIrreflexive(k);
          }
        }
        FilterNoneKept(s, keep);
      }
    } else {
      InsertFilter(x, s[1..], key, k);
      assert Insert(x, s, key) == [s[0]] + Insert(x, s[1..], key);
      assert ([s[0]] + Insert(x, s[1..], key))[1..] == Insert(x, s[1..], key);
    }
  }

  /** Sorting keeps the elements of each key in their original order. */
  lemma {:induction false} SortDescStable<T>(s: seq<T>, key: T -> string, k: string)
    ensures Filter(SortDesc(s, key), HasKey(key, k)) == Filter(s, HasKey(key, k))
  {
    if s != [] {
      var init, last := s[..|s| - 1], s[|s| - 1];
      assert s == init + [last];
      var keep := HasKey(key, k);
      var sorted := SortDesc(init, key);
      assert SortDesc(s, key) == Insert(last, sorted, key);
      SortDescStable(init, key, k);
      InsertFilter(last, sorted, key, k);
      FilterConcat(init, [last], keep);
      assert [last][1..] == [];
      assert Filter([last], keep) == if keep(last) then [last] else [];
    }
  }

  /** `getAllFichesSorted()`. */
  function AllSorted(rs: seq<Json>, os: seq<Json>, ds: seq<Json>): (r: seq<Record>)
    ensures |r| == |rs| + |os| + |ds|
    ensures Descending(r, SortKey)
  {
    var r := SortDesc(Merged(rs, os, ds), SortKey);
    assert |r| == |multiset(r)|;
    r
  }

  /**
   * The listing holds the three stores' records, each tagged with its
   * store, as many as the "all" badge counts; it runs from the latest date
   * to the earliest, keeps the stores' order between records of the same
   * date, and ends with the undated records.
   */
  lemma AllSortedListing(rs: seq<Json>, os: seq<Json>, ds: seq<Json>, k: string)
    ensures var r := AllSorted(rs, os, ds);
      && multiset(r) == multiset(Tag(rs, "recherche")) + multiset(Tag(os, "obeissance")) + multiset(Tag(ds, "divers"))
      && |r| == CountsOf(rs, os, ds).all
      && (forall i :: 0 <= i < |r| ==> Get(r[i], "_type") in {Some(JStr("recherche")), Some(JStr("obeissance")), Some(JStr("divers"))})
      && (forall i, j :: 0 <= i < j < |r| ==> !Below(SortKey(r[i]), SortKey(r[j])))
      && Filter(r, HasKey(SortKey, k)) == Filter(Merged(rs, os, ds), HasKey(SortKey, k))
      && (forall i, j :: 0 <= i < j < |r| && SortKey(r[i]) == "" ==> SortKey(r[j]) == "")
  {
    var m := Merged(rs, os, ds);
    var r := AllSorted(rs, os, ds);
    assert multiset(r) == multiset(m);
    assert |r| == |multiset(r)| == |multiset(m)| == |m|;
    forall i | 0 <= i < |r|
      ensures Get(r[i], "_type") in {Some(JStr("recherche")), Some(JStr("obeissance")), Some(JStr("divers"))}
    {
      assert r[i] in multiset(m);
      MergedTags(rs, os, ds, r[i]);
    }
    SortDescStable(m, SortKey, k);
    EmptyKeysLast(r, SortKey);
  }

  /** Each merged record is tagged with one of the three stores. */
  lemma MergedTags(rs: seq<Json>, os: seq<Json>, ds: seq<Json>, x: Record)
    requires x in Merged(rs, os, ds)
    ensures Get(x, "_type") in {Some(JStr("recherche")), Some(JStr("obeissance")), Some(JStr("divers"))}
  {
    var a, b, c := Tag(rs, "recherche"), Tag(os, "obeissance"), Tag(ds, "divers");
    var m := a + b + c;
    var i :| 0 <= i < |m| && m[i] == x;
    if i < |a| {
      assert x == a[i];
    } else if i < |a| + |b| {
      assert x == b[i - |a|];
    } else {
      assert x == c[i - |a| - |b|];
    }
  }

  /** In a descending order, once the empty key is reached every later key is empty. */
  lemma EmptyKeysLast<T>(s: seq<T>, key: T -> string)
    requires Descending(s, key)
    ensures forall i, j :: 0 <= i < j < |s| && key(s[i]) == "" ==> key(s[j]) == ""
  {
  }

  /** Every record of a store appears in the listing, tagged with that store. */
  lemma StoredRecordListed(s: Snapshot, n: StoreName, key: int)
    requires ValidSnapshot(s) && key in s.collections[n].records
    ensures var rs := AllRecords(s.collections[Recherche]);
      var os := AllRecords(s.collections[Obeissance]);
      var ds := AllRecords(s.collections[Divers]);
      s.collections[n].records[key]["_type" := JStr(StoreKey(n))] in AllSorted(rs, os, ds)
  {
    var c := s.collections[n];
    var rs := AllRecords(s.collections[Recherche]);
    var os := AllRecords(s.collections[Obeissance]);
    var ds := AllRecords(s.collections[Divers]);
    var x := c.records[key]["_type" := JStr(StoreKey(n))];
    AllRecordsComplete(c, key);
    var i :| 0 <= i < |AllRecords(c)| && Keys(c)[i] == key && AllRecords(c)[i] == JObj(c.records[key]);
    TaggedInMerged(rs, os, ds, n, AllRecords(c), i);
    var m := Merged(rs, os, ds);
    assert x in multiset(m);
    assert x in multiset(AllSorted(rs, os, ds));
  }

  /** Row `i` of a store's records, tagged, is one of the merged records. */
  lemma TaggedInMerged(rs: seq<Json>, os: seq<Json>, ds: seq<Json>, n: StoreName, items: seq<Json>, i: nat)
    requires items == match n case Recherche => rs case Obeissance => os case Divers => ds
    requires i < |items| && items[i].JObj?
    ensures items[i].fields["_type" := JStr(StoreKey(n))] in Merged(rs, os, ds)
  {
    var a, b, c := Tag(rs, "recherche"), Tag(os, "obeissance"), Tag(ds, "divers");
    assert Merged(rs, os, ds) == a + b + c;
    var x := items[i].fields["_type" := JStr(StoreKey(n))];
    match n
    case Recherche => assert a[i] == x;
    case Obeissance => assert b[i] == x; assert (a + b + c)[|a| + i] == x;
    case Divers => assert c[i] == x; assert (a + b + c)[|a| + |b| + i] == x;
  }

  // Card title

  /** The field a card's title is built from. */
  function TitleField(kind: string): string {
    if kind == "recherche" then "date" else "semaine_numero"
  }

  /** The title of a card whose field is missing. */
  function DefaultTitle(kind: string): string {
    if kind == "recherche" then "Fiche de recherche"
    else if kind == "obeissance" then "Fiche d'obéissance"
    else if kind == "divers" then "Fiche divers"
    else "Fiche"
  }

  /**
   * `getFicheTitle(fiche, type)`; `None` is the TypeError `formatDateCourt`
   * throws on a date that is not a string.
   */
  function FicheTitle(fiche: Record, kind: string): (r: Option<string>)
    ensures r.None? <==> kind == "recherche" && Present(Get(fiche, "date")) && !fiche["date"].JStr?
  {
    if kind == "recherche" then
      if Present(Get(fiche, "date")) then
        match fiche["date"]
        case JStr(d) => Some("Recherche du " + FormatDateCourtText(d))
        case _ => None
      else Some(DefaultTitle(kind))
    else if kind == "obeissance" || kind == "divers" then
      if Present(Get(fiche, "semaine_numero")) then Some("Semaine " + ToText(fiche["semaine_numero"]))
      else Some(DefaultTitle(kind))
    else Some(DefaultTitle(kind))
  }

  /**
   * A card of one of the three stores shows its type's default title
   * exactly when its date (search) or week number (obedience, miscellaneous)
   * is missing; any other type is always titled "Fiche".
   */
  lemma DefaultTitleIff(fiche: Record, kind: string)
    ensures kind in {"recherche", "obeissance", "divers"} ==>
      (FicheTitle(fiche, kind) == Some(DefaultTitle(kind)) <==> !Present(Get(fiche, TitleField(kind))))
    ensures kind !in {"recherche", "obeissance", "divers"} ==> FicheTitle(fiche, kind) == Some("Fiche")
  {
    var t := FicheTitle(fiche, kind);
    if kind in {"recherche", "obeissance", "divers"} && Present(Get(fiche, TitleField(kind))) && t.Some? {
      assert t.value[0] != DefaultTitle(kind)[0];
    }
  }

  lemma TitleOfDate(fiche: Record, d: string)
    requires Get(fiche, "date") == Some(JStr(d)) && d != []
    ensures FicheTitle(fiche, "recherche") == Some("Recherche du " + FormatDateCourtText(d))
  {
  }

  /** A search dated with a well-formed ISO date is titled with that date, day first. */
  lemma SearchTitle(fiche: Record, d: string)
    requires Get(fiche, "date") == Some(JStr(d))
    requires |d| == 10 && ParseISODate(d).Some? && d[0] != '0'
    ensures FicheTitle(fiche, "recherche") == Some("Recherche du " + (d[8..] + "/" + d[5..7] + "/" + d[..4]))
  {
    TitleOfDate(fiche, d);
    FormatDateCourtReorders(d);
  }

  // Card summary line

  /** `items.join(sep)`: `null` elements render as the empty string. */
  function JoinItems(items: seq<Json>, sep: string): string {
    Join(seq(|items|, i requires 0 <= i < |items| => if items[i].JNull? then "" else ToText(items[i])), sep)
  }

  /** `⏰ plage`, `👤 poseur`: the part a present field contributes. */
  function Part(fiche: Record, field: string, icon: string): seq<string> {
    if Present(Get(fiche, field)) then [icon + " " + ToText(fiche[field])] else []
  }

  /**
   * The kinds of search: `🔍` and the list when `types_recherche?.length`
   * is truthy; `None` is the TypeError of `.join` on a string or an object.
   */
  function TypesPart(fiche: Record): Option<seq<string>> {
    match Get(fiche, "types_recherche")
    case Some(JArr(items)) => Some(if items != [] then ["\U{1F50D} " + JoinItems(items, ", ")] else [])
    case Some(JStr(s)) => if s != [] then None else Some([])
    case Some(JObj(f)) => if Present(Get(f, "length")) then None else Some([])
    case _ => Some([])
  }

  /** `formatDateCourt` of a stored value: `None` for the TypeError on a non-string. */
  function DateText(j: Json): Option<string> {
    if j.JStr? then Some(FormatDateCourtText(j.s)) else None
  }

  /** The parts of a card's summary line, in order. */
  function MetaParts(fiche: Record, kind: string): (r: Option<seq<string>>)
    ensures r.Some? ==> forall i :: 0 <= i < |r.value| ==> r.value[i] != []
  {
    if kind == "recherche" then
      match TypesPart(fiche)
      case None => None
      case Some(types) => Some(Part(fiche, "plage_horaire", "\U{23F0}") + Part(fiche, "poseur", "\U{1F464}") + types)
    else if kind == "obeissance" || kind == "divers" then
      if Present(Get(fiche, "date_debut")) && Present(Get(fiche, "date_fin")) then
        match (DateText(fiche["date_debut"]), DateText(fiche["date_fin"]))
        case (Some(a), Some(b)) => Some(["\U{1F4C5} " + a + " - " + b])
        case _ => None
      else Some([])
    else Some([])
  }

  /** `getFicheMeta(fiche, type)`: the parts joined with ` • `. */
  function FicheMeta(fiche: Record, kind: string): (r: Option<string>)
    ensures kind != "recherche" && kind != "obeissance" && kind != "divers" ==> r == Some("")
    ensures kind == "recherche" ==> (r.None? <==> TypesPart(fiche).None?)
    ensures kind == "obeissance" || kind == "divers" ==>
      (r.None? <==>
        Present(Get(fiche, "date_debut")) && Present(Get(fiche, "date_fin"))
        && !(fiche["date_debut"].JStr? && fiche["date_fin"].JStr?))
  {
    match MetaParts(fiche, kind)
    case None => None
    case Some(parts) => Some(Join(parts, " • "))
  }

  /**
   * The summary line is empty exactly when nothing is there to show: for a
   * search, no time slot, no setter and no kind of search; for a weekly
   * record, not both dates; for any other type, always.
   */
  lemma MetaEmptyIff(fiche: Record, kind: string)
    requires kind == "recherche" ==> Get(fiche, "types_recherche").None? || fiche["types_recherche"].JArr?
    requires kind in {"obeissance", "divers"} ==>
      forall f :: f in {"date_debut", "date_fin"} && Present(Get(fiche, f)) ==> fiche[f].JStr?
    ensures FicheMeta(fiche, kind).Some?
    ensures FicheMeta(fiche, kind) == Some("") <==>
      if kind == "recherche" then
        && !Present(Get(fiche, "plage_horaire")) && !Present(Get(fiche, "poseur"))
        && (Get(fiche, "types_recherche").None? || fiche["types_recherche"].items == [])
      else if kind in {"obeissance", "divers"} then
        !(Present(Get(fiche, "date_debut")) && Present(Get(fiche, "date_fin")))
      else true
  {
    if kind in {"obeissance", "divers"} {
      assert "date_debut" in {"date_debut", "date_fin"};
      assert "date_fin" in {"date_debut", "date_fin"};
    }
    var parts := MetaParts(fiche, kind).value;
    JoinEmptyIff(parts, " • ");
  }
}
