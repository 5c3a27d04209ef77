/**
 * The running-order draw page (`src/views/TirageSort.jsx`): a roster of
 * participants kept free of case-insensitive duplicates, persisted with the
 * draw data; every roster change wipes the statistics; a draw shuffles the
 * roster with Fisher–Yates and folds the order into the statistics.
 */
module TirageSort {
  import opened Wrappers
  import opened Text
  import opened Json
  import opened Seqs
  import opened Store
  import opened DrawStats
  import opened Db

  /** No two names of the roster are equal ignoring case. */
  predicate NoCaseDuplicates(ps: seq<string>) {
    forall i, j :: 0 <= i < j < |ps| ==> !SameIgnoringCase(ps[i], ps[j])
  }

  /** `participants.some(p => p.toLowerCase() === name.toLowerCase())`. */
  predicate ListedIgnoringCase(ps: seq<string>, name: string) {
    exists i :: 0 <= i < |ps| && SameIgnoringCase(ps[i], name)
  }

  /** What the add button does with the typed text. */
  datatype AddOutcome = Blank | AlreadyListed | Added(roster: seq<string>)

  /**
   * `addParticipant`: the trimmed input is ignored when empty, refused when
   * the roster already holds it ignoring case, and appended otherwise.
   */
  function AddName(ps: seq<string>, input: string): (r: AddOutcome)
    ensures r == Blank <==> IsBlank(input)
    ensures r == AlreadyListed <==> !IsBlank(input) && ListedIgnoringCase(ps, Trim(input))
    ensures r.Added? ==> r.roster == ps + [Trim(input)] && Trim(input) != []
  {
    var name := Trim(input);
    if name == [] then Blank
    else if ListedIgnoringCase(ps, name) then AlreadyListed
    else Added(ps + [name])
  }

  /** `removeParticipant(name)`: `participants.filter(p => p !== name)`. */
  function RemoveName(ps: seq<string>, name: string): (r: seq<string>)
    ensures |r| <= |ps| && name !in r
  {
    Filter(ps, p => p != name)
  }

  /** Adding keeps the roster free of case-insensitive duplicates. */
  lemma AddKeepsDistinct(ps: seq<string>, input: string)
    requires NoCaseDuplicates(ps)
    ensures AddName(ps, input).Added? ==> NoCaseDuplicates(AddName(ps, input).roster)
  {
    var r := AddName(ps, input);
    if r.Added? {
      var name := Trim(input);
      forall i, j | 0 <= i < j < |r.roster|
        ensures !SameIgnoringCase(r.roster[i], r.roster[j])
      {
        if j == |ps| {
          assert r.roster[j] == name && r.roster[i] == ps[i];
          assert !SameIgnoringCase(ps[i], name);
        }
      }
    }
  }

  /** Removing keeps exactly the other names, each as often as before, in order. */
  lemma RemoveNameEffect(ps: seq<string>, name: string, x: string)
    ensures name !in RemoveName(ps, name)
    ensures x != name ==> multiset(RemoveName(ps, name))[x] == multiset(ps)[x]
    ensures name !in ps ==> RemoveName(ps, name) == ps
  {
    FilterCount(ps, p => p != name, name);
    FilterCount(ps, p => p != name, x);
    if name !in ps {
      FilterAllKept(ps, p => p != name);
    }
  }

  /** Removing keeps the roster free of case-insensitive duplicates. */
  lemma {:induction false} RemoveKeepsDistinct(ps: seq<string>, name: string)
    requires NoCaseDuplicates(ps)
    ensures NoCaseDuplicates(RemoveName(ps, name))
  {
    if ps != [] {
      var rest := RemoveName(ps[1..], name);
      assert NoCaseDuplicates(ps[1..]) by {
        forall i, j | 0 <= i < j < |ps[1..]|
          ensures !SameIgnoringCase(ps[1..][i], ps[1..][j])
        {
          assert ps[1..][i] == ps[i + 1] && ps[1..][j] == ps[j + 1];
        }
      }
      RemoveKeepsDistinct(ps[1..], name);
      if ps[0] != name {
        var r := [ps[0]] + rest;
        assert RemoveName(ps, name) == r;
        forall i, j | 0 <= i < j < |r|
          ensures !SameIgnoringCase(r[i], r[j])
        {
          if i == 0 {
            FilterCount(ps[1..], p => p != name, r[j]);
            assert r[j] == rest[j - 1];
            assert r[j] in multiset(rest);
            var k :| 0 <= k < |ps[1..]| && ps[1..][k] == r[j];
            assert ps[k + 1] == r[j];
          } else {
            assert r[i] == rest[i - 1] && r[j] == rest[j - 1];
          }
        }
      } else {
        assert RemoveName(ps, name) == rest;
      }
    }
  }

  /**
   * The draw data after a roster change: the list saved under
   * `participants` (`saveParticipants`), then the statistics emptied
   * (`resetStatsOnChange`), each a read-modify-write of the stored object.
   */
  function RosterChanged(s: Snapshot, roster: seq<string>): (r: Snapshot)
    requires ValidSnapshot(s)
    ensures ValidSnapshot(r)
  {
    var s1 := SaveTirage(s, JObj(GetTirage(s)["participants" := Strings(roster)]));
    SaveTirage(s1, JObj(GetTirage(s1)["stats" := JObj(map[])]))
  }

  /**
   * After a roster change the stored draw data holds the new roster and an
   * empty table, and nothing else of the database has changed.
   */
  lemma RosterChangedEffect(s: Snapshot, roster: seq<string>)
    requires ValidSnapshot(s)
    ensures var t := GetTirage(RosterChanged(s, roster));
      Get(t, "participants") == Some(Strings(roster)) && Get(t, "stats") == Some(JObj(map[]))
      && forall k :: k != "participants" && k != "stats" ==> Get(t, k) == Get(GetTirage(s), k)
    ensures RosterChanged(s, roster).collections == s.collections
    ensures RosterChanged(s, roster).settings == s.settings
  {
    assert "participants" != "stats" && "participants" != "id" && "stats" != "id";
  }

  /**
   * The loop of `drawOrder`: for `i` from the last index down to 1, swap
   * slot `i` with a slot `j` in `[0, i]`. Whatever the choices of `j`, the
   * result is a rearrangement of the roster.
   */
  method Shuffle(ps: seq<string>) returns (r: seq<string>)
    ensures |r| == |ps| && multiset(r) == multiset(ps)
  {
    var a := new string[|ps|](k requires 0 <= k < |ps| => ps[k]);
    assert a[..] == ps;
    var i := a.Length - 1;
    while i > 0
      invariant -1 <= i < a.Length || a.Length == 0
      invariant multiset(a[..]) == multiset(ps)
      decreases i
    {
      var j :| 0 <= j <= i;
      a[i], a[j] := a[j], a[i];
      i := i - 1;
    }
    r := a[..];
  }

  /** Floor of `a / b` for a non-zero `b`, as `Math.floor` of the exact quotient. */
  function FloorDiv(a: int, b: int): (q: int)
    requires b != 0
    ensures b > 0 ==> q * b <= a < q * b + b
    ensures b < 0 ==> q * b >= a > q * b + b
  {
    if b > 0 then a / b else (-a) / (-b)
  }

  /** `Math.round(p / t * 100)` in exact arithmetic: the nearest integer, halves rounded up. */
  function RoundPercent(p: int, t: int): int
    requires t != 0
  {
    FloorDiv(200 * p + t, 2 * t)
  }

  /** The rounded percentage is within one half of the exact one. */
  lemma RoundPercentNearest(p: int, t: int)
    requires t > 0
    ensures var r := RoundPercent(p, t);
      -t <= 200 * p - 2 * t * r < t
  {
  }

  /** A share of a positive total rounds to a percentage between 0 and 100. */
  lemma RoundPercentBounds(p: int, t: int)
    requires 0 <= p <= t && t > 0
    ensures 0 <= RoundPercent(p, t) <= 100
    ensures p == 0 ==> RoundPercent(p, t) == 0
    ensures p == t ==> RoundPercent(p, t) == 100
  {
    var a := 200 * p + t;
    QuotientBounds(a, 2 * t, 0);
    QuotientBounds(a, 2 * t, 1);
    QuotientBounds(a, 2 * t, 100);
    QuotientBounds(a, 2 * t, 101);
  }

  /** Comparing a dividend with a multiple of a positive divisor compares the quotient. */
  lemma QuotientBounds(a: int, b: int, k: int)
    requires b > 0
    ensures a >= k * b ==> a / b >= k
    ensures a < k * b ==> a / b < k
  {
    var q := a / b;
    assert q * b <= a < q * b + b;
    if a >= k * b && q < k {
      MulMono(q + 1, k, b);
    }
    if a < k * b && q >= k {
      MulMono(k, q, b);
    }
  }

  lemma MulMono(x: int, y: int, b: int)
    requires x <= y && b > 0
    ensures x * b <= y * b
  {
    assert y * b - x * b == (y - x) * b;
  }

  /**
   * `getPositionPercent(name, pos)` on the page's table: 0 for a name
   * without a truthy entry or with a total of 0; otherwise the rounded share
   * of draws at that position. `None` is the NaN of a position beyond the
   * counts, or the TypeError of an entry without counts, among them a name
   * the table only inherits, such as `constructor`.
   */
  function PositionPercent(stats: Json, name: string, pos: int): (r: Option<int>)
    ensures stats.JObj? && FindsInherited(stats.fields, name) ==> r.None?
    ensures stats.JObj? && name !in stats.fields && !FindsInherited(stats.fields, name) ==> r == Some(0)
  {
    var s := Prop(stats, name);
    if stats.JObj? && FindsInherited(stats.fields, name) then None
    else if !Present(s) || Prop(s.value, "total") == Some(JNum(0)) then Some(0)
    else match DecodeStat(s.value)
      case None => None
      case Some(st) =>
        if 0 <= pos < |st.positions| && st.total != 0 then Some(RoundPercent(st.positions[pos], st.total))
        else None
  }

  /**
   * On a table whose entries count non-negatively and add up to their total,
   * every position of a drawn name reads as a percentage between 0 and 100.
   */
  lemma PositionPercentBounds(stats: Record, name: string, pos: int)
    requires WellFormed(stats)
    requires forall k :: k in stats && Truthy(stats[k]) ==>
      forall i :: 0 <= i < |DecodeStat(stats[k]).value.positions| ==> DecodeStat(stats[k]).value.positions[i] >= 0
    requires name in stats && Truthy(stats[name])
    requires 0 <= pos < |DecodeStat(stats[name]).value.positions|
    ensures var r := PositionPercent(JObj(stats), name, pos); r.Some? && 0 <= r.value <= 100
  {
    var st := DecodeStat(stats[name]).value;
    SumBound(st.positions, pos);
    if st.total != 0 {
      RoundPercentBounds(st.positions[pos], st.total);
    }
  }

  /** What the draw button does. */
  datatype DrawOutcome = TooFew | Drawn(order: seq<string>) | Failed(error: StoreError)

  /** The page's state and the database it persists to. */
  class DrawTool {
    const db: Database
    var participants: seq<string>
    var results: seq<string>
    var stats: Json

    predicate Valid()
      reads this, db
    {
      db.Valid()
    }

    /** The page on load: the stored roster and table, `|| []` and `|| {}`. */
    constructor (db: Database)
      requires db.Valid()
      ensures Valid() && this.db == db && results == []
      ensures participants == Names(Or(Get(db.GetTirageData(), "participants"), JArr([])))
      ensures stats == Or(Get(db.GetTirageData(), "stats"), JObj(map[]))
    {
      this.db := db;
      var data := db.GetTirageData();
      participants := Names(Or(Get(data, "participants"), JArr([])));
      stats := Or(Get(data, "stats"), JObj(map[]));
      results := [];
    }

    /** `saveParticipants` then `resetStatsOnChange`. */
    method PersistRoster(roster: seq<string>)
      requires Valid()
      modifies this, db
      ensures Valid() && db.Snap() == RosterChanged(old(db.Snap()), roster)
      ensures stats == JObj(map[]) && participants == old(participants) && results == old(results)
    {
      var data := db.GetTirageData();
      db.SaveTirageData(JObj(data["participants" := Strings(roster)]));
      data := db.GetTirageData();
      db.SaveTirageData(JObj(data["stats" := JObj(map[])]));
      stats := JObj(map[]);
    }

    /** `addParticipant()` with the typed text. */
    method AddParticipant(input: string) returns (outcome: AddOutcome)
      requires Valid()
      modifies this, db
      ensures Valid() && outcome == AddName(old(participants), input)
      ensures outcome.Added? ==>
        participants == outcome.roster && results == [] && stats == JObj(map[])
        && db.Snap() == RosterChanged(old(db.Snap()), participants)
      ensures !outcome.Added? ==>
        participants == old(participants) && results == old(results) && stats == old(stats)
        && db.Snap() == old(db.Snap())
    {
      outcome := AddName(participants, input);
      if outcome.Added? {
        participants := outcome.roster;
        PersistRoster(participants);
        results := [];
      }
    }

    /** `removeParticipant(name)`. */
    method RemoveParticipant(name: string)
      requires Valid()
      modifies this, db
      ensures Valid() && participants == RemoveName(old(participants), name)
      ensures results == [] && stats == JObj(map[])
      ensures db.Snap() == RosterChanged(old(db.Snap()), participants)
    {
      participants := RemoveName(participants, name);
      PersistRoster(participants);
      results := [];
    }

    /** `clearAll()`. */
    method ClearAll()
      requires Valid()
      modifies this, db
      ensures Valid() && participants == [] && results == [] && stats == JObj(map[])
      ensures NoCaseDuplicates(participants)
      ensures db.Snap() == RosterChanged(old(db.Snap()), [])
    {
      participants := [];
      PersistRoster([]);
      results := [];
    }

    /**
     * `drawOrder()`: refused below two participants before anything
     * changes; otherwise the shuffled roster is shown and is exactly the
     * order recorded in the statistics.
     */
    method DrawOrder() returns (outcome: DrawOutcome)
      requires Valid()
      modifies this, db
      ensures Valid() && participants == old(participants)
      ensures |participants| < 2 <==> outcome == TooFew
      ensures outcome == TooFew ==>
        results == old(results) && stats == old(stats) && db.Snap() == old(db.Snap())
      ensures outcome != TooFew ==>
        |results| == |participants| && multiset(results) == multiset(participants)
      ensures outcome != TooFew ==>
        match RecordTirage(old(db.Snap()), results)
        case Ok((s, table)) => outcome == Drawn(results) && db.Snap() == s && stats == table
        case Err(e) => outcome == Failed(e) && db.Snap() == old(db.Snap()) && stats == old(stats)
    {
      if |participants| < 2 {
        return TooFew;
      }
      var shuffled := Shuffle(participants);
      results := shuffled;
      var recorded := db.RecordTirageResult(shuffled);
      match recorded {
        case Ok(table) =>
          stats := table;
          outcome := Drawn(shuffled);
        case Err(e) =>
          outcome := Failed(e);
      }
    }
  }
}
