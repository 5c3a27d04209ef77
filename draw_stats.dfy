/**
 * The position-frequency table of the draw tool, as `recordTirageResult`
 * (`src/db.js`) updates it: for each participant, how many times they were
 * drawn at each position, and how many draws they took part in.
 */
module DrawStats {
  import opened Wrappers
  import opened Json
  import opened Seqs
  import opened Store

  /** One participant's entry `{positions: [...], total}`. */
  datatype Stat = Stat(positions: seq<int>, total: int)

  /** The entry's counts add up to its total. */
  predicate Balanced(st: Stat) {
    Sum(st.positions) == st.total
  }

  /** The numbers of an array whose items are all numbers; `None` otherwise. */
  function Numbers(items: seq<Json>): (r: Option<seq<int>>)
    ensures r.Some? ==> |r.value| == |items|
  {
    if items == [] then Some([])
    else if !items[0].JNum? then None
    else match Numbers(items[1..])
      case None => None
      case Some(ns) => Some([items[0].n] + ns)
  }

  /** The array of the counts, as numbers. */
  function NumberArray(ps: seq<int>): (r: seq<Json>)
    ensures |r| == |ps|
  {
    if ps == [] then [] else [JNum(ps[0])] + NumberArray(ps[1..])
  }

  /** An array of counts reads back as the counts. */
  lemma {:induction false} NumbersOfArray(ps: seq<int>)
    ensures Numbers(NumberArray(ps)) == Some(ps)
  {
    if ps != [] {
      NumbersOfArray(ps[1..]);
      var a := NumberArray(ps);
      assert a[0] == JNum(ps[0]) && a[1..] == NumberArray(ps[1..]);
      assert [ps[0]] + ps[1..] == ps;
    }
  }

  /** Reads a stored entry written in the form this module writes; other forms read as `None`. */
  function DecodeStat(j: Json): Option<Stat> {
    if j.JObj? && "positions" in j.fields && "total" in j.fields
      && j.fields["positions"].JArr? && j.fields["total"].JNum?
    then match Numbers(j.fields["positions"].items)
      case None => None
      case Some(ps) => Some(Stat(ps, j.fields["total"].n))
    else None
  }

  /** Writes the counts back into the entry, keeping its other fields. */
  function EncodeStat(base: Record, st: Stat): Json {
    JObj(base["positions" := JArr(NumberArray(st.positions))]["total" := JNum(st.total)])
  }

  /** An encoded entry reads back as the counts written, and is truthy. */
  lemma DecodeEncode(base: Record, st: Stat)
    ensures DecodeStat(EncodeStat(base, st)) == Some(st)
    ensures Truthy(EncodeStat(base, st))
  {
    var j := EncodeStat(base, st);
    assert "positions" != "total";
    assert j.fields["positions"] == JArr(NumberArray(st.positions)) && j.fields["total"] == JNum(st.total);
    NumbersOfArray(st.positions);
  }

  /** `while (positions.length < n) positions.push(0)`. */
  function Grow(ps: seq<int>, n: nat): (r: seq<int>)
    ensures |r| == Max(|ps|, n) && r[..|ps|] == ps
    ensures forall i :: |ps| <= i < |r| ==> r[i] == 0
    ensures Sum(r) == Sum(ps)
    decreases n - |ps|
  {
    if |ps| >= n then ps
    else
      SumConcat(ps, [0]);
      assert Sum([0]) == 0;
      var r := Grow(ps + [0], n);
      assert r[..|ps|] == r[..|ps| + 1][..|ps|];
      r
  }

  /**
   * The entry a drawn name starts from: its stored entry when truthy, a fresh
   * `{positions: Array(n).fill(0), total: 0}` otherwise; the fields of the
   * stored object are kept alongside. `None` stands for a TypeError: a name
   * the table only inherits, such as `constructor`, reads as a truthy member,
   * so no entry is created and reading its `positions` throws. A stored entry
   * not of the form written here is refused as well.
   */
  function Entry(stats: Record, name: string, n: nat): (r: Option<(Record, Stat)>)
    ensures FindsInherited(stats, name) ==> r.None?
    ensures name !in stats && !FindsInherited(stats, name) ==> r == Some((map[], Stat(Zeros(n), 0)))
  {
    if name in stats && Truthy(stats[name]) then
      match DecodeStat(stats[name])
      case Some(st) => Some((stats[name].fields, st))
      case None => None
    else if FindsInherited(stats, name) then None
    else Some((map[], Stat(Zeros(n), 0)))
  }

  /** One iteration of the `forEach`: the name drawn at `position` among `n`. */
  function Step(stats: Record, name: string, position: nat, n: nat): (r: Result<Record, StoreError>)
    requires position < n
    ensures r.Err? ==> r.error == TypeError
    ensures FindsInherited(stats, name) ==> r == Err(TypeError)
    ensures r.Ok? ==> r.value.Keys == stats.Keys + {name}
    ensures r.Ok? ==> forall k :: k != name && k in stats ==> r.value[k] == stats[k]
  {
    match Entry(stats, name, n)
    case None => Err(TypeError)
    case Some((base, st)) =>
      var ps := Grow(st.positions, n);
      Ok(stats[name := EncodeStat(base, Stat(ps[position := ps[position] + 1], st.total + 1))])
  }

  /** The first `i` iterations over the drawn order. */
  function RecordPrefix(stats: Record, results: seq<string>, i: nat): (r: Result<Record, StoreError>)
    requires i <= |results|
    ensures r.Err? ==> r.error == TypeError
  {
    if i == 0 then Ok(stats)
    else match RecordPrefix(stats, results, i - 1)
      case Err(e) => Err(e)
      case Ok(s) => Step(s, results[i - 1], i - 1, |results|)
  }

  /** The table after one draw. */
  function RecordDraw(stats: Record, results: seq<string>): (r: Result<Record, StoreError>)
    ensures r.Err? ==> r.error == TypeError
  {
    RecordPrefix(stats, results, |results|)
  }

  /** Every truthy entry is readable and balanced. */
  predicate WellFormed(stats: Record) {
    forall k :: k in stats && Truthy(stats[k]) ==>
      DecodeStat(stats[k]).Some? && Balanced(DecodeStat(stats[k]).value)
  }

  /** Every name among the first `i` drawn has an own entry or is not one the table inherits. */
  predicate OwnNames(stats: Record, results: seq<string>, i: nat)
    requires i <= |results|
  {
    forall j :: 0 <= j < i ==> !FindsInherited(stats, results[j])
  }

  lemma StepWellFormed(stats: Record, name: string, position: nat, n: nat)
    requires position < n && WellFormed(stats) && !FindsInherited(stats, name)
    ensures Step(stats, name, position, n).Ok?
    ensures WellFormed(Step(stats, name, position, n).value)
  {
    var (base, st) := Entry(stats, name, n).value;
    if !(name in stats && Truthy(stats[name])) {
      SumZeros(n);
    }
    var ps := Grow(st.positions, n);
    var st' := Stat(ps[position := ps[position] + 1], st.total + 1);
    SumIncrement(ps, position);
    DecodeEncode(base, st');
    assert Step(stats, name, position, n) == Ok(stats[name := EncodeStat(base, st')]);
    WellFormedUpdate(stats, name, EncodeStat(base, st'));
  }

  /** Writing a readable, balanced entry keeps the table well-formed. */
  lemma WellFormedUpdate(stats: Record, name: string, v: Json)
    requires WellFormed(stats) && DecodeStat(v).Some? && Balanced(DecodeStat(v).value)
    ensures WellFormed(stats[name := v])
  {
  }

  /**
   * A draw over a well-formed table, of names it does not merely inherit,
   * succeeds, and keeps every entry balanced: the sum of `positions` stays
   * equal to `total`. No entry is removed.
   */
  lemma {:induction false} RecordDrawBalanced(stats: Record, results: seq<string>, i: nat)
    requires WellFormed(stats) && i <= |results| && OwnNames(stats, results, i)
    ensures RecordPrefix(stats, results, i).Ok?
    ensures WellFormed(RecordPrefix(stats, results, i).value)
    ensures stats.Keys <= RecordPrefix(stats, results, i).value.Keys
  {
    if i > 0 {
      RecordDrawBalanced(stats, results, i - 1);
      assert !FindsInherited(stats, results[i - 1]);
      OwnKept(stats, RecordPrefix(stats, results, i - 1).value, results[i - 1]);
      PrefixWellFormed(stats, results, i);
    }
  }

  /** One more iteration on a well-formed table, of a name it does not merely inherit. */
  lemma PrefixWellFormed(stats: Record, results: seq<string>, i: nat)
    requires 0 < i <= |results| && RecordPrefix(stats, results, i - 1).Ok?
    requires WellFormed(RecordPrefix(stats, results, i - 1).value)
    requires !FindsInherited(RecordPrefix(stats, results, i - 1).value, results[i - 1])
    ensures RecordPrefix(stats, results, i).Ok? && WellFormed(RecordPrefix(stats, results, i).value)
    ensures RecordPrefix(stats, results, i).value.Keys == RecordPrefix(stats, results, i - 1).value.Keys + {results[i - 1]}
  {
    assert RecordPrefix(stats, results, i) == Step(RecordPrefix(stats, results, i - 1).value, results[i - 1], i - 1, |results|);
    StepWellFormed(RecordPrefix(stats, results, i - 1).value, results[i - 1], i - 1, |results|);
  }

  /** A table with more own entries inherits no more names. */
  lemma OwnKept(a: Record, b: Record, k: string)
    requires a.Keys <= b.Keys && !FindsInherited(a, k)
    ensures !FindsInherited(b, k)
  {
  }

  /**
   * On a well-formed table, the first `i` iterations succeed exactly when
   * none of them draws a name the table only inherits.
   */
  lemma {:induction false} RecordPrefixOkIff(stats: Record, results: seq<string>, i: nat)
    requires WellFormed(stats) && i <= |results|
    ensures RecordPrefix(stats, results, i).Ok? <==> OwnNames(stats, results, i)
  {
    if i > 0 {
      RecordPrefixOkIff(stats, results, i - 1);
      if OwnNames(stats, results, i) {
        RecordDrawBalanced(stats, results, i);
      } else if OwnNames(stats, results, i - 1) {
        FirstInherited(stats, results, i);
      } else {
        assert RecordPrefix(stats, results, i - 1).Err?;
      }
    }
  }

  /** The first iteration drawing a name the table only inherits fails. */
  lemma FirstInherited(stats: Record, results: seq<string>, i: nat)
    requires 0 < i <= |results| && OwnNames(stats, results, i - 1) && !OwnNames(stats, results, i)
    requires RecordPrefix(stats, results, i - 1).Ok?
    ensures RecordPrefix(stats, results, i).Err?
  {
    var name := results[i - 1];
    assert FindsInherited(stats, name);
    RecordDrawUntouched(stats, results, i - 1, name);
    var prev := RecordPrefix(stats, results, i - 1).value;
    assert Get(prev, name) == None;
  }

  /** Names that were not drawn keep their entry, or stay absent. */
  lemma {:induction false} RecordDrawUntouched(stats: Record, results: seq<string>, i: nat, name: string)
    requires i <= |results| && RecordPrefix(stats, results, i).Ok? && name !in results[..i]
    ensures Get(RecordPrefix(stats, results, i).value, name) == Get(stats, name)
  {
    if i > 0 {
      assert results[..i - 1] == results[..i][..i - 1];
      assert name != results[i - 1];
      RecordDrawUntouched(stats, results, i - 1, name);
    }
  }

  /**
   * What the entry of a drawn name holds after the first `i` iterations: its
   * starting entry grown to the number of participants, then, for each of
   * those iterations that drew the name, one more at its position and one
   * more in the total.
   */
  function Expected(base: Stat, results: seq<string>, name: string, i: nat): (st: Stat)
    requires i <= |results|
    ensures |st.positions| == Max(|base.positions|, |results|)
  {
    if i == 0 then Stat(Grow(base.positions, |results|), base.total)
    else
      var e := Expected(base, results, name, i - 1);
      if results[i - 1] == name then Stat(e.positions[i - 1 := e.positions[i - 1] + 1], e.total + 1) else e
  }

  /** Before its first draw, a name's expected entry is its starting entry grown. */
  lemma {:induction false} ExpectedUndrawn(base: Stat, results: seq<string>, name: string, j: nat)
    requires j <= |results| && name !in results[..j]
    ensures Expected(base, results, name, j) == Stat(Grow(base.positions, |results|), base.total)
  {
    if j > 0 {
      assert results[j - 1] == results[..j][j - 1];
      assert results[..j - 1] == results[..j][..j - 1];
      ExpectedUndrawn(base, results, name, j - 1);
    }
  }

  /** One more at position `p` when `p` is among the first `i` positions and drew `name`. */
  function Drawn(results: seq<string>, name: string, i: nat, p: int): int {
    if 0 <= p < i && p < |results| && results[p] == name then 1 else 0
  }

  /**
   * The expected entry in closed form: each position counts one more when it
   * is among the first `i` and drew the name, and the total grows by the
   * number of times the name was drawn among the first `i`.
   */
  lemma {:induction false} ExpectedClosed(base: Stat, results: seq<string>, name: string, i: nat)
    requires i <= |results|
    ensures var g := Grow(base.positions, |results|);
      var e := Expected(base, results, name, i);
      e.total == base.total + Count(results[..i], name)
      && forall p :: 0 <= p < |g| ==> e.positions[p] == g[p] + Drawn(results, name, i, p)
  {
    if i > 0 {
      ExpectedClosed(base, results, name, i - 1);
      assert results[..i] == results[..i - 1] + [results[i - 1]];
    }
  }

  /** The iteration that draws a name writes its grown entry with one more at the position. */
  lemma StepDrawn(stats: Record, name: string, position: nat, n: nat)
    requires position < n && Entry(stats, name, n).Some?
    ensures Step(stats, name, position, n).Ok?
    ensures var (b, st) := Entry(stats, name, n).value;
      var ps := Grow(st.positions, n);
      var r := Step(stats, name, position, n).value;
      name in r && Truthy(r[name]) && DecodeStat(r[name]) == Some(Stat(ps[position := ps[position] + 1], st.total + 1))
  {
    var (b, st) := Entry(stats, name, n).value;
    var ps := Grow(st.positions, n);
    DecodeEncode(b, Stat(ps[position := ps[position] + 1], st.total + 1));
  }

  /** The table holds a readable entry for `name` with exactly these counts. */
  predicate HoldsEntry(r: Record, name: string, st: Stat) {
    name in r && Truthy(r[name]) && DecodeStat(r[name]) == Some(st)
  }

  /**
   * After the first `i` iterations, a name drawn among them has a readable
   * entry holding its expected counts.
   */
  lemma {:induction false} RecordDrawCounts(stats: Record, results: seq<string>, i: nat, name: string)
    requires i <= |results| && RecordPrefix(stats, results, i).Ok?
    requires Entry(stats, name, |results|).Some? && name in results[..i]
    ensures HoldsEntry(RecordPrefix(stats, results, i).value, name,
      Expected(Entry(stats, name, |results|).value.1, results, name, i))
  {
    var n := |results|;
    var st0 := Entry(stats, name, n).value.1;
    PrefixStep(stats, results, i);
    var prev := RecordPrefix(stats, results, i - 1).value;
    if name in results[..i - 1] {
      RecordDrawCounts(stats, results, i - 1, name);
      CountsDrawnBefore(prev, st0, results, name, i);
    } else {
      FirstIn(results, i, name);
      RecordDrawUntouched(stats, results, i - 1, name);
      EntryOfSameGet(prev, stats, name, n);
      CountsFirstDraw(prev, st0, results, name, i);
    }
  }

  /** Iteration `i` on a name already counted: its entry follows `Expected` one step. */
  lemma CountsDrawnBefore(prev: Record, st0: Stat, results: seq<string>, name: string, i: nat)
    requires 0 < i <= |results| && HoldsEntry(prev, name, Expected(st0, results, name, i - 1))
    requires Step(prev, results[i - 1], i - 1, |results|).Ok?
    ensures HoldsEntry(Step(prev, results[i - 1], i - 1, |results|).value, name, Expected(st0, results, name, i))
  {
    var e := Expected(st0, results, name, i - 1);
    ExpectedStep(st0, results, name, i);
    if results[i - 1] == name {
      DrawnAgain(prev, name, i - 1, |results|, e);
    } else {
      NotDrawnNow(prev, results[i - 1], name, i - 1, |results|, e);
    }
  }

  /** Iteration `i` drawing a name for the first time: its entry is the first step of `Expected`. */
  lemma CountsFirstDraw(prev: Record, st0: Stat, results: seq<string>, name: string, i: nat)
    requires 0 < i <= |results| && results[i - 1] == name && name !in results[..i - 1]
    requires Entry(prev, name, |results|).Some? && Entry(prev, name, |results|).value.1 == st0
    ensures Step(prev, results[i - 1], i - 1, |results|).Ok?
    ensures HoldsEntry(Step(prev, results[i - 1], i - 1, |results|).value, name, Expected(st0, results, name, i))
  {
    ExpectedUndrawn(st0, results, name, i - 1);
    ExpectedStep(st0, results, name, i);
    StepDrawn(prev, name, i - 1, |results|);
  }

  /** Two tables with the same entry for a name start it from the same place. */
  lemma EntryOfSameGet(a: Record, b: Record, name: string, n: nat)
    requires Get(a, name) == Get(b, name)
    ensures Entry(a, name, n) == Entry(b, name, n)
  {
  }

  /** One iteration of `Expected`. */
  lemma ExpectedStep(base: Stat, results: seq<string>, name: string, i: nat)
    requires 0 < i <= |results|
    ensures var e := Expected(base, results, name, i - 1);
      Expected(base, results, name, i) ==
        if results[i - 1] == name then Stat(e.positions[i - 1 := e.positions[i - 1] + 1], e.total + 1) else e
  {
  }

  /** A name drawn again: its readable entry counts one more at the position. */
  lemma DrawnAgain(prev: Record, name: string, position: nat, n: nat, e: Stat)
    requires position < n && n <= |e.positions| && HoldsEntry(prev, name, e)
    ensures Step(prev, name, position, n).Ok?
    ensures HoldsEntry(Step(prev, name, position, n).value, name,
      Stat(e.positions[position := e.positions[position] + 1], e.total + 1))
  {
    assert Entry(prev, name, n) == Some((prev[name].fields, e));
    assert Grow(e.positions, n) == e.positions;
    StepDrawn(prev, name, position, n);
  }

  /** Another name's iteration leaves the entry as it was. */
  lemma NotDrawnNow(prev: Record, drawn: string, name: string, position: nat, n: nat, e: Stat)
    requires position < n && drawn != name && Step(prev, drawn, position, n).Ok? && HoldsEntry(prev, name, e)
    ensures HoldsEntry(Step(prev, drawn, position, n).value, name, e)
  {
  }

  /** A successful prefix of `i` iterations is the one of `i - 1` and one more step. */
  lemma PrefixStep(stats: Record, results: seq<string>, i: nat)
    requires 0 < i <= |results| && RecordPrefix(stats, results, i).Ok?
    ensures RecordPrefix(stats, results, i - 1).Ok?
    ensures RecordPrefix(stats, results, i) == Step(RecordPrefix(stats, results, i - 1).value, results[i - 1], i - 1, |results|)
  {
  }

  /** A name among the first `i` but not the first `i - 1` is the `i`-th. */
  lemma FirstIn(results: seq<string>, i: nat, name: string)
    requires 0 < i <= |results| && name in results[..i] && name !in results[..i - 1]
    ensures results[i - 1] == name
  {
    assert results[..i] == results[..i - 1] + [results[i - 1]];
  }

  /** After the whole draw, a position counts one more exactly where the name was drawn. */
  lemma ExpectedFull(base: Stat, results: seq<string>, name: string)
    ensures var g := Grow(base.positions, |results|);
      var e := Expected(base, results, name, |results|);
      e.total == base.total + Count(results, name)
      && |e.positions| == |g|
      && forall p :: 0 <= p < |g| ==> e.positions[p] == g[p] + if p < |results| && results[p] == name then 1 else 0
  {
    ExpectedClosed(base, results, name, |results|);
    assert results[..|results|] == results;
  }

  /**
   * `recordTirageResult(results)` on a well-formed table, drawing no name
   * the table only inherits (otherwise `RecordPrefixOkIff`): it succeeds and
   * stays well-formed (every entry balanced); a name that was not drawn keeps
   * its entry; a drawn name's entry is its old one (or zeros) grown to
   * `results.length`, with one more at each position it was drawn at and the
   * total raised by the number of times it was drawn.
   */
  lemma RecordDrawEffect(stats: Record, results: seq<string>, name: string)
    requires WellFormed(stats) && OwnNames(stats, results, |results|)
    ensures RecordDraw(stats, results).Ok? && WellFormed(RecordDraw(stats, results).value)
    ensures name !in results ==> Get(RecordDraw(stats, results).value, name) == Get(stats, name)
    ensures name in results ==>
      var start := Entry(stats, name, |results|).value.1;
      var r := RecordDraw(stats, results).value;
      name in r && DecodeStat(r[name]) == Some(Expected(start, results, name, |results|))
  {
    RecordDrawBalanced(stats, results, |results|);
    if name !in results {
      assert results[..|results|] == results;
      RecordDrawUntouched(stats, results, |results|, name);
    } else {
      DrawnEntry(stats, results, name);
    }
  }

  lemma DrawnEntry(stats: Record, results: seq<string>, name: string)
    requires RecordDraw(stats, results).Ok? && Entry(stats, name, |results|).Some? && name in results
    ensures var start := Entry(stats, name, |results|).value.1;
      var r := RecordDraw(stats, results).value;
      name in r && DecodeStat(r[name]) == Some(Expected(start, results, name, |results|))
  {
    assert results[..|results|] == results;
    RecordDrawCounts(stats, results, |results|, name);
  }

  /**
   * `recordTirageResult(results)` on the stored draw data: `stats || {}`
   * updated by the draw (assigning a property of a non-object throws in
   * module code), saved back with the rest of the draw data, and returned.
   */
  function RecordTirage(s: Snapshot, results: seq<string>): (r: Result<(Snapshot, Json), StoreError>)
    requires ValidSnapshot(s)
    ensures r.Err? ==> r.error == TypeError
    ensures r.Ok? ==> ValidSnapshot(r.value.0)
    ensures r.Ok? ==> r.value.0 == SaveTirage(s, JObj(GetTirage(s)["stats" := r.value.1]))
  {
    var t := GetTirage(s);
    var stats := Or(Get(t, "stats"), JObj(map[]));
    if results == [] then Ok((SaveTirage(s, JObj(t["stats" := stats])), stats))
    else if !stats.JObj? then Err(TypeError)
    else match RecordDraw(stats.fields, results)
      case Err(e) => Err(e)
      case Ok(st) => Ok((SaveTirage(s, JObj(t["stats" := JObj(st)])), JObj(st)))
  }

  /**
   * Recording a draw on well-formed stored statistics succeeds exactly when
   * no drawn name is one the table only inherits; then the saved draw data
   * keeps its participants and holds the returned table.
   */
  lemma RecordTirageSaves(s: Snapshot, results: seq<string>)
    requires ValidSnapshot(s)
    requires var st := Or(Get(GetTirage(s), "stats"), JObj(map[])); st.JObj? && WellFormed(st.fields)
    ensures var st := Or(Get(GetTirage(s), "stats"), JObj(map[]));
      RecordTirage(s, results).Ok? <==> OwnNames(st.fields, results, |results|)
    ensures RecordTirage(s, results).Ok? ==>
      var (s', stats) := RecordTirage(s, results).value;
      Get(GetTirage(s'), "stats") == Some(stats)
      && Get(GetTirage(s'), "participants") == Get(GetTirage(s), "participants")
      && s'.collections == s.collections && s'.settings == s.settings
  {
    var st := Or(Get(GetTirage(s), "stats"), JObj(map[]));
    RecordPrefixOkIff(st.fields, results, |results|);
    if OwnNames(st.fields, results, |results|) {
      RecordDrawEffect(st.fields, results, "");
    }
    assert "stats" != "id" && "participants" != "id" && "participants" != "stats";
  }
}
