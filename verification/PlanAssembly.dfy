/**
  Turning a parsed file into planned rows: cells are checked first, the owner
  plans only the records that passed, its answers are put back at the right
  rows, and every row whose target appears more than once is refused.
*/
module PlanAssembly {
  import opened Options
  import opened ImportModel
  import opened ImportProtocol
  import CsvParse

  type Record = CsvParse.Record

  /** `rows` are the row numbers a duplicate_target message lists. */
  datatype RowError = RowError(code: string, field: string, rows: seq<int>)

  datatype Plan = Plan(targetKey: string, payload: string, expectedVersion: Option<int>, same: bool, error: Option<RowError>)

  /** A planned row with what the error report shows for it. */
  datatype Assembled = Assembled(row: PlannedRow, raw: seq<string>, error: Option<RowError>)

  datatype PlanProblem = OwnerFailed | CountMismatch

  type Check = Record -> Option<RowError>

  function Refusal(e: RowError): Plan { Plan("", "", None, false, Some(e)) }

  // ---- who is asked, and where the answer goes -------------------------------

  function CheckedOf(check: Check, records: seq<Record>): seq<Record>
    decreases |records|
  {
    if records == [] then []
    else
      var n := |records| - 1;
      CheckedOf(check, records[..n]) + (if check(records[n]).None? then [records[n]] else [])
  }

  /** The plan of row i before duplicates are marked. */
  function Base(check: Check, records: seq<Record>, answers: seq<Plan>, i: nat): Plan
    requires i < |records| && |answers| == |CheckedOf(check, records)|
  {
    match check(records[i])
    case Some(e) => Refusal(e)
    case None =>
      PassedIsChecked(check, records, i);
      answers[|CheckedOf(check, records[..i])|]
  }

  /** The n-th record that passed is the n-th record the owner was asked about. */
  lemma {:induction false} PassedIsChecked(check: Check, records: seq<Record>, i: nat)
    requires i < |records| && check(records[i]).None?
    ensures |CheckedOf(check, records[..i])| < |CheckedOf(check, records)|
    ensures CheckedOf(check, records)[|CheckedOf(check, records[..i])|] == records[i]
    decreases |records|
  {
    var n := |records| - 1;
    if i < n {
      assert records[..n][..i] == records[..i];
      PassedIsChecked(check, records[..n], i);
    }
  }

  // ---- duplicates ------------------------------------------------------------

  predicate Eligible(p: Plan) { p.error.None? && p.targetKey != "" }

  /** Indexes, in file order, of the error-free plans for one target. */
  function SameTarget(plans: seq<Plan>, key: string): seq<int>
    decreases |plans|
  {
    if plans == [] then []
    else
      var n := |plans| - 1;
      SameTarget(plans[..n], key) + (if Eligible(plans[n]) && plans[n].targetKey == key then [n] else [])
  }

  lemma {:induction false} IndexesAreEligible(plans: seq<Plan>, key: string)
    ensures forall x :: 0 <= x < |SameTarget(plans, key)| ==>
              && 0 <= SameTarget(plans, key)[x] < |plans|
              && Eligible(plans[SameTarget(plans, key)[x]]) && plans[SameTarget(plans, key)[x]].targetKey == key
    decreases |plans|
  {
    if plans != [] { IndexesAreEligible(plans[..|plans| - 1], key); }
  }

  lemma {:induction false} IndexesAscend(plans: seq<Plan>, key: string)
    ensures forall x, y :: 0 <= x < y < |SameTarget(plans, key)| ==> SameTarget(plans, key)[x] < SameTarget(plans, key)[y]
    decreases |plans|
  {
    if plans != [] {
      IndexesAscend(plans[..|plans| - 1], key);
      IndexesAreEligible(plans[..|plans| - 1], key);
    }
  }

  lemma {:induction false} EveryIndexIsListed(plans: seq<Plan>, key: string, i: nat)
    requires i < |plans| && Eligible(plans[i]) && plans[i].targetKey == key
    ensures i in SameTarget(plans, key)
    decreases |plans|
  {
    var n := |plans| - 1;
    if i < n { EveryIndexIsListed(plans[..n], key, i); }
  }

  lemma SameTargetIndexes(plans: seq<Plan>, key: string)
    ensures forall x :: 0 <= x < |SameTarget(plans, key)| ==>
              && 0 <= SameTarget(plans, key)[x] < |plans|
              && Eligible(plans[SameTarget(plans, key)[x]]) && plans[SameTarget(plans, key)[x]].targetKey == key
    ensures forall x, y :: 0 <= x < y < |SameTarget(plans, key)| ==> SameTarget(plans, key)[x] < SameTarget(plans, key)[y]
    ensures forall i :: 0 <= i < |plans| && Eligible(plans[i]) && plans[i].targetKey == key ==> i in SameTarget(plans, key)
  {
    hide SameTarget, Eligible;
    IndexesAreEligible(plans, key);
    IndexesAscend(plans, key);
    forall i | 0 <= i < |plans| && Eligible(plans[i]) && plans[i].targetKey == key ensures i in SameTarget(plans, key) {
      EveryIndexIsListed(plans, key, i);
    }
  }

  function RowNumbers(records: seq<Record>, indexes: seq<int>): seq<int>
    requires forall x :: 0 <= x < |indexes| ==> 0 <= indexes[x] < |records|
  {
    seq(|indexes|, x requires 0 <= x < |indexes| => records[indexes[x]].rowNo)
  }

  /** The plan of row i once duplicates are marked. */
  function Marked(records: seq<Record>, plans: seq<Plan>, i: nat): Plan
    requires i < |plans| == |records|
  {
    SameTargetIndexes(plans, plans[i].targetKey);
    var indexes := SameTarget(plans, plans[i].targetKey);
    if Eligible(plans[i]) && |indexes| >= 2 then
      Plan(plans[i].targetKey, "", None, false, Some(RowError("duplicate_target", "", RowNumbers(records, indexes))))
    else plans[i]
  }

  ghost predicate SharesTarget(plans: seq<Plan>, i: nat)
    requires i < |plans|
  {
    exists j :: 0 <= j < |plans| && j != i && Eligible(plans[j]) && plans[j].targetKey == plans[i].targetKey
  }

  /** A row becomes duplicate_target exactly when another error-free plan has its target. */
  lemma MarkedIffShared(records: seq<Record>, plans: seq<Plan>, i: nat)
    requires i < |plans| == |records|
    ensures Marked(records, plans, i) == plans[i] <==> !(Eligible(plans[i]) && SharesTarget(plans, i))
  {
    var key := plans[i].targetKey;
    SameTargetIndexes(plans, key);
    var indexes := SameTarget(plans, key);
    if Eligible(plans[i]) {
      assert i in indexes;
      var x :| 0 <= x < |indexes| && indexes[x] == i;
      if |indexes| >= 2 {
        var y := if x == 0 then 1 else 0;
        assert indexes[y] != i;
      }
      if SharesTarget(plans, i) {
        var j :| 0 <= j < |plans| && j != i && Eligible(plans[j]) && plans[j].targetKey == key;
        var y :| 0 <= y < |indexes| && indexes[y] == j;
        assert x != y;
      }
    }
  }

  /** No two rows that are still to be applied or shown as unchanged have the same target. */
  lemma NoTargetTwice(records: seq<Record>, plans: seq<Plan>, i: nat, j: nat)
    requires i < j < |plans| == |records|
    requires Eligible(Marked(records, plans, i)) && Eligible(Marked(records, plans, j))
    ensures Marked(records, plans, i).targetKey != Marked(records, plans, j).targetKey
  {
    MarkedIffShared(records, plans, i);
    MarkedIffShared(records, plans, j);
  }

  lemma GroupStep(plans: seq<Plan>, i: nat, key: string)
    requires i < |plans|
    ensures SameTarget(plans[..i + 1], key)
         == SameTarget(plans[..i], key) + (if Eligible(plans[i]) && plans[i].targetKey == key then [i] else [])
  {
    assert plans[..i + 1][..i] == plans[..i];
  }

  /** Every target with the indexes of its error-free rows. */
  ghost predicate Grouped(seen: map<string, seq<int>>, plans: seq<Plan>) {
    && (forall key :: key in seen <==> SameTarget(plans, key) != [])
    && (forall key :: key in seen ==> seen[key] == SameTarget(plans, key))
  }

  lemma GroupGrows(seen: map<string, seq<int>>, plans: seq<Plan>, i: nat)
    requires i < |plans| && Grouped(seen, plans[..i])
    ensures var key := plans[i].targetKey;
            if Eligible(plans[i]) then Grouped(seen[key := (if key in seen then seen[key] else []) + [i]], plans[..i + 1])
            else Grouped(seen, plans[..i + 1])
  {
    forall key ensures SameTarget(plans[..i + 1], key)
                    == SameTarget(plans[..i], key) + (if Eligible(plans[i]) && plans[i].targetKey == key then [i] else []) {
      GroupStep(plans, i, key);
    }
    hide SameTarget;
  }

  /** The groups of the first loop: every target with its error-free rows. */
  method GroupTargets(plans: seq<Plan>) returns (seen: map<string, seq<int>>)
    ensures forall key :: key in seen <==> SameTarget(plans, key) != []
    ensures forall key :: key in seen ==> seen[key] == SameTarget(plans, key)
  {
    seen := map[];
    assert Grouped(seen, plans[..0]);
    for i := 0 to |plans|
      invariant Grouped(seen, plans[..i])
    {
      hide Grouped, SameTarget;
      GroupGrows(seen, plans, i);
      var p := plans[i];
      if p.error.None? && p.targetKey != "" {
        seen := seen[p.targetKey := (if p.targetKey in seen then seen[p.targetKey] else []) + [i]];
      }
    }
    assert plans[..|plans|] == plans;
  }

  /** Overwrites the plans of one group. */
  method MarkGroup(records: seq<Record>, plans: array<Plan>, idx: seq<int>)
    requires plans.Length == |records| && forall x :: 0 <= x < |idx| ==> 0 <= idx[x] < plans.Length
    modifies plans
    ensures forall i :: 0 <= i < plans.Length ==>
              plans[i] == if i in idx
                          then Plan(old(plans[i]).targetKey, "", None, false, Some(RowError("duplicate_target", "", RowNumbers(records, idx))))
                          else old(plans[i])
  {
    var rows := RowNumbers(records, idx);
    for x := 0 to |idx|
      invariant forall i :: 0 <= i < plans.Length ==>
                  plans[i] == if i in idx[..x]
                              then Plan(old(plans[i]).targetKey, "", None, false, Some(RowError("duplicate_target", "", rows)))
                              else old(plans[i])
    {
      plans[idx[x]] := Plan(plans[idx[x]].targetKey, "", None, false, Some(RowError("duplicate_target", "", rows)));
      assert idx[..x + 1] == idx[..x] + [idx[x]];
    }
    assert idx[..|idx|] == idx;
  }

  /** Fails every row whose target appears more than once, in whatever order the groups come. */
  method MarkDuplicates(records: seq<Record>, plans: array<Plan>)
    requires plans.Length == |records|
    modifies plans
    ensures forall i :: 0 <= i < plans.Length ==> plans[i] == Marked(records, old(plans[..]), i)
  {
    ghost var before := plans[..];
    var seen := GroupTargets(plans[..]);
    var left := seen.Keys;
    while left != {}
      invariant left <= seen.Keys
      invariant forall i :: 0 <= i < plans.Length ==>
                  plans[i] == if before[i].targetKey in left then before[i] else Marked(records, before, i)
      decreases |left|
    {
      var key :| key in left;
      SameTargetIndexes(before, key);
      if |seen[key]| >= 2 {
        MarkGroup(records, plans, seen[key]);
      }
      left := left - {key};
    }
  }

  // ---- the whole dry-run -----------------------------------------------------

  function StatusOf(p: Plan): RowStatus {
    if p.error.Some? then RowInvalid else if p.same then RowUnchanged else RowValid
  }

  function RowOf(r: Record, raw: seq<string>, p: Plan): Assembled {
    Assembled(PlannedRow(r.rowNo, StatusOf(p),
                         RowPlan(p.targetKey, if p.error.Some? then "null" else p.payload,
                                 if StatusOf(p).RowValid? then p.expectedVersion else None)),
              raw, p.error)
  }

  ghost function Bases(check: Check, records: seq<Record>, answers: seq<Plan>): (plans: seq<Plan>)
    requires |answers| == |CheckedOf(check, records)|
    ensures |plans| == |records|
  {
    seq(|records|, i requires 0 <= i < |records| => Base(check, records, answers, i))
  }

  lemma CheckedStep(check: Check, records: seq<Record>, i: nat)
    requires i < |records|
    ensures CheckedOf(check, records[..i + 1]) == CheckedOf(check, records[..i]) + (if check(records[i]).None? then [records[i]] else [])
  {
    assert records[..i + 1][..i] == records[..i];
  }

  /** The records that passed the cell rules, and where each of them came from. */
  method Select(check: Check, records: seq<Record>) returns (plans: array<Plan>, checked: seq<Record>, index: seq<int>)
    ensures fresh(plans) && plans.Length == |records|
    ensures checked == CheckedOf(check, records) && |index| == |checked|
    ensures forall i :: 0 <= i < |records| && check(records[i]).Some? ==> plans[i] == Refusal(check(records[i]).value)
    ensures forall n :: 0 <= n < |index| ==>
              && 0 <= index[n] < |records| && check(records[index[n]]).None?
              && n == |CheckedOf(check, records[..index[n]])|
    ensures forall i :: 0 <= i < |records| && check(records[i]).None? ==> i in index
  {
    plans := new Plan[|records|](_ => Plan("", "", None, false, None));
    checked, index := [], [];
    assert CheckedOf(check, records[..0]) == [];
    hide CheckedOf;
    for i := 0 to |records|
      invariant checked == CheckedOf(check, records[..i]) && |index| == |checked|
      invariant forall x :: 0 <= x < i && check(records[x]).Some? ==> plans[x] == Refusal(check(records[x]).value)
      invariant forall n :: 0 <= n < |index| ==>
                  && 0 <= index[n] < i && check(records[index[n]]).None?
                  && n == |CheckedOf(check, records[..index[n]])|
      invariant forall x :: 0 <= x < i && check(records[x]).None? ==> x in index
    {
      CheckedStep(check, records, i);
      var e := check(records[i]);
      if e.Some? {
        plans[i] := Refusal(e.value);
      } else {
        checked := checked + [records[i]];
        index := index + [i];
      }
    }
    assert records[..|records|] == records;
  }

  /** Puts the owner's n-th answer at the n-th selected row. */
  method Place(plans: array<Plan>, index: seq<int>, answers: seq<Plan>)
    requires |answers| == |index| && forall n :: 0 <= n < |index| ==> 0 <= index[n] < plans.Length
    requires forall n, m :: 0 <= n < m < |index| ==> index[n] != index[m]
    modifies plans
    ensures forall n :: 0 <= n < |index| ==> plans[index[n]] == answers[n]
    ensures forall i :: 0 <= i < plans.Length && i !in index ==> plans[i] == old(plans[i])
  {
    for n := 0 to |answers|
      invariant forall m :: 0 <= m < n ==> plans[index[m]] == answers[m]
      invariant forall i :: 0 <= i < plans.Length && i !in index ==> plans[i] == old(plans[i])
    {
      plans[index[n]] := answers[n];
    }
  }

  /** One planned row per record, from its marked plan. */
  method BuildRows(p: CsvParse.Parsed, plans: seq<Plan>) returns (rows: seq<Assembled>)
    requires |plans| == |p.records| && forall i :: 0 <= i < |p.records| ==> p.records[i].rowNo in p.raw
    ensures |rows| == |p.records|
    ensures forall i :: 0 <= i < |rows| ==> rows[i] == RowOf(p.records[i], p.raw[p.records[i].rowNo], plans[i])
  {
    rows := [];
    for i := 0 to |plans|
      invariant |rows| == i
      invariant forall x :: 0 <= x < i ==> rows[x] == RowOf(p.records[x], p.raw[p.records[x].rowNo], plans[x])
    {
      var rec, plan := p.records[i], plans[i];
      var status, version, payload := RowValid, None, "null";
      if plan.error.Some? {
        status := RowInvalid;
      } else if plan.same {
        status := RowUnchanged;
      } else {
        version := plan.expectedVersion;
      }
      if plan.error.None? {
        payload := plan.payload;
      }
      rows := rows + [Assembled(PlannedRow(rec.rowNo, status, RowPlan(plan.targetKey, payload, version)), p.raw[rec.rowNo], plan.error)];
    }
  }

  /** Refusals and placed answers are the plans before duplicates are marked. */
  lemma PlacedIsBase(check: Check, records: seq<Record>, answers: seq<Plan>, plans: seq<Plan>, index: seq<int>)
    requires |plans| == |records| && |index| == |answers| == |CheckedOf(check, records)|
    requires forall i :: 0 <= i < |records| && check(records[i]).Some? ==> plans[i] == Refusal(check(records[i]).value)
    requires forall n :: 0 <= n < |index| ==>
               && 0 <= index[n] < |records| && n == |CheckedOf(check, records[..index[n]])| && plans[index[n]] == answers[n]
    requires forall i :: 0 <= i < |records| && check(records[i]).None? ==> i in index
    ensures plans == Bases(check, records, answers)
  {
    hide CheckedOf;
    forall i | 0 <= i < |records| ensures plans[i] == Base(check, records, answers, i) {
      if check(records[i]).None? {
        var n :| 0 <= n < |index| && index[n] == i;
      }
    }
  }

  lemma PlacesDiffer(check: Check, records: seq<Record>, index: seq<int>)
    requires forall n :: 0 <= n < |index| ==> 0 <= index[n] < |records| && n == |CheckedOf(check, records[..index[n]])|
    ensures forall n, m :: 0 <= n < m < |index| ==> index[n] != index[m]
  {
    hide CheckedOf;
  }

  /** The dry-run of a parsed file: every row carries its own record, cells and plan. */
  method PlanFile(check: Check, owner: seq<Record> -> Option<seq<Plan>>, p: CsvParse.Parsed)
    returns (out: Result<seq<Assembled>, PlanProblem>)
    requires forall i :: 0 <= i < |p.records| ==> p.records[i].rowNo in p.raw
    ensures out.Ok? <==> CheckedOf(check, p.records) == [] || Answered(check, owner, p.records)
    ensures out.Ok? ==> |out.value| == |p.records|
    ensures out.Ok? ==> forall i :: 0 <= i < |p.records| ==>
              out.value[i] == RowOf(p.records[i], p.raw[p.records[i].rowNo],
                                    Marked(p.records, Bases(check, p.records, AnswersOf(check, owner, p.records)), i))
    ensures out.Err? ==> (out.error.OwnerFailed? <==> owner(CheckedOf(check, p.records)).None?)
  {
    hide CheckedOf, Bases, RowOf, Marked;
    var records := p.records;
    var plans, checked, index := Select(check, records);
    var answers: seq<Plan> := [];
    if |checked| > 0 {
      var answer := owner(checked);
      if answer.None? {
        return Err(OwnerFailed);
      }
      if |answer.value| != |checked| {
        return Err(CountMismatch);
      }
      answers := answer.value;
    }
    PlacesDiffer(check, records, index);
    Place(plans, index, answers);
    PlacedIsBase(check, records, answers, plans[..], index);
    MarkDuplicates(records, plans);
    var rows := BuildRows(p, plans[..]);
    return Ok(rows);
  }

  predicate Answered(check: Check, owner: seq<Record> -> Option<seq<Plan>>, records: seq<Record>) {
    var answer := owner(CheckedOf(check, records));
    answer.Some? && |answer.value| == |CheckedOf(check, records)|
  }

  ghost function AnswersOf(check: Check, owner: seq<Record> -> Option<seq<Plan>>, records: seq<Record>): (answers: seq<Plan>)
    requires CheckedOf(check, records) == [] || Answered(check, owner, records)
    ensures |answers| == |CheckedOf(check, records)|
  {
    if CheckedOf(check, records) == [] then [] else owner(CheckedOf(check, records)).value
  }

  /** Rows of a parsed file are always accepted by the row table and by the engine. */
  lemma PlannedFileIsStorable(rows: seq<Assembled>, p: CsvParse.Parsed, plans: seq<Plan>)
    requires |rows| == |plans| == |p.records|
    requires forall n, m :: 0 <= n < m < |p.records| ==> p.records[n].rowNo < p.records[m].rowNo
    requires forall n :: 0 <= n < |p.records| ==> 1 <= p.records[n].rowNo && p.records[n].rowNo in p.raw
    requires forall i :: 0 <= i < |rows| ==> rows[i] == RowOf(p.records[i], p.raw[p.records[i].rowNo], plans[i])
    ensures var planned := seq(|rows|, i requires 0 <= i < |rows| => rows[i].row); Insertable(planned) && Planned(planned)
  {
    var planned := seq(|rows|, i requires 0 <= i < |rows| => rows[i].row);
    forall i, j | 0 <= i < j < |planned| ensures planned[i].rowNo != planned[j].rowNo {
      assert planned[i] == rows[i].row && planned[j] == rows[j].row;
    }
  }

  // ---- what a row shows ------------------------------------------------------

  /** How many of the first n records passed the cell rules. */
  function Passed(check: Check, records: seq<Record>, n: nat): nat
    requires n <= |records|
  {
    if n == 0 then 0 else Passed(check, records, n - 1) + if check(records[n - 1]) == None then 1 else 0
  }

  /** The owner is asked about exactly the records that passed, each at its place among them. */
  lemma {:induction false} OnlyPassedAreAsked(check: Check, records: seq<Record>, n: nat)
    requires n <= |records|
    ensures |CheckedOf(check, records[..n])| == Passed(check, records, n)
    ensures forall r :: r in CheckedOf(check, records[..n]) <==> r in records[..n] && check(r) == None
  {
    if n > 0 {
      assert records[..n][..n - 1] == records[..n - 1];
      OnlyPassedAreAsked(check, records, n - 1);
      assert records[..n] == records[..n - 1] + [records[n - 1]];
    }
  }

  /** The owner's answer to row j was a plan for this target. */
  ghost predicate PlansTarget(check: Check, records: seq<Record>, answers: seq<Plan>, j: nat, key: string) {
    && j < |records| && check(records[j]) == None && Passed(check, records, j) < |answers|
    && answers[Passed(check, records, j)].error == None && answers[Passed(check, records, j)].targetKey == key
  }

  /** Row i shares its target with another row. */
  ghost predicate Doubled(check: Check, records: seq<Record>, answers: seq<Plan>, i: nat, key: string) {
    key != "" && exists j: nat :: j != i && PlansTarget(check, records, answers, j, key)
  }

  lemma BaseMeans(check: Check, records: seq<Record>, answers: seq<Plan>, i: nat)
    requires i < |records| && |answers| == |CheckedOf(check, records)|
    ensures check(records[i]).Some? ==> Bases(check, records, answers)[i] == Plan("", "", None, false, check(records[i]))
    ensures check(records[i]) == None ==>
              Passed(check, records, i) < |answers| && Bases(check, records, answers)[i] == answers[Passed(check, records, i)]
  {
    hide CheckedOf, Passed;
    OnlyPassedAreAsked(check, records, i);
    if check(records[i]) == None { PassedIsChecked(check, records, i); }
  }

  lemma EligibleMeans(check: Check, records: seq<Record>, answers: seq<Plan>, j: nat, key: string)
    requires |answers| == |CheckedOf(check, records)| && key != ""
    ensures PlansTarget(check, records, answers, j, key)
            <==> j < |records| && Eligible(Bases(check, records, answers)[j]) && Bases(check, records, answers)[j].targetKey == key
  {
    hide CheckedOf, Passed, Bases;
    if j < |records| { BaseMeans(check, records, answers, j); }
  }

  /** The row with its plan: unchanged or to be applied as the owner planned it. */
  predicate ShowsPlan(row: Assembled, p: Plan) {
    && row.error == None
    && row.row.status == (if p.same then RowUnchanged else RowValid)
    && row.row.plan == RowPlan(p.targetKey, p.payload, if p.same then None else p.expectedVersion)
  }

  /** The row refused: nothing will be applied, and the report names the reason. */
  predicate ShowsRefusal(row: Assembled, key: string, e: RowError) {
    row.error == Some(e) && row.row.status == RowInvalid && row.row.plan == RowPlan(key, "null", None)
  }

  /**
    What row i of the preview shows. A record the cell rules refuse is invalid
    with their error. Otherwise the owner's answer to that very record decides:
    its error makes the row invalid; a target planned twice makes every row
    that has it invalid, each naming them all; and only then is the row
    unchanged or valid, with the answer's target, payload and version.
  */
  lemma PlannedRowMeans(check: Check, records: seq<Record>, answers: seq<Plan>, raw: seq<string>, i: nat)
    requires i < |records| && |answers| == |CheckedOf(check, records)|
    ensures var row := RowOf(records[i], raw, Marked(records, Bases(check, records, answers), i));
            && row.row.rowNo == records[i].rowNo && row.raw == raw
            && (check(records[i]).Some? ==> ShowsRefusal(row, "", check(records[i]).value))
            && (check(records[i]) == None ==>
                  && Passed(check, records, i) < |answers|
                  && var p := answers[Passed(check, records, i)];
                     var doubled := Doubled(check, records, answers, i, p.targetKey);
                     && (p.error.Some? ==> ShowsRefusal(row, p.targetKey, p.error.value))
                     && (p.error == None && !doubled ==> ShowsPlan(row, p))
                     && (p.error == None && doubled ==>
                           && row.error.Some? && ShowsRefusal(row, p.targetKey, row.error.value) && row.error.value.code == "duplicate_target"
                           && forall n :: n in row.error.value.rows <==>
                                exists j: nat :: PlansTarget(check, records, answers, j, p.targetKey) && records[j].rowNo == n))
  {
    hide CheckedOf, Passed, Bases, SameTarget, PlansTarget, Marked;
    var plans := Bases(check, records, answers);
    BaseMeans(check, records, answers, i);
    MarkedIffShared(records, plans, i);
    if check(records[i]) == None {
      var p := plans[i];
      if p.error == None && p.targetKey != "" {
        forall j: nat ensures PlansTarget(check, records, answers, j, p.targetKey) <==> j < |plans| && Eligible(plans[j]) && plans[j].targetKey == p.targetKey {
          EligibleMeans(check, records, answers, j, p.targetKey);
        }
        if Doubled(check, records, answers, i, p.targetKey) { MarkedNamesAll(records, plans, i); }
      }
    }
  }

  /** A marked row names exactly the rows that have its target. */
  lemma MarkedNamesAll(records: seq<Record>, plans: seq<Plan>, i: nat)
    requires i < |plans| == |records| && Eligible(plans[i]) && SharesTarget(plans, i)
    ensures var m := Marked(records, plans, i);
            && m.error.Some? && m == Plan(plans[i].targetKey, "", None, false, m.error) && m.error.value.code == "duplicate_target"
            && forall n :: n in m.error.value.rows <==>
                 exists j: nat :: j < |plans| && Eligible(plans[j]) && plans[j].targetKey == plans[i].targetKey && records[j].rowNo == n
  {
    hide SameTarget;
    var key := plans[i].targetKey;
    SameTargetIndexes(plans, key);
    MarkedIffShared(records, plans, i);
    var indexes := SameTarget(plans, key);
    var rows := RowNumbers(records, indexes);
    forall n ensures n in rows <==> exists j: nat :: j < |plans| && Eligible(plans[j]) && plans[j].targetKey == key && records[j].rowNo == n {
      if n in rows {
        var x :| 0 <= x < |rows| && rows[x] == n;
        assert records[indexes[x]].rowNo == n;
      }
      if j: nat :| j < |plans| && Eligible(plans[j]) && plans[j].targetKey == key && records[j].rowNo == n {
        var x :| 0 <= x < |indexes| && indexes[x] == j;
        assert rows[x] == n;
      }
    }
  }
}
