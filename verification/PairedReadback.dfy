// runtime/harness_runtime/runtime.py: `paired_readback` over the 2x2 matrix of
// baseline/candidate arms and held-in/held-out splits.

module PairedReadback {
  import opened Wrappers
  import opened Json
  import opened WriteScopes
  import opened RuntimeRecords
  import opened Receipts
  import opened ReceiptState

  datatype CaseRefusal =
    | CaseRejected(error: Error) | NotPassing | BindingRejected | MixedPlans | WrongResult

  datatype Refusal =
    | WrongCount | DuplicateCases | PlanRejected
    | CaseRefused(refusal: CaseRefusal) | DuplicateCell | IncompleteMatrix | AggregationUnavailable

  /** What the function would return: differences per split. */
  datatype Deltas = Deltas(observed: map<Split, map<string, real>>)

  datatype CellReading = CellReading(caseId: string, receipt: Receipt, evaluated: EvaluatorResult)

  const MATRIX: set<Cell> := {
    Cell(Baseline, HeldIn), Cell(Candidate, HeldIn), Cell(Baseline, HeldOut), Cell(Candidate, HeldOut)}

  type Verdict = Result<(Cell, CellReading), CaseRefusal>

  /** The checks on one reading of the four. */
  function JudgeReading(
    lib: Library, caseId: string, read: Result<Reading, Error>, plan: PairPlan, planDigest: Hex64): Verdict
  {
    if read.Failure? then Failure(CaseRejected(read.error))
    else
      var receipt := read.value.receipt;
      :- Need(receipt.status == Status.Pass && receipt.exitCode == Some(0), NotPassing);
      :- Need(receipt.paired.Some? && PairBindingValid(lib, receipt.paired.value), BindingRejected);
      var binding := receipt.paired.value;
      :- Need(binding.plan == plan && binding.planDigest == planDigest, MixedPlans);
      :- Need(receipt.evaluatorResult.Some? && EvaluatorResultValid(receipt.evaluatorResult.value, plan), WrongResult);
      Success((Cell(binding.arm, binding.split), CellReading(caseId, receipt, receipt.evaluatorResult.value)))
  }

  function Judge(
    lib: Library, dir: CaseDir, caseId: string, consumer: string, plan: PairPlan, planDigest: Hex64, readAt: int)
    : Verdict
  {
    var q := Query(caseId, Some(consumer), None, readAt, false);
    JudgeReading(lib, caseId, Readback(lib, dir, q).result, plan, planDigest)
  }

  /** Reading one case leaves the verdict on every other case as it was, even in a shared directory. */
  lemma OtherCaseIsUnaffected(lib: Library, dir: CaseDir, q: Query, other: Query)
    requires q.caseId != other.caseId
    ensures Readback(lib, Readback(lib, dir, q).dir, other).result == Readback(lib, dir, other).result
  {
    if Matched(lib, dir, q.caseId) {
      assert !Matched(lib, dir, other.caseId) && !Matched(lib, Readback(lib, dir, q).dir, other.caseId);
    }
  }

  /** Four different cells are the whole matrix. */
  lemma FourCellsFillTheMatrix(cells: set<Cell>)
    ensures cells <= MATRIX
    ensures |cells| == 4 ==> cells == MATRIX
  {
    forall c: Cell ensures c in MATRIX {
      assert c.arm == Baseline || c.arm == Candidate;
      assert c.split == HeldIn || c.split == HeldOut;
    }
    assert |MATRIX| == 4;
    if |cells| == 4 && cells != MATRIX {
      var missing :| missing in MATRIX && missing !in cells;
      assert cells <= MATRIX - {missing};
      SmallerSet(cells, MATRIX - {missing});
    }
  }

  lemma {:induction false} SmallerSet(a: set<Cell>, b: set<Cell>)
    requires a <= b
    ensures |a| <= |b|
  {
    if x :| x in a {
      SmallerSet(a - {x}, b - {x});
    }
  }

  /** The verdicts on all the cases, in a given state of the directory. */
  ghost function Verdicts(
    lib: Library, dirs: map<Hex64, CaseDir>, caseIds: seq<string>, consumer: string, plan: PairPlan,
    planDigest: Hex64, readAt: nat -> int): (verdicts: seq<Verdict>)
    ensures |verdicts| == |caseIds|
  {
    seq(|caseIds|, i requires 0 <= i < |caseIds| =>
      Judge(lib, CaseAt(dirs, lib.text(caseIds[i])), caseIds[i], consumer, plan, planDigest, readAt(i)))
  }

  function CaseAt(dirs: map<Hex64, CaseDir>, key: Hex64): CaseDir {
    if key in dirs then dirs[key] else EMPTY
  }

  /** The first n verdicts accept, and name n different cells. */
  ghost predicate Fills(verdicts: seq<Verdict>, n: nat)
    requires n <= |verdicts|
  {
    && (forall i | 0 <= i < n :: verdicts[i].Success?)
    && forall i, j | 0 <= i < j < n :: verdicts[i].value.0 != verdicts[j].value.0
  }

  /** `cells` after the first n cases. */
  ghost predicate Gathered(verdicts: seq<Verdict>, n: nat, cells: map<Cell, CellReading>)
    requires n <= |verdicts|
  {
    Keyed(verdicts, n, cells.Keys) && AllPartial(cells)
  }

  ghost predicate Keyed(verdicts: seq<Verdict>, n: nat, keys: set<Cell>)
    requires n <= |verdicts|
  {
    && |keys| == n
    && (forall i | 0 <= i < n :: verdicts[i].Success? && verdicts[i].value.0 in keys)
    && (forall c | c in keys :: NamedBefore(verdicts, n, c))
  }

  predicate AllPartial(cells: map<Cell, CellReading>) {
    forall c | c in cells :: cells[c].evaluated.state == "partial_unresolved"
  }

  ghost predicate NamedBefore(verdicts: seq<Verdict>, n: nat, c: Cell)
    requires n <= |verdicts|
  {
    exists i | 0 <= i < n :: verdicts[i].Success? && verdicts[i].value.0 == c
  }

  lemma GatheringFills(verdicts: seq<Verdict>, n: nat, cells: map<Cell, CellReading>)
    requires n <= |verdicts| && Gathered(verdicts, n, cells)
    requires Fills(verdicts, n)
    requires n < |verdicts|
    ensures verdicts[n].Success? && verdicts[n].value.0 !in cells <==> Fills(verdicts, n + 1)
  {
    if verdicts[n].Success? {
      if verdicts[n].value.0 in cells {
        assert NamedBefore(verdicts, n, verdicts[n].value.0);
      }
    }
  }

  /** Four distinct cases, an admitted plan, four accepted cells, no cell twice. */
  ghost predicate CompleteMatrix(
    lib: Library, dirs: map<Hex64, CaseDir>, caseIds: seq<string>, consumer: string, plan: PairPlan,
    planDigest: Hex64, readAt: nat -> int)
  {
    && |caseIds| == 4 && Distinct(caseIds) && PlanValid(lib, plan) && lib.plan(plan) == planDigest
    && Fills(Verdicts(lib, dirs, caseIds, consumer, plan, planDigest, readAt), 4)
  }

  /** The verdicts from the i-th on do not depend on the reads before. */
  ghost predicate Pending(verdicts: seq<Verdict>, now: seq<Verdict>, i: nat) {
    |now| == |verdicts| && forall j | i <= j < |verdicts| :: now[j] == verdicts[j]
  }

  /** One turn of the loop: read the case, then judge what was read. */
  method JudgeCase(
    state: ReceiptDirectory, caseIds: seq<string>, i: nat, consumer: string, plan: PairPlan, planDigest: Hex64,
    readAt: nat -> int)
    returns (verdict: Verdict)
    requires i < |caseIds| && Distinct(caseIds)
    modifies state
    ensures verdict == Verdicts(state.codec.lib, old(state.dirs), caseIds, consumer, plan, planDigest, readAt)[i]
    ensures Pending(Verdicts(state.codec.lib, old(state.dirs), caseIds, consumer, plan, planDigest, readAt),
                    Verdicts(state.codec.lib, state.dirs, caseIds, consumer, plan, planDigest, readAt), i + 1)
    ensures verdict.Success? ==> verdict.value.1.evaluated.state == "partial_unresolved"
    ensures forall key | key != state.KeyOf(caseIds[i]) :: state.At(key) == old(state.At(key))
  {
    var lib := state.codec.lib;
    var read := state.Verify(Query(caseIds[i], Some(consumer), None, readAt(i), false));
    verdict := JudgeReading(lib, caseIds[i], read, plan, planDigest);
    LaterVerdicts(lib, old(state.dirs), state.dirs, caseIds, i, consumer, plan, planDigest, readAt);
  }

  lemma LaterVerdicts(
    lib: Library, before: map<Hex64, CaseDir>, after: map<Hex64, CaseDir>, caseIds: seq<string>, i: nat,
    consumer: string, plan: PairPlan, planDigest: Hex64, readAt: nat -> int)
    requires i < |caseIds| && Distinct(caseIds)
    requires var key, q := lib.text(caseIds[i]), Query(caseIds[i], Some(consumer), None, readAt(i), false);
      after == if key in before then before[key := Readback(lib, before[key], q).dir] else before
    ensures Pending(Verdicts(lib, before, caseIds, consumer, plan, planDigest, readAt),
                    Verdicts(lib, after, caseIds, consumer, plan, planDigest, readAt), i + 1)
  {
    var key := lib.text(caseIds[i]);
    var q := Query(caseIds[i], Some(consumer), None, readAt(i), false);
    forall j | i < j < |caseIds|
      ensures Judge(lib, CaseAt(after, lib.text(caseIds[j])), caseIds[j], consumer, plan, planDigest, readAt(j))
           == Judge(lib, CaseAt(before, lib.text(caseIds[j])), caseIds[j], consumer, plan, planDigest, readAt(j))
    {
      if key in before && lib.text(caseIds[j]) == key {
        OtherCaseIsUnaffected(lib, before[key], q, Query(caseIds[j], Some(consumer), None, readAt(j), false));
      }
    }
  }

  /** One turn of the loop over the cases. */
  method TakeCase(
    state: ReceiptDirectory, caseIds: seq<string>, i: nat, consumer: string, plan: PairPlan, planDigest: Hex64,
    readAt: nat -> int, cells: map<Cell, CellReading>, ghost verdicts: seq<Verdict>)
    returns (result: Result<map<Cell, CellReading>, Refusal>)
    requires i < |caseIds| && Distinct(caseIds) && |verdicts| == |caseIds|
    requires Pending(verdicts, Verdicts(state.codec.lib, state.dirs, caseIds, consumer, plan, planDigest, readAt), i)
    requires Gathered(verdicts, i, cells) && Fills(verdicts, i)
    modifies state
    ensures Pending(verdicts, Verdicts(state.codec.lib, state.dirs, caseIds, consumer, plan, planDigest, readAt), i + 1)
    ensures result.Success? <==> Fills(verdicts, i + 1)
    ensures result.Success? ==> Gathered(verdicts, i + 1, result.value)
    ensures result.Failure? ==> result.error.CaseRefused? || result.error == DuplicateCell
    ensures forall key | key != state.KeyOf(caseIds[i]) :: state.At(key) == old(state.At(key))
  {
    var verdict := JudgeCase(state, caseIds, i, consumer, plan, planDigest, readAt);
    assert verdict == verdicts[i];
    GatheringFills(verdicts, i, cells);
    if verdict.Failure? {
      return Failure(CaseRefused(verdict.error));
    }
    var (cell, reading) := verdict.value;
    if cell in cells {
      return Failure(DuplicateCell);
    }
    KeyedGrows(verdicts, i, cells.Keys);
    PartialGrows(cells, cell, reading);
    return Success(cells[cell := reading]);
  }

  lemma KeyedGrows(verdicts: seq<Verdict>, i: nat, keys: set<Cell>)
    requires i < |verdicts| && Keyed(verdicts, i, keys)
    requires verdicts[i].Success? && verdicts[i].value.0 !in keys
    ensures Keyed(verdicts, i + 1, keys + {verdicts[i].value.0})
  {
    var cell := verdicts[i].value.0;
    forall c | c in keys + {cell} ensures NamedBefore(verdicts, i + 1, c) {
      if c in keys {
        assert NamedBefore(verdicts, i, c);
      }
    }
  }

  lemma PartialGrows(cells: map<Cell, CellReading>, cell: Cell, reading: CellReading)
    requires AllPartial(cells) && reading.evaluated.state == "partial_unresolved"
    ensures AllPartial(cells[cell := reading])
    ensures cells[cell := reading].Keys == cells.Keys + {cell}
  {
  }

  /** The loop over the four cases. */
  method CollectCells(
    state: ReceiptDirectory, caseIds: seq<string>, consumer: string, plan: PairPlan, planDigest: Hex64,
    readAt: nat -> int, ghost verdicts: seq<Verdict>)
    returns (result: Result<map<Cell, CellReading>, Refusal>)
    requires |caseIds| == |verdicts| == 4 && Distinct(caseIds)
    requires Pending(verdicts, Verdicts(state.codec.lib, state.dirs, caseIds, consumer, plan, planDigest, readAt), 0)
    modifies state
    ensures result.Success? <==> Fills(verdicts, 4)
    ensures result.Success? ==> Gathered(verdicts, 4, result.value)
    ensures result.Failure? ==> result.error.CaseRefused? || result.error == DuplicateCell
    ensures forall key | (forall id | id in caseIds :: key != state.KeyOf(id)) :: state.At(key) == old(state.At(key))
  {
    var cells: map<Cell, CellReading> := map[];
    for i := 0 to 4
      invariant Gathered(verdicts, i, cells) && Fills(verdicts, i)
      invariant Pending(verdicts, Verdicts(state.codec.lib, state.dirs, caseIds, consumer, plan, planDigest, readAt), i)
      invariant forall key | (forall id | id in caseIds :: key != state.KeyOf(id)) ::
        state.At(key) == old(state.At(key))
    {
      var taken := TakeCase(state, caseIds, i, consumer, plan, planDigest, readAt, cells, verdicts);
      if taken.Failure? {
        return taken;
      }
      cells := taken.value;
    }
    return Success(cells);
  }

  /**
   * No input makes it return deltas, and its completeness check never fires: four accepted cases that
   * repeat no cell always fill the matrix, and are then refused because every accepted evaluator result
   * is only partial.
   */
  method ReadPair(
    state: ReceiptDirectory, caseIds: seq<string>, consumer: string, plan: PairPlan, planDigest: Hex64,
    readAt: nat -> int)
    returns (result: Result<Deltas, Refusal>)
    modifies state
    ensures result.Failure? && result.error != IncompleteMatrix
    ensures result.error == AggregationUnavailable <==>
      CompleteMatrix(state.codec.lib, old(state.dirs), caseIds, consumer, plan, planDigest, readAt)
    ensures forall key | (forall id | id in caseIds :: key != state.KeyOf(id)) :: state.At(key) == old(state.At(key))
  {
    var lib := state.codec.lib;
    if |caseIds| != 4 {
      return Failure(WrongCount);
    }
    if !Distinct(caseIds) {
      return Failure(DuplicateCases);
    }
    if !PlanValid(lib, plan) || lib.plan(plan) != planDigest {
      return Failure(PlanRejected);
    }
    ghost var verdicts := Verdicts(lib, state.dirs, caseIds, consumer, plan, planDigest, readAt);
    var collected := CollectCells(state, caseIds, consumer, plan, planDigest, readAt, verdicts);
    if collected.Failure? {
      return Failure(collected.error);
    }
    var cells := collected.value;
    FourCellsFillTheMatrix(cells.Keys);
    if cells.Keys != MATRIX {
      return Failure(IncompleteMatrix);
    }
    assert Cell(Baseline, HeldIn) in cells;
    if exists c | c in cells.Keys :: cells[c].evaluated.state == "partial_unresolved" {
      return Failure(AggregationUnavailable);
    }
    assert false;
  }
}
