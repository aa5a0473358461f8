/** The replay validator `AnalyseAlgo.verifier_mouvements`: it rebuilds a fresh
    set of towers for the claimed disc count, replays every move record in order
    and reports, instead of logging them, the issues it meets. It never stops
    early: an empty-source move is skipped, an oversized move is applied anyway. */
module Analyse {
  import opened Pegs

  /** What the log says about a move. */
  datatype IssueKind =
    | CountMismatch(liveOrigine: int, liveDestination: int)  // the live sizes of both pegs
    | EmptySource(peg: int)                                   // the empty origin peg
    | Oversized(palet: int, onto: int)                        // the moved disc and the smaller disc it lands on

  datatype Issue = Issue(coup: int, kind: IssueKind)

  /** The issues the replay of one move reports, in the order it logs them. */
  function StepIssues(st: Towers, mv: Move): seq<Issue>
    requires IsPeg(mv.origine) && IsPeg(mv.destination)
  {
    var o, d := st.Get(mv.origine), st.Get(mv.destination);
    var count := if |o| != mv.nbOrigAv || |d| != mv.nbDestAv
                 then [Issue(mv.coup, CountMismatch(|o|, |d|))] else [];
    if o == [] then count + [Issue(mv.coup, EmptySource(mv.origine))]
    else
      var palet := Top(o);
      var rest := st.Set(mv.origine, Pop(o)).Get(mv.destination);
      if rest != [] && palet > Top(rest) then count + [Issue(mv.coup, Oversized(palet, Top(rest)))]
      else count
  }

  /** The towers after replaying one move: unchanged when the origin is empty,
      otherwise the top disc moved whether or not the move is legal. */
  function Step(st: Towers, mv: Move): Towers
    requires IsPeg(mv.origine) && IsPeg(mv.destination)
  {
    if st.Get(mv.origine) == [] then st else MoveDisc(st, mv.origine, mv.destination)
  }

  /** The issues reported by replaying `moves` from `st`. */
  function Audit(st: Towers, moves: seq<Move>): seq<Issue>
    requires ValidMoves(moves)
    decreases |moves|
  {
    if moves == [] then []
    else StepIssues(st, moves[0]) + Audit(Step(st, moves[0]), moves[1..])
  }

  /** The towers at the end of the replay of `moves` from `st`. */
  function Replayed(st: Towers, moves: seq<Move>): Towers
    requires ValidMoves(moves)
    decreases |moves|
  {
    if moves == [] then st else Replayed(Step(st, moves[0]), moves[1..])
  }

  /** verifier_mouvements: replays `movements` against towers freshly built for
      `nbPalet` discs and returns the issues the source logs. A peg number other
      than 1, 2 or 3 makes the source fail on its first lookup. */
  method VerifierMouvements(movements: seq<Move>, nbPalet: int) returns (issues: seq<Issue>)
    requires ValidMoves(movements)
    ensures issues == Audit(Initial(nbPalet), movements)
  {
    var tours := Initial(nbPalet);
    issues := [];
    assert movements[0..] == movements;
    for i := 0 to |movements|
      invariant issues + Audit(tours, movements[i..]) == Audit(Initial(nbPalet), movements)
    {
      var mvt := movements[i];
      ghost var before, reported := tours, issues;
      assert movements[i..][1..] == movements[i + 1..];
      assert Audit(before, movements[i..]) ==
        StepIssues(before, mvt) + Audit(Step(before, mvt), movements[i + 1..]);
      var origine: Peg, destination: Peg := mvt.origine, mvt.destination;
      if |tours.Get(origine)| != mvt.nbOrigAv || |tours.Get(destination)| != mvt.nbDestAv {
        issues := issues + [Issue(mvt.coup, CountMismatch(|tours.Get(origine)|, |tours.Get(destination)|))];
      }
      if tours.Get(origine) == [] {
        issues := issues + [Issue(mvt.coup, EmptySource(origine))];
        assert issues == reported + StepIssues(before, mvt);
        assert tours == Step(before, mvt);
        ConcatAssoc(reported, StepIssues(before, mvt), Audit(Step(before, mvt), movements[i + 1..]));
        continue;
      }
      var palet := Top(tours.Get(origine));
      tours := tours.Set(origine, Pop(tours.Get(origine)));
      if tours.Get(destination) != [] && palet > Top(tours.Get(destination)) {
        issues := issues + [Issue(mvt.coup, Oversized(palet, Top(tours.Get(destination))))];
      }
      tours := tours.Set(destination, tours.Get(destination) + [palet]);
      assert tours == Step(before, mvt);
      assert issues == reported + StepIssues(before, mvt);
      ConcatAssoc(reported, StepIssues(before, mvt), Audit(Step(before, mvt), movements[i + 1..]));
    }
  }

  lemma ConcatAssoc(a: seq<Issue>, b: seq<Issue>, c: seq<Issue>)
    ensures (a + b) + c == a + (b + c)
  {
  }

  // ---------------------------------------------------------------------------
  // Properties of the replay

  /** The replay never stops early: the issues of `xs + ys` are those of `xs`
      followed by those of `ys` replayed from where `xs` left the towers. */
  lemma {:induction false} AuditAppend(st: Towers, xs: seq<Move>, ys: seq<Move>)
    requires ValidMoves(xs) && ValidMoves(ys)
    ensures ValidMoves(xs + ys)
    ensures Audit(st, xs + ys) == Audit(st, xs) + Audit(Replayed(st, xs), ys)
    ensures Replayed(st, xs + ys) == Replayed(Replayed(st, xs), ys)
    decreases |xs|
  {
    ValidMovesAppend(xs, ys);
    if xs == [] {
      assert xs + ys == ys;
    } else {
      var st' := Step(st, xs[0]);
      assert (xs + ys)[0] == xs[0];
      assert (xs + ys)[1..] == xs[1..] + ys;
      AuditAppend(st', xs[1..], ys);
      ConcatAssoc(StepIssues(st, xs[0]), Audit(st', xs[1..]), Audit(Replayed(st', xs[1..]), ys));
    }
  }

  lemma ValidMovesAppend(xs: seq<Move>, ys: seq<Move>)
    requires ValidMoves(xs) && ValidMoves(ys)
    ensures ValidMoves(xs + ys)
  {
    assert forall i :: 0 <= i < |xs + ys| ==> (xs + ys)[i] == if i < |xs| then xs[i] else ys[i - |xs|];
  }

  /** Replay neither creates nor loses a disc, even when it applies illegal moves. */
  lemma {:induction false} ReplayKeepsDiscs(st: Towers, moves: seq<Move>)
    requires ValidMoves(moves)
    ensures Discs(Replayed(st, moves)) == Discs(st)
    decreases |moves|
  {
    if moves != [] {
      if st.Get(moves[0].origine) != [] {
        MoveDiscKeepsDiscs(st, moves[0].origine, moves[0].destination);
      }
      ReplayKeepsDiscs(Step(st, moves[0]), moves[1..]);
    }
  }

  /** Whatever the moves, the replay from the fresh towers for n discs ends with
      each of the discs 1..n exactly once across the three pegs. */
  lemma ReplayKeepsAllDiscs(n: int, moves: seq<Move>)
    requires ValidMoves(moves)
    ensures forall x :: Discs(Replayed(Initial(n), moves))[x] == if 1 <= x <= n then 1 else 0
  {
    ReplayKeepsDiscs(Initial(n), moves);
    DescDiscs(n);
  }

  /** What one record reports: a count mismatch exactly when either live size
      differs from its count field, and it comes first; an empty-source warning
      exactly when the origin is empty, the towers then left as they were; an
      oversized report exactly when the destination's
      top disc is smaller than the moved one, the disc being moved regardless.
      The destination is looked at after the pop, so a move from a peg onto
      itself compares the moved disc with the one it uncovered. Nothing else is
      reported, and nothing twice. */
  lemma StepReports(st: Towers, mv: Move)
    requires IsPeg(mv.origine) && IsPeg(mv.destination)
    ensures var o, d, r := st.Get(mv.origine), st.Get(mv.destination), StepIssues(st, mv);
      var mismatch := |o| != mv.nbOrigAv || |d| != mv.nbDestAv;
      (mismatch <==> r != [] && r[0] == Issue(mv.coup, CountMismatch(|o|, |d|))) &&
      (o == [] <==> Issue(mv.coup, EmptySource(mv.origine)) in r) &&
      (o == [] ==> Step(st, mv) == st && |r| == (if mismatch then 2 else 1)) &&
      (o != [] ==> Step(st, mv) == MoveDisc(st, mv.origine, mv.destination)) &&
      (o != [] ==>
        var rest := st.Set(mv.origine, Pop(o)).Get(mv.destination);
        (rest == (if mv.origine == mv.destination then Pop(o) else d)) &&
        |r| == (if mismatch then 1 else 0) + (if rest != [] && Top(o) > Top(rest) then 1 else 0) &&
        ((rest != [] && Top(o) > Top(rest)) <==> r != [] && r[|r| - 1].kind.Oversized?) &&
        (rest != [] && Top(o) > Top(rest) ==> r[|r| - 1] == Issue(mv.coup, Oversized(Top(o), Top(rest)))) &&
        (rest == [] || Top(o) <= Top(rest) ==> r == if mismatch then [r[0]] else []))
  {
  }

  /** The four-disc fault matrix's state after its fourth record: a record that
      moves disc 3 from peg 3 onto peg 3, with the right counts, is reported as
      oversized because disc 2 lies under it. */
  lemma SelfMoveOversized()
    ensures StepIssues(Towers([4], [], [1, 2, 3]), Move(9, 3, 3, 3, 3)) == [Issue(9, Oversized(3, 2))]
  {
  }

  /** One record replays without issue exactly when its move is legal and its
      counts are the true sizes of its two (distinct) pegs. */
  lemma StepCleanIff(st: Towers, mv: Move)
    requires IsPeg(mv.origine) && IsPeg(mv.destination) && mv.origine != mv.destination
    requires Unique(st)
    ensures StepIssues(st, mv) == [] <==>
      Legal(st, mv.origine, mv.destination) &&
      mv == Record(mv.coup, Transfer(mv.origine, mv.destination), st)
    ensures StepIssues(st, mv) == [] ==> Step(st, mv) == MoveDisc(st, mv.origine, mv.destination)
  {
    var f, t: Peg := mv.origine, mv.destination;
    if st.Get(f) != [] && st.Get(t) != [] {
      UniqueTops(st, f, t);
    }
  }

  /** The count fields of `moves` are those of `recs`, record by record. */
  predicate SameCounts(moves: seq<Move>, recs: seq<Move>) {
    |moves| == |recs| &&
    forall i :: 0 <= i < |moves| ==>
      moves[i].nbOrigAv == recs[i].nbOrigAv && moves[i].nbDestAv == recs[i].nbDestAv
  }

  /** The replay reports nothing exactly when the records describe a legal run
      and each record's counts are the true peg sizes just before its move,
      whatever the records' numbers (the `coup` field decides nothing; `k` only
      numbers the reference trace). No move from a peg onto itself; no disc
      twice on the towers. */
  lemma {:induction false} AuditCleanIff(st: Towers, moves: seq<Move>, k: int)
    requires ValidMoves(moves)
    requires forall i :: 0 <= i < |moves| ==> moves[i].origine != moves[i].destination
    requires Unique(st)
    ensures Audit(st, moves) == [] <==>
      LegalRun(st, Pairs(moves)) && SameCounts(moves, Trace(st, Pairs(moves), k))
    decreases |moves|
  {
    if moves != [] {
      var mv, rest := moves[0], moves[1..];
      var xs := Pairs(moves);
      var f, t: Peg := mv.origine, mv.destination;
      assert xs[0] == Transfer(f, t) && xs[1..] == Pairs(rest);
      assert moves == [mv] + rest;
      StepCleanIff(st, mv);
      if !Legal(st, f, t) {
        assert |Audit(st, moves)| >= |StepIssues(st, mv)| > 0;
      } else {
        var st' := MoveDisc(st, f, t);
        MoveDiscKeepsDiscs(st, f, t);
        AuditCleanIff(st', rest, k + 1);
        assert Audit(st, moves) == StepIssues(st, mv) + Audit(st', rest);
        if LegalRun(st, xs) {
          var tail := Trace(st', Pairs(rest), k + 1);
          TraceCons(st, xs, k);
          SameCountsCons(mv, rest, Record(k, xs[0], st), tail);
        }
      }
    }
  }

  /** Counts agree on a non-empty list exactly when they agree on its head and its tail. */
  lemma SameCountsCons(mv: Move, rest: seq<Move>, r: Move, tail: seq<Move>)
    ensures SameCounts([mv] + rest, [r] + tail) <==>
      mv.nbOrigAv == r.nbOrigAv && mv.nbDestAv == r.nbDestAv && SameCounts(rest, tail)
  {
    if SameCounts([mv] + rest, [r] + tail) {
      assert ([mv] + rest)[0] == mv && ([r] + tail)[0] == r;
      forall i | 0 <= i < |rest|
        ensures rest[i].nbOrigAv == tail[i].nbOrigAv && rest[i].nbDestAv == tail[i].nbDestAv
      {
        assert ([mv] + rest)[i + 1] == rest[i] && ([r] + tail)[i + 1] == tail[i];
      }
    }
  }

  /** With records numbered consecutively from `k`, a clean replay means the
      records are exactly the trace of their moves. */
  lemma AuditCleanNumbered(st: Towers, moves: seq<Move>, k: int)
    requires ValidMoves(moves)
    requires forall i :: 0 <= i < |moves| ==> moves[i].coup == k + i
    requires forall i :: 0 <= i < |moves| ==> moves[i].origine != moves[i].destination
    requires Unique(st)
    ensures Audit(st, moves) == [] <==>
      LegalRun(st, Pairs(moves)) && moves == Trace(st, Pairs(moves), k)
  {
    AuditCleanIff(st, moves, k);
    var xs := Pairs(moves);
    if LegalRun(st, xs) && SameCounts(moves, Trace(st, xs, k)) {
      var tr := Trace(st, xs, k);
      forall i | 0 <= i < |moves|
        ensures moves[i] == tr[i]
      {
        TraceAt(st, xs, k, i);
      }
    }
  }

  /** A legal move, recorded with the true peg sizes, replays without issue. */
  lemma RecordStepClean(st: Towers, x: Transfer, k: int)
    requires Legal(st, x.origine, x.destination)
    ensures StepIssues(st, Record(k, x, st)) == []
    ensures Step(st, Record(k, x, st)) == MoveDisc(st, x.origine, x.destination)
  {
  }

  /** A legal run, recorded as the generator records it, replays without any issue. */
  lemma {:induction false} TraceAuditsClean(st: Towers, xs: seq<Transfer>, k: int)
    requires LegalRun(st, xs)
    ensures ValidMoves(Trace(st, xs, k))
    ensures Audit(st, Trace(st, xs, k)) == []
    ensures Replayed(st, Trace(st, xs, k)) == Run(st, xs)
    decreases |xs|
  {
    TracePairs(st, xs, k);
    if xs != [] {
      var st' := MoveDisc(st, xs[0].origine, xs[0].destination);
      var tr, tail := Trace(st, xs, k), Trace(st', xs[1..], k + 1);
      TraceAuditsClean(st', xs[1..], k + 1);
      RecordStepClean(st, xs[0], k);
      assert tr == [Record(k, xs[0], st)] + tail;
      assert tr[1..] == tail;
    }
  }

  // ---------------------------------------------------------------------------
  // The worked fault-injection example for four discs

  /** The commented four-disc fault matrix. */
  function FaultMatrix(): seq<Move> {
    [ Move(1, 1, 3, 4, 0), Move(2, 1, 2, 3, 0), Move(3, 2, 3, 0, 1), Move(4, 1, 3, 2, 2),
      Move(5, 2, 3, 1, 3), Move(6, 1, 2, 5, 1), Move(7, 3, 1, 4, 3), Move(8, 3, 2, 3, 1) ]
  }

  /** The issues logged for the matrix, coup by coup. */
  function FaultMatrixLog(): seq<Issue> {
    [ Issue(3, CountMismatch(1, 1)), Issue(3, Oversized(2, 1)), Issue(4, Oversized(3, 2)),
      Issue(5, CountMismatch(0, 3)), Issue(5, EmptySource(2)), Issue(6, CountMismatch(1, 0)),
      Issue(7, CountMismatch(3, 0)), Issue(8, CountMismatch(2, 1)) ]
  }

  /** One step of the replay, on the suffix of `moves` from position `i`. */
  lemma AuditCons(st: Towers, moves: seq<Move>, i: int)
    requires ValidMoves(moves) && 0 <= i < |moves|
    ensures Audit(st, moves[i..]) == StepIssues(st, moves[i]) + Audit(Step(st, moves[i]), moves[i + 1..])
  {
    assert moves[i..][1..] == moves[i + 1..];
  }

  /** Record k of the matrix, replayed on the towers it meets, reports its issues
      and leaves the towers that record k + 1 meets. */
  lemma FaultMatrixStep1(m: seq<Move>)
    requires ValidMoves(m) && |m| > 0 && m[0] == Move(1, 1, 3, 4, 0)
    ensures Audit(Towers([4, 3, 2, 1], [], []), m[0..]) == Audit(Towers([4, 3, 2], [], [1]), m[1..])
  {
    assert StepIssues(Towers([4, 3, 2, 1], [], []), Move(1, 1, 3, 4, 0)) == [];
    assert Step(Towers([4, 3, 2, 1], [], []), Move(1, 1, 3, 4, 0)) == Towers([4, 3, 2], [], [1]);
    AuditCons(Towers([4, 3, 2, 1], [], []), m, 0);
  }

  lemma FaultMatrixStep2(m: seq<Move>)
    requires ValidMoves(m) && |m| > 1 && m[1] == Move(2, 1, 2, 3, 0)
    ensures Audit(Towers([4, 3, 2], [], [1]), m[1..]) == Audit(Towers([4, 3], [2], [1]), m[2..])
  {
    assert StepIssues(Towers([4, 3, 2], [], [1]), Move(2, 1, 2, 3, 0)) == [];
    assert Step(Towers([4, 3, 2], [], [1]), Move(2, 1, 2, 3, 0)) == Towers([4, 3], [2], [1]);
    AuditCons(Towers([4, 3, 2], [], [1]), m, 1);
  }

  lemma FaultMatrixStep3(m: seq<Move>)
    requires ValidMoves(m) && |m| > 2 && m[2] == Move(3, 2, 3, 0, 1)
    ensures Audit(Towers([4, 3], [2], [1]), m[2..]) == [Issue(3, CountMismatch(1, 1)), Issue(3, Oversized(2, 1))] + Audit(Towers([4, 3], [], [1, 2]), m[3..])
  {
    assert StepIssues(Towers([4, 3], [2], [1]), Move(3, 2, 3, 0, 1)) == [Issue(3, CountMismatch(1, 1)), Issue(3, Oversized(2, 1))];
    assert Step(Towers([4, 3], [2], [1]), Move(3, 2, 3, 0, 1)) == Towers([4, 3], [], [1, 2]);
    AuditCons(Towers([4, 3], [2], [1]), m, 2);
  }

  lemma FaultMatrixStep4(m: seq<Move>)
    requires ValidMoves(m) && |m| > 3 && m[3] == Move(4, 1, 3, 2, 2)
    ensures Audit(Towers([4, 3], [], [1, 2]), m[3..]) == [Issue(4, Oversized(3, 2))] + Audit(Towers([4], [], [1, 2, 3]), m[4..])
  {
    assert StepIssues(Towers([4, 3], [], [1, 2]), Move(4, 1, 3, 2, 2)) == [Issue(4, Oversized(3, 2))];
    assert Step(Towers([4, 3], [], [1, 2]), Move(4, 1, 3, 2, 2)) == Towers([4], [], [1, 2, 3]);
    AuditCons(Towers([4, 3], [], [1, 2]), m, 3);
  }

  lemma FaultMatrixStep5(m: seq<Move>)
    requires ValidMoves(m) && |m| > 4 && m[4] == Move(5, 2, 3, 1, 3)
    ensures Audit(Towers([4], [], [1, 2, 3]), m[4..]) == [Issue(5, CountMismatch(0, 3)), Issue(5, EmptySource(2))] + Audit(Towers([4], [], [1, 2, 3]), m[5..])
  {
    assert StepIssues(Towers([4], [], [1, 2, 3]), Move(5, 2, 3, 1, 3)) == [Issue(5, CountMismatch(0, 3)), Issue(5, EmptySource(2))];
    assert Step(Towers([4], [], [1, 2, 3]), Move(5, 2, 3, 1, 3)) == Towers([4], [], [1, 2, 3]);
    AuditCons(Towers([4], [], [1, 2, 3]), m, 4);
  }

  lemma FaultMatrixStep6(m: seq<Move>)
    requires ValidMoves(m) && |m| > 5 && m[5] == Move(6, 1, 2, 5, 1)
    ensures Audit(Towers([4], [], [1, 2, 3]), m[5..]) == [Issue(6, CountMismatch(1, 0))] + Audit(Towers([], [4], [1, 2, 3]), m[6..])
  {
    assert StepIssues(Towers([4], [], [1, 2, 3]), Move(6, 1, 2, 5, 1)) == [Issue(6, CountMismatch(1, 0))];
    assert Step(Towers([4], [], [1, 2, 3]), Move(6, 1, 2, 5, 1)) == Towers([], [4], [1, 2, 3]);
    AuditCons(Towers([4], [], [1, 2, 3]), m, 5);
  }

  lemma FaultMatrixStep7(m: seq<Move>)
    requires ValidMoves(m) && |m| > 6 && m[6] == Move(7, 3, 1, 4, 3)
    ensures Audit(Towers([], [4], [1, 2, 3]), m[6..]) == [Issue(7, CountMismatch(3, 0))] + Audit(Towers([3], [4], [1, 2]), m[7..])
  {
    assert StepIssues(Towers([], [4], [1, 2, 3]), Move(7, 3, 1, 4, 3)) == [Issue(7, CountMismatch(3, 0))];
    assert Step(Towers([], [4], [1, 2, 3]), Move(7, 3, 1, 4, 3)) == Towers([3], [4], [1, 2]);
    AuditCons(Towers([], [4], [1, 2, 3]), m, 6);
  }

  lemma FaultMatrixStep8(m: seq<Move>)
    requires ValidMoves(m) && |m| > 7 && m[7] == Move(8, 3, 2, 3, 1)
    ensures Audit(Towers([3], [4], [1, 2]), m[7..]) == [Issue(8, CountMismatch(2, 1))] + Audit(Towers([3], [4, 2], [1]), m[8..])
  {
    assert StepIssues(Towers([3], [4], [1, 2]), Move(8, 3, 2, 3, 1)) == [Issue(8, CountMismatch(2, 1))];
    assert Step(Towers([3], [4], [1, 2]), Move(8, 3, 2, 3, 1)) == Towers([3], [4, 2], [1]);
    AuditCons(Towers([3], [4], [1, 2]), m, 7);
  }

  /** Eight records that are the matrix's replay, from the fresh four-disc towers,
      into the logged issues. */
  lemma FaultMatrixChain(m: seq<Move>)
    requires |m| == 8 && ValidMoves(m)
    requires m[0] == Move(1, 1, 3, 4, 0) && m[1] == Move(2, 1, 2, 3, 0)
    requires m[2] == Move(3, 2, 3, 0, 1) && m[3] == Move(4, 1, 3, 2, 2)
    requires m[4] == Move(5, 2, 3, 1, 3) && m[5] == Move(6, 1, 2, 5, 1)
    requires m[6] == Move(7, 3, 1, 4, 3) && m[7] == Move(8, 3, 2, 3, 1)
    ensures Audit(Towers([4, 3, 2, 1], [], []), m) == FaultMatrixLog()
  {
    FaultMatrixStep1(m);
    FaultMatrixStep2(m);
    FaultMatrixStep3(m);
    FaultMatrixStep4(m);
    FaultMatrixStep5(m);
    FaultMatrixStep6(m);
    FaultMatrixStep7(m);
    FaultMatrixStep8(m);
    assert m[0..] == m && m[8..] == [];
  }

  /** Its replay yields exactly the logged issues, in the logged order: coup 3
      gets both a count error and an oversized move, coup 5 is skipped. */
  lemma FaultMatrixIssues()
    ensures ValidMoves(FaultMatrix())
    ensures Audit(Initial(4), FaultMatrix()) == FaultMatrixLog()
  {
    assert Initial(4) == Towers([4, 3, 2, 1], [], []);
    FaultMatrixChain(FaultMatrix());
  }
}
