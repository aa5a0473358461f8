/** The move generator `HanoiIterative`: it builds the towers for N discs on
    peg 1, then walks m = 1 .. 2^N - 1, picking a nominal pair of pegs from
    m % 3 and moving one disc between them in whichever direction is legal,
    recording each move with the peg sizes just before it.

    Its correctness is shown against the classic recursive solution `Hanoi`:
    move m of the recursive solution always joins the two pegs of the nominal
    pair for m, and since it is legal, the iterative rule must pick it. */
module Hanoi {
  import opened Pegs
  import Analyse

  function Pow2(n: nat): (r: nat)
    ensures r >= 1
  {
    if n == 0 then 1 else 2 * Pow2(n - 1)
  }

  /** 2^n is 1 modulo 3 for even n and 2 for odd n. */
  lemma {:induction false} Pow2Mod3(n: nat)
    ensures Pow2(n) % 3 == if n % 2 == 0 then 1 else 2
  {
    if n > 0 {
      Pow2Mod3(n - 1);
      DoubleMod3(Pow2(n - 1));
      assert Pow2(n) == 2 * Pow2(n - 1);
      if n % 2 == 0 {
        assert (n - 1) % 2 == 1;
      } else {
        assert (n - 1) % 2 == 0;
      }
    }
  }

  lemma ModOf(k: int, c: int)
    requires 0 <= c < 3
    ensures (3 * k + c) % 3 == c
  {
  }

  /** Doubling swaps the residues 1 and 2 modulo 3. */
  lemma DoubleMod3(x: int)
    requires x % 3 != 0
    ensures (2 * x) % 3 == 3 - x % 3
  {
    var q, r := x / 3, x % 3;
    if r == 1 {
      ModOf(2 * q, 2);
      assert 2 * x == 3 * (2 * q) + 2;
    } else {
      ModOf(2 * q + 1, 1);
      assert 2 * x == 3 * (2 * q + 1) + 1;
    }
  }

  // ---------------------------------------------------------------------------
  // The reference solution

  /** The classic recursive solution: move n discs from `s` to `d` using `a`. */
  function Classic(n: nat, s: Peg, d: Peg, a: Peg): (r: seq<Transfer>)
    ensures |r| == Pow2(n) - 1
  {
    if n == 0 then [] else Classic(n - 1, s, a, d) + [Transfer(s, d)] + Classic(n - 1, a, d, s)
  }

  /** Peg `p` can take any of the discs 1..n: it is empty or its top disc is larger. */
  predicate Above(p: seq<int>, n: int) {
    p == [] || Top(p) > n
  }

  /** Disc i from the bottom of `tw` is disc n - i: `tw` is a tower of the n
      smallest discs, largest at the bottom. */
  predicate IsTower(tw: seq<int>, n: int) {
    |tw| == n && forall i | 0 <= i < |tw| :: tw[i] == n - i
  }

  /** Moving the n smallest discs from the top of `s` onto `d` is legal whenever
      the other pegs and the rest of `s` only hold larger discs, and leaves those
      n discs on top of `d` with everything else in place. */
  lemma {:induction false} HanoiMovesTower(n: nat, s: Peg, d: Peg, a: Peg, st: Towers, bs: seq<int>, tw: seq<int>) returns (h: seq<Transfer>)
    requires s != d && d != a && s != a
    requires IsTower(tw, n) && st.Get(s) == bs + tw
    requires Above(bs, n) && Above(st.Get(d), n) && Above(st.Get(a), n)
    ensures h == Classic(n, s, d, a)
    ensures LegalRun(st, h)
    ensures Run(st, h).Get(s) == bs
    ensures Run(st, h).Get(d) == st.Get(d) + tw
    ensures Run(st, h).Get(a) == st.Get(a)
    decreases n, 2
  {
    if n == 0 {
      h := [];
      assert bs + tw == bs;
      assert st.Get(d) + tw == st.Get(d);
    } else {
      h := MovesTowerAbove(n, s, d, a, st, bs, tw);
    }
  }

  /** The case of n > 0 discs: the n - 1 smaller ones go to `a`, then the rest. */
  lemma {:induction false} MovesTowerAbove(n: nat, s: Peg, d: Peg, a: Peg, st: Towers, bs: seq<int>, tw: seq<int>) returns (h: seq<Transfer>)
    requires n > 0 && s != d && d != a && s != a
    requires IsTower(tw, n) && st.Get(s) == bs + tw
    requires Above(bs, n) && Above(st.Get(d), n) && Above(st.Get(a), n)
    ensures h == Classic(n, s, d, a)
    ensures LegalRun(st, h)
    ensures Run(st, h).Get(s) == bs
    ensures Run(st, h).Get(d) == st.Get(d) + tw
    ensures Run(st, h).Get(a) == st.Get(a)
    decreases n, 1
  {
    var rest := TowerSplit(bs, tw, n);
    var h1 := HanoiMovesTower(n - 1, s, a, d, st, bs + [n], rest);
    h := MovesTowerBelow(n, s, d, a, st, bs, tw, h1);
    ClassicSplit(n, s, d, a);
  }

  /** Once `h1` has parked the n - 1 smaller discs on `a`, disc n moves to `d`
      and the n - 1 smaller discs follow it. */
  lemma {:induction false} MovesTowerBelow(n: nat, s: Peg, d: Peg, a: Peg, st: Towers, bs: seq<int>, tw: seq<int>, h1: seq<Transfer>)
    returns (h: seq<Transfer>)
    requires n > 0 && s != d && d != a && s != a
    requires IsTower(tw, n) && Above(bs, n) && Above(st.Get(d), n) && Above(st.Get(a), n)
    requires LegalRun(st, h1)
    requires Run(st, h1).Get(s) == bs + [n]
    requires Run(st, h1).Get(a) == st.Get(a) + tw[1..]
    requires Run(st, h1).Get(d) == st.Get(d)
    ensures h == h1 + [Transfer(s, d)] + Classic(n - 1, a, d, s)
    ensures LegalRun(st, h)
    ensures Run(st, h).Get(s) == bs
    ensures Run(st, h).Get(d) == st.Get(d) + tw
    ensures Run(st, h).Get(a) == st.Get(a)
    decreases n, 0
  {
    var rest := tw[1..];
    var st2 := LargestMove(Run(st, h1), s, d, a, bs, n);
    var h2 := HanoiMovesTower(n - 1, a, d, s, st2, st.Get(a), rest);
    RunAround(st, h1, Transfer(s, d), h2);
    h := h1 + [Transfer(s, d)] + h2;
    TowerOnTop(st.Get(d), tw, n);
  }

  /** A tower of n discs is disc n under a tower of n - 1 discs. */
  lemma TowerSplit(bs: seq<int>, tw: seq<int>, n: int) returns (rest: seq<int>)
    requires n > 0 && IsTower(tw, n)
    ensures rest == tw[1..] && IsTower(rest, n - 1)
    ensures bs + tw == (bs + [n]) + rest
  {
    rest := tw[1..];
    assert tw == [n] + rest;
  }

  /** Putting disc n and then a tower of n - 1 discs on `p` puts a tower of n. */
  lemma TowerOnTop(p: seq<int>, tw: seq<int>, n: int)
    requires n > 0 && IsTower(tw, n)
    ensures p + [n] + tw[1..] == p + tw
  {
    assert tw == [n] + tw[1..];
  }

  /** The recursive solution for n discs is the one for n - 1 discs onto the
      auxiliary peg, the largest disc, then the one for n - 1 discs onto it. */
  lemma ClassicSplit(n: nat, s: Peg, d: Peg, a: Peg)
    requires n > 0
    ensures Classic(n, s, d, a) == Classic(n - 1, s, a, d) + [Transfer(s, d)] + Classic(n - 1, a, d, s)
  {
  }

  /** A run made of `h1`, one move `x`, then `h2` is legal when each part is, in
      turn, and ends where `h2` ends. */
  lemma RunAround(st: Towers, h1: seq<Transfer>, x: Transfer, h2: seq<Transfer>)
    requires LegalRun(st, h1) && Legal(Run(st, h1), x.origine, x.destination)
    requires LegalRun(MoveDisc(Run(st, h1), x.origine, x.destination), h2)
    ensures LegalRun(st, h1 + [x] + h2)
    ensures Run(st, h1 + [x] + h2) == Run(MoveDisc(Run(st, h1), x.origine, x.destination), h2)
  {
    assert ([x] + h2)[1..] == h2;
    RunAppend(st, h1, [x] + h2);
    assert h1 + [x] + h2 == h1 + ([x] + h2);
  }

  /** With discs 1..n-1 out of the way on `a`, disc n moves legally from the
      top of `s` onto `d`. */
  lemma LargestMove(st: Towers, s: Peg, d: Peg, a: Peg, bs: seq<int>, n: int) returns (st': Towers)
    requires s != d && d != a && s != a
    requires st.Get(s) == bs + [n] && Above(st.Get(d), n)
    ensures Legal(st, s, d) && st' == MoveDisc(st, s, d)
    ensures st'.Get(s) == bs && st'.Get(d) == st.Get(d) + [n] && st'.Get(a) == st.Get(a)
    ensures Above(bs, n - 1) ==> Above(st'.Get(s), n - 1)
    ensures Above(st'.Get(d), n - 1)
  {
    assert Pop(bs + [n]) == bs;
    st' := MoveDisc(st, s, d);
  }

  /** Disc i from the bottom of a tower of n discs is disc n - i. */
  lemma {:induction false} DescAt(n: nat)
    ensures IsTower(Desc(n), n)
  {
    if n > 0 {
      DescAt(n - 1);
      assert Desc(n) == [n] + Desc(n - 1);
    }
  }

  /** Two towers with the same three pegs are equal. */
  lemma TowersExt(x: Towers, y: Towers)
    requires x.Get(1) == y.Get(1) && x.Get(2) == y.Get(2) && x.Get(3) == y.Get(3)
    ensures x == y
  {
  }

  /** The reference solution for N discs, from peg 1 to peg 3 through peg 2, is
      legal from the initial towers and leaves every disc on peg 3. */
  lemma HanoiSolves(n: nat)
    ensures LegalRun(Initial(n), Classic(n, 1, 3, 2))
    ensures Run(Initial(n), Classic(n, 1, 3, 2)) == Towers([], [], Desc(n))
  {
    assert Initial(n).Get(1) == [] + Desc(n);
    DescAt(n);
    var h := HanoiMovesTower(n, 1, 3, 2, Initial(n), [], Desc(n));
    TowersExt(Run(Initial(n), Classic(n, 1, 3, 2)), Towers([], [], Desc(n)));
  }

  // ---------------------------------------------------------------------------
  // The nominal pair of each move

  /** The pair the iterative rule tries first at move m, given the source,
      auxiliary and destination labels after the even-N swap. */
  function Nominal(m: int, source: Peg, auxiliary: Peg, destination: Peg): Transfer {
    if m % 3 == 1 then Transfer(source, destination)
    else if m % 3 == 2 then Transfer(source, auxiliary)
    else Transfer(auxiliary, destination)
  }

  /** The labels the rule uses for a tower of n discs going from `s` to `d`:
      for even n the auxiliary and destination labels are swapped. */
  function Labels(n: nat, s: Peg, d: Peg, a: Peg): (Peg, Peg, Peg) {
    if n % 2 == 0 then (s, d, a) else (s, a, d)
  }

  /** `x` joins the same two pegs as `y`, in either direction. */
  predicate SameEdge(x: Transfer, y: Transfer) {
    x == y || (x.origine == y.destination && x.destination == y.origine)
  }

  /** Move k (counted from 1) of the recursive solution for n discs: a move of
      the first half, the move of disc n, or a move of the second half. */
  lemma ClassicAt(n: nat, s: Peg, d: Peg, a: Peg, k: int)
    requires n > 0 && 1 <= k < Pow2(n)
    ensures Classic(n, s, d, a)[k - 1] ==
      if k < Pow2(n - 1) then Classic(n - 1, s, a, d)[k - 1]
      else if k == Pow2(n - 1) then Transfer(s, d)
      else Classic(n - 1, a, d, s)[k - Pow2(n - 1) - 1]
  {
    ClassicSplit(n, s, d, a);
  }

  /** The move of disc n, halfway through, joins the nominal pair. */
  lemma MiddleFollowsCycle(n: nat, s: Peg, d: Peg, a: Peg)
    requires n > 0
    ensures var (S, A, D) := Labels(n, s, d, a);
      SameEdge(Transfer(s, d), Nominal(Pow2(n - 1), S, A, D))
  {
    Pow2Mod3(n - 1);
  }

  /** The second half runs the cycle for n - 1 discs from `a` to `d`; shifted
      by the 2^(n-1) moves before it, its nominal pairs are those of the whole. */
  lemma SecondHalfCycle(n: nat, s: Peg, d: Peg, a: Peg, k: int)
    requires n > 0 && s != d && d != a && s != a && k > Pow2(n - 1)
    ensures var (S, A, D) := Labels(n, s, d, a);
      var (S', A', D') := Labels(n - 1, a, d, s);
      SameEdge(Nominal(k - Pow2(n - 1), S', A', D'), Nominal(k, S, A, D))
  {
    Pow2Mod3(n - 1);
  }

  /** Move k (counted from 1) of the recursive solution joins the two pegs of
      the nominal pair for k. */
  lemma {:induction false} RecFollowsCycle(n: nat, s: Peg, d: Peg, a: Peg, k: int)
    requires s != d && d != a && s != a
    requires 1 <= k < Pow2(n)
    ensures var (S, A, D) := Labels(n, s, d, a);
      SameEdge(Classic(n, s, d, a)[k - 1], Nominal(k, S, A, D))
  {
    ClassicAt(n, s, d, a, k);
    if k < Pow2(n - 1) {
      RecFollowsCycle(n - 1, s, a, d, k);
    } else if k == Pow2(n - 1) {
      MiddleFollowsCycle(n, s, d, a);
    } else {
      RecFollowsCycle(n - 1, a, d, s, k - Pow2(n - 1));
      SecondHalfCycle(n, s, d, a, k);
    }
  }

  // ---------------------------------------------------------------------------
  // The generator

  /** When `x` is legal and joins the pegs `f` and `t`, the rule's first test
      (the top of `f` may go onto `t`) holds exactly when `x` goes from `f` to
      `t`, and otherwise its second test holds and `x` goes from `t` to `f`. */
  lemma RuleFindsMove(st: Towers, x: Transfer, f: Peg, t: Peg)
    requires Legal(st, x.origine, x.destination) && SameEdge(x, Transfer(f, t))
    ensures Legal(st, f, t) <==> x == Transfer(f, t)
    ensures !Legal(st, f, t) ==> Legal(st, t, f) && x == Transfer(t, f)
  {
  }

  /** Performing the first move of a legal run and recording it extends the
      records by the first record of the run's trace. */
  lemma TraceAdvance(ms: seq<Move>, st: Towers, xs: seq<Transfer>, k: int)
    requires LegalRun(st, xs) && xs != []
    ensures LegalRun(MoveDisc(st, xs[0].origine, xs[0].destination), xs[1..])
    ensures Run(MoveDisc(st, xs[0].origine, xs[0].destination), xs[1..]) == Run(st, xs)
    ensures ms + [Record(k, xs[0], st)] + Trace(MoveDisc(st, xs[0].origine, xs[0].destination), xs[1..], k + 1)
      == ms + Trace(st, xs, k)
  {
    TraceCons(st, xs, k);
    var r := Trace(MoveDisc(st, xs[0].origine, xs[0].destination), xs[1..], k + 1);
    assert ms + [Record(k, xs[0], st)] + r == ms + ([Record(k, xs[0], st)] + r);
  }

  /** Where the generator stands before move k for n discs: the moves of the
      recursive solution from k on are legal from `st` and finish the tower on
      peg 3, and recording them after `ms` yields `base` followed by all the
      generated moves. */
  ghost predicate Progress(st: Towers, ms: seq<Move>, base: seq<Move>, n: nat, k: int)
    requires 1 <= k <= Pow2(n)
  {
    var todo := Classic(n, 1, 3, 2)[k - 1..];
    LegalRun(st, todo) && Run(st, todo) == Towers([], [], Desc(n)) &&
    ms + Trace(st, todo, k) == base + GeneratedMoves(n)
  }

  /** One turn of the iterative rule keeps the generator on the recursive
      solution: of the two directions joining the nominal pair of move k,
      exactly the legal one is move k, and performing and recording it moves
      on to k + 1. */
  lemma StepKeepsProgress(st: Towers, ms: seq<Move>, base: seq<Move>, n: nat, k: int, f: Peg, t: Peg)
    requires 1 <= k < Pow2(n) && Progress(st, ms, base, n, k)
    requires var (S, A, D) := Labels(n, 1, 3, 2); Transfer(f, t) == Nominal(k, S, A, D)
    ensures Legal(st, f, t) ==>
              Progress(MoveDisc(st, f, t), ms + [Move(k, f, t, |st.Get(f)|, |st.Get(t)|)], base, n, k + 1)
    ensures !Legal(st, f, t) ==>
              (Legal(st, t, f) &&
               Progress(MoveDisc(st, t, f), ms + [Move(k, t, f, |st.Get(t)|, |st.Get(f)|)], base, n, k + 1))
  {
    var plan := Classic(n, 1, 3, 2);
    var x := plan[k - 1];
    RecFollowsCycle(n, 1, 3, 2, k);
    assert plan[k - 1..][0] == x;
    RuleFindsMove(st, x, f, t);
    TraceAdvance(ms, st, plan[k - 1..], k);
    assert plan[k - 1..][1..] == plan[k..];
  }

  /** The moves the generator records for N discs: the recursive solution,
      numbered from 1, each with the peg sizes just before it. */
  function GeneratedMoves(n: nat): (r: seq<Move>)
    ensures |r| == Pow2(n) - 1
  {
    HanoiSolves(n);
    TraceLength(Initial(n), Classic(n, 1, 3, 2), 1);
    Trace(Initial(n), Classic(n, 1, 3, 2), 1)
  }

  /** Record i of the generated moves: it is numbered i + 1, joins two distinct
      pegs along the nominal pair of its number, moves the i-th move of the
      recursive solution, and holds the sizes of both pegs just before it, the
      origin being non-empty. */
  lemma GeneratedMoveAt(n: nat, i: nat)
    requires i < Pow2(n) - 1
    ensures var m, plan := GeneratedMoves(n)[i], Classic(n, 1, 3, 2);
      LegalRun(Initial(n), plan[..i]) &&
      var before := Run(Initial(n), plan[..i]);
      m.coup == i + 1 && m.origine == plan[i].origine && m.destination == plan[i].destination &&
      m.nbOrigAv == |before.Get(plan[i].origine)| >= 1 &&
      m.nbDestAv == |before.Get(plan[i].destination)| &&
      m.origine != m.destination &&
      var (S, A, D) := Labels(n, 1, 3, 2);
      SameEdge(plan[i], Nominal(i + 1, S, A, D))
  {
    var plan := Classic(n, 1, 3, 2);
    HanoiSolves(n);
    TraceAt(Initial(n), plan, 1, i);
    LegalRunAt(Initial(n), plan, i);
    RecFollowsCycle(n, 1, 3, 2, i + 1);
  }

  /** The generated moves replay without a single issue in the validator, and
      the replay ends with every disc on peg 3. */
  lemma GeneratedMovesAuditClean(n: nat)
    ensures ValidMoves(GeneratedMoves(n))
    ensures Analyse.Audit(Initial(n), GeneratedMoves(n)) == []
    ensures Analyse.Replayed(Initial(n), GeneratedMoves(n)) == Towers([], [], Desc(n))
  {
    HanoiSolves(n);
    Analyse.TraceAuditsClean(Initial(n), Classic(n, 1, 3, 2), 1);
  }

  /** The (origine, destination) pairs of the generated moves are the moves of
      the recursive solution. */
  lemma GeneratedPairs(n: nat)
    ensures ValidMoves(GeneratedMoves(n))
    ensures Pairs(GeneratedMoves(n)) == Classic(n, 1, 3, 2)
  {
    HanoiSolves(n);
    TracePairs(Initial(n), Classic(n, 1, 3, 2), 1);
  }

  /** After any number of the generated moves, the pegs hold each disc 1..n
      exactly once and every peg is stacked largest at the bottom. */
  lemma GeneratedPrefixSafe(n: nat, i: nat)
    requires i <= Pow2(n) - 1
    ensures LegalRun(Initial(n), Classic(n, 1, 3, 2)[..i])
    ensures var st := Run(Initial(n), Classic(n, 1, 3, 2)[..i]);
      Stacked(st) && forall x :: Discs(st)[x] == if 1 <= x <= n then 1 else 0
  {
    var plan := Classic(n, 1, 3, 2);
    HanoiSolves(n);
    LegalRunPrefix(Initial(n), plan, i);
    RunKeepsInvariants(Initial(n), plan[..i]);
    DescDiscs(n);
    DescDecreasing(n);
  }

  /** The two peg sizes a generated record holds: the origin is never empty,
      and the two pegs hold at most the n discs between them. */
  lemma GeneratedCountsBound(n: nat, i: nat)
    requires i < Pow2(n) - 1
    ensures var m := GeneratedMoves(n)[i];
      IsPeg(m.origine) && IsPeg(m.destination) && 1 <= m.nbOrigAv && 0 <= m.nbDestAv &&
      m.nbOrigAv + m.nbDestAv <= n
  {
    var plan := Classic(n, 1, 3, 2);
    GeneratedMoveAt(n, i);
    var before := Run(Initial(n), plan[..i]);
    RunKeepsInvariants(Initial(n), plan[..i]);
    DescAt(n);
    PegPairBound(before, plan[i].origine, plan[i].destination);
  }

  /** One disc: a single move from peg 1 to peg 3. */
  lemma GeneratedOneDisc()
    ensures GeneratedMoves(1) == [Move(1, 1, 3, 1, 0)]
  {
    ClassicSplit(1, 1, 3, 2);
    assert Classic(1, 1, 3, 2) == [Transfer(1, 3)];
    assert Initial(1) == Towers([1], [], []);
  }

  /** Two discs: the small disc to the spare peg, the large disc to peg 3,
      the small disc onto it. */
  lemma GeneratedTwoDiscs()
    ensures GeneratedMoves(2) == [Move(1, 1, 2, 2, 0), Move(2, 1, 3, 1, 0), Move(3, 2, 3, 1, 1)]
  {
    ClassicTwo();
    TraceTwo();
    assert Initial(2) == Towers([2, 1], [], []);
  }

  lemma ClassicTwo()
    ensures Classic(2, 1, 3, 2) == [Transfer(1, 2), Transfer(1, 3), Transfer(2, 3)]
  {
    ClassicSplit(2, 1, 3, 2);
    ClassicSplit(1, 1, 2, 3);
    ClassicSplit(1, 2, 3, 1);
  }

  lemma TraceTwo()
    ensures var plan := [Transfer(1, 2), Transfer(1, 3), Transfer(2, 3)];
      LegalRun(Towers([2, 1], [], []), plan) &&
      Trace(Towers([2, 1], [], []), plan, 1) == [Move(1, 1, 2, 2, 0), Move(2, 1, 3, 1, 0), Move(3, 2, 3, 1, 1)]
  {
    var st0, st1 := Towers([2, 1], [], []), Towers([2], [1], []);
    var st2, st3 := Towers([], [1], [2]), Towers([], [], [2, 1]);
    assert Legal(st0, 1, 2) && MoveDisc(st0, 1, 2) == st1;
    assert Legal(st1, 1, 3) && MoveDisc(st1, 1, 3) == st2;
    assert Legal(st2, 2, 3) && MoveDisc(st2, 2, 3) == st3;
    TraceStep(st2, Transfer(2, 3), [], 3, st3);
    TraceStep(st1, Transfer(1, 3), [Transfer(2, 3)], 2, st2);
    TraceStep(st0, Transfer(1, 2), [Transfer(1, 3), Transfer(2, 3)], 1, st1);
  }

  /** A legal first move followed by a legal run is a legal run, traced by its
      record followed by the rest. */
  lemma TraceStep(st: Towers, x: Transfer, rest: seq<Transfer>, k: int, st': Towers)
    requires Legal(st, x.origine, x.destination) && MoveDisc(st, x.origine, x.destination) == st'
    requires LegalRun(st', rest)
    ensures LegalRun(st, [x] + rest)
    ensures Trace(st, [x] + rest, k) == [Record(k, x, st)] + Trace(st', rest, k + 1)
  {
    assert ([x] + rest)[0] == x && ([x] + rest)[1..] == rest;
  }

  /** The two shapes `get_move_matrix` returns: the list of move tuples, or one
      dictionary per move. */
  datatype Matrix = Tuples(moves: seq<Move>) | Dicts(dicts: seq<map<string, int>>)

  /** The keys of the dictionary built for each move. */
  const MoveKeys: set<string> := {"coup", "origine", "destination", "palets_origine_avant", "palets_destination_avant"}

  /** The dictionary built for one move. */
  function MoveDict(m: Move): (r: map<string, int>)
    ensures r.Keys == MoveKeys
  {
    map["coup" := m.coup, "origine" := m.origine, "destination" := m.destination,
        "palets_origine_avant" := m.nbOrigAv, "palets_destination_avant" := m.nbDestAv]
  }

  /** Reading a move back from its dictionary. */
  function DictMove(d: map<string, int>): Move
    requires MoveKeys <= d.Keys
  {
    Move(d["coup"], d["origine"], d["destination"], d["palets_origine_avant"], d["palets_destination_avant"])
  }

  /** The list comprehension of `get_move_matrix(as_dict=True)`: one
      dictionary per move, in order, each reading back to its move. */
  function MoveDicts(ms: seq<Move>): (r: seq<map<string, int>>)
    ensures |r| == |ms|
    ensures forall i :: 0 <= i < |ms| ==> r[i].Keys == MoveKeys && DictMove(r[i]) == ms[i]
  {
    seq(|ms|, i requires 0 <= i < |ms| => MoveDict(ms[i]))
  }

  /** Each dictionary holds exactly the five fields of its move. */
  lemma MoveDictRoundTrip(m: Move)
    ensures var d := MoveDict(m); DictMove(d) == m
  {
  }

  class HanoiIterative {
    var nbPaletCamera: int
    var movements: seq<Move>
    var towers: Towers

    /** Builds the towers for `nbPaletCamera` discs on peg 1 and solves them. */
    constructor (nbPaletCamera: int)
      requires nbPaletCamera >= 0
      ensures this.nbPaletCamera == nbPaletCamera
      ensures movements == GeneratedMoves(nbPaletCamera)
      ensures towers == Towers([], [], Desc(nbPaletCamera))
    {
      this.nbPaletCamera := nbPaletCamera;
      movements := [];
      towers := Initial(nbPaletCamera);
      new;
      Solve();
    }

    /** The iterative solution: move m joins the nominal pair of pegs for m % 3,
        in whichever direction the rule allows, and is recorded with the peg
        sizes before it. From the initial towers it records exactly the moves
        of the recursive solution and leaves every disc on peg 3. */
    method Solve()
      modifies this
      requires nbPaletCamera >= 0 && towers == Initial(nbPaletCamera)
      ensures nbPaletCamera == old(nbPaletCamera)
      ensures movements == old(movements) + GeneratedMoves(nbPaletCamera)
      ensures towers == Towers([], [], Desc(nbPaletCamera))
    {
      var n: nat := nbPaletCamera;
      var source, auxiliary, destination := 1, 2, 3;
      if n % 2 == 0 {
        auxiliary, destination := destination, auxiliary;
      }
      var totalMoves := Pow2(n) - 1;
      HanoiSolves(n);
      assert Classic(n, 1, 3, 2)[0..] == Classic(n, 1, 3, 2);
      var stacks, moves := towers, movements;
      for move := 1 to totalMoves + 1
        modifies {}
        invariant (source, auxiliary, destination) == Labels(n, 1, 3, 2)
        invariant Progress(stacks, moves, old(movements), n, move)
      {
        var fromTower, toTower;
        if move % 3 == 1 {
          fromTower, toTower := source, destination;
        } else if move % 3 == 2 {
          fromTower, toTower := source, auxiliary;
        } else {
          fromTower, toTower := auxiliary, destination;
        }
        StepKeepsProgress(stacks, moves, old(movements), n, move, fromTower, toTower);
        var nbOrigine, nbDestination;
        if stacks.Get(fromTower) != [] &&
           (stacks.Get(toTower) == [] || Top(stacks.Get(fromTower)) < Top(stacks.Get(toTower))) {
          nbOrigine, nbDestination := |stacks.Get(fromTower)|, |stacks.Get(toTower)|;
          stacks := MoveDisc(stacks, fromTower, toTower);
        } else if stacks.Get(toTower) != [] &&
                  (stacks.Get(fromTower) == [] || Top(stacks.Get(toTower)) < Top(stacks.Get(fromTower))) {
          nbOrigine, nbDestination := |stacks.Get(toTower)|, |stacks.Get(fromTower)|;
          stacks := MoveDisc(stacks, toTower, fromTower);
          fromTower, toTower := toTower, fromTower;
        } else {
          assert false;
        }
        moves := moves + [Move(move, fromTower, toTower, nbOrigine, nbDestination)];
      }
      assert Classic(n, 1, 3, 2)[totalMoves..] == [];
      towers, movements := stacks, moves;
    }

    /** The recorded moves, as tuples or as dictionaries with the same fields. */
    function GetMoveMatrix(asDict: bool): (r: Matrix)
      reads this
      ensures asDict == r.Dicts?
      ensures r.Tuples? ==> r.moves == movements
      ensures r.Dicts? ==> (|r.dicts| == |movements| &&
        forall i :: 0 <= i < |movements| ==> r.dicts[i].Keys == MoveKeys && DictMove(r.dicts[i]) == movements[i])
    {
      if asDict then Dicts(MoveDicts(movements)) else Tuples(movements)
    }

    /** The validator, as a static copy on the generator class. */
    static method VerifierMouvements(movements: seq<Move>, nbPalet: int) returns (issues: seq<Analyse.Issue>)
      requires ValidMoves(movements)
      ensures issues == Analyse.Audit(Initial(nbPalet), movements)
    {
      issues := Analyse.VerifierMouvements(movements, nbPalet);
    }
  }
}
