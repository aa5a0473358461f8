/** The state shared by the Tower of Hanoi generator and its replay validator:
    three pegs holding discs, the move records the generator emits, and the
    effect of moving one disc. A disc is an integer size, 1 being the smallest;
    a peg lists its discs bottom to top, so its top disc is the last element. */
module Pegs {

  /** A peg identifier: the towers dictionary has exactly the keys 1, 2 and 3. */
  type Peg = p: int | 1 <= p <= 3 witness 1

  predicate IsPeg(p: int) { 1 <= p <= 3 }

  /** The towers dictionary {1: t1, 2: t2, 3: t3}. */
  datatype Towers = Towers(t1: seq<int>, t2: seq<int>, t3: seq<int>) {

    function Get(p: Peg): seq<int> {
      if p == 1 then t1 else if p == 2 then t2 else t3
    }

    function Set(p: Peg, s: seq<int>): Towers {
      if p == 1 then this.(t1 := s) else if p == 2 then this.(t2 := s) else this.(t3 := s)
    }
  }

  /** One move of a disc from the top of `origine` to the top of `destination`. */
  datatype Transfer = Transfer(origine: Peg, destination: Peg)

  /** The tuple (coup, origine, destination, nb_orig_av, nb_dest_av) the generator
      records for each move; the validator accepts any such tuple. */
  datatype Move = Move(coup: int, origine: int, destination: int, nbOrigAv: int, nbDestAv: int)

  predicate ValidMoves(moves: seq<Move>) {
    forall i :: 0 <= i < |moves| ==> IsPeg(moves[i].origine) && IsPeg(moves[i].destination)
  }

  /** The stack [n, n-1, ..., 1]; empty when n <= 0, as `range(n, 0, -1)` is. */
  function Desc(n: int): (r: seq<int>)
    decreases n
  {
    if n <= 0 then [] else [n] + Desc(n - 1)
  }

  /** All discs on peg 1, largest at the bottom; pegs 2 and 3 empty. */
  function Initial(n: int): Towers {
    Towers(Desc(n), [], [])
  }

  function Top(s: seq<int>): int
    requires s != []
  {
    s[|s| - 1]
  }

  function Pop(s: seq<int>): seq<int>
    requires s != []
  {
    s[..|s| - 1]
  }

  /** Every peg strictly decreasing from bottom to top. */
  predicate Decreasing(s: seq<int>) {
    forall i, j :: 0 <= i < j < |s| ==> s[i] > s[j]
  }

  predicate Stacked(st: Towers) {
    Decreasing(st.t1) && Decreasing(st.t2) && Decreasing(st.t3)
  }

  /** The multiset union of the three pegs. */
  function Discs(st: Towers): multiset<int> {
    multiset(st.t1) + multiset(st.t2) + multiset(st.t3)
  }

  /** No disc appears twice across the pegs. */
  ghost predicate Unique(st: Towers) {
    forall x :: Discs(st)[x] <= 1
  }

  /** The game's rule: the top disc of `f` may go onto `t` when `t` is empty or
      its top disc is larger. */
  predicate Legal(st: Towers, f: Peg, t: Peg) {
    st.Get(f) != [] && (st.Get(t) == [] || Top(st.Get(f)) < Top(st.Get(t)))
  }

  /** Pop the top disc of `f`, then append it to `t`. */
  function MoveDisc(st: Towers, f: Peg, t: Peg): Towers
    requires st.Get(f) != []
  {
    var palet := Top(st.Get(f));
    var popped := st.Set(f, Pop(st.Get(f)));
    popped.Set(t, popped.Get(t) + [palet])
  }

  /** Every move of `xs`, in order, is legal in the state that precedes it. */
  predicate LegalRun(st: Towers, xs: seq<Transfer>)
    decreases |xs|
  {
    xs == [] ||
    (Legal(st, xs[0].origine, xs[0].destination) &&
     LegalRun(MoveDisc(st, xs[0].origine, xs[0].destination), xs[1..]))
  }

  /** The state after performing the legal moves `xs` from `st`. */
  function Run(st: Towers, xs: seq<Transfer>): Towers
    requires LegalRun(st, xs)
    decreases |xs|
  {
    if xs == [] then st else Run(MoveDisc(st, xs[0].origine, xs[0].destination), xs[1..])
  }

  /** The record of move `x` numbered `coup`, with the peg sizes just before it. */
  function Record(coup: int, x: Transfer, st: Towers): Move {
    Move(coup, x.origine, x.destination, |st.Get(x.origine)|, |st.Get(x.destination)|)
  }

  /** The records of the legal moves `xs` performed from `st`, numbered from `k`. */
  function Trace(st: Towers, xs: seq<Transfer>, k: int): seq<Move>
    requires LegalRun(st, xs)
    decreases |xs|
  {
    if xs == [] then []
    else [Record(k, xs[0], st)] + Trace(MoveDisc(st, xs[0].origine, xs[0].destination), xs[1..], k + 1)
  }

  /** The (origine, destination) pairs of a list of records. */
  function Pairs(moves: seq<Move>): (r: seq<Transfer>)
    requires ValidMoves(moves)
    ensures |r| == |moves|
    ensures forall i :: 0 <= i < |moves| ==>
      r[i].origine == moves[i].origine && r[i].destination == moves[i].destination
    decreases |moves|
  {
    if moves == [] then []
    else [Transfer(moves[0].origine, moves[0].destination)] + Pairs(moves[1..])
  }

  // ---------------------------------------------------------------------------
  // Facts about a single move

  /** Replacing the stack of peg `p` by `s` replaces its discs in the union. */
  lemma SetDiscsAt(st: Towers, p: Peg, s: seq<int>, x: int)
    ensures Discs(st.Set(p, s))[x] + multiset(st.Get(p))[x] == Discs(st)[x] + multiset(s)[x]
  {
  }

  /** Moving a disc, legal or not, neither creates nor loses a disc. */
  lemma MoveDiscKeepsDiscs(st: Towers, f: Peg, t: Peg)
    requires st.Get(f) != []
    ensures Discs(MoveDisc(st, f, t)) == Discs(st)
  {
    var s := st.Get(f);
    var top := Top(s);
    var popped := st.Set(f, Pop(s));
    var r := popped.Set(t, popped.Get(t) + [top]);
    assert s == Pop(s) + [top];
    forall x ensures Discs(r)[x] == Discs(st)[x] {
      SetDiscsAt(st, f, Pop(s), x);
      SetDiscsAt(popped, t, popped.Get(t) + [top], x);
      assert multiset(s)[x] == multiset(Pop(s))[x] + multiset([top])[x];
      assert multiset(popped.Get(t) + [top])[x] == multiset(popped.Get(t))[x] + multiset([top])[x];
    }
  }

  /** A legal move keeps every peg strictly decreasing. */
  lemma LegalMoveKeepsStacked(st: Towers, f: Peg, t: Peg)
    requires Stacked(st) && Legal(st, f, t)
    ensures Stacked(MoveDisc(st, f, t))
  {
    var s, d := st.Get(f), st.Get(t);
    assert Decreasing(s) && Decreasing(d);
    var d' := d + [Top(s)];
    forall i, j | 0 <= i < j < |d'| ensures d'[i] > d'[j] {
      if j == |d| && i < |d| - 1 {
        assert d[i] > d[|d| - 1];
      }
    }
    assert Decreasing(Pop(s));
  }

  /** On distinct pegs of a state with no repeated disc, the top discs differ. */
  lemma UniqueTops(st: Towers, f: Peg, t: Peg)
    requires Unique(st) && f != t && st.Get(f) != [] && st.Get(t) != []
    ensures Top(st.Get(f)) != Top(st.Get(t))
  {
    var x, y := Top(st.Get(f)), Top(st.Get(t));
    assert x in multiset(st.Get(f)) && y in multiset(st.Get(t));
    assert multiset(st.Get(f))[x] + multiset(st.Get(t))[x] <= Discs(st)[x];
  }

  /** Two distinct pegs together hold at most all the discs. */
  lemma PegPairBound(st: Towers, f: Peg, t: Peg)
    requires f != t
    ensures |st.Get(f)| + |st.Get(t)| <= |Discs(st)|
  {
    assert |Discs(st)| == |st.t1| + |st.t2| + |st.t3|;
  }

  // ---------------------------------------------------------------------------
  // Facts about runs and traces

  /** Running `xs + ys` is running `xs`, then `ys` from where `xs` left off. */
  lemma {:induction false} RunAppend(st: Towers, xs: seq<Transfer>, ys: seq<Transfer>)
    requires LegalRun(st, xs) && LegalRun(Run(st, xs), ys)
    ensures LegalRun(st, xs + ys)
    ensures Run(st, xs + ys) == Run(Run(st, xs), ys)
    decreases |xs|
  {
    if xs == [] {
      assert xs + ys == ys;
    } else {
      assert (xs + ys)[0] == xs[0];
      assert (xs + ys)[1..] == xs[1..] + ys;
      RunAppend(MoveDisc(st, xs[0].origine, xs[0].destination), xs[1..], ys);
    }
  }

  /** Every prefix of a legal run is a legal run. */
  lemma {:induction false} LegalRunPrefix(st: Towers, xs: seq<Transfer>, i: nat)
    requires LegalRun(st, xs) && i <= |xs|
    ensures LegalRun(st, xs[..i])
    decreases i
  {
    if i > 0 {
      assert xs[..i][0] == xs[0];
      assert xs[..i][1..] == xs[1..][..i - 1];
      LegalRunPrefix(MoveDisc(st, xs[0].origine, xs[0].destination), xs[1..], i - 1);
    }
  }

  /** Move `i` of a legal run is legal in the state the first `i` moves reach. */
  lemma {:induction false} LegalRunAt(st: Towers, xs: seq<Transfer>, i: nat)
    requires LegalRun(st, xs) && i < |xs|
    ensures LegalRun(st, xs[..i])
    ensures Legal(Run(st, xs[..i]), xs[i].origine, xs[i].destination)
    decreases i
  {
    LegalRunPrefix(st, xs, i);
    if i > 0 {
      LegalRunAt(MoveDisc(st, xs[0].origine, xs[0].destination), xs[1..], i - 1);
      assert xs[..i][0] == xs[0];
      assert xs[..i][1..] == xs[1..][..i - 1];
    }
  }

  /** A legal run keeps the disc multiset, and keeps the pegs stacked. */
  lemma {:induction false} RunKeepsInvariants(st: Towers, xs: seq<Transfer>)
    requires LegalRun(st, xs)
    ensures Discs(Run(st, xs)) == Discs(st)
    ensures Stacked(st) ==> Stacked(Run(st, xs))
    decreases |xs|
  {
    if xs != [] {
      var f, t := xs[0].origine, xs[0].destination;
      MoveDiscKeepsDiscs(st, f, t);
      if Stacked(st) { LegalMoveKeepsStacked(st, f, t); }
      RunKeepsInvariants(MoveDisc(st, f, t), xs[1..]);
    }
  }

  /** Record `i` of a trace is numbered `k + i`, names the pegs of move `i`,
      and holds the sizes of those pegs in the state just before move `i`. */
  lemma {:induction false} TraceAt(st: Towers, xs: seq<Transfer>, k: int, i: nat)
    requires LegalRun(st, xs) && i < |xs|
    ensures |Trace(st, xs, k)| == |xs|
    ensures LegalRun(st, xs[..i])
    ensures Trace(st, xs, k)[i] == Record(k + i, xs[i], Run(st, xs[..i]))
    decreases i
  {
    LegalRunPrefix(st, xs, i);
    TraceLength(st, xs, k);
    if i > 0 {
      var st' := MoveDisc(st, xs[0].origine, xs[0].destination);
      TraceAt(st', xs[1..], k + 1, i - 1);
      assert xs[..i][0] == xs[0];
      assert xs[..i][1..] == xs[1..][..i - 1];
    }
  }

  lemma {:induction false} TraceLength(st: Towers, xs: seq<Transfer>, k: int)
    requires LegalRun(st, xs)
    ensures |Trace(st, xs, k)| == |xs|
    decreases |xs|
  {
    if xs != [] {
      TraceLength(MoveDisc(st, xs[0].origine, xs[0].destination), xs[1..], k + 1);
    }
  }

  /** A trace starts with the record of its first move. */
  lemma TraceCons(st: Towers, xs: seq<Transfer>, k: int)
    requires LegalRun(st, xs) && xs != []
    ensures Legal(st, xs[0].origine, xs[0].destination)
    ensures LegalRun(MoveDisc(st, xs[0].origine, xs[0].destination), xs[1..])
    ensures Trace(st, xs, k) ==
      [Record(k, xs[0], st)] + Trace(MoveDisc(st, xs[0].origine, xs[0].destination), xs[1..], k + 1)
  {
  }

  /** The pairs of a trace are the moves it records. */
  lemma {:induction false} TracePairs(st: Towers, xs: seq<Transfer>, k: int)
    requires LegalRun(st, xs)
    ensures ValidMoves(Trace(st, xs, k))
    ensures Pairs(Trace(st, xs, k)) == xs
    decreases |xs|
  {
    if xs != [] {
      TracePairs(MoveDisc(st, xs[0].origine, xs[0].destination), xs[1..], k + 1);
    }
  }

  // ---------------------------------------------------------------------------
  // The initial tower

  /** The initial stack holds each of the discs 1..n exactly once. */
  lemma {:induction false} DescDiscs(n: int)
    ensures forall x :: multiset(Desc(n))[x] == if 1 <= x <= n then 1 else 0
    decreases n
  {
    if n > 0 { DescDiscs(n - 1); }
  }

  /** The initial stack is strictly decreasing. */
  lemma {:induction false} DescDecreasing(n: int)
    ensures Decreasing(Desc(n))
    ensures forall i :: 0 <= i < |Desc(n)| ==> 1 <= Desc(n)[i] <= n
    decreases n
  {
    if n > 0 {
      DescDecreasing(n - 1);
      assert Desc(n) == [n] + Desc(n - 1);
    }
  }
}
