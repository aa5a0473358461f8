# Tower of Hanoi engine of the Dobot Hanoi solver

This project models the algorithmic core of a robot arm (a Dobot) that solves
the Tower of Hanoi. The model covers three parts:

- **`HanoiIterative`, the move generator.** It stacks N discs on peg 1. It then
  runs the classic iterative rule for moves m = 1 .. 2^N − 1. Each move joins
  a nominal pair of pegs chosen by m % 3, with the auxiliary and destination
  labels swapped when N is even, in whichever direction is legal. Each move is
  recorded as `(coup, origine, destination, palets_origine_avant,
  palets_destination_avant)`.
- **`verifier_mouvements`, the replay validator.** It exists in two copies:
  `AnalyseAlgo` logs, and `HanoiIterative` prints. Both rebuild the towers for
  N discs and replay any list of records. They report three kinds of issue:
  a count mismatch, an empty origin (that move is skipped), and a larger disc
  put on a smaller one (that move is applied anyway). They never stop early.
- **`DobotControl`, the target bookkeeping.** This covers the height for a
  stack of 0..5 discs, the y coordinate of each column, and the order of one
  physical move: above the origin, grab, above the destination, drop one
  level higher.

The Dafny modules follow the source:

- `Pegs` (`pegs.dfy`) holds the state the generator and the validator share.
  The towers dictionary becomes three `seq<int>`, top disc last. Moving a disc
  (`MoveDisc`) is a pop followed by an append.
- `Analyse` (`analyse_algo.dfy`) holds the validator.
  `Analyse.VerifierMouvements` is the source's loop, with `pop`, `append` and
  `continue` kept. It returns the issues instead of logging them. It is
  proved equal to the specification function `Audit`.
- `Hanoi` (`hanoi_iterative.dfy`) holds the generator. `Classic` is the
  textbook recursive solution, an independent reference definition. The
  lemmas prove three things about it:
  - it is legal and moves the whole tower (`HanoiMovesTower`, `HanoiSolves`);
  - move k of it joins the nominal pair for k % 3 (`RecFollowsCycle`);
  - the iterative rule therefore picks exactly that move at every step
    (`StepKeepsProgress`).

  `Solve` is the source's loop, with both branches of the legality test and
  the swap of `from`/`to` in the reverse branch. It is proved to record
  `GeneratedMoves(N)`, the trace of `Classic(N, 1, 3, 2)`, and to leave every
  disc on peg 3.
- `Dobot` (`dobot_control.dfy`) holds the arm. It is a class with the
  `cible_*` fields. The serial device becomes the log `sent` of commands
  handed to it. A raised exception becomes an `Outcome` that ends the calling
  method, as the exception would. The module also proves that the
  generator's moves for at most five discs stay within the arm's height
  table, and that six discs do not.

Behaviour of the code that a reader might not expect, and how the model
states it:

- Nothing rejects N ≤ 0. With N = 0 the generator records no move. The
  validator builds empty towers for any N ≤ 0 and replays against them. A
  negative N makes `2 ** N - 1` a float, so the generator's `range` fails;
  the model states this as the requirement N ≥ 0.
- A peg number outside 1..3 makes the validator fail with `KeyError` on its
  first lookup; the model states this as the requirement `ValidMoves`.
- A record that moves a disc from a peg onto itself is replayed like any
  other: the disc is popped and compared with the disc it uncovered. With
  right counts it reports nothing when there is no disc beneath or when that
  disc is larger, as on a stacked peg. It reports an oversized move when the
  disc beneath is smaller (`SelfMoveOversized`). `StepReports` states every case;
  `StepCleanIff` and `AuditCleanIff` assume distinct pegs.
- `deplacer_vers_axe` with an unknown column only prints. So
  `realiser_deplacement` then grabs or drops wherever the previous target
  was. `RealiserDeplacement` states this through `AxeX` and `AxeY`.

## Model

| member | source | states |
|---|---|---|
| Pegs.DescDiscs | BlocAlgo/HanoiIterative.py:10 | the initial stack holds each disc 1..N exactly once and nothing else |
| Pegs.DescDecreasing | BlocAlgo/HanoiIterative.py:10 | the initial stack is strictly decreasing from bottom to top |
| Pegs.MoveDiscKeepsDiscs | BlocAlgo/HanoiIterative.py:40-41 | one pop followed by one append keeps the multiset of discs on the three pegs |
| Pegs.LegalMoveKeepsStacked | BlocAlgo/HanoiIterative.py:37-41 | a move allowed by the rule keeps every peg strictly decreasing |
| Pegs.PegPairBound | BlocAlgo/HanoiIterative.py:38-39 | two distinct pegs hold at most all the discs between them |
| Pegs.RunAppend | BlocAlgo/HanoiIterative.py:26-47 | performing two lists of moves one after the other is performing their concatenation |
| Pegs.LegalRunPrefix | BlocAlgo/HanoiIterative.py:26-47 | every prefix of a legal sequence of moves is legal |
| Pegs.LegalRunAt | BlocAlgo/HanoiIterative.py:37-47 | move i of a legal sequence is allowed by the rule in the state the first i moves reach |
| Pegs.RunKeepsInvariants | BlocAlgo/HanoiIterative.py:37-47 | a legal sequence of moves keeps the disc multiset and keeps stacked pegs stacked |
| Pegs.TraceAt | BlocAlgo/HanoiIterative.py:50-52 | record i is numbered k + i, names move i, and holds the two peg sizes just before move i |
| Pegs.TraceLength | BlocAlgo/HanoiIterative.py:50-52 | one record per move |
| Pegs.TracePairs | BlocAlgo/HanoiIterative.py:50-52 | the (origine, destination) pairs of the records are the moves performed |
| Analyse.VerifierMouvements | BlocAlgo/Filtrer_analyseAlgo.py:15-53 | the replay loop from the fresh towers for `nb_palet` discs returns exactly the issues `Audit` gives |
| Analyse.StepReports | BlocAlgo/Filtrer_analyseAlgo.py:36-51 | a count mismatch, reported first, iff a live size differs from its field; an empty-source warning iff the origin is empty, the towers then unchanged; an oversized report iff the destination, looked at after the pop (the uncovered disc on a move onto the same peg), has a top smaller than the moved disc, the disc being moved anyway; nothing else is reported |
| Analyse.SelfMoveOversized | BlocAlgo/Filtrer_analyseAlgo.py:44-50 | a record moving disc 3 from peg 3 onto peg 3 above disc 2, with the right counts, is reported as an oversized move of 3 onto 2 |
| Analyse.AuditAppend | BlocAlgo/Filtrer_analyseAlgo.py:32-51 | the replay never stops early: the issues of xs + ys are those of xs followed by those of ys from where xs left the towers |
| Analyse.ReplayKeepsDiscs | BlocAlgo/Filtrer_analyseAlgo.py:44-51 | replay neither creates nor loses a disc, even when it applies an oversized move |
| Analyse.ReplayKeepsAllDiscs | BlocAlgo/Filtrer_analyseAlgo.py:24-51 | whatever the records, the replay from N discs ends holding each disc 1..N exactly once |
| Analyse.StepCleanIff | BlocAlgo/Filtrer_analyseAlgo.py:36-51 | on towers with no disc twice, one record between distinct pegs reports nothing iff its move is legal and its counts are the true peg sizes; then it performs exactly that move |
| Analyse.AuditCleanIff | BlocAlgo/Filtrer_analyseAlgo.py:32-51 | on towers with no disc twice, for records between distinct pegs, whatever their numbers, a replay reports nothing iff the records describe a legal sequence of moves and each record's two counts are the true sizes just before its move |
| Analyse.AuditCleanNumbered | BlocAlgo/Filtrer_analyseAlgo.py:32-51 | on towers with no disc twice, records between distinct pegs and numbered consecutively replay with no issue iff they are exactly the records of a legal sequence of moves, as the generator writes them |
| Analyse.RecordStepClean | BlocAlgo/Filtrer_analyseAlgo.py:36-51 | a legal move recorded with the true peg sizes reports nothing and is performed |
| Analyse.TraceAuditsClean | BlocAlgo/Filtrer_analyseAlgo.py:32-51 | the records of any legal sequence of moves replay with no issue and end in the same towers |
| Analyse.FaultMatrixChain | BlocAlgo/Filtrer_analyseAlgo.py:84-93 | eight records equal to the commented four-disc matrix replay to the logged issues |
| Analyse.FaultMatrixIssues | BlocAlgo/Filtrer_analyseAlgo.py:142-175 | the four-disc fault matrix yields exactly: count@3, oversized@3, oversized@4, count@5, empty@5, count@6, count@7, count@8 |
| Hanoi.Pow2Mod3 | BlocAlgo/HanoiIterative.py:21-34 | 2^n % 3 is 1 for even n and 2 for odd n, which ties the m % 3 cycle to the parity swap |
| Hanoi.Classic | BlocAlgo/HanoiIterative.py:24 | the recursive solution has 2^n − 1 moves |
| Hanoi.HanoiMovesTower | BlocAlgo/HanoiIterative.py:26-47 | the recursive solution moves a tower of n discs from s to d by legal moves, over any larger discs, leaving the third peg as it was |
| Hanoi.HanoiSolves | Test/TestAlgo.py:39-54 | from N discs on peg 1 the recursive solution is legal and ends with pegs 1 and 2 empty and peg 3 holding N..1 |
| Hanoi.ClassicAt | BlocAlgo/HanoiIterative.py:26 | move k of the recursive solution is in its first half, is the move of disc n, or is in its second half |
| Hanoi.RecFollowsCycle | BlocAlgo/HanoiIterative.py:19-34 | move k of the recursive solution joins the nominal pair of pegs for k % 3, after the even-N label swap, in one direction or the other |
| Hanoi.RuleFindsMove | BlocAlgo/HanoiIterative.py:37-47 | when the intended move joins the nominal pair, the forward branch fires iff it is that move, and otherwise the reverse branch fires and is that move |
| Hanoi.StepKeepsProgress | BlocAlgo/HanoiIterative.py:29-52 | one turn of the loop performs and records move k of the recursive solution, in whichever branch fires |
| Hanoi.GeneratedMoves | BlocAlgo/HanoiIterative.py:24-26 | the generator records exactly 2^N − 1 moves |
| Hanoi.GeneratedMoveAt | BlocAlgo/HanoiIterative.py:29-52 | record i is numbered i + 1, names two distinct pegs along the nominal pair for i + 1, is move i of the recursive solution, and holds the true peg sizes just before it, the origin size being at least 1 |
| Hanoi.GeneratedCountsBound | BlocAlgo/HanoiIterative.py:38-39 | every record names pegs 1..3, its origin count is at least 1, and its two counts add up to at most N |
| Hanoi.GeneratedPrefixSafe | BlocAlgo/HanoiIterative.py:37-47 | after any number of generated moves the pegs hold each disc 1..N exactly once and are all strictly decreasing |
| Hanoi.GeneratedPairs | BlocAlgo/HanoiIterative.py:50-52 | the (origine, destination) pairs of the records are the moves of the recursive solution |
| Hanoi.GeneratedMovesAuditClean | BlocAlgo/HanoiIterative.py:130-135 | replaying the generator's output in the validator reports no issue and ends with every disc on peg 3 |
| Hanoi.GeneratedOneDisc | BlocAlgo/HanoiIterative.py:19-52 | for one disc the output is the single record (1, 1, 3, 1, 0) |
| Hanoi.GeneratedTwoDiscs | BlocAlgo/HanoiIterative.py:19-52 | for two discs the output is (1, 1, 2, 2, 0), (2, 1, 3, 1, 0), (3, 2, 3, 1, 1) |
| Hanoi.MoveDicts | BlocAlgo/HanoiIterative.py:65-73 | one dictionary per move, in order, each built from its move |
| Hanoi.MoveDict | BlocAlgo/HanoiIterative.py:66-72 | each dictionary has exactly the five keys coup, origine, destination, palets_origine_avant and palets_destination_avant |
| Hanoi.MoveDictRoundTrip | BlocAlgo/HanoiIterative.py:66-72 | reading the five keys back gives the move the dictionary was built from |
| Hanoi.HanoiIterative.constructor | BlocAlgo/HanoiIterative.py:2-11 | building the generator for N ≥ 0 discs leaves the 2^N − 1 generated moves recorded and every disc on peg 3 |
| Hanoi.HanoiIterative.Solve | BlocAlgo/HanoiIterative.py:14-52 | from the initial towers the loop appends exactly the generated moves and leaves pegs 1 and 2 empty and peg 3 holding N..1; one of the two branches fires at every move |
| Hanoi.HanoiIterative.GetMoveMatrix | BlocAlgo/HanoiIterative.py:59-74 | without `as_dict` the movement list itself; with it, as many dictionaries, each with the five keys and the fields of its move |
| Hanoi.HanoiIterative.VerifierMouvements | BlocAlgo/HanoiIterative.py:87-126 | the printing copy of the validator reports exactly what the logging copy does |
| Dobot.HeightsIncrease | BlocRobot/DobotControl.py:12-17 | the height table is strictly increasing in the number of discs |
| Dobot.ColumnsOrdered | BlocRobot/DobotControl.py:18-20 | columns 1, 2 and 3 lie at increasing y: left, centre, right |
| Dobot.DobotControl.constructor | BlocRobot/DobotControl.py:30-58 | a connected arm with the given home and the target at the column distance, y 0, z 0 |
| Dobot.DobotControl.Disconnect | BlocRobot/DobotControl.py:224-229 | afterwards the arm is not connected |
| Dobot.DobotControl.MoveVerticalSwitch | BlocRobot/DobotControl.py:260-279 | for 0..5 discs the height target is that entry of the table; any other count is an error that leaves the target unchanged |
| Dobot.DobotControl.DeplacerVersColonneGauche | BlocRobot/DobotControl.py:131-144 | the target becomes the left column before the connection check; only a connected arm travels there at the lifted height |
| Dobot.DobotControl.DeplacerVersColonneCentre | BlocRobot/DobotControl.py:146-159 | the same for the centre column |
| Dobot.DobotControl.DeplacerVersColonneDroite | BlocRobot/DobotControl.py:161-174 | the same for the right column |
| Dobot.DobotControl.DeplacerVersAxe | BlocRobot/DobotControl.py:235-248 | columns 1, 2 and 3 aim the target at left, centre and right; any other id changes nothing; the height target is never touched |
| Dobot.DobotControl.GrabPallet | BlocRobot/DobotControl.py:176-200 | a grab looks up the height of `nb_palet` and a drop that of `nb_palet + 1`, before the connection check; then down, switch the cup, back up |
| Dobot.DobotControl.RealiserDeplacement | BlocRobot/DobotControl.py:251-258 | succeeds iff the arm is connected and both levels are in the table; then it goes above the origin, grabs at `palets_origin_before`, goes above the destination and drops at `palets_destination_before + 1`; each failure states what was sent and targeted before it |
| Dobot.GeneratedMovesFitArm | BlocRobot/DobotControl.py:251-279 | every move generated for at most five discs names two columns and two levels in the table, so a connected arm completes it |
| Dobot.SixDiscsOverflow | BlocRobot/DobotControl.py:264-279 | with six discs the first grab is already outside the height table |

## Left out

- Printing and logging: `afficher_mouvements`, the debug line of `solve`, the
  printed and logged messages of both validators, and the logger setup. The
  validators return their issues as a sequence instead.
- All device input and output of `DobotControl`:
  - the serial port discovery and connection of `__init__`;
  - the homing sequence;
  - `time.sleep`;
  - the pose read-back and its tolerance in `move_to_and_check`;
  - `get_pose`, `return_to_home`, `execute_init`, `_patch_home` and
    `calibrer_manuellement`.

  The commands the class hands to the device are recorded in `sent` but are
  not executed.
- The rotation `r` and the `wait` flag of `deplacer_vers_colonne_*` and
  `grab_pallet`, and the defaults `home_x=220, home_y=0, home_z=100` of
  `__init__`: every caller in the modelled code uses the defaults, so the
  commands keep no rotation and the home is a constructor parameter.
- Hanoi.HanoiIterative.Solve: it requires the towers `__init__` builds,
  which is the only place the source calls it from.
- Hanoi.HanoiIterative.constructor: it requires N ≥ 0. A negative N fails
  inside `range` in the source.
- Analyse.VerifierMouvements: it requires peg numbers 1..3. Any other number
  raises `KeyError` in the source at its first lookup.
- Hanoi.HanoiIterative.GetMoveMatrix: the list it returns without `as_dict`
  is the object's own list, so a caller's change to it would show in the
  object. The model returns a value.
- Dobot.DobotControl.GrabPallet: the second connection check in
  `activate_ventouse` cannot fail after the one in `grab_pallet`, so it is
  not repeated.
