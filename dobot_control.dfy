/** The target bookkeeping of `DobotControl`: where the arm is sent for each
    column and each stack height, and the order in which one Hanoi move grabs
    a disc and drops it. The serial device is replaced by the log `sent` of the
    commands the class hands to it; a Python exception becomes an `Outcome`
    that stops the calling method, as the exception would. */
module Dobot {
  import Hanoi

  // Heights of the suction cup for a stack of 0..5 discs.
  const H_PALET0: int := -80
  const H_PALET1: int := -55
  const H_PALET2: int := -30
  const H_PALET3: int := -5
  const H_PALET4: int := 20
  const H_PALET5: int := 50
  // The y coordinate of each column, its x distance, and the travel height.
  const AXE_DROITE: int := 150
  const AXE_GAUCHE: int := -150
  const AXE_CENTRE: int := 0
  const H_BRAS_LEVE: int := 150
  const DIST_COLONNES: int := 220

  /** The height table, indexed by the number of discs on the stack. */
  const Heights: seq<int> := [H_PALET0, H_PALET1, H_PALET2, H_PALET3, H_PALET4, H_PALET5]

  /** A command handed to the device: a move of the cup, or the suction switch. */
  datatype Command = MoveTo(x: int, y: int, z: int) | Suck(on: bool)

  /** Normal completion, or the exception the source raises. */
  datatype Outcome = Ok | NotConnected | InvalidPalletCount

  predicate IsColumn(axeId: int) { 1 <= axeId <= 3 }

  predicate IsLevel(nbPalet: int) { 0 <= nbPalet < |Heights| }

  /** The y coordinate of column 1 (left), 2 (centre) or 3 (right). */
  function ColumnY(axeId: int): int
    requires IsColumn(axeId)
  {
    if axeId == 1 then AXE_GAUCHE else if axeId == 2 then AXE_CENTRE else AXE_DROITE
  }

  /** The target x and y after moving towards `axeId` from (x, y): an unknown
      id leaves the target where it was. */
  function AxeX(axeId: int, x: int): int {
    if IsColumn(axeId) then DIST_COLONNES else x
  }

  function AxeY(axeId: int, y: int): int {
    if IsColumn(axeId) then ColumnY(axeId) else y
  }

  /** The commands sent by moving towards `axeId` on a connected arm. */
  function Approach(axeId: int): seq<Command> {
    if IsColumn(axeId) then [MoveTo(DIST_COLONNES, ColumnY(axeId), H_BRAS_LEVE)] else []
  }

  /** The commands sent by grabbing (or dropping) at stack level `level` above
      (x, y): down to the level, switch the cup, back up. */
  function Handle(x: int, y: int, level: int, grab: bool): seq<Command>
    requires IsLevel(level)
  {
    [MoveTo(x, y, Heights[level]), Suck(grab), MoveTo(x, y, 150)]
  }

  /** A higher stack puts the cup higher. */
  lemma HeightsIncrease()
    ensures forall i, j :: 0 <= i < j < |Heights| ==> Heights[i] < Heights[j]
  {
  }

  /** Left, centre and right are three distinct positions, in that order. */
  lemma ColumnsOrdered(a: int, b: int)
    requires IsColumn(a) && IsColumn(b)
    ensures a < b <==> ColumnY(a) < ColumnY(b)
  {
  }

  class DobotControl {
    var connected: bool
    var homeX: int
    var homeY: int
    var homeZ: int
    var cibleX: int
    var cibleY: int
    var cibleZ: int
    /** The commands handed to the device so far. */
    var sent: seq<Command>

    /** A connected arm aimed at the column distance, with nothing sent yet. */
    constructor (homeX: int, homeY: int, homeZ: int)
      ensures connected
      ensures this.homeX == homeX && this.homeY == homeY && this.homeZ == homeZ
      ensures cibleX == DIST_COLONNES && cibleY == 0 && cibleZ == 0
      ensures sent == []
    {
      connected := true;
      this.homeX, this.homeY, this.homeZ := homeX, homeY, homeZ;
      cibleX, cibleY, cibleZ := DIST_COLONNES, 0, 0;
      sent := [];
    }

    /** After this, every method that needs the device fails. */
    method Disconnect()
      modifies this`connected
      ensures !connected
    {
      if connected {
        connected := false;
      }
    }

    /** The target height for a stack of `nbPalet` discs; any other count is an
        error that leaves the target alone. */
    method MoveVerticalSwitch(nbPalet: int) returns (outcome: Outcome)
      modifies this`cibleZ
      ensures IsLevel(nbPalet) ==> outcome == Ok && cibleZ == Heights[nbPalet]
      ensures !IsLevel(nbPalet) ==> outcome == InvalidPalletCount && cibleZ == old(cibleZ)
    {
      outcome := Ok;
      match nbPalet {
        case 0 => cibleZ := H_PALET0;
        case 1 => cibleZ := H_PALET1;
        case 2 => cibleZ := H_PALET2;
        case 3 => cibleZ := H_PALET3;
        case 4 => cibleZ := H_PALET4;
        case 5 => cibleZ := H_PALET5;
        case _ => outcome := InvalidPalletCount;
      }
    }

    /** The three column moves set the target first, then fail when the arm
        is not connected; otherwise the arm travels above the column. */
    method DeplacerVersColonneGauche() returns (outcome: Outcome)
      modifies this`cibleX, this`cibleY, this`sent
      ensures cibleX == DIST_COLONNES && cibleY == AXE_GAUCHE
      ensures outcome == (if connected then Ok else NotConnected)
      ensures sent == old(sent) + (if connected then [MoveTo(DIST_COLONNES, AXE_GAUCHE, H_BRAS_LEVE)] else [])
    {
      cibleX := DIST_COLONNES;
      cibleY := AXE_GAUCHE;
      if !connected {
        return NotConnected;
      }
      sent := sent + [MoveTo(cibleX, cibleY, H_BRAS_LEVE)];
      outcome := Ok;
    }

    method DeplacerVersColonneCentre() returns (outcome: Outcome)
      modifies this`cibleX, this`cibleY, this`sent
      ensures cibleX == DIST_COLONNES && cibleY == AXE_CENTRE
      ensures outcome == (if connected then Ok else NotConnected)
      ensures sent == old(sent) + (if connected then [MoveTo(DIST_COLONNES, AXE_CENTRE, H_BRAS_LEVE)] else [])
    {
      cibleX := DIST_COLONNES;
      cibleY := AXE_CENTRE;
      if !connected {
        return NotConnected;
      }
      sent := sent + [MoveTo(cibleX, cibleY, H_BRAS_LEVE)];
      outcome := Ok;
    }

    method DeplacerVersColonneDroite() returns (outcome: Outcome)
      modifies this`cibleX, this`cibleY, this`sent
      ensures cibleX == DIST_COLONNES && cibleY == AXE_DROITE
      ensures outcome == (if connected then Ok else NotConnected)
      ensures sent == old(sent) + (if connected then [MoveTo(DIST_COLONNES, AXE_DROITE, H_BRAS_LEVE)] else [])
    {
      cibleX := DIST_COLONNES;
      cibleY := AXE_DROITE;
      if !connected {
        return NotConnected;
      }
      sent := sent + [MoveTo(cibleX, cibleY, H_BRAS_LEVE)];
      outcome := Ok;
    }

    /** Move above column `axeId`; an unknown id only reports itself and
        changes nothing. The height target is never touched. */
    method DeplacerVersAxe(axeId: int) returns (outcome: Outcome)
      modifies this`cibleX, this`cibleY, this`sent
      ensures cibleX == AxeX(axeId, old(cibleX)) && cibleY == AxeY(axeId, old(cibleY))
      ensures outcome == (if connected || !IsColumn(axeId) then Ok else NotConnected)
      ensures sent == old(sent) + (if connected then Approach(axeId) else [])
    {
      match axeId {
        case 1 => outcome := DeplacerVersColonneGauche();
        case 2 => outcome := DeplacerVersColonneCentre();
        case 3 => outcome := DeplacerVersColonneDroite();
        case _ => outcome := Ok;
      }
    }

    /** Grab the top disc of a stack of `nbPalet` discs, or drop one onto it:
        a drop aims one level higher, where the dropped disc will sit. The
        height is looked up before the connection is checked. */
    method GrabPallet(nbPalet: int, grab: bool) returns (outcome: Outcome)
      modifies this`cibleZ, this`sent
      ensures var level := if grab then nbPalet else nbPalet + 1;
        if !IsLevel(level) then
          outcome == InvalidPalletCount && cibleZ == old(cibleZ) && sent == old(sent)
        else
          cibleZ == Heights[level] &&
          if connected then outcome == Ok && sent == old(sent) + Handle(cibleX, cibleY, level, grab)
          else outcome == NotConnected && sent == old(sent)
    {
      var nb := nbPalet;
      if !grab {
        nb := nb + 1;
      }
      outcome := MoveVerticalSwitch(nb);
      if outcome != Ok {
        return;
      }
      if !connected {
        return NotConnected;
      }
      sent := sent + [MoveTo(cibleX, cibleY, cibleZ)];
      sent := sent + [Suck(grab)];
      sent := sent + [MoveTo(cibleX, cibleY, 150)];
    }

    /** One Hanoi move: above the origin, grab from a stack of
        `paletsOriginBefore` discs, above the destination, drop onto a stack of
        `paletsDestinationBefore` discs. The first failure stops the move. */
    method RealiserDeplacement(origine: int, destination: int,
                               paletsOriginBefore: int, paletsDestinationBefore: int)
      returns (outcome: Outcome)
      modifies this`cibleX, this`cibleY, this`cibleZ, this`sent
      ensures var grabOk, dropOk := IsLevel(paletsOriginBefore), IsLevel(paletsDestinationBefore + 1);
        (outcome == Ok <==> connected && grabOk && dropOk) &&
        (outcome == NotConnected <==> !connected && (IsColumn(origine) || grabOk)) &&
        (outcome == InvalidPalletCount <==>
          (connected || !IsColumn(origine)) && (!grabOk || (connected && !dropOk)))
      ensures var xo, yo := AxeX(origine, old(cibleX)), AxeY(origine, old(cibleY));
        var xd, yd := AxeX(destination, xo), AxeY(destination, yo);
        var grabOk, dropOk := IsLevel(paletsOriginBefore), IsLevel(paletsDestinationBefore + 1);
        if !connected then
          sent == old(sent) && cibleX == xo && cibleY == yo &&
          cibleZ == (if !IsColumn(origine) && grabOk then Heights[paletsOriginBefore] else old(cibleZ))
        else if !grabOk then
          sent == old(sent) + Approach(origine) && cibleX == xo && cibleY == yo && cibleZ == old(cibleZ)
        else if !dropOk then
          sent == old(sent) + Approach(origine) + Handle(xo, yo, paletsOriginBefore, true) + Approach(destination) &&
          cibleX == xd && cibleY == yd && cibleZ == Heights[paletsOriginBefore]
        else
          sent == old(sent) + Approach(origine) + Handle(xo, yo, paletsOriginBefore, true) +
                  Approach(destination) + Handle(xd, yd, paletsDestinationBefore + 1, false) &&
          cibleX == xd && cibleY == yd && cibleZ == Heights[paletsDestinationBefore + 1]
    {
      outcome := DeplacerVersAxe(origine);
      if outcome != Ok {
        return;
      }
      outcome := GrabPallet(paletsOriginBefore, true);
      if outcome != Ok {
        return;
      }
      outcome := DeplacerVersAxe(destination);
      if outcome != Ok {
        return;
      }
      outcome := GrabPallet(paletsDestinationBefore, false);
    }
  }

  /** Every move the generator records for at most five discs names two
      columns and two stack sizes the arm can serve, so `RealiserDeplacement`
      on a connected arm completes it. */
  lemma GeneratedMovesFitArm(n: nat, i: nat)
    requires n <= 5 && i < Hanoi.Pow2(n) - 1
    ensures var m := Hanoi.GeneratedMoves(n)[i];
      IsColumn(m.origine) && IsColumn(m.destination) &&
      IsLevel(m.nbOrigAv) && IsLevel(m.nbDestAv + 1)
  {
    Hanoi.GeneratedCountsBound(n, i);
  }

  /** With six discs the very first grab is already out of the height table. */
  lemma SixDiscsOverflow()
    ensures !IsLevel(Hanoi.GeneratedMoves(6)[0].nbOrigAv)
  {
    Hanoi.GeneratedMoveAt(6, 0);
    Hanoi.DescAt(6);
    assert Hanoi.Classic(6, 1, 3, 2)[..0] == [];
  }
}
