/** The depth-chart view: which entry fills each displayed slot, what a cell
    shows, and the dialog that turns a click on an empty cell and a choice in
    the roster into an update request. */
module DepthChartView {
  import opened Common
  import DepthChartUpdate

  /** The player fields the view shows. */
  datatype PlayerData = PlayerData(id: string, firstName: string, lastName: string, jerseyNumber: Option<int>)

  /** One depth-chart entry as the dashboard hands it to the view: the depth
      level and position by name. */
  datatype ChartEntry = ChartEntry(depthLevel: string, position: string, player: PlayerData)

  /** `data.filter(d => d.depthLevel === level)`. */
  function FilterLevel(data: seq<ChartEntry>, level: string): (r: seq<ChartEntry>)
    ensures |r| <= |data|
    ensures forall i :: 0 <= i < |r| ==> r[i].depthLevel == level
  {
    if data == [] then []
    else if data[0].depthLevel == level then [data[0]] + FilterLevel(data[1..], level)
    else FilterLevel(data[1..], level)
  }

  /** The filter keeps every entry of the level, as often as it occurs, and
      nothing else. */
  lemma {:induction false} FilterLevelKeepsLevel(data: seq<ChartEntry>, level: string)
    ensures forall e :: e in FilterLevel(data, level) <==> e in data && e.depthLevel == level
    ensures forall e :: multiset(FilterLevel(data, level))[e] == if e.depthLevel == level then multiset(data)[e] else 0
  {
    if data != [] {
      FilterLevelKeepsLevel(data[1..], level);
      assert data == [data[0]] + data[1..];
    }
  }

  /** The filter keeps the order of the entries: filtering a concatenation
      concatenates the filtered parts. */
  lemma {:induction false} FilterLevelKeepsOrder(front: seq<ChartEntry>, back: seq<ChartEntry>, level: string)
    ensures FilterLevel(front + back, level) == FilterLevel(front, level) + FilterLevel(back, level)
  {
    if front != [] {
      FilterLevelKeepsOrder(front[1..], back, level);
      assert (front + back)[1..] == front[1..] + back;
    } else {
      assert front + back == back;
    }
  }

  /** `entries.find(p => p.position === position)?.player`. */
  function FindPosition(entries: seq<ChartEntry>, position: string): (r: Option<PlayerData>)
  {
    if entries == [] then None
    else if entries[0].position == position then Some(entries[0].player)
    else FindPosition(entries[1..], position)
  }

  /** `data.find(d => d.depthLevel === level)?.player`: the goalie lookup,
      which does not look at the position. */
  function FindLevel(data: seq<ChartEntry>, level: string): (r: Option<PlayerData>)
  {
    if data == [] then None
    else if data[0].depthLevel == level then Some(data[0].player)
    else FindLevel(data[1..], level)
  }

  /** The entry at `i` is the first one matching both the level and the position. */
  predicate FirstMatch(data: seq<ChartEntry>, level: string, position: string, i: int) {
    && 0 <= i < |data|
    && data[i].depthLevel == level && data[i].position == position
    && forall j :: 0 <= j < i ==> !(data[j].depthLevel == level && data[j].position == position)
  }

  /** The slot's player: the player of the first entry matching both the
      depth level and the position. */
  function FindSlot(data: seq<ChartEntry>, level: string, position: string): (r: Option<PlayerData>)
    ensures r.None? <==> forall i :: 0 <= i < |data| ==> !(data[i].depthLevel == level && data[i].position == position)
    ensures r.Some? ==> exists i :: FirstMatch(data, level, position, i) && r.value == data[i].player
  {
    if data == [] then None
    else if data[0].depthLevel == level && data[0].position == position then
      assert FirstMatch(data, level, position, 0);
      Some(data[0].player)
    else
      var rest := FindSlot(data[1..], level, position);
      if rest.Some? then
        ghost var i :| FirstMatch(data[1..], level, position, i) && rest.value == data[1..][i].player;
        assert FirstMatch(data, level, position, i + 1);
        rest
      else
        assert forall i :: 1 <= i < |data| ==> data[i] == data[1..][i - 1];
        rest
  }

  /** Filtering by level and then finding by position is one find on both
      conditions. */
  lemma {:induction false} FilterThenFind(data: seq<ChartEntry>, level: string, position: string)
    ensures FindPosition(FilterLevel(data, level), position) == FindSlot(data, level, position)
  {
    if data != [] {
      FilterThenFind(data[1..], level, position);
    }
  }

  /** The goalie lookup takes the first entry of its level whatever its position. */
  lemma {:induction false} GoalieIgnoresPosition(data: seq<ChartEntry>, level: string)
    ensures FindLevel(data, level).Some? <==> exists i :: 0 <= i < |data| && data[i].depthLevel == level
    ensures forall i :: 0 <= i < |data| && data[i].depthLevel == level
                        && (forall j :: 0 <= j < i ==> data[j].depthLevel != level)
                        ==> FindLevel(data, level) == Some(data[i].player)
  {
    if data != [] {
      GoalieIgnoresPosition(data[1..], level);
      if data[0].depthLevel != level {
        assert forall i :: 1 <= i < |data| ==> data[i] == data[1..][i - 1];
      }
    }
  }

  /** A displayed cell: the position it shows and sends when clicked, the
      position it looks up, its depth level and the player found there. */
  datatype Cell = Cell(position: string, lookup: string, depthLevel: string, player: Option<PlayerData>)

  /** A cell whose shown position is the one it looks up. */
  function SlotCell(data: seq<ChartEntry>, level: string, position: string): Cell {
    Cell(position, position, level, FindPosition(FilterLevel(data, level), position))
  }

  /** `FMLineFwds`: LW, C and RW of one line. */
  function ForwardCells(data: seq<ChartEntry>, level: string): seq<Cell> {
    [SlotCell(data, level, "LW"), SlotCell(data, level, "C"), SlotCell(data, level, "RW")]
  }

  /** `LineDefs`: LD and RD of one line. */
  function DefenceCells(data: seq<ChartEntry>, level: string): seq<Cell> {
    [SlotCell(data, level, "LD"), SlotCell(data, level, "RD")]
  }

  /** `PKLineFwds` as rendered: shown as PK-1 and PK-2 but filled from the LW
      and C entries of the line. */
  function PenaltyKillForwardCells(data: seq<ChartEntry>, level: string): seq<Cell> {
    var line := FilterLevel(data, level);
    [Cell("PK-1", "LW", level, FindPosition(line, "LW")), Cell("PK-2", "C", level, FindPosition(line, "C"))]
  }

  /** `PKLineFwds` looking up the positions PK-1 and PK-2 that it writes. */
  function PenaltyKillForwardCellsFixed(data: seq<ChartEntry>, level: string): seq<Cell> {
    [SlotCell(data, level, "PK-1"), SlotCell(data, level, "PK-2")]
  }

  datatype LineKind = Forwards | Defence | PenaltyKillForwards

  /** One rendered row of cells: its kind and its depth level. */
  datatype Line = Line(kind: LineKind, depthLevel: string)

  /** The rows of the three tabs in rendering order: full man, power play,
      penalty kill. */
  const Layout: seq<Line> := [
    Line(Forwards, "fm-1"), Line(Forwards, "fm-2"), Line(Forwards, "fm-3"), Line(Forwards, "fm-4"),
    Line(Defence, "fm-1"), Line(Defence, "fm-2"), Line(Defence, "fm-3"), Line(Defence, "fm-4"),
    Line(Forwards, "pp-1"), Line(Defence, "pp-1"),
    Line(Forwards, "pp-2"), Line(Defence, "pp-2"),
    Line(Forwards, "pp-3"), Line(Defence, "pp-3"),
    Line(PenaltyKillForwards, "pk-1"), Line(Defence, "pk-1"),
    Line(PenaltyKillForwards, "pk-2"), Line(Defence, "pk-2")
  ]

  /** The cells of one row; `fixed` chooses the corrected penalty-kill forwards. */
  function LineCells(data: seq<ChartEntry>, line: Line, fixed: bool): seq<Cell> {
    match line.kind
    case Forwards => ForwardCells(data, line.depthLevel)
    case Defence => DefenceCells(data, line.depthLevel)
    case PenaltyKillForwards =>
      if fixed then PenaltyKillForwardCellsFixed(data, line.depthLevel)
      else PenaltyKillForwardCells(data, line.depthLevel)
  }

  /** The cells of several rows, concatenated in order. */
  function Cells(data: seq<ChartEntry>, lines: seq<Line>, fixed: bool): (r: seq<Cell>)
    ensures forall c :: c in r <==> exists k :: 0 <= k < |lines| && c in LineCells(data, lines[k], fixed)
  {
    if lines == [] then []
    else
      var rest := Cells(data, lines[1..], fixed);
      assert forall k :: 1 <= k < |lines| ==> lines[k] == lines[1..][k - 1];
      assert forall c :: c in rest ==> exists k :: 0 <= k < |lines| && c in LineCells(data, lines[k], fixed) by {
        forall c | c in rest
          ensures exists k :: 0 <= k < |lines| && c in LineCells(data, lines[k], fixed)
        {
          var k :| 0 <= k < |lines[1..]| && c in LineCells(data, lines[1..][k], fixed);
          assert c in LineCells(data, lines[k + 1], fixed);
        }
      }
      LineCells(data, lines[0], fixed) + rest
  }

  /** The chart as rendered. */
  function ChartCells(data: seq<ChartEntry>): seq<Cell> { Cells(data, Layout, false) }

  /** The chart with the penalty-kill forward cells looking up what they write. */
  function ChartCellsFixed(data: seq<ChartEntry>): seq<Cell> { Cells(data, Layout, true) }

  /** The full-man and power-play depth levels. */
  predicate IsFullStrength(level: string) { level in ["fm-1", "fm-2", "fm-3", "fm-4", "pp-1", "pp-2", "pp-3"] }

  /** The penalty-kill depth levels. */
  predicate IsPenaltyKill(level: string) { level == "pk-1" || level == "pk-2" }

  /** The five skater positions. */
  predicate IsSkater(position: string) { position in ["LW", "C", "RW", "LD", "RD"] }

  /** Within one row, each cell shows the first entry of the row's level at the
      position it looks up. */
  lemma LineReadsSlots(data: seq<ChartEntry>, line: Line, fixed: bool)
    ensures forall c :: c in LineCells(data, line, fixed) ==>
              c.depthLevel == line.depthLevel && c.player == FindSlot(data, c.depthLevel, c.lookup)
  {
    var l := line.depthLevel;
    match line.kind
    case Forwards =>
      FilterThenFind(data, l, "LW");
      FilterThenFind(data, l, "C");
      FilterThenFind(data, l, "RW");
    case Defence =>
      FilterThenFind(data, l, "LD");
      FilterThenFind(data, l, "RD");
    case PenaltyKillForwards =>
      if fixed {
        FilterThenFind(data, l, "PK-1");
        FilterThenFind(data, l, "PK-2");
      } else {
        FilterThenFind(data, l, "LW");
        FilterThenFind(data, l, "C");
      }
  }

  /** Every cell of the chart shows the first entry of its level at the
      position it looks up, whether rendered as written or corrected. */
  lemma ChartReadsSlots(data: seq<ChartEntry>, fixed: bool)
    ensures forall c :: c in Cells(data, Layout, fixed) ==> c.player == FindSlot(data, c.depthLevel, c.lookup)
  {
    forall k | 0 <= k < |Layout| {
      LineReadsSlots(data, Layout[k], fixed);
    }
  }

  /** Each full-strength level has a forward row and a defence row. */
  lemma FullStrengthRows()
    ensures forall l :: IsFullStrength(l) ==> Line(Forwards, l) in Layout && Line(Defence, l) in Layout
  {
  }

  /** Each penalty-kill level has a penalty-kill forward row and a defence row. */
  lemma PenaltyKillRows()
    ensures forall l :: IsPenaltyKill(l) ==> Line(PenaltyKillForwards, l) in Layout && Line(Defence, l) in Layout
  {
  }

  /** Every row of the layout is well placed, and the two kinds of level are
      disjoint. */
  lemma RowLevels()
    ensures forall k :: 0 <= k < |Layout| ==> RowWellPlaced(Layout[k])
    ensures forall l :: IsFullStrength(l) ==> !IsPenaltyKill(l)
  {
  }

  /** What the cells of one row show and look up, apart from the players. */
  lemma LineLookups(data: seq<ChartEntry>, line: Line, fixed: bool)
    ensures forall c :: c in LineCells(data, line, fixed) ==> c.depthLevel == line.depthLevel
    ensures line.kind != PenaltyKillForwards || fixed ==>
              forall c :: c in LineCells(data, line, fixed) ==> c.position == c.lookup
    ensures line.kind == Forwards ==> forall c :: c in LineCells(data, line, fixed) ==> c.lookup in ["LW", "C", "RW"]
    ensures line.kind == Defence ==> forall c :: c in LineCells(data, line, fixed) ==> c.lookup in ["LD", "RD"]
    ensures line.kind == PenaltyKillForwards && !fixed ==>
              forall c :: c in LineCells(data, line, fixed) ==>
                (c.position == "PK-1" && c.lookup == "LW") || (c.position == "PK-2" && c.lookup == "C")
  {
  }

  /** A row of a full-strength or penalty-kill level: penalty-kill forwards
      only on a penalty-kill level, forwards only on a full-strength one. */
  predicate RowWellPlaced(line: Line) {
    && (IsFullStrength(line.depthLevel) || IsPenaltyKill(line.depthLevel))
    && (line.kind == PenaltyKillForwards ==> IsPenaltyKill(line.depthLevel))
    && (line.kind == Forwards ==> IsFullStrength(line.depthLevel))
  }

  lemma {:induction false} RowsLookups(data: seq<ChartEntry>, lines: seq<Line>)
    requires forall k :: 0 <= k < |lines| ==> RowWellPlaced(lines[k])
    ensures forall c :: c in Cells(data, lines, false) ==> IsFullStrength(c.depthLevel) || IsPenaltyKill(c.depthLevel)
    ensures forall c :: c in Cells(data, lines, false) ==> IsSkater(c.lookup)
    ensures forall c :: c in Cells(data, lines, false) && IsPenaltyKill(c.depthLevel) ==> c.lookup != "RW"
    ensures forall c :: c in Cells(data, lines, false) && c.position != c.lookup ==>
              && IsPenaltyKill(c.depthLevel)
              && ((c.position == "PK-1" && c.lookup == "LW") || (c.position == "PK-2" && c.lookup == "C"))
  {
    assert forall l :: IsFullStrength(l) ==> !IsPenaltyKill(l);
    forall c | c in Cells(data, lines, false)
      ensures IsFullStrength(c.depthLevel) || IsPenaltyKill(c.depthLevel)
      ensures IsSkater(c.lookup)
      ensures IsPenaltyKill(c.depthLevel) ==> c.lookup != "RW"
      ensures c.position != c.lookup ==>
                && IsPenaltyKill(c.depthLevel)
                && ((c.position == "PK-1" && c.lookup == "LW") || (c.position == "PK-2" && c.lookup == "C"))
    {
      var k :| 0 <= k < |lines| && c in LineCells(data, lines[k], false);
      LineLookups(data, lines[k], false);
    }
  }

  /** Which positions each level's cells look up as rendered: every cell
      looks up a skater position, penalty-kill levels never RW, and the
      penalty-kill forward cells are the only ones whose shown position
      (PK-1, PK-2) differs from the one looked up (LW, C). */
  lemma ChartLookups(data: seq<ChartEntry>)
    ensures forall c :: c in ChartCells(data) ==> IsFullStrength(c.depthLevel) || IsPenaltyKill(c.depthLevel)
    ensures forall c :: c in ChartCells(data) ==> IsSkater(c.lookup)
    ensures forall c :: c in ChartCells(data) && IsPenaltyKill(c.depthLevel) ==> c.lookup != "RW"
    ensures forall c :: c in ChartCells(data) && c.position != c.lookup ==>
              && IsPenaltyKill(c.depthLevel)
              && ((c.position == "PK-1" && c.lookup == "LW") || (c.position == "PK-2" && c.lookup == "C"))
  {
    RowLevels();
    RowsLookups(data, Layout);
  }

  /** A cell of a row of `lines` is a cell of `lines`. */
  lemma CellOfRow(data: seq<ChartEntry>, lines: seq<Line>, line: Line, fixed: bool, c: Cell)
    requires line in lines && c in LineCells(data, line, fixed)
    ensures c in Cells(data, lines, fixed)
  {
    var k :| 0 <= k < |lines| && lines[k] == line;
  }

  lemma FullStrengthCoverage(data: seq<ChartEntry>, lines: seq<Line>)
    requires forall l :: IsFullStrength(l) ==> Line(Forwards, l) in lines && Line(Defence, l) in lines
    ensures forall l, p :: IsFullStrength(l) && IsSkater(p) ==>
              exists c :: c in Cells(data, lines, false) && c.depthLevel == l && c.lookup == p
  {
    forall l, p | IsFullStrength(l) && IsSkater(p)
      ensures exists c :: c in Cells(data, lines, false) && c.depthLevel == l && c.lookup == p
    {
      var line := Line(if p == "LW" || p == "C" || p == "RW" then Forwards else Defence, l);
      CellOfRow(data, lines, line, false, SlotCell(data, l, p));
    }
  }

  lemma PenaltyKillCoverage(data: seq<ChartEntry>, lines: seq<Line>)
    requires forall l :: IsPenaltyKill(l) ==> Line(PenaltyKillForwards, l) in lines && Line(Defence, l) in lines
    ensures forall l, p :: IsPenaltyKill(l) && IsSkater(p) && p != "RW" ==>
              exists c :: c in Cells(data, lines, false) && c.depthLevel == l && c.lookup == p
  {
    forall l, p | IsPenaltyKill(l) && IsSkater(p) && p != "RW"
      ensures exists c :: c in Cells(data, lines, false) && c.depthLevel == l && c.lookup == p
    {
      if p == "LW" || p == "C" {
        var c := PenaltyKillForwardCells(data, l)[if p == "LW" then 0 else 1];
        CellOfRow(data, lines, Line(PenaltyKillForwards, l), false, c);
      } else {
        CellOfRow(data, lines, Line(Defence, l), false, SlotCell(data, l, p));
      }
    }
  }

  /** Full-man and power-play levels show all five skater positions,
      penalty-kill levels LW, C, LD and RD. */
  lemma ChartCoverage(data: seq<ChartEntry>)
    ensures forall l, p :: IsFullStrength(l) && IsSkater(p) ==>
              exists c :: c in ChartCells(data) && c.depthLevel == l && c.lookup == p
    ensures forall l, p :: IsPenaltyKill(l) && IsSkater(p) && p != "RW" ==>
              exists c :: c in ChartCells(data) && c.depthLevel == l && c.lookup == p
  {
    FullStrengthRows();
    PenaltyKillRows();
    FullStrengthCoverage(data, Layout);
    PenaltyKillCoverage(data, Layout);
  }

  /** In the corrected chart every cell looks up the slot it writes. */
  lemma FixedChartReadsWhatItWrites(data: seq<ChartEntry>)
    ensures forall c :: c in ChartCellsFixed(data) ==> c.position == c.lookup && c.player == FindSlot(data, c.depthLevel, c.position)
  {
    ChartReadsSlots(data, true);
    forall k | 0 <= k < |Layout| {
      LineLookups(data, Layout[k], true);
    }
  }

  /** Appending an entry for an empty slot fills that slot with its player. */
  lemma AppendFillsEmptySlot(data: seq<ChartEntry>, level: string, position: string, player: PlayerData)
    requires FindSlot(data, level, position).None?
    ensures FindSlot(data + [ChartEntry(level, position, player)], level, position) == Some(player)
  {
    assert FirstMatch(data + [ChartEntry(level, position, player)], level, position, |data|);
  }

  /** The cells of a row depend on the data only through the players shown. */
  lemma LineShape(data: seq<ChartEntry>, data': seq<ChartEntry>, line: Line, fixed: bool)
    ensures |LineCells(data, line, fixed)| == |LineCells(data', line, fixed)|
    ensures forall i :: 0 <= i < |LineCells(data, line, fixed)| ==>
              LineCells(data, line, fixed)[i].(player := None) == LineCells(data', line, fixed)[i].(player := None)
  {
  }

  /** Round trip in the corrected chart: once the entry a click on an empty
      cell of a row asks for is stored, that cell shows the chosen player. */
  lemma FixedCellShowsAssignment(data: seq<ChartEntry>, line: Line, i: nat, player: PlayerData)
    requires i < |LineCells(data, line, true)| && LineCells(data, line, true)[i].player.None?
    ensures var c := LineCells(data, line, true)[i];
            var after := data + [ChartEntry(c.depthLevel, c.position, player)];
            LineCells(after, line, true)[i].player == Some(player)
  {
    var c := LineCells(data, line, true)[i];
    var after := data + [ChartEntry(c.depthLevel, c.position, player)];
    LineReadsSlots(data, line, true);
    LineReadsSlots(after, line, true);
    LineShape(data, after, line, true);
    assert c in LineCells(data, line, true);
    assert LineCells(after, line, true)[i] in LineCells(after, line, true);
    AppendFillsEmptySlot(data, c.depthLevel, c.position, player);
  }

  /** As rendered, the PK-1 cell of the first penalty-kill line stays empty
      after the entry its own click asks for is stored. */
  lemma PenaltyKillCellMissesItsAssignment(player: PlayerData)
    ensures var line := Line(PenaltyKillForwards, "pk-1");
            var c := LineCells([], line, false)[0];
            && line in Layout && c.position == "PK-1" && c.depthLevel == "pk-1" && c.player.None?
            && LineCells([ChartEntry(c.depthLevel, c.position, player)], line, false)[0].player.None?
  {
    assert Layout[14] == Line(PenaltyKillForwards, "pk-1");
  }

  /** What `PlayerCell` renders. */
  datatype CellContent =
    | PlayerCard(jerseyNumber: Option<int>, initial: seq<int>, lastName: string)
    | DialogTrigger(text: string)

  /** `firstName.charAt(0)`: the first UTF-16 code unit, which for a name
      starting above U+FFFF is a lone high surrogate. */
  function CharAt0(s: string): (r: seq<int>)
    ensures |r| <= Utf16Length(s) && r == CodeUnits(s)[..|r|]
    ensures s == [] <==> r == []
    ensures s != [] ==> |r| == 1
    ensures s != [] && s[0] as int < 0x1_0000 ==> r == [s[0] as int]
    ensures s != [] && s[0] as int >= 0x1_0000 ==> 0xD800 <= r[0] < 0xDC00
  {
    if s == [] then []
    else
      assert CodeUnits(s) == CharUnits(s[0]) + CodeUnits(s[1..]);
      CharUnits(s[0])[..1]
  }

  /** A filled cell shows the player's jersey number, first initial and last
      name; an empty one a dialog trigger labelled with its position. */
  function Render(c: Cell): (r: CellContent)
    ensures r.DialogTrigger? <==> c.player.None?
    ensures r.DialogTrigger? ==> r.text == c.position
    ensures r.PlayerCard? ==> r.lastName == c.player.value.lastName && r.jerseyNumber == c.player.value.jerseyNumber
    ensures r.PlayerCard? ==> r.initial == CharAt0(c.player.value.firstName)
  {
    match c.player
    case Some(p) => PlayerCard(p.jerseyNumber, CharAt0(p.firstName), p.lastName)
    case None => DialogTrigger(c.position)
  }

  /** A goalie button: blank when its slot is filled, otherwise its label. */
  function GoalieButton(data: seq<ChartEntry>, level: string, text: string): (r: Option<string>)
    ensures r.None? <==> exists i :: 0 <= i < |data| && data[i].depthLevel == level
    ensures r.Some? ==> r.value == text
  {
    GoalieIgnoresPosition(data, level);
    if FindLevel(data, level).Some? then None else Some(text)
  }

  function StarterButton(data: seq<ChartEntry>): Option<string> { GoalieButton(data, "starter", "Starter") }
  function BackupButton(data: seq<ChartEntry>): Option<string> { GoalieButton(data, "backup", "Backup") }

  /** The slot a click asks to fill. */
  datatype PendingSlot = PendingSlot(position: string, depthLevel: string)

  /** The request a roster row submits to the update action. */
  function SubmitPayload(playerId: string, teamId: string, pending: Option<PendingSlot>): (r: FormData)
    ensures r.Keys == {"playerId", "position", "depthLevel", "teamId"}
    ensures r["playerId"] == playerId && r["teamId"] == teamId
    ensures pending.None? ==> r["position"] == "" && r["depthLevel"] == ""
    ensures pending.Some? ==> r["position"] == pending.value.position && r["depthLevel"] == pending.value.depthLevel
  {
    var position := if pending.Some? then pending.value.position else "";
    var depthLevel := if pending.Some? then pending.value.depthLevel else "";
    map["playerId" := playerId, "position" := position, "depthLevel" := depthLevel, "teamId" := teamId]
  }

  /** The component's state: whether the roster dialog is open and which slot
      a chosen player will be assigned to. */
  class DepthChartDialog {
    const teamId: string
    var dialogOpen: bool
    var updateKey: Option<PendingSlot>

    constructor (teamId: string)
      ensures this.teamId == teamId && !dialogOpen && updateKey.None?
    {
      this.teamId := teamId;
      dialogOpen := false;
      updateKey := None;
    }

    /** `handleUpdateLine`: open the dialog and remember the slot. */
    method HandleUpdateLine(position: string, depthLevel: string)
      modifies this
      ensures dialogOpen && updateKey == Some(PendingSlot(position, depthLevel))
    {
      dialogOpen := true;
      updateKey := Some(PendingSlot(position, depthLevel));
    }

    /** A click on a cell: only an empty cell has a trigger, and it asks for
      its label at its depth level. */
    method Click(c: Cell)
      modifies this
      ensures c.player.None? ==> dialogOpen && updateKey == Some(PendingSlot(c.position, c.depthLevel))
      ensures c.player.Some? ==> dialogOpen == old(dialogOpen) && updateKey == old(updateKey)
    {
      if Render(c).DialogTrigger? {
        HandleUpdateLine(c.position, c.depthLevel);
      }
    }

    /** The dialog's `onOpenChange`. */
    method SetDialogOpen(open: bool)
      modifies this`dialogOpen
      ensures dialogOpen == open
    {
      dialogOpen := open;
    }

    /** A roster row's `onClick`: close the dialog and submit the player with
      the pending slot (empty strings when there is none); the pending slot
      is kept. */
    method ChooseRosterRow(playerId: string) returns (payload: FormData)
      modifies this`dialogOpen
      ensures !dialogOpen && updateKey == old(updateKey)
      ensures payload == SubmitPayload(playerId, teamId, updateKey)
    {
      dialogOpen := false;
      payload := SubmitPayload(playerId, teamId, updateKey);
    }
  }

  /** With no pending slot the request carries empty position and depth level,
      which the update action refuses. */
  lemma PayloadWithoutSlotRejected(playerId: string, teamId: string)
    ensures DepthChartUpdate.ParseForm(SubmitPayload(playerId, teamId, None)).None?
  {
  }

  /** With a pending slot the update action reads back exactly the chosen
      player, the pending slot and the team. */
  lemma PayloadWithSlotParses(playerId: string, teamId: string, slot: PendingSlot)
    requires playerId != "" && teamId != "" && slot.position != "" && slot.depthLevel != ""
    ensures DepthChartUpdate.ParseForm(SubmitPayload(playerId, teamId, Some(slot)))
            == Some(DepthChartUpdate.Fields(playerId, slot.position, slot.depthLevel, teamId))
  {
  }
}
