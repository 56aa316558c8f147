/** The database tables the core reads and writes, as in-memory values.
    A table keyed by its primary key is a map from id to row; a table the
    routes search with `findFirst` on a non-key column is a sequence of rows
    in storage order, so that "the first match" has a meaning; the statuses,
    which are only listed in full, are a sequence too. */
module Db {
  import opened Common

  /** A row that is only an id and a name: positions, depth levels, statuses. */
  datatype NamedRow = NamedRow(id: string, name: string)

  /** A depth-chart row: one player assigned to one slot of one team. */
  datatype DepthChartRow = DepthChartRow(depthLevelId: string, playerId: string, positionId: string, teamId: string)

  /** The slot a depth-chart row fills. */
  datatype SlotKey = SlotKey(teamId: string, positionId: string, depthLevelId: string)

  function Slot(row: DepthChartRow): SlotKey {
    SlotKey(row.teamId, row.positionId, row.depthLevelId)
  }

  /** The columns of a team that the team editor writes. */
  datatype Team = Team(name: string, associationId: string, levelId: string, caliberId: string, coachId: string, seasonId: string)

  datatype PlayerProfile = PlayerProfile(firstName: string, lastName: string, jerseyNumber: Option<int>, statusId: string)

  /** At most one depth-chart row per (team, position, depth level) slot. */
  ghost predicate SlotsUnique(rows: seq<DepthChartRow>) {
    forall i, j :: 0 <= i < j < |rows| ==> Slot(rows[i]) != Slot(rows[j])
  }

  /** No two rows of an id-to-name table carry the same name. */
  ghost predicate NamesDistinct(table: map<string, string>) {
    forall a, b :: a in table && b in table && a != b ==> table[a] != table[b]
  }

  /** The tables the core's actions read or change. */
  class Database {
    var positions: seq<NamedRow>
    var depthLevels: seq<NamedRow>
    var depthCharts: seq<DepthChartRow>
    var calibers: map<string, string>
    var levels: map<string, string>
    var teams: map<string, Team>
    var players: map<string, PlayerProfile>
    var statuses: seq<NamedRow>

    /** The invariants every action keeps. */
    ghost predicate Valid()
      reads this
    {
      SlotsUnique(depthCharts) && NamesDistinct(calibers) && NamesDistinct(levels)
    }

    constructor ()
      ensures Valid()
      ensures positions == [] && depthLevels == [] && depthCharts == [] && statuses == []
      ensures calibers == map[] && levels == map[] && teams == map[] && players == map[]
    {
      positions, depthLevels, depthCharts, statuses := [], [], [], [];
      calibers, levels, teams, players := map[], map[], map[], map[];
    }
  }
}
