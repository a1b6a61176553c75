/**
 * The per-round regiment-to-team dictionary (`regimentTeams`): round id
 * (or `null`) to regiment name to team name.  `setRegimentTeam` and
 * `getRegimentTeam` address it by the given round id, or by the selected
 * round when none is given.
 */
module Teams {
  import opened Optional

  /** `{ roundId: { regimentName: team } }`; the `null` round is a key of its own. */
  type TeamTable = map<Option<int>, map<string, string>>

  /** The round an action addresses: the given one, else the selected one. */
  function TargetRound(roundId: Option<int>, selectedRoundId: Option<int>): Option<int> {
    if roundId.Some? then roundId else selectedRoundId
  }

  /** Assignment is refused when no round is addressed and there is more than one round. */
  predicate AssignmentBlocked(target: Option<int>, roundCount: nat) {
    target.None? && roundCount > 1
  }

  /** Sets (or, for a `null` team, deletes) the team of a regiment in the target round's dictionary, creating it when missing. */
  function AssignTeam(teams: TeamTable, target: Option<int>, regiment: string, team: Option<string>): (r: TeamTable)
    ensures target in r
    ensures team.Some? ==> regiment in r[target] && r[target][regiment] == team.value
    ensures team.None? ==> regiment !in r[target]
  {
    var inner := if target in teams then teams[target] else map[];
    teams[target := if team.None? then inner - {regiment} else inner[regiment := team.value]]
  }

  /** `regimentTeams[target]?.[regiment] || null`: no team for a `null` target, a missing entry or an empty name. */
  function LookupTeam(teams: TeamTable, target: Option<int>, regiment: string): (r: Option<string>)
    ensures r.Some? ==> target.Some? && target in teams && regiment in teams[target] && r.value == teams[target][regiment] && r.value != ""
    ensures r.None? ==> target.None? || target !in teams || regiment !in teams[target] || teams[target][regiment] == ""
  {
    if target.None? then None
    else if target in teams && regiment in teams[target] && teams[target][regiment] != "" then Some(teams[target][regiment])
    else None
  }

  /** Setting a team for a round and reading it back gives that team (an empty name reads as none). */
  lemma SetThenGet(teams: TeamTable, roundId: int, regiment: string, team: string)
    ensures LookupTeam(AssignTeam(teams, Some(roundId), regiment, Some(team)), Some(roundId), regiment)
            == if team == "" then None else Some(team)
  {
  }

  /** Deleting a regiment's team leaves none to read. */
  lemma DeleteThenGet(teams: TeamTable, target: Option<int>, regiment: string)
    ensures LookupTeam(AssignTeam(teams, target, regiment, None), target, regiment) == None
  {
  }

  /** Assigning one regiment in one round leaves every other regiment and round as it was. */
  lemma AssignLeavesOthers(teams: TeamTable, target: Option<int>, regiment: string, team: Option<string>,
                           target': Option<int>, regiment': string)
    requires target' != target || regiment' != regiment
    ensures LookupTeam(AssignTeam(teams, target, regiment, team), target', regiment') == LookupTeam(teams, target', regiment')
  {
  }

  /**
   * With no round addressed nothing is ever read, even what an assignment
   * with no round addressed (allowed with at most one round) stored under
   * the `null` key.
   */
  lemma NullTargetReadsNothing(teams: TeamTable, regiment: string)
    ensures LookupTeam(teams, None, regiment) == None
  {
  }
}
