/** The player-status select box: the colour marker shown for a status name
    and the request sent when a status is chosen. */
module Status {
  import opened Common
  import opened Db
  import PlayerEditor

  const Emerald := "bg-emerald-500"
  const Red := "bg-red-500"
  const Amber := "bg-amber-400"

  /** The marker's colour class: emerald for `Present`, red for `Injured` or
      `Suspended`, amber for anything else (names are compared exactly). */
  function MarkerColour(statusName: string): (r: string)
    ensures r == Emerald <==> statusName == "Present"
    ensures r == Red <==> statusName == "Injured" || statusName == "Suspended"
    ensures r == Amber <==> statusName != "Present" && statusName != "Injured" && statusName != "Suspended"
  {
    if statusName == "Present" then Emerald
    else if statusName == "Injured" || statusName == "Suspended" then Red
    else Amber
  }

  /** Every name gets exactly one of the three colours; the second clause
      records only that the three colour constants differ. */
  lemma MarkerColourTotal(statusName: string)
    ensures MarkerColour(statusName) in {Emerald, Red, Amber}
    ensures Emerald != Red && Red != Amber && Emerald != Amber
  {
  }

  /** The comparison is case-sensitive: "present" is amber. */
  lemma LowerCasePresentIsAmber()
    ensures MarkerColour("present") == Amber
  {
  }

  /** A select-box item: a status with its name as the label (`caption`). */
  datatype Item = Item(id: string, name: string, caption: string)

  function Items(statuses: seq<NamedRow>): (r: seq<Item>)
    ensures |r| == |statuses|
    ensures forall i :: 0 <= i < |r| ==>
      r[i].id == statuses[i].id && r[i].name == statuses[i].name && r[i].caption == statuses[i].name
  {
    seq(|statuses|, i requires 0 <= i < |statuses| => Item(statuses[i].id, statuses[i].name, statuses[i].name))
  }

  /** The form posted to the player editor when `value` is chosen in the row
      of `playerId`. */
  function Payload(value: string, playerId: string): (r: FormData)
    ensures r.Keys == {"actionId", "statusId", "playerId"}
    ensures r["actionId"] == PlayerEditor.UpdateStatus && r["statusId"] == value && r["playerId"] == playerId
  {
    map["actionId" := PlayerEditor.UpdateStatus, "statusId" := value, "playerId" := playerId]
  }

  /** Choosing a status for an existing player sets exactly that player's
      status and answers with the full status list. */
  lemma {:induction false} ChoosingUpdatesStatus(players: map<string, PlayerProfile>, statuses: seq<NamedRow>,
                                                 value: string, playerId: string)
    requires value != "" && playerId in players && playerId != ""
    ensures PlayerEditor.Step(players, statuses, Payload(value, playerId), true)
      == PlayerEditor.Outcome(PlayerEditor.PlayerStatus(statuses), players[playerId := players[playerId].(statusId := value)])
  {
    var form := Payload(value, playerId);
    assert PlayerEditor.Issues(form) == [];
  }
}
