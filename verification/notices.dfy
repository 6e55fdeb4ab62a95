/** The rows the service queues for the bot, and the answers a raider can give. */
module Notices {
  import opened Options

  type CharacterId = int
  type EventId = int

  datatype Status = Confirmed | Tentative | Declined | Late | Absent | NoShow

  datatype Kind =
    | Reminder24h | ReminderPreEvent | SignupDeadline | CompNag
    | LateRequestFiled | CompSlotDropped | SignupChanged | CompChanged
    | EventCreated | EventChanged | RosterUpdated | DeliveryFailed

  /** Who a row addresses. ToMessage addresses nobody: it is an edit of the posted message. */
  datatype Target =
    | ToUser(discordId: int)
    | ToRole(channel: int, roles: seq<int>)
    | ToMessage(channel: int)
    | ToChannel(channel: int, mentions: seq<int>)

  datatype Payload =
    | Nothing
    | Asked(title: string, character: CharacterId, status: Status)
    | SlotsDropped(title: string, character: CharacterId, left: Option<Status>, comps: set<string>)
    | Unanswered(title: string, startsAt: int, deadline: int)
    | Starting(title: string, startsAt: int, message: Option<int>)
    | StartingAs(title: string, startsAt: int, role: Option<string>)
    | Turnout(title: string, counts: map<Status, nat>)
    | FailureOf(title: string, failed: Kind, error: string)

  /** The raid lead roles each guild has named; a guild that named none has none. */
  type LeadRoles = map<int, seq<int>>

  function RolesOf(leads: LeadRoles, guild: int): seq<int> { if guild in leads then leads[guild] else [] }

  datatype Notice = Notice(guild: int, event: EventId, kind: Kind, target: Target, payload: Payload)
}
