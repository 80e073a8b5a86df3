/** The rows of the `user_events` table and the `event_data` dictionaries that
    the commands hand to the store (utils/database.py). Times are integer UTC
    seconds. */
module Records {
  import opened Wrappers

  /** The four notifications, one per `*_sent` column. */
  datatype Kind = Reminder | GoodLuck | EndingSoon | Congratulations

  const AllKinds: set<Kind> := {Reminder, GoodLuck, EndingSoon, Congratulations}

  /** The columns reminder_sent, good_luck_sent, ending_soon_sent and
      congratulations_sent, each 0 or 1. */
  datatype Flags = Flags(reminder: bool, goodLuck: bool, endingSoon: bool, congratulations: bool)
  {
    function Get(k: Kind): bool {
      match k
      case Reminder => reminder
      case GoodLuck => goodLuck
      case EndingSoon => endingSoon
      case Congratulations => congratulations
    }

    /** The flags with one column overwritten. */
    function Set(k: Kind, v: bool): (f: Flags)
      ensures f.Get(k) == v
      ensures forall j: Kind | j != k :: f.Get(j) == Get(j)
    {
      match k
      case Reminder => this.(reminder := v)
      case GoodLuck => this.(goodLuck := v)
      case EndingSoon => this.(endingSoon := v)
      case Congratulations => this.(congratulations := v)
    }
  }

  /** The column defaults: `INTEGER DEFAULT 0` for all four. */
  const NoneSent: Flags := Flags(false, false, false, false)

  /** Name of the column that records that a kind was sent. */
  function FlagColumn(k: Kind): string {
    match k
    case Reminder => "reminder_sent"
    case GoodLuck => "good_luck_sent"
    case EndingSoon => "ending_soon_sent"
    case Congratulations => "congratulations_sent"
  }

  /** The allow-list check of `update_notification_flag`: a column name names
      a kind exactly when it is one of the four flag columns. */
  function KindOfColumn(name: string): (k: Option<Kind>)
    ensures k.Some? <==> name in {"reminder_sent", "good_luck_sent", "ending_soon_sent", "congratulations_sent"}
    ensures k.Some? ==> FlagColumn(k.value) == name
  {
    if name == "reminder_sent" then Some(Reminder)
    else if name == "good_luck_sent" then Some(GoodLuck)
    else if name == "ending_soon_sent" then Some(EndingSoon)
    else if name == "congratulations_sent" then Some(Congratulations)
    else None
  }

  lemma FlagColumnRoundTrip(k: Kind)
    ensures KindOfColumn(FlagColumn(k)) == Some(k)
  {
  }

  /** The primary key (user_id, event_name). */
  type Key = (int, string)

  /** One row of `user_events`. */
  datatype Record = Record(
    user_id: int,
    event_name: string,
    ctftime_url: Option<string>,
    event_url: Option<string>,
    start_time: int,
    end_time: int,
    format: Option<string>,
    organizers: Option<string>,
    weight: Option<real>,
    description: Option<string>,
    participants: Option<int>,
    sent: Flags)

  function KeyOf(r: Record): Key {
    (r.user_id, r.event_name)
  }

  /** The `event_data` dictionary read by `add_event_to_user`. */
  datatype EventData = EventData(
    event_name: string,
    ctftime_url: Option<string>,
    url: Option<string>,
    start: int,
    finish: int,
    format: Option<string>,
    organizers: Option<string>,
    weight: Option<real>,
    description: Option<string>,
    participants: Option<int>)

  /** The row that the INSERT of `add_event_to_user` creates: the dictionary's
      values in their columns (`url` goes to event_url, `start`/`finish` to
      start_time/end_time) and every flag at its default 0. */
  function NewRecord(user: int, d: EventData): (r: Record)
    ensures KeyOf(r) == (user, d.event_name)
    ensures r.sent == NoneSent
  {
    Record(user, d.event_name, d.ctftime_url, d.url, d.start, d.finish,
           d.format, d.organizers, d.weight, d.description, d.participants, NoneSent)
  }
}
