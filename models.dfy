/**
 * The records every backend and client shares: dock statuses and locations,
 * the dock row, and the messages exchanged on a live connection
 * (backend_2/internal/models/dock.go and the inline JSON objects of the other
 * backends).
 */
module Models {
  import opened Wrappers

  /** The four statuses a dock can be given. */
  datatype Status = Available | Occupied | OutOfService | Deiced

  /** The two physical zones. */
  datatype Location = Southeast | Southwest

  /**
   * A dock row. `status` is the stored text: several backends store whatever
   * string the request carried, so validity is a separate question (ParseStatus).
   * `name` is absent where the schema has no name column or leaves it NULL.
   */
  datatype Dock = Dock(id: int, location: Location, number: int, status: string, name: Option<string>)

  /**
   * Server-to-client messages. `timestamp` is absent where the backend's JSON
   * object has no such field. `Verbatim` is text queued earlier and replayed as-is.
   */
  datatype ServerMessage =
    | DockUpdated(data: Dock, timestamp: Option<int>)
    | FullSync(docks: seq<Dock>, timestamp: Option<int>)
    | Pong
    | Verbatim(text: string)

  /**
   * A client-to-server frame after JSON parsing: `Malformed` when the text is
   * not a JSON object; otherwise the string value of its "type" field, if any.
   */
  datatype Frame = Malformed | Message(messageType: Option<string>)

  /** The "status" member of a JSON object body: missing, `null`, a string, or some other JSON value. */
  datatype StatusField = Absent | Null | Text(text: string) | NotText

  /**
   * A PUT request body: not JSON at all; the JSON value `null`; an object,
   * with its "status" member; an array or a string, with whether "status" is
   * one of its elements (array) or a substring of it (string); or a number or
   * a boolean.
   */
  datatype Body = Undecodable | NullBody | Decoded(status: StatusField) | ArrayOrString(containsStatus: bool) | NumberOrBool

  /** What a frame asks of the server. */
  datatype Request = PingRequest | SyncRequest | NoRequest

  /** Names of the southwest docks 1..11, in dock-number order. */
  const SouthwestDockNames: seq<string> :=
    ["H84", "H86", "H87", "H89", "H90", "H92", "H93", "H95", "H96", "H98", "H99"]

  function StatusText(s: Status): string
  {
    match s
    case Available => "available"
    case Occupied => "occupied"
    case OutOfService => "out-of-service"
    case Deiced => "deiced"
  }

  function LocationText(l: Location): string
  {
    match l
    case Southeast => "southeast"
    case Southwest => "southwest"
  }

  /** The status a text names, if it names one. */
  function ParseStatus(t: string): (r: Option<Status>)
    ensures r.Some? ==> StatusText(r.value) == t
    ensures r.None? ==> forall s: Status :: StatusText(s) != t
  {
    if t == "available" then Some(Available)
    else if t == "occupied" then Some(Occupied)
    else if t == "out-of-service" then Some(OutOfService)
    else if t == "deiced" then Some(Deiced)
    else None
  }

  /** Parsing the text of a status gives that status back. */
  lemma ParseStatusText(s: Status)
    ensures ParseStatus(StatusText(s)) == Some(s)
  {
  }

  /** The validStatuses table of backend_2 and the list of api/index.py. */
  const ValidStatuses: set<string> := {"available", "occupied", "out-of-service", "deiced"}

  predicate IsValidStatus(t: string)
  {
    t in ValidStatuses
  }

  /** A text is accepted exactly when it is the text of one of the four statuses. */
  lemma ValidStatusesAreStatusTexts(t: string)
    ensures IsValidStatus(t) <==> ParseStatus(t).Some?
    ensures IsValidStatus(t) <==> exists s: Status :: StatusText(s) == t
  {
    if IsValidStatus(t) {
      assert StatusText(ParseStatus(t).value) == t;
    }
  }

  /** Exactly four distinct status texts exist. */
  lemma FourStatuses()
    ensures |ValidStatuses| == 4
  {
    var a, b, c, d := "available", "occupied", "out-of-service", "deiced";
    assert a[0] != b[0] && a[0] != c[0] && a[0] != d[0] && b[0] != d[0] && c[0] != d[0];
    assert b[1] != c[1];
    assert |{a, b, c, d}| == 4;
  }

  /** The "type" field every server message carries on the wire. */
  function TypeTag(m: ServerMessage): string
  {
    match m
    case DockUpdated(_, _) => "dock_updated"
    case FullSync(_, _) => "full_sync"
    case Pong => "pong"
    case Verbatim(_) => ""
  }

  /** The dispatch shared by the backends: "ping" and "request_full_sync"; anything else asks nothing. */
  function Classify(f: Frame): (r: Request)
    ensures r == PingRequest <==> f == Message(Some("ping"))
    ensures r == SyncRequest <==> f == Message(Some("request_full_sync"))
  {
    match f
    case Message(Some(t)) =>
      if t == "ping" then PingRequest
      else if t == "request_full_sync" then SyncRequest
      else NoRequest
    case _ => NoRequest
  }
}
