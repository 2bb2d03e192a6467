/** Availability states, and the two computations of a station's state from those of its connectors. */
module StationStatuses {
  import opened Text

  datatype Status = AVAILABLE | OCCUPIED | OFFLINE | MAINTENANCE

  datatype ConnectorType = TYPE_1 | TYPE_2 | CCS | CHADEMO | TESLA | GBT

  function Priority(s: Status): nat {
    match s
    case AVAILABLE => 0
    case OCCUPIED => 1
    case MAINTENANCE => 2
    case OFFLINE => 3
  }

  /** The best state among the connectors: available beats occupied beats maintenance beats offline. */
  function Aggregate(statuses: seq<Status>): Status {
    if AVAILABLE in statuses then AVAILABLE
    else if OCCUPIED in statuses then OCCUPIED
    else if MAINTENANCE in statuses then MAINTENANCE
    else OFFLINE
  }

  method ComputeAggregateStationStatus(connectorStatuses: seq<Status>) returns (bestStatus: Status)
    ensures bestStatus == Aggregate(connectorStatuses)
  {
    if |connectorStatuses| == 0 {
      return OFFLINE;
    }
    bestStatus := OFFLINE;
    var bestPriority := Priority(OFFLINE);
    for i := 0 to |connectorStatuses|
      invariant bestPriority == Priority(bestStatus)
      invariant bestStatus == Aggregate(connectorStatuses[..i])
    {
      var status := connectorStatuses[i];
      assert connectorStatuses[..i + 1] == connectorStatuses[..i] + [status];
      var priority := Priority(status);
      if priority < bestPriority {
        bestPriority := priority;
        bestStatus := status;
      }
    }
    assert connectorStatuses[..|connectorStatuses|] == connectorStatuses;
  }

  // ----- the SQL expression: encode every row, take the minimum, decode -----

  function Encode(s: Status): nat {
    if s == AVAILABLE then 0 else if s == OCCUPIED then 1 else if s == MAINTENANCE then 2 else 3
  }

  /** MIN over no rows is NULL. */
  function SqlMin(codes: seq<nat>): Option<nat> {
    if codes == [] then None
    else
      var rest := SqlMin(codes[1..]);
      if rest.None? || codes[0] < rest.value then Some(codes[0]) else rest
  }

  function Decode(code: Option<nat>): Status {
    if code == Some(0) then AVAILABLE
    else if code == Some(1) then OCCUPIED
    else if code == Some(2) then MAINTENANCE
    else OFFLINE
  }

  function Codes(statuses: seq<Status>): seq<nat> {
    if statuses == [] then [] else [Encode(statuses[0])] + Codes(statuses[1..])
  }

  function AggregateSql(statuses: seq<Status>): Status {
    Decode(SqlMin(Codes(statuses)))
  }

  lemma {:induction false} LeastCode(statuses: seq<Status>)
    ensures SqlMin(Codes(statuses)) == if statuses == [] then None else Some(Encode(Aggregate(statuses)))
  {
    if statuses != [] {
      var rest := statuses[1..];
      assert statuses == [statuses[0]] + rest;
      LeastCode(rest);
      assert Codes(statuses)[1..] == Codes(rest);
    }
  }

  /** Both computations agree on every list, the empty one included. */
  lemma SqlAgreesWithLoop(statuses: seq<Status>)
    ensures AggregateSql(statuses) == Aggregate(statuses)
  {
    LeastCode(statuses);
  }

  /** Only which states occur matters: neither their order nor their repetition. */
  lemma OrderAndRepetitionDoNotMatter(a: seq<Status>, b: seq<Status>)
    requires forall s :: s in a <==> s in b
    ensures AggregateSql(a) == AggregateSql(b)
  {
    SqlAgreesWithLoop(a);
    SqlAgreesWithLoop(b);
  }

  // ----- names as they appear in keys and queries -----

  function StatusName(s: Status): string {
    match s
    case AVAILABLE => "AVAILABLE"
    case OCCUPIED => "OCCUPIED"
    case OFFLINE => "OFFLINE"
    case MAINTENANCE => "MAINTENANCE"
  }

  function ConnectorTypeName(t: ConnectorType): string {
    match t
    case TYPE_1 => "TYPE_1"
    case TYPE_2 => "TYPE_2"
    case CCS => "CCS"
    case CHADEMO => "CHADEMO"
    case TESLA => "TESLA"
    case GBT => "GBT"
  }
}
