/**
 * The audit logger and the create-payload cleaner (api/src/utils/common.py).
 */
module Common {
  import opened Wrappers
  import opened Models
  import opened Exceptions

  /** Longest `action_desc` the logger stores. */
  const MaxActionDesc: nat := 255

  /** `message[:255]`: the message cut to at most 255 characters. */
  function Truncate(message: string): (r: string)
    ensures |r| == if |message| < MaxActionDesc then |message| else MaxActionDesc
    ensures r <= message
    ensures |message| <= MaxActionDesc ==> r == message
  {
    if |message| <= MaxActionDesc then message else message[..MaxActionDesc]
  }

  /** The row `log` builds before persisting it. */
  function LogRow(activityId: Uuid, timestamp: int, action: string, message: string,
                  userId: Option<Uuid>, details: string, code: int, projectId: Option<Uuid>): (row: ActivityLog)
    ensures row.actionDesc == Truncate(message)
    ensures |row.actionDesc| <= MaxActionDesc && row.actionDesc <= message
    ensures |message| <= MaxActionDesc ==> row.actionDesc == message
    ensures row.actionType == action && row.statusCode == code && row.details == Some(details)
    ensures row.userId == userId && row.projectId == projectId
    ensures row.activityId == activityId && row.timestamp == timestamp
  {
    ActivityLog(activityId, userId, projectId, code, action, Truncate(message), Some(details), timestamp)
  }

  /** The `ActivityLog` table: append-only, in insertion order. */
  class ActivityStore {
    var rows: seq<ActivityLog>

    constructor ()
      ensures rows == []
    {
      rows := [];
    }

    /**
     * `log`: persist one audit row, best effort. The row id, the clock reading and what
     * the commit reports are parameters. A failed commit is rolled back and never
     * raised; the diagnostic the source prints is returned instead.
     */
    method Log(activityId: Uuid, timestamp: int, outcome: CommitOutcome,
               action: string, message: string, userId: Option<Uuid> := None,
               details: string := "", code: int := 200, projectId: Option<Uuid> := None)
      returns (diagnostic: Option<string>)
      modifies this
      ensures outcome.Committed? ==>
        rows == old(rows) + [LogRow(activityId, timestamp, action, message, userId, details, code, projectId)]
      ensures outcome.Committed? ==> diagnostic == None
      ensures !outcome.Committed? ==> rows == old(rows)
      ensures !outcome.Committed? ==> diagnostic == Some("CRITICAL LOGGING ERROR " + outcome.Text())
    {
      var statuslog := LogRow(activityId, timestamp, action, message, userId, details, code, projectId);
      if outcome.Committed? {
        rows := rows + [statuslog];
        diagnostic := None;
      } else {
        diagnostic := Some("CRITICAL LOGGING ERROR " + outcome.Text());
      }
    }
  }

  /** True when `f` is one of the named primary keys and its value is `None`. */
  predicate IsNoneKey(d: map<string, Value>, pkeys: seq<string>, f: string)
    requires f in d
  {
    f in pkeys && d[f] == VNone
  }

  /** A dumped payload without the named primary keys whose value is `None`. */
  function Cleaned(d: map<string, Value>, pkeys: seq<string>): (r: map<string, Value>)
    ensures forall f :: f in r <==> f in d && !IsNoneKey(d, pkeys, f)
    ensures forall f :: f in r ==> r[f] == d[f]
  {
    map f | f in d && !IsNoneKey(d, pkeys, f) :: d[f]
  }

  /** Cleaning is idempotent: a cleaned payload has no `None` primary key left to drop. */
  lemma CleanedIdempotent(d: map<string, Value>, pkeys: seq<string>)
    ensures Cleaned(Cleaned(d, pkeys), pkeys) == Cleaned(d, pkeys)
  {
  }

  /**
   * `prep_create`: the fields the caller set, minus every named primary key whose
   * value is `None`. A non-`None` key, and a non-key field even when `None`, are kept.
   */
  method PrepCreate(data: Payload, pkeys: seq<string>) returns (validatedData: map<string, Value>)
    ensures validatedData == Cleaned(SetFields(data), pkeys)
    ensures forall f :: f in validatedData <==>
      f in data.explicitlySet && f in data.values && !(f in pkeys && data.values[f] == VNone)
    ensures forall f :: f in validatedData ==> validatedData[f] == data.values[f]
  {
    var dumped := SetFields(data);
    validatedData := dumped;
    var i := 0;
    while i < |pkeys|
      invariant 0 <= i <= |pkeys|
      invariant forall f :: f in validatedData <==> f in dumped && !(f in pkeys[..i] && dumped[f] == VNone)
      invariant forall f :: f in validatedData ==> validatedData[f] == dumped[f]
    {
      var pkey := pkeys[i];
      if pkey in validatedData && validatedData[pkey] == VNone {
        validatedData := validatedData - {pkey};
      }
      assert pkeys[..i + 1] == pkeys[..i] + [pkey];
      i := i + 1;
    }
    assert pkeys[..i] == pkeys;
    assert validatedData.Keys == Cleaned(dumped, pkeys).Keys;
  }
}
