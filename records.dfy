/**
 * The two record types of the store and the JSON objects the `serialize`
 * methods build from them: one key per mapped column, named as the column.
 * `/sync` sends `{"UID": id}` per card; `/logs` sends
 * `{"timestamp": t, "UID": id, "status": s}` per log entry.
 */
module Records {
  import opened Wrappers

  /** One row of `validation_logs`: composite primary key (timestamp, UID), plus free-text status. */
  datatype LogEntry = LogEntry(timestamp: nat, uid: string, status: string)

  /** A JSON field value: a string column, or a timestamp column. */
  datatype Value = Text(text: string) | Time(instant: nat)

  type Object = map<string, Value>

  /** `Card.serialize`. */
  function SerializeCard(uid: string): Object
  {
    map["UID" := Text(uid)]
  }

  /** `ValidationLog.serialize`. */
  function SerializeEntry(e: LogEntry): Object
  {
    map["timestamp" := Time(e.timestamp), "UID" := Text(e.uid), "status" := Text(e.status)]
  }

  /** What a client of `/sync` reads back from one object: the card id, if the object has one. */
  function ParseCard(obj: Object): (uid: Option<string>)
    ensures uid.Some? ==> obj == SerializeCard(uid.value)
  {
    if obj.Keys == {"UID"} && obj["UID"].Text? then Some(obj["UID"].text) else None
  }

  /** What a client of `/logs` reads back from one object. */
  function ParseEntry(obj: Object): (e: Option<LogEntry>)
    ensures e.Some? ==> obj == SerializeEntry(e.value)
  {
    if obj.Keys == {"timestamp", "UID", "status"} && obj["timestamp"].Time?
       && obj["UID"].Text? && obj["status"].Text?
    then Some(LogEntry(obj["timestamp"].instant, obj["UID"].text, obj["status"].text))
    else None
  }

  /** A serialized card loses nothing: its id is read back exactly. */
  lemma CardRoundTrip(uid: string)
    ensures ParseCard(SerializeCard(uid)) == Some(uid)
  {
  }

  /** A serialized log entry loses nothing: every column is read back exactly. */
  lemma EntryRoundTrip(e: LogEntry)
    ensures ParseEntry(SerializeEntry(e)) == Some(e)
  {
  }
}
