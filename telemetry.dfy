/**
 * The values the listener handles: one decoded sensor reading, the
 * in-memory record of the last reading (`lastReceivedData`), and the
 * row of placeholders bound to the insert statement.
 */
module Telemetry {
  import opened Wrappers

  /** A JSON primitive as it appears in a discrete field. Strict
      (in)equality `!==` on such values is structural equality here. */
  datatype Scalar = Null | Bool(b: bool) | Num(n: real) | Str(s: string)

  /** One decoded payload. The continuous sensor values are numbers; the
      actuator and status fields are whatever primitive the device sent. */
  datatype Reading = Reading(
    suhu: real,        // temperature
    gas: real,
    asap: real,        // smoke
    statusApi: Scalar, // flame/fire status
    kipas: Scalar,     // fan
    buzzer: Scalar,
    pompa: Scalar      // pump
  )

  /** The module-level record `lastReceivedData`. Before the first reading
      every field is `null`; the continuous ones are then `None` and the
      discrete ones `Null`. */
  datatype Baseline = Baseline(
    suhu: Option<real>,
    gas: Option<real>,
    asap: Option<real>,
    statusApi: Scalar,
    kipas: Scalar,
    buzzer: Scalar,
    pompa: Scalar
  )

  /** The record the process starts with: all seven fields `null`. */
  const INITIAL: Baseline := Baseline(None, None, None, Null, Null, Null, Null)

  /** The record after `lastReceivedData = newData`. */
  function Of(r: Reading): (b: Baseline)
    ensures b.suhu.Some? && b != INITIAL
  {
    Baseline(Some(r.suhu), Some(r.gas), Some(r.asap), r.statusApi, r.kipas, r.buzzer, r.pompa)
  }

  /** A record holding a reading determines that reading. */
  lemma OfInjective(r1: Reading, r2: Reading)
    ensures Of(r1) == Of(r2) <==> r1 == r2
  {
  }

  /** JavaScript's numeric conversion of a possibly-null number: `null` is 0. */
  function ToNumber(x: Option<real>): (n: real)
    ensures x == Some(n) || (x == None && n == 0.0)
  {
    match x
    case None => 0.0
    case Some(v) => v
  }

  /** The table's columns, in the order of the insert statement's column list. */
  const COLUMNS: seq<string> := ["suhu", "gas", "asap", "status_api", "kipas", "buzzer", "pompa"]

  /** Looks a reading's field up by its column name. */
  function Field(r: Reading, column: string): Option<Scalar> {
    if column == "suhu" then Some(Num(r.suhu))
    else if column == "gas" then Some(Num(r.gas))
    else if column == "asap" then Some(Num(r.asap))
    else if column == "status_api" then Some(r.statusApi)
    else if column == "kipas" then Some(r.kipas)
    else if column == "buzzer" then Some(r.buzzer)
    else if column == "pompa" then Some(r.pompa)
    else None
  }

  /** The seven values bound to the insert statement's placeholders. */
  function Values(r: Reading): (row: seq<Scalar>)
    ensures |row| == |COLUMNS|
    ensures forall i :: 0 <= i < |row| ==> Field(r, COLUMNS[i]) == Some(row[i])
  {
    [Num(r.suhu), Num(r.gas), Num(r.asap), r.statusApi, r.kipas, r.buzzer, r.pompa]
  }

  /** Reads a stored row back into a reading; the inverse of `Values`. */
  function RowReading(row: seq<Scalar>): (r: Option<Reading>)
    ensures r.Some? ==> |row| == |COLUMNS|
  {
    if |row| == 7 && row[0].Num? && row[1].Num? && row[2].Num? then
      Some(Reading(row[0].n, row[1].n, row[2].n, row[3], row[4], row[5], row[6]))
    else
      None
  }

  /** Every row written by the insert can be read back as the reading it came from. */
  lemma ValuesRoundTrip(r: Reading)
    ensures RowReading(Values(r)) == Some(r)
  {
  }

  /** Different readings give different rows. */
  lemma ValuesInjective(r1: Reading, r2: Reading)
    ensures Values(r1) == Values(r2) ==> r1 == r2
  {
    ValuesRoundTrip(r1);
    ValuesRoundTrip(r2);
  }
}
