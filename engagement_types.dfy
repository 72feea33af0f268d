/**
  The two entities of the engagement dataset: a synthetic user, created once,
  and the per-day engagement record that copies the user's fields and adds
  the day's measurements. Rows of the flat table are Records.
 */
module EngagementTypes {

  /** A value that may be missing: a `None` feedback score, or the NaN that
      pandas returns for the mean of an empty selection. */
  datatype Option<T> = None | Some(value: T)

  datatype User = User(
    userId: int,
    age: int,
    gender: string,
    location: string,
    device: string,
    network: string)

  /** One row of the table: the user's fields, then the day's fields. */
  datatype Record = Record(
    userId: int,
    age: int,
    gender: string,
    location: string,
    device: string,
    network: string,
    date: string,
    clicks: int,
    sessionDuration: int,
    featureVersion: string,
    feedbackScore: Option<int>,
    retentionFlag: int,
    dataUsedMb: real)

  /** The user fields that a record carries. */
  function UserOf(r: Record): User {
    User(r.userId, r.age, r.gender, r.location, r.device, r.network)
  }
}
