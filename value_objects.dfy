/**
 * The records reachable from the envelope (`Session`, `Context` and what they nest). The records
 * keep the fields the envelope's accessors read, plus a few identifying fields (`isNew`,
 * `sessionId`, `application` and `user` of a session, `audioPlayer` of a context) that no
 * accessor reads. The parsers that build these records from decoded JSON are not part of
 * this model and reach it as parameters. A PHP property
 * that may hold `null` is an `Option`.
 */
module ValueObjects {
  import opened Wrappers
  import opened JsonValues

  datatype Application = Application(applicationId: Option<string>)

  datatype User = User(userId: Option<string>, accessToken: Option<string>)

  datatype Device = Device(deviceId: Option<string>)

  /** `context.System`. */
  datatype System = System(application: Option<Application>, user: Option<User>, device: Option<Device>)

  /** `context`; the audio-player state is kept as the raw JSON it was read from. */
  datatype Context = Context(system: Option<System>, audioPlayer: Option<Json>)

  /** `session`; `attributes` maps each attribute key to its decoded JSON value. */
  datatype Session = Session(
    isNew: Option<bool>,
    sessionId: Option<string>,
    application: Option<Application>,
    user: Option<User>,
    attributes: Option<map<string, Json>>)
}
