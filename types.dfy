/** The records of the data model: table rows, response shapes and token claims. */
module Types {
  import opened Wrappers

  /** A row of the `users` table; `tfaSecret` is `null` while two-factor authentication is off. */
  datatype User = User(
    userId: string,
    email: string,
    password: string,   // the bcrypt digest
    role: string,
    tfaEnabled: bool,
    tfaSecret: Option<string>)

  /** A row of the `tfa_backup_codes` table. */
  datatype BackupCodeRow = BackupCodeRow(userId: string, code: string, isUsed: bool)

  /** What JavaScript's `parseInt` gives for a text column: an integer or `NaN`. */
  datatype ParsedInt = Int(n: int) | NaN

  /** A row of `results` joined with its race, track, weekend and competition. */
  datatype ResultRow = ResultRow(
    resultId: string,
    driver: Option<string>,
    position: ParsedInt,
    fastestLap: Option<bool>,
    points: Option<int>,
    raceId: string,
    raceType: string,
    startTime: string,
    durationMs: int,
    trackId: string,
    trackName: string,
    weekendId: string,
    weekendName: string,
    competitionId: string,
    competitionName: string)

  /** A row of `drivers`, with the result rows attached to it. */
  datatype Driver = Driver(
    driverId: string,
    userName: string,
    firstName: string,
    lastName: string,
    birthdate: string,
    country: string,
    carNumber: string,
    results: seq<ResultRow>)

  datatype WeekendCompetitionResponse = WeekendCompetitionResponse(id: string, name: string)
  datatype TrackDriverResponse = TrackDriverResponse(id: string, name: string)
  datatype WeekendResponse = WeekendResponse(
    id: string, competition: WeekendCompetitionResponse, weekendName: string)
  datatype RaceResponse = RaceResponse(
    id: string, weekend: WeekendResponse, track: TrackDriverResponse,
    durationMs: int, raceType: string, startTime: string)
  datatype ResultResponse = ResultResponse(
    id: string, position: ParsedInt, fastestLap: Option<bool>, points: Option<int>,
    race: RaceResponse)
  datatype DriverResponse = DriverResponse(
    id: string, userName: string, firstName: string, lastName: string,
    birthdate: string, country: string, carNumber: string,
    results: seq<ResultResponse>)

  /**
   * The payload of a verified JSON Web Token. Issued tokens carry `id`, `email`
   * and `role`; `userId` (the `user_id` claim) and `tfa` are read by some
   * handlers but never written by the issuer. `tfa == Some(true)` is "truthy".
   */
  datatype Claims = Claims(
    id: Option<string>,
    email: Option<string>,
    role: Option<string>,
    userId: Option<string>,
    tfa: Option<bool>)

  /** Which secret signed a token: JWT_SECRET or REFRESH_SECRET. */
  datatype SigningKey = AccessKey | RefreshKey

  /** A signed token: its claims, its key and its lifetime in seconds. */
  datatype Token = Token(claims: Claims, key: SigningKey, expiresIn: nat)

  /** What a handler sends: a status and the tokens it issued, or nothing at all. */
  datatype Reply =
    | Reply(status: int, access: Option<Token>, refresh: Option<Token>)
    | NoReply
}
