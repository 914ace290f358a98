/** Scoring, token claims and the response mappers of the shared utility file. */
module Utils {
  import opened Wrappers
  import opened Types

  /** Points for finishing positions 1 to 10 of a race. */
  const Scores: seq<int> := [25, 18, 15, 12, 10, 8, 6, 4, 2, 1]

  /** `expiresIn: "1h"` and `expiresIn: "1d"`, in seconds. */
  const AccessLifetime: nat := 3600
  const RefreshLifetime: nat := 86400

  /**
   * `pos <= 10 ? scores[pos - 1] : 0`. `NaN <= 10` is false, so an unparsable
   * position scores 0; a position below 1 reads outside `scores` and gives
   * `undefined` (None).
   */
  function PositionPoints(pos: ParsedInt): (p: Option<int>)
    ensures pos.Int? && 1 <= pos.n <= 10 ==> p == Some(Scores[pos.n - 1])
    ensures pos.NaN? || pos.n > 10 ==> p == Some(0)
    ensures pos.Int? && pos.n < 1 ==> p == None
  {
    if pos.Int? && pos.n <= 10 then
      if 1 <= pos.n then Some(Scores[pos.n - 1]) else None
    else Some(0)
  }

  /** `calculateRacePoints`: races score by position, qualifying by fastest lap, anything else 0. */
  function CalculateRacePoints(r: ResultRow): (p: Option<int>)
    ensures r.raceType == "Race" ==> p == PositionPoints(r.position)
    ensures r.raceType == "Qualifying" ==> p == Some(if r.fastestLap == Some(true) then 1 else 0)
    ensures r.raceType != "Race" && r.raceType != "Qualifying" ==> p == Some(0)
  {
    if r.raceType == "Race" then PositionPoints(r.position)
    else if r.raceType == "Qualifying" then (if r.fastestLap == Some(true) then Some(1) else Some(0))
    else Some(0)
  }

  /** The scores table is strictly decreasing. */
  lemma ScoresStrictlyDecreasing(i: int, j: int)
    requires 0 <= i < j < |Scores|
    ensures Scores[i] > Scores[j]
  {
    assert |Scores| == 10;
    assert Scores[0] == 25 && Scores[1] == 18 && Scores[2] == 15 && Scores[3] == 12 && Scores[4] == 10;
    assert Scores[5] == 8 && Scores[6] == 6 && Scores[7] == 4 && Scores[8] == 2 && Scores[9] == 1;
  }

  /** Whatever the position, race points lie between 0 and 25. */
  lemma PositionPointsBounded(pos: ParsedInt)
    ensures PositionPoints(pos).Some? ==> 0 <= PositionPoints(pos).value <= 25
  {
    if pos.Int? && 1 <= pos.n <= 10 {
      if pos.n > 1 { ScoresStrictlyDecreasing(0, pos.n - 1); }
      if pos.n < 10 { ScoresStrictlyDecreasing(pos.n - 1, 9); }
    }
  }

  /** A better finishing position never scores fewer points. */
  lemma PositionPointsMonotone(a: int, b: int)
    requires 1 <= a <= b
    ensures PositionPoints(Int(a)).Some? && PositionPoints(Int(b)).Some?
    ensures PositionPoints(Int(a)).value >= PositionPoints(Int(b)).value
  {
    if b <= 10 {
      if a < b { ScoresStrictlyDecreasing(a - 1, b - 1); }
    } else if a <= 10 {
      PositionPointsBounded(Int(a));
    }
  }

  /** The object `createAccessToken` and `createRefreshToken` read: `user_id`, `email`, `role`. */
  datatype Principal = Principal(userId: Option<string>, email: Option<string>, role: Option<string>)

  function PrincipalOf(u: User): Principal
  {
    Principal(Some(u.userId), Some(u.email), Some(u.role))
  }

  /** The payload both token kinds are signed with: `{id, email, role}` and nothing else. */
  function TokenClaims(p: Principal): (c: Claims)
    ensures c.id == p.userId && c.email == p.email && c.role == p.role
    ensures c.userId.None? && c.tfa.None?
  {
    Claims(p.userId, p.email, p.role, None, None)
  }

  /** `createAccessToken`: the claims under JWT_SECRET, valid for an hour. */
  function CreateAccessToken(p: Principal): (t: Token)
    ensures t.claims == TokenClaims(p) && t.key == AccessKey && t.expiresIn == 3600
  {
    Token(TokenClaims(p), AccessKey, AccessLifetime)
  }

  /** `createRefreshToken`: the same claims under REFRESH_SECRET, valid for a day. */
  function CreateRefreshToken(u: User): (t: Token)
    ensures t.claims == CreateAccessToken(PrincipalOf(u)).claims
    ensures t.key == RefreshKey && t.key != CreateAccessToken(PrincipalOf(u)).key
    ensures t.expiresIn == 86400 && t.expiresIn == 24 * CreateAccessToken(PrincipalOf(u)).expiresIn
  {
    Token(TokenClaims(PrincipalOf(u)), RefreshKey, RefreshLifetime)
  }

  /** What `decodeAccessToken` gives back: `null`, the payload, or the exception of `jwt.verify`. */
  datatype Decoded = Null | Payload(claims: Claims) | Throws

  /**
   * `decodeAccessToken`, with `jwt.verify` under JWT_SECRET as the oracle
   * `verify` (None when it throws). The payload is returned only once
   * verification succeeded.
   */
  function DecodeAccessToken(token: Option<string>, verify: string -> Option<Claims>): (d: Decoded)
    ensures d == Null <==> !Present(token)
    ensures d.Payload? <==> Present(token) && verify(token.value).Some?
    ensures d.Payload? ==> d.claims == verify(token.value).value
    ensures d == Throws <==> Present(token) && verify(token.value).None?
  {
    if !Present(token) then Null
    else match verify(token.value)
      case None => Throws
      case Some(c) => Payload(c)
  }

  /** `parseResultCompetition`. */
  function ParseResultCompetition(r: ResultRow): (c: WeekendCompetitionResponse)
    ensures c.id == r.competitionId && c.name == r.competitionName
  {
    WeekendCompetitionResponse(r.competitionId, r.competitionName)
  }

  /** `parseResultTrack`. */
  function ParseResultTrack(r: ResultRow): (t: TrackDriverResponse)
    ensures t.id == r.trackId && t.name == r.trackName
  {
    TrackDriverResponse(r.trackId, r.trackName)
  }

  /** `parseResultWeekend`: the weekend with its competition nested inside. */
  function ParseResultWeekend(r: ResultRow): (w: WeekendResponse)
    ensures w.id == r.weekendId && w.weekendName == r.weekendName
    ensures w.competition == ParseResultCompetition(r)
  {
    WeekendResponse(r.weekendId, ParseResultCompetition(r), r.weekendName)
  }

  /** The row after `result.points = calculateRacePoints(result)`. */
  function WithPoints(r: ResultRow): (s: ResultRow)
    ensures s.points == CalculateRacePoints(r)
    ensures s.(points := r.points) == r
  {
    r.(points := CalculateRacePoints(r))
  }

  /** `parseDriverResults`: scores the row, then copies it into the response shape. */
  function ParseDriverResults(r: ResultRow): (out: ResultResponse)
    ensures out.points == CalculateRacePoints(r) == WithPoints(r).points
    ensures out.id == r.resultId && out.position == r.position && out.fastestLap == r.fastestLap
    ensures out.race.id == r.raceId && out.race.raceType == r.raceType
    ensures out.race.startTime == r.startTime && out.race.durationMs == r.durationMs
    ensures out.race.track == ParseResultTrack(r) && out.race.weekend == ParseResultWeekend(r)
  {
    var scored := WithPoints(r);
    ResultResponse(
      scored.resultId, scored.position, scored.fastestLap, scored.points,
      RaceResponse(scored.raceId, ParseResultWeekend(scored), ParseResultTrack(scored),
                   scored.durationMs, scored.raceType, scored.startTime))
  }

  /** The response keeps every field it shows, so equal responses come from rows that agree on them. */
  lemma ParseDriverResultsDeterminesShownFields(a: ResultRow, b: ResultRow)
    requires ParseDriverResults(a) == ParseDriverResults(b)
    ensures a.(driver := b.driver, points := b.points) == b
  {
  }

  /** `parseDriverResponse`: `driver_id` becomes `id`; results are mapped one to one, in order. */
  function ParseDriverResponse(d: Driver): (out: DriverResponse)
    ensures out.id == d.driverId && out.userName == d.userName && out.carNumber == d.carNumber
    ensures out.firstName == d.firstName && out.lastName == d.lastName
    ensures out.birthdate == d.birthdate && out.country == d.country
    ensures |out.results| == |d.results|
    ensures forall i :: 0 <= i < |d.results| ==> out.results[i] == ParseDriverResults(d.results[i])
  {
    DriverResponse(
      d.driverId, d.userName, d.firstName, d.lastName, d.birthdate, d.country, d.carNumber,
      seq(|d.results|, i requires 0 <= i < |d.results| => ParseDriverResults(d.results[i])))
  }
}
