/**
 * The middlewares that guard POST and PUT /talker: the authorization token,
 * `name`, `age` and the `talk` object with its `watchedAt` and `rate`. Each
 * is a function from the request's fields to the first verdict it sends.
 */
module ValidateNewTalker {
  import opened Wrappers
  import opened Js
  import opened Http

  const TokenNotFound := "Token não encontrado"
  const TokenInvalid := "Token inválido"
  const NameRequired := "O campo \"name\" é obrigatório"
  const NameTooShort := "O \"name\" deve ter pelo menos 3 caracteres"
  const AgeRequired := "O campo \"age\" é obrigatório"
  const AgeInvalid := "O campo \"age\" deve ser um número inteiro igual ou maior que 18"
  const TalkRequired := "O campo \"talk\" é obrigatório"
  const WatchedAtRequired := "O campo \"watchedAt\" é obrigatório"
  const WatchedAtFormat := "O campo \"watchedAt\" deve ter o formato \"dd/mm/aaaa\""
  const RateRequired := "O campo \"rate\" é obrigatório"
  const RateInvalid := "O campo \"rate\" deve ser um número inteiro entre 1 e 5"

  /**
   * `req.body.talk`: a primitive (`Undefined` when absent) or an object whose
   * absent keys read as `Undefined`. Destructuring a truthy primitive yields
   * undefined fields.
   */
  datatype TalkField = Scalar(value: JsValue) | Object(watchedAt: JsValue, rate: JsValue)

  /** The fields of a create or update request that the middlewares read. */
  datatype TalkerRequest = TalkerRequest(authorization: JsValue, name: JsValue, age: JsValue, talk: TalkField)

  /** `!talk`: an object is always truthy. */
  predicate TalkFalsy(talk: TalkField)
  {
    talk.Scalar? && Falsy(talk.value)
  }

  function WatchedAtOf(talk: TalkField): JsValue
  {
    if talk.Object? then talk.watchedAt else Undefined
  }

  function RateOf(talk: TalkField): JsValue
  {
    if talk.Object? then talk.rate else Undefined
  }

  /** An integer from 1 to 5: what a stored rating must be. */
  predicate RateInRange(rate: JsValue)
  {
    IsInteger(rate) && 1.0 <= rate.n <= 5.0
  }

  /** validateAuthorization: the token must be a string of exactly 16 characters. */
  function ValidateAuthorization(req: TalkerRequest): (r: Verdict)
    ensures Falsy(req.authorization) ==> r == Reject(Unauthorized, TokenNotFound)
    ensures r == Next <==> req.authorization.Str? && |req.authorization.s| == 16
    ensures !Falsy(req.authorization) && r != Next ==> r == Reject(Unauthorized, TokenInvalid)
  {
    var token := req.authorization;
    if Falsy(token) then Reject(Unauthorized, TokenNotFound)
    else if LengthOf(token) != Some(16) || !token.Str? then Reject(Unauthorized, TokenInvalid)
    else Next
  }

  /** validateName: a truthy name; a string one must have at least 3 characters. */
  function ValidateName(req: TalkerRequest): (r: Verdict)
    ensures Falsy(req.name) ==> r == Reject(BadRequest, NameRequired)
    ensures req.name.Str? ==> (r == Next <==> |req.name.s| >= 3)
    ensures req.name.Str? && 0 < |req.name.s| < 3 ==> r == Reject(BadRequest, NameTooShort)
    ensures r == Next <==> !Falsy(req.name) && (req.name.Str? ==> |req.name.s| >= 3)
  {
    var name := req.name;
    if Falsy(name) then Reject(BadRequest, NameRequired)
    else if (match LengthOf(name) case Some(n) => n < 3 case None => false) then Reject(BadRequest, NameTooShort)
    else Next
  }

  /** validateAge: an integer no smaller than 18; `!age` is tested first. */
  function ValidateAge(req: TalkerRequest): (r: Verdict)
    ensures Falsy(req.age) ==> r == Reject(BadRequest, AgeRequired)
    ensures r == Next <==> IsInteger(req.age) && req.age.n >= 18.0
    ensures !Falsy(req.age) && r != Next ==> r == Reject(BadRequest, AgeInvalid)
  {
    var age := req.age;
    if Falsy(age) then Reject(BadRequest, AgeRequired)
    else if LessThan(age, 18.0) || !IsInteger(age) then Reject(BadRequest, AgeInvalid)
    else Next
  }

  /** validateWatchedAt; `isValidDate` stands for date-fns parsing under "dd/MM/yyyy". */
  function ValidateWatchedAt(watchedAt: JsValue, isValidDate: JsValue -> bool): (r: Verdict)
    ensures r == Next <==> isValidDate(watchedAt)
    ensures r != Next ==> r == Reject(BadRequest, WatchedAtFormat)
  {
    if !isValidDate(watchedAt) then Reject(BadRequest, WatchedAtFormat) else Next
  }

  /** The condition of validateRate, as written: it holds for every rate that is not an integer from 1 to 5. */
  predicate RateOutOfRange(rate: JsValue)
    ensures RateOutOfRange(rate) <==> !RateInRange(rate)
  {
    LessThan(rate, 1.0) || GreaterThan(rate, 5.0) || !IsInteger(rate) || rate == Num(0.0)
  }

  /** validateRate: rejects every rate that is not an integer from 1 to 5. */
  function ValidateRate(rate: JsValue): (r: Verdict)
    ensures r == Next <==> RateInRange(rate)
    ensures r != Next ==> r == Reject(BadRequest, RateInvalid)
  {
    if RateOutOfRange(rate) then Reject(BadRequest, RateInvalid) else Next
  }

  // The steps of validateTalk, in the order it runs them.

  function TalkPresence(talk: TalkField): Verdict
  {
    if TalkFalsy(talk) then Reject(BadRequest, TalkRequired) else Next
  }

  function WatchedAtPresenceAndFormat(watchedAt: JsValue, isValidDate: JsValue -> bool): Verdict
  {
    if Falsy(watchedAt) then Reject(BadRequest, WatchedAtRequired)
    else if !isValidDate(watchedAt) then Reject(BadRequest, WatchedAtFormat)
    else Next
  }

  function RatePresence(rate: JsValue): Verdict
  {
    if Falsy(rate) then Reject(BadRequest, RateRequired) else Next
  }

  /**
   * validateTalk: the first failure, checked in this order: talk missing,
   * watchedAt missing, watchedAt format, rate missing, rate out of range.
   */
  function ValidateTalk(req: TalkerRequest, isValidDate: JsValue -> bool): (r: Verdict)
    ensures TalkFalsy(req.talk) ==> r == Reject(BadRequest, TalkRequired)
    ensures !TalkFalsy(req.talk) && Falsy(WatchedAtOf(req.talk)) ==>
      r == Reject(BadRequest, WatchedAtRequired)
    ensures !TalkFalsy(req.talk) && !Falsy(WatchedAtOf(req.talk)) && !isValidDate(WatchedAtOf(req.talk)) ==>
      r == Reject(BadRequest, WatchedAtFormat)
    ensures !TalkFalsy(req.talk) && !Falsy(WatchedAtOf(req.talk)) && isValidDate(WatchedAtOf(req.talk))
              && Falsy(RateOf(req.talk)) ==>
      r == Reject(BadRequest, RateRequired)
    ensures !TalkFalsy(req.talk) && !Falsy(WatchedAtOf(req.talk)) && isValidDate(WatchedAtOf(req.talk))
              && !Falsy(RateOf(req.talk)) && !RateInRange(RateOf(req.talk)) ==>
      r == Reject(BadRequest, RateInvalid)
    ensures r == Next <==>
      !TalkFalsy(req.talk) && !Falsy(WatchedAtOf(req.talk)) && isValidDate(WatchedAtOf(req.talk))
      && RateInRange(RateOf(req.talk))
  {
    var talk := req.talk;
    var watchedAt := WatchedAtOf(talk);
    var rate := RateOf(talk);
    Then(TalkPresence(talk),
    Then(WatchedAtPresenceAndFormat(watchedAt, isValidDate),
    Then(ValidateWatchedAt(watchedAt, isValidDate),
    Then(RatePresence(rate),
    ValidateRate(rate)))))
  }

  // ---------------------------------------------------------------------------
  // Properties

  /** 18 passes; 17 and 17.5 are out of range; a missing age and 0 are reported as missing. */
  lemma AgeExamples(req: TalkerRequest)
    ensures ValidateAge(req.(age := Num(18.0))) == Next
    ensures ValidateAge(req.(age := Num(17.0))) == Reject(BadRequest, AgeInvalid)
    ensures ValidateAge(req.(age := Num(17.5))) == Reject(BadRequest, AgeInvalid)
    ensures ValidateAge(req.(age := Undefined)) == Reject(BadRequest, AgeRequired)
    ensures ValidateAge(req.(age := Num(0.0))) == Reject(BadRequest, AgeRequired)
  {
  }

  /** The `rate === 0` disjunct of validateRate adds nothing to the other three. */
  lemma RateZeroTestIsRedundant(rate: JsValue)
    ensures RateOutOfRange(rate) <==> LessThan(rate, 1.0) || GreaterThan(rate, 5.0) || !IsInteger(rate)
    ensures RateOutOfRange(rate) <==> !RateInRange(rate)
  {
  }

  /** 1 to 5 pass; 0, 6 and 2.5 are rejected. */
  lemma RateExamples()
    ensures ValidateRate(Num(1.0)) == Next && ValidateRate(Num(2.0)) == Next
    ensures ValidateRate(Num(3.0)) == Next && ValidateRate(Num(4.0)) == Next
    ensures ValidateRate(Num(5.0)) == Next
    ensures ValidateRate(Num(0.0)) == Reject(BadRequest, RateInvalid)
    ensures ValidateRate(Num(6.0)) == Reject(BadRequest, RateInvalid)
    ensures ValidateRate(Num(2.5)) == Reject(BadRequest, RateInvalid)
  {
  }

  /** A rate of 0 is falsy, so it is reported as missing rather than out of range. */
  lemma RateZeroIsReportedMissing(req: TalkerRequest, isValidDate: JsValue -> bool)
    requires req.talk.Object? && req.talk.rate == Num(0.0)
    requires !Falsy(req.talk.watchedAt) && isValidDate(req.talk.watchedAt)
    ensures ValidateTalk(req, isValidDate) == Reject(BadRequest, RateRequired)
  {
  }

  /** The extra validateWatchedAt call repeats a test already made and never changes the verdict. */
  lemma WatchedAtRecheckIsRedundant(req: TalkerRequest, isValidDate: JsValue -> bool)
    ensures ValidateTalk(req, isValidDate) ==
      Then(TalkPresence(req.talk),
      Then(WatchedAtPresenceAndFormat(WatchedAtOf(req.talk), isValidDate),
      Then(RatePresence(RateOf(req.talk)),
      ValidateRate(RateOf(req.talk)))))
  {
  }

  /** A talk that passes has a parseable watchedAt and an integer rate from 1 to 5. */
  lemma AcceptedTalkIsWellFormed(req: TalkerRequest, isValidDate: JsValue -> bool)
    requires ValidateTalk(req, isValidDate) == Next
    ensures req.talk.Object?
    ensures isValidDate(req.talk.watchedAt)
    ensures req.talk.rate.Num? && req.talk.rate.n == req.talk.rate.n.Floor as real
    ensures 1.0 <= req.talk.rate.n <= 5.0
  {
  }
}
