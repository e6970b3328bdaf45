/**
 * The JWT claim set (src/auth/interfaces/jwt-payload.interface.ts) and the
 * Passport strategy of src/auth/jwt.strategy.ts: the constructor's guard on
 * the signing secret and the `validate` projection.
 */
module Jwt {
  import opened Wrappers

  /** A claim value that the core carries but never interprets (`iat`, `exp`, ...). */
  datatype Claim = NullClaim | BoolClaim(b: bool) | NumberClaim(n: int) | TextClaim(s: string)

  /**
   * A decoded token. The eight named fields are the ones the interface declares;
   * `null` is `None` for the four nullable ids and `undefined` is `None` for the
   * optional `perfil_ids`. `extra` holds every other claim the token carried.
   */
  datatype JwtPayload = JwtPayload(
    usu_id: int,
    usu_correo: string,
    rol_id: Option<int>,
    reg_id: Option<int>,
    car_id: Option<int>,
    dp_id: Option<int>,
    es_nacional: bool,
    perfil_ids: Option<seq<int>>,
    extra: map<string, Claim>)

  /** Two claim sets agree on the eight fields the interface declares. */
  predicate SameDeclaredClaims(p: JwtPayload, q: JwtPayload)
  {
    && p.usu_id == q.usu_id
    && p.usu_correo == q.usu_correo
    && p.rol_id == q.rol_id
    && p.reg_id == q.reg_id
    && p.car_id == q.car_id
    && p.dp_id == q.dp_id
    && p.es_nacional == q.es_nacional
    && p.perfil_ids == q.perfil_ids
  }

  /** `JwtStrategy.validate`: a fresh record built from the eight declared fields. */
  function Validate(payload: JwtPayload): (user: JwtPayload)
    ensures SameDeclaredClaims(user, payload)
    ensures user.extra == map[]
  {
    JwtPayload(payload.usu_id, payload.usu_correo, payload.rol_id, payload.reg_id,
               payload.car_id, payload.dp_id, payload.es_nacional, payload.perfil_ids, map[])
  }

  /** Applying `validate` to its own output changes nothing. */
  lemma ValidateIdempotent(payload: JwtPayload)
    ensures Validate(Validate(payload)) == Validate(payload)
  {
  }

  /** Two tokens give the same user exactly when they agree on the declared claims. */
  lemma ValidateKernel(p: JwtPayload, q: JwtPayload)
    ensures Validate(p) == Validate(q) <==> SameDeclaredClaims(p, q)
  {
  }

  /** A claim set survives `validate` unchanged exactly when it carries no extra claim. */
  lemma ValidateFixpoint(payload: JwtPayload)
    ensures Validate(payload) == payload <==> payload.extra == map[]
  {
  }

  /** No claim outside the declared eight survives `validate`. */
  lemma ValidateDropsExtraClaims(payload: JwtPayload, name: string)
    requires name in payload.extra
    ensures name !in Validate(payload).extra
  {
  }

  /** Where passport-jwt looks for the token: the `Authorization: Bearer <token>` header. */
  datatype TokenSource = FromAuthHeaderAsBearerToken

  /** The options the constructor passes to `PassportStrategy`. */
  datatype StrategyOptions = StrategyOptions(
    jwtFromRequest: TokenSource,
    ignoreExpiration: bool,
    secretOrKey: string)

  const MissingSecretMessage := "JWT_SECRET is not defined"

  /**
   * The `JwtStrategy` constructor: `secret` is `JWT_SECRET` as the configuration
   * returns it. A missing or empty secret throws; otherwise the strategy is built
   * with expiry checking on and the secret as verification key.
   */
  function NewJwtStrategy(secret: Option<string>): (r: Result<StrategyOptions, string>)
    ensures r.Failure? <==> secret == None || secret == Some("")
    ensures r.Failure? ==> r.error == MissingSecretMessage
    ensures r.Success? ==> && Some(r.value.secretOrKey) == secret
                           && r.value.secretOrKey != ""
                           && !r.value.ignoreExpiration
                           && r.value.jwtFromRequest == FromAuthHeaderAsBearerToken
  {
    if secret == None || secret.value == "" then
      Failure(MissingSecretMessage)
    else
      Success(StrategyOptions(FromAuthHeaderAsBearerToken, false, secret.value))
  }
}
