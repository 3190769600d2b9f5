/**
 * The callback that `passportCall` hands to the authentication strategy
 * (src/utils.js:45-68): it adapts the strategy's `(err, user, info)` outcome
 * into a call of `next` or a 401 response, translating the known rejection
 * reasons into Spanish user-facing messages.
 */
module Auth {
  import opened Optional

  /** What the strategy reports when it rejects: an optional `message` and the `toString()` text. */
  datatype Info = Info(message: Option<string>, text: string)

  /** The body of the unauthorized response, `{status, message: [...]}`. */
  datatype ErrorBody = ErrorBody(status: string, message: seq<string>)

  /** How `next` was invoked: `next(err)` or `next()`. */
  datatype NextArg<Cause> = WithError(cause: Cause) | Proceed

  const Unauthorized: int := 401

  /** The fixed translation table of known rejection reasons. */
  const Translations: map<string, string> := map[
    "jwt expired" := "El token ha expirado",
    "No auth token" := "No se ha enviado el token",
    "invalid token" := "El token es inválido"
  ]

  /** A single lookup in the table; any reason that is not a key is kept verbatim. */
  function Translate(reason: string): string
  {
    if reason in Translations then Translations[reason] else reason
  }

  /** A JavaScript string is truthy exactly when it is not empty. */
  predicate Truthy(s: Option<string>)
  {
    s.Some? && s.value != ""
  }

  /** The rejection reason: the strategy's message when it has a non-empty one, otherwise the info's text form. */
  function Reason(info: Info): string
  {
    if Truthy(info.message) then info.message.value else info.text
  }

  lemma KnownReasonsTranslated()
    ensures Translate("jwt expired") == "El token ha expirado"
    ensures Translate("No auth token") == "No se ha enviado el token"
    ensures Translate("invalid token") == "El token es inválido"
  {
  }

  /** No translated text is itself a key of the table. */
  lemma TranslationsAreNotKeys(reason: string)
    requires reason in Translations
    ensures Translations[reason] !in Translations
  {
  }

  /** A reason is kept verbatim exactly when it is not one of the three keys. */
  lemma TranslateFixesExactlyNonKeys(reason: string)
    ensures Translate(reason) == reason <==> reason !in Translations
  {
  }

  lemma TranslateIdempotent(reason: string)
    ensures Translate(Translate(reason)) == Translate(reason)
  {
  }

  /**
   * Lines 48-60: pick the reason, then rewrite it through three independent `if`s.
   * The chain gives the same text as one lookup in `Translations`.
   */
  method SelectMessage(info: Info) returns (errorMessage: string)
    ensures errorMessage == Translate(Reason(info))
    ensures Truthy(info.message) && info.message.value !in Translations ==> errorMessage == info.message.value
    ensures !Truthy(info.message) && info.text !in Translations ==> errorMessage == info.text
  {
    errorMessage := if Truthy(info.message) then info.message.value else info.text;

    if errorMessage == "jwt expired" {
      errorMessage := "El token ha expirado";
    }

    if errorMessage == "No auth token" {
      errorMessage := "No se ha enviado el token";
    }

    if errorMessage == "invalid token" {
      errorMessage := "El token es inválido";
    }
  }

  /**
   * The request/response/next triple seen by one invocation of the callback:
   * `req.user`, the response status code and sent body, and the calls made to `next`.
   */
  class Exchange<User, Cause> {
    var requestUser: Option<User>
    var status: int
    var sent: Option<ErrorBody>
    var nextCalls: seq<NextArg<Cause>>

    /** A fresh request: no user attached, the default status 200, nothing sent, `next` not called. */
    constructor ()
      ensures requestUser == None && status == 200 && sent == None && nextCalls == []
    {
      requestUser := None;
      status := 200;
      sent := None;
      nextCalls := [];
    }

    /**
     * The strategy callback `(err, user, info) => ...`.  `None` for `err` or `user`
     * stands for any falsy value.  `None` for `info` stands only for `null` or
     * `undefined`, where reading `info.message` throws; the model then reports
     * `threw` and changes nothing.  Any other `info` value, including a falsy
     * one such as `false`, is `Some(Info(message, text))` with its text form.
     */
    method Authenticate(err: Option<Cause>, user: Option<User>, info: Option<Info>) returns (threw: bool)
      modifies this
      // An error wins over everything else: forwarded to `next`, nothing else changes.
      ensures err.Some? ==>
        !threw && nextCalls == old(nextCalls) + [WithError(err.value)] &&
        requestUser == old(requestUser) && status == old(status) && sent == old(sent)
      // Rejected: 401 with the translated reason as a one-element list; `next` not called.
      ensures err.None? && user.None? && info.Some? ==>
        !threw && status == Unauthorized &&
        sent == Some(ErrorBody("error", [Translate(Reason(info.value))])) &&
        nextCalls == old(nextCalls) && requestUser == old(requestUser)
      ensures err.None? && user.None? && info.None? ==>
        threw && nextCalls == old(nextCalls) && requestUser == old(requestUser) &&
        status == old(status) && sent == old(sent)
      // Accepted: the user is attached and `next()` is called; no response is written.
      ensures err.None? && user.Some? ==>
        !threw && requestUser == user && nextCalls == old(nextCalls) + [Proceed] &&
        status == old(status) && sent == old(sent)
    {
      threw := false;
      if err.Some? {
        nextCalls := nextCalls + [WithError(err.value)];
        return;
      }
      if user.None? {
        if info.None? {
          threw := true;
          return;
        }
        var errorMessage := SelectMessage(info.value);
        status := Unauthorized;
        sent := Some(ErrorBody("error", [errorMessage]));
        return;
      }
      requestUser := user;
      nextCalls := nextCalls + [Proceed];
    }
  }
}
