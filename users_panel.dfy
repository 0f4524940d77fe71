/**
 * The account panel (routes/users.rs): the `@<uuid>` path parameter, the
 * update form with its mutually exclusive buttons, and the validation rules
 * the handler applies before updating the account.
 */
module UsersPanel {
  import opened Wrappers
  import opened Text
  import opened Ids
  import opened Errors
  import Users
  import PageContexts

  /** `UuidParamWithAtError`. */
  datatype UuidParamError = NoAtSymbol | InvalidUuid

  /** `UuidParamWithAt::from_param`: an '@' and then a UUID. */
  function FromParam(param: string, parseUuid: UuidParser): (r: Result<UserId, UuidParamError>)
    ensures r == Err(NoAtSymbol) <==> !StartsWith(param, "@")
    ensures r.Ok? <==> StartsWith(param, "@") && parseUuid(param[1..]).Some?
    ensures r.Ok? ==> r.value == parseUuid(param[1..]).value
  {
    match StripPrefix(param, "@")
    case None => Err(NoAtSymbol)
    case Some(rest) =>
      match parseUuid(rest)
      case None => Err(InvalidUuid)
      case Some(id) => Ok(id)
  }

  /** `FormUpdateIntent`. */
  datatype FormUpdateIntent = UpdateName(name: string) | UpdateEmail(email: string) | UpdatePassword(password: string)

  /** `FormUpdateIntentRaw`: the three fields and the three buttons, as submitted. */
  datatype FormUpdateIntentRaw = FormUpdateIntentRaw(
    name: Option<string>,
    email: Option<string>,
    password: Option<string>,
    updateName: bool,
    updateEmail: bool,
    updatePassword: bool)

  /** The one raw form each intent is accepted from: its own field and its own button. */
  function Render(intent: FormUpdateIntent): (raw: FormUpdateIntentRaw)
    ensures raw.updateName <==> intent.UpdateName?
    ensures raw.updateEmail <==> intent.UpdateEmail?
    ensures raw.updatePassword <==> intent.UpdatePassword?
  {
    match intent
    case UpdateName(name) => FormUpdateIntentRaw(Some(name), None, None, true, false, false)
    case UpdateEmail(email) => FormUpdateIntentRaw(None, Some(email), None, false, true, false)
    case UpdatePassword(password) => FormUpdateIntentRaw(None, None, Some(password), false, false, true)
  }

  datatype FormError = Duplicate

  /** `FormUpdateIntent::finalize`: one field with its button, or `Duplicate`. */
  function Finalize(raw: FormUpdateIntentRaw): (r: Result<FormUpdateIntent, FormError>)
    ensures r.Ok? ==> Render(r.value) == raw
    ensures r.Err? ==> forall intent :: Render(intent) != raw
  {
    match raw
    case FormUpdateIntentRaw(Some(name), None, None, true, false, false) => Ok(UpdateName(name))
    case FormUpdateIntentRaw(None, Some(email), None, false, true, false) => Ok(UpdateEmail(email))
    case FormUpdateIntentRaw(None, None, Some(password), false, false, true) => Ok(UpdatePassword(password))
    case _ => Err(Duplicate)
  }

  /** `Finalize` inverts `Render`. */
  lemma FinalizeRender(intent: FormUpdateIntent)
    ensures Finalize(Render(intent)) == Ok(intent)
  {
  }

  /**
   * The validation rules: a name of at least 3 bytes, a password of at least 8, and an
   * email refused only when it is both shorter than 6 bytes and without an '@'.
   */
  predicate Accepted(intent: FormUpdateIntent) {
    match intent
    case UpdateName(name) => !(Utf8Len(name) < 3)
    case UpdateEmail(email) => !(Utf8Len(email) < 6 && '@' !in email)
    case UpdatePassword(password) => !(Utf8Len(password) < 8)
  }

  /** The email rule is weak: an '@' alone or six bytes alone is enough. */
  lemma EmailRule(email: string)
    ensures Accepted(UpdateEmail(email)) <==> Utf8Len(email) >= 6 || '@' in email
    ensures '@' in email ==> Accepted(UpdateEmail(email))
    ensures |email| >= 6 ==> Accepted(UpdateEmail(email))
  {
  }

  function RejectionMessage(intent: FormUpdateIntent): string {
    match intent
    case UpdateName(_) => "Le nom doit faire minimum 3 caractères."
    case UpdateEmail(_) => "Merci de rentrer une adresse e-mail valide."
    case UpdatePassword(_) => "Le mot de passe doit faire minimum 8 caractères."
  }

  function SuccessMessage(intent: FormUpdateIntent): string {
    match intent
    case UpdateName(_) => "Nom mis à jour avec succès !"
    case UpdateEmail(_) => "Adresse e-mail mise à jour avec succès !"
    case UpdatePassword(_) => "Mot de passe mis à jour avec succès !"
  }

  /** The account updates `view_update` calls (`update_username`, `update_email`, `update_password`). */
  type Updater = (UserId, FormUpdateIntent) -> WartIDResult<Users.User>

  /**
   * `view_update` for the account `userId` by the logged-in `me`: the result is the
   * account the page shows. Only one's own account may be updated; a rejected value
   * adds its error flash and updates nothing; otherwise `update` runs and, if it
   * succeeds, a success flash is added.
   */
  method ViewUpdate(ctx: PageContexts.PageContext, me: Users.User, userId: UserId, intent: FormUpdateIntent, update: Updater)
    returns (r: WartIDResult<Users.User>)
    requires ctx.Valid()
    modifies ctx
    ensures ctx.Valid()
    ensures ctx.users == old(ctx.users) && ctx.apps == old(ctx.apps)
    ensures userId != me.id ==>
      r == Err(InvalidCredentials("invalid account")) && ctx.flashMessages == old(ctx.flashMessages)
      && ctx.flashBadRequest == old(ctx.flashBadRequest)
    ensures userId == me.id && !Accepted(intent) ==>
      r == Ok(me) && ctx.flashMessages == old(ctx.flashMessages) + [(RejectionMessage(intent), true)] && ctx.flashBadRequest
    ensures userId == me.id && Accepted(intent) && update(userId, intent).Err? ==>
      r == update(userId, intent) && ctx.flashMessages == old(ctx.flashMessages)
      && ctx.flashBadRequest == old(ctx.flashBadRequest)
    ensures userId == me.id && Accepted(intent) && update(userId, intent).Ok? ==>
      r == update(userId, intent) && ctx.flashMessages == old(ctx.flashMessages) + [(SuccessMessage(intent), false)]
      && ctx.flashBadRequest == old(ctx.flashBadRequest)
  {
    if userId != me.id {
      return Err(InvalidCredentials("invalid account"));
    }
    if !Accepted(intent) {
      ctx.AddFlashMessage(RejectionMessage(intent), true);
      return Ok(me);
    }
    var updated := update(userId, intent);
    if updated.Err? {
      return Err(updated.error);
    }
    ctx.AddFlashMessage(SuccessMessage(intent), false);
    r := Ok(updated.value);
  }
}
