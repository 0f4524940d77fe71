/**
 * The app settings panel (routes/apps.rs): the update form, whose buttons are
 * mutually exclusive, and the handler that validates and applies it.
 */
module AppsPanel {
  import opened Wrappers
  import opened Text
  import opened Ids
  import opened Errors
  import Apps
  import PageContexts

  /** `FormUpdateIntent`. */
  datatype FormUpdateIntent =
    | UpdateGeneral(name: string, description: string)
    | OAuthSetRedirectUri(uri: string)
    | OAuthEnable
    | OAuthDisable

  /** `FormUpdateIntentRaw`: the text fields and the four buttons, as submitted. */
  datatype FormUpdateIntentRaw = FormUpdateIntentRaw(
    name: Option<string>,
    description: Option<string>,
    oauthRedirectUri: Option<string>,
    updateGeneral: bool,
    oauthEnable: bool,
    oauthDisable: bool,
    oauthUpdateRedirect: bool)

  /** The one raw form each intent is accepted from. */
  function Render(intent: FormUpdateIntent): (raw: FormUpdateIntentRaw)
    ensures raw.updateGeneral <==> intent.UpdateGeneral?
    ensures raw.oauthEnable <==> intent.OAuthEnable?
    ensures raw.oauthDisable <==> intent.OAuthDisable?
    ensures raw.oauthUpdateRedirect <==> intent.OAuthSetRedirectUri?
  {
    match intent
    case UpdateGeneral(name, description) => FormUpdateIntentRaw(Some(name), Some(description), None, true, false, false, false)
    case OAuthEnable => FormUpdateIntentRaw(None, None, None, false, true, false, false)
    case OAuthDisable => FormUpdateIntentRaw(None, None, None, false, false, true, false)
    case OAuthSetRedirectUri(uri) => FormUpdateIntentRaw(None, None, Some(uri), false, false, false, true)
  }

  /** The form error for any other combination. */
  datatype FormError = Duplicate

  /**
   * `FormUpdateIntent::finalize`: exactly one button, exactly the fields it needs, and
   * nothing else; every other submission is `Duplicate`.
   */
  function Finalize(raw: FormUpdateIntentRaw): (r: Result<FormUpdateIntent, FormError>)
    ensures r.Ok? ==> Render(r.value) == raw
    ensures r.Err? ==> forall intent :: Render(intent) != raw
  {
    match raw
    case FormUpdateIntentRaw(Some(name), Some(description), None, true, false, false, false) => Ok(UpdateGeneral(name, description))
    case FormUpdateIntentRaw(None, None, None, false, true, false, false) => Ok(OAuthEnable)
    case FormUpdateIntentRaw(None, None, None, false, false, true, false) => Ok(OAuthDisable)
    case FormUpdateIntentRaw(None, None, Some(uri), false, false, false, true) => Ok(OAuthSetRedirectUri(uri))
    case _ => Err(Duplicate)
  }

  /** Every intent is recovered from its raw form: `Finalize` inverts `Render`. */
  lemma FinalizeRender(intent: FormUpdateIntent)
    ensures Finalize(Render(intent)) == Ok(intent)
  {
  }

  /** Two buttons at once are always refused. */
  lemma TwoButtonsRefused(raw: FormUpdateIntentRaw)
    requires (raw.updateGeneral && raw.oauthEnable) || (raw.oauthEnable && raw.oauthDisable)
          || (raw.oauthDisable && raw.oauthUpdateRedirect) || (raw.updateGeneral && raw.oauthUpdateRedirect)
    ensures Finalize(raw) == Err(Duplicate)
  {
  }

  const NAME_TOO_SHORT: string := "Le nom de la WartApp doit faire minimum 3 caractères de long."

  function SuccessMessage(intent: FormUpdateIntent): string {
    match intent
    case UpdateGeneral(_, _) => "Nom et/ou description de l'app mis·es à jour avec succès."
    case OAuthEnable => "Secret OAuth2 généré."
    case OAuthDisable => "OAuth2 désactivé."
    case OAuthSetRedirectUri(_) => "URI de redirection OAuth2 autorisé mis à jour."
  }

  /** An app name must be at least three bytes long. */
  predicate NameAccepted(intent: FormUpdateIntent) {
    intent.UpdateGeneral? ==> Utf8Len(intent.name) >= 3
  }

  /** The app after the setter the intent maps to; `secret` is the one `set_oauth` draws. */
  function Applied(app: Apps.UserApp, intent: FormUpdateIntent, secret: string): (r: Apps.UserApp)
    ensures r.id == app.id && r.hidden == app.hidden
    ensures intent.OAuthEnable? ==> Apps.OAuth2(r) == Some((secret, app.oauthRedirect))
    ensures intent.OAuthDisable? ==> Apps.OAuth2(r).None?
    ensures !intent.UpdateGeneral? ==> r.name == app.name && r.description == app.description
    ensures intent.UpdateGeneral? ==> r.name == intent.name && r.description == Some(intent.description)
    ensures !intent.OAuthSetRedirectUri? ==> r.oauthRedirect == app.oauthRedirect
    ensures intent.OAuthSetRedirectUri? ==> r.oauthRedirect == intent.uri
  {
    match intent
    case UpdateGeneral(name, description) => app.(name := name, description := Some(description))
    case OAuthEnable => Apps.WithOAuth(app, true, secret)
    case OAuthDisable => Apps.WithOAuth(app, false, secret)
    case OAuthSetRedirectUri(uri) => app.(oauthRedirect := uri)
  }

  /** Runs the setter the intent maps to: the app becomes `Applied`, or a missing app is `NotFound`. */
  method ApplyIntent(apps: Apps.AppDirectory, appId: AppId, intent: FormUpdateIntent, secret: string)
    returns (updated: WartIDResult<Apps.UserApp>)
    requires apps.Valid()
    requires |secret| == 64 && IsAlphanumeric(secret)
    modifies apps
    ensures apps.Valid() && apps.managers == old(apps.managers)
    ensures updated.Ok? <==> appId in old(apps.apps)
    ensures updated.Ok? ==> apps.apps == old(apps.apps)[appId := Applied(old(apps.apps)[appId], intent, secret)]
    ensures updated.Ok? ==> updated.value == apps.apps[appId]
    ensures updated.Err? ==> apps.apps == old(apps.apps) && updated.error == Database(NotFound)
  {
    match intent {
      case UpdateGeneral(name, description) =>
        updated := apps.SetNameDescription(appId, name, description);
      case OAuthEnable =>
        updated := apps.SetOAuth(appId, true, secret);
      case OAuthDisable =>
        updated := apps.SetOAuth(appId, false, secret);
      case OAuthSetRedirectUri(uri) =>
        updated := apps.SetOAuthRedirectUri(appId, uri);
    }
  }

  /**
   * `view_update` for the app `appId`: the result is the app the page shows (`None` for
   * a missing app shown after a rejected name). A rejected name adds an error flash and
   * changes nothing; otherwise the intent's setter runs and, if it succeeds, a success
   * flash is added.
   */
  method ViewUpdate(ctx: PageContexts.PageContext, apps: Apps.AppDirectory, appId: AppId, intent: FormUpdateIntent, secret: string)
    returns (r: WartIDResult<Option<Apps.UserApp>>)
    requires ctx.Valid() && apps.Valid()
    requires |secret| == 64 && IsAlphanumeric(secret)
    modifies ctx, apps
    ensures ctx.Valid() && apps.Valid()
    ensures ctx.users == old(ctx.users) && ctx.apps == old(ctx.apps) && apps.managers == old(apps.managers)
    ensures !NameAccepted(intent) ==>
      && apps.apps == old(apps.apps)
      && ctx.flashMessages == old(ctx.flashMessages) + [(NAME_TOO_SHORT, true)]
      && r == Ok(if appId in apps.apps then Some(apps.apps[appId]) else None)
    ensures NameAccepted(intent) && appId !in old(apps.apps) ==>
      && r == Err(Database(NotFound))
      && apps.apps == old(apps.apps) && ctx.flashMessages == old(ctx.flashMessages)
      && ctx.flashBadRequest == old(ctx.flashBadRequest)
    ensures NameAccepted(intent) && appId in old(apps.apps) ==>
      && apps.apps == old(apps.apps)[appId := Applied(old(apps.apps)[appId], intent, secret)]
      && r == Ok(Some(apps.apps[appId]))
      && ctx.flashMessages == old(ctx.flashMessages) + [(SuccessMessage(intent), false)]
      && ctx.flashBadRequest == old(ctx.flashBadRequest)
  {
    if !NameAccepted(intent) {
      ctx.AddFlashMessage(NAME_TOO_SHORT, true);
      var found := apps.FindById(appId);
      return Ok(found.value);
    }
    var updated := ApplyIntent(apps, appId, intent, secret);
    if updated.Err? {
      return Err(updated.error);
    }
    ctx.AddFlashMessage(SuccessMessage(intent), false);
    r := Ok(Some(updated.value));
  }
}
