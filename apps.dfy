/**
 * Registered client applications (model/app.rs): the OAuth2 settings of an
 * app, the redirect-prefix rule, and the `user_apps` / `user_apps_managers`
 * tables with their queries and updates.
 */
module Apps {
  import opened Wrappers
  import opened Text
  import opened Ids
  import opened Errors

  datatype UserApp = UserApp(
    id: AppId,
    name: string,
    oauthSecret: Option<string>,
    oauthRedirect: string,
    description: Option<string>,
    hidden: bool)

  /** The shortest redirect prefix that is still refused; its byte length is the threshold. */
  const SHORTEST_REDIRECT: string := "https://a.bc"

  /** `UserApp::oauth2`: the secret and redirect prefix, present exactly when a secret is set. */
  function OAuth2(app: UserApp): (r: Option<(string, string)>)
    ensures r.Some? <==> app.oauthSecret.Some?
    ensures r.Some? ==> r.value.0 == app.oauthSecret.value && r.value.1 == app.oauthRedirect
  {
    match app.oauthSecret
    case Some(secret) => Some((secret, app.oauthRedirect))
    case None => None
  }

  /** `UserApp::is_oauth2_redirect_allowed`. */
  predicate IsRedirectAllowed(app: UserApp, uri: string) {
    Utf8Len(app.oauthRedirect) > Utf8Len(SHORTEST_REDIRECT) && StartsWith(uri, app.oauthRedirect)
  }

  /** The threshold is 12 bytes. */
  lemma ShortestRedirectLength()
    ensures Utf8Len(SHORTEST_REDIRECT) == 12
  {
    AsciiUtf8Len(SHORTEST_REDIRECT);
  }

  /**
   * A URI is allowed exactly when the configured prefix is longer than 12 bytes and
   * starts the URI; an empty or short prefix allows nothing at all.
   */
  lemma RedirectRule(app: UserApp, uri: string)
    ensures IsRedirectAllowed(app, uri) <==> Utf8Len(app.oauthRedirect) > 12 && StartsWith(uri, app.oauthRedirect)
    ensures Utf8Len(app.oauthRedirect) <= 12 ==> !IsRedirectAllowed(app, uri)
  {
    ShortestRedirectLength();
  }

  /** The check is a prefix match: anything appended to an allowed URI is allowed too. */
  lemma RedirectExtends(app: UserApp, uri: string, more: string)
    requires IsRedirectAllowed(app, uri)
    ensures IsRedirectAllowed(app, uri + more)
  {
    assert (uri + more)[..|app.oauthRedirect|] == uri[..|app.oauthRedirect|];
  }

  /** The row `insert` creates: only name and hidden are given, the rest are column defaults. */
  function NewApp(id: AppId, name: string, hidden: bool): (app: UserApp)
    ensures app.id == id && app.name == name && app.hidden == hidden
    ensures app.oauthSecret.None? && OAuth2(app).None?
  {
    UserApp(id, name, None, "", None, hidden)
  }

  /** The app with a fresh secret (`enable`) or none. */
  function WithOAuth(app: UserApp, enable: bool, secret: string): (r: UserApp)
    ensures OAuth2(r).Some? <==> enable
    ensures enable ==> OAuth2(r).value == (secret, app.oauthRedirect)
    ensures r.(oauthSecret := app.oauthSecret) == app
  {
    app.(oauthSecret := if enable then Some(secret) else None)
  }

  /** The `user_apps` table with its `user_apps_managers` link table. */
  class AppDirectory {
    var apps: map<AppId, UserApp>
    var managers: set<(AppId, UserId)>

    /** Rows are keyed by their id and no manager row points at a missing app. */
    ghost predicate Valid()
      reads this
    {
      && (forall id :: id in apps ==> apps[id].id == id)
      && (forall m :: m in managers ==> m.0 in apps)
    }

    constructor ()
      ensures Valid() && apps == map[] && managers == {}
    {
      apps := map[];
      managers := {};
    }

    /**
     * `UserApp::insert`: the app row and the creator's manager row in one transaction.
     * `newId` is the id the database generates; `managerRowRejected` stands for the
     * second insertion failing, which rolls the first one back.
     */
    method Insert(name: string, hidden: bool, creator: UserId, newId: AppId, managerRowRejected: bool)
      returns (r: WartIDResult<AppId>)
      requires Valid()
      modifies this
      ensures Valid()
      ensures r.Ok? <==> newId !in old(apps) && !managerRowRejected
      ensures r.Ok? ==> r.value == newId
      ensures r.Ok? ==> apps == old(apps)[newId := NewApp(newId, name, hidden)]
      ensures r.Ok? ==> managers == old(managers) + {(newId, creator)}
      ensures r.Err? ==> apps == old(apps) && managers == old(managers)
    {
      if newId in apps {
        return Err(Database(UniqueViolation("user_apps_pkey")));
      }
      if managerRowRejected {
        return Err(Database(QueryFailed("insert into user_apps_managers")));
      }
      apps := apps[newId := NewApp(newId, name, hidden)];
      managers := managers + {(newId, creator)};
      r := Ok(newId);
    }

    /** `UserApp::find_all`: the apps `viewer` may list. */
    function FindAll(viewer: UserId): (r: set<UserApp>)
      reads this
      ensures r <= apps.Values
      ensures forall a :: a in apps.Values && !a.hidden ==> a in r
      ensures forall a :: a in apps.Values && (a.id, viewer) in managers ==> a in r
      ensures forall a :: a in r && a.hidden ==> (a.id, viewer) in managers
    {
      set a | a in apps.Values && (!a.hidden || (a.id, viewer) in managers)
    }

    /** `UserApp::find_by_id`: whatever the `hidden` flag, through `extract_not_found`. */
    function FindById(id: AppId): (r: WartIDResult<Option<UserApp>>)
      reads this
      ensures id in apps ==> r == Ok(Some(apps[id]))
      ensures id !in apps ==> r == Ok(None)
    {
      ExtractNotFound(if id in apps then Ok(apps[id]) else Err(NotFound))
    }

    /**
     * `UserApp::set_oauth`: `secret` is the 64-character alphanumeric string the server
     * draws; only the secret column changes. Updating a missing app is `NotFound`.
     */
    method SetOAuth(id: AppId, enable: bool, secret: string) returns (r: WartIDResult<UserApp>)
      requires Valid()
      requires |secret| == 64 && IsAlphanumeric(secret)
      modifies this
      ensures Valid() && managers == old(managers)
      ensures r.Ok? <==> id in old(apps)
      ensures r.Ok? ==> apps == old(apps)[id := WithOAuth(old(apps)[id], enable, secret)] && r.value == apps[id]
      ensures r.Err? ==> apps == old(apps) && r.error == Database(NotFound)
    {
      if id !in apps {
        return Err(FromDiesel(NotFound));
      }
      var app := WithOAuth(apps[id], enable, secret);
      apps := apps[id := app];
      r := Ok(app);
    }

    /** `UserApp::set_oauth_redirect_uri`: only the redirect prefix changes. */
    method SetOAuthRedirectUri(id: AppId, uri: string) returns (r: WartIDResult<UserApp>)
      requires Valid()
      modifies this
      ensures Valid() && managers == old(managers)
      ensures r.Ok? <==> id in old(apps)
      ensures r.Ok? ==> apps == old(apps)[id := old(apps)[id].(oauthRedirect := uri)] && r.value == apps[id]
      ensures r.Err? ==> apps == old(apps) && r.error == Database(NotFound)
    {
      if id !in apps {
        return Err(FromDiesel(NotFound));
      }
      var app := apps[id].(oauthRedirect := uri);
      apps := apps[id := app];
      r := Ok(app);
    }

    /** `UserApp::set_name_description`: only the name and the description change. */
    method SetNameDescription(id: AppId, name: string, description: string) returns (r: WartIDResult<UserApp>)
      requires Valid()
      modifies this
      ensures Valid() && managers == old(managers)
      ensures r.Ok? <==> id in old(apps)
      ensures r.Ok? ==> apps == old(apps)[id := old(apps)[id].(name := name, description := Some(description))]
      ensures r.Ok? ==> r.value == apps[id]
      ensures r.Err? ==> apps == old(apps) && r.error == Database(NotFound)
    {
      if id !in apps {
        return Err(FromDiesel(NotFound));
      }
      var app := apps[id].(name := name, description := Some(description));
      apps := apps[id := app];
      r := Ok(app);
    }
  }
}
