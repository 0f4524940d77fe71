/**
 * The per-page context of the panel (model/page_context.rs): the listings of
 * the side menu, and the flash messages a handler accumulates, with a flag
 * that turns the response into a bad request once any of them is an error.
 */
module PageContexts {
  import opened Ids
  import Users
  import Apps

  class PageContext {
    var users: set<(UserId, string)>
    var apps: set<(AppId, string)>
    var flashBadRequest: bool
    var flashMessages: seq<(string, bool)>

    /** The flag is raised exactly when some message is an error. */
    ghost predicate Valid()
      reads this
    {
      flashBadRequest <==> exists i :: 0 <= i < |flashMessages| && flashMessages[i].1
    }

    /**
     * `PageContext::new` for `viewer`: the Discord-linked accounts and the apps the
     * viewer may see, by id and name, and no flash message yet.
     */
    constructor (directory: Users.UserDirectory, appDirectory: Apps.AppDirectory, viewer: UserId)
      ensures users == set u | u in directory.FindAll(false) :: (u.id, u.username)
      ensures apps == set a | a in appDirectory.FindAll(viewer) :: (a.id, a.name)
      ensures flashMessages == [] && !flashBadRequest
      ensures Valid()
    {
      users := set u | u in directory.FindAll(false) :: (u.id, u.username);
      apps := set a | a in appDirectory.FindAll(viewer) :: (a.id, a.name);
      flashBadRequest := false;
      flashMessages := [];
    }

    /**
     * `PageContext::add_flash_message`: the message goes last, earlier ones stay, and
     * the bad-request flag is never lowered.
     */
    method AddFlashMessage(message: string, isError: bool)
      requires Valid()
      modifies this
      ensures Valid()
      ensures flashMessages == old(flashMessages) + [(message, isError)]
      ensures flashBadRequest == (old(flashBadRequest) || isError)
      ensures users == old(users) && apps == old(apps)
    {
      flashMessages := flashMessages + [(message, isError)];
      flashBadRequest := flashBadRequest || isError;
      assert flashMessages[|flashMessages| - 1].1 == isError;
      assert forall i :: 0 <= i < |old(flashMessages)| ==> flashMessages[i] == old(flashMessages)[i];
    }
  }
}
