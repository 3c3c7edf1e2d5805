/** The menu builder object: it builds the template, keeps the last one it
    was given or built, and patches menus inside a template in place. A
    template is an array because callers and the builder share it and
    write into it. */
module MenuBuilder {
  import opened Wrappers
  import opened AppMenu

  class AppMenuBuilder {
    /** `process.platform === 'darwin'` */
    const darwin: bool
    /** `Electron.app.getName()` and `Electron.app.getVersion()` */
    const appName: string
    const version: string
    /** `_menuTemplate`: `null` until a template is built or set. */
    var cache: array?<MenuItem>

    constructor(darwin: bool, appName: string, version: string)
      ensures this.darwin == darwin && this.appName == appName && this.version == version
      ensures cache == null
    {
      this.darwin := darwin;
      this.appName := appName;
      this.version := version;
      cache := null;
    }

    /** `getFileMenu`: pushes the entries one after another. */
    method GetFileMenu(recentBots: seq<Option<BotInfo>>, settings: Settings) returns (m: MenuItem)
      ensures m == FileMenu(recentBots, settings)
    {
      var items := FileMenuHead();
      if |recentBots| > 0 {
        var recentBotsList := RecentBotsList(recentBots);
        items := items + [SubmenuItem("Open Recent...", recentBotsList)];
      } else {
        items := items + [Blank.(caption := Some("Open Recent..."), enabled := Some(false))];
      }
      assert items == FileMenuHead() + [OpenRecent(recentBots)];
      items := items + [SeparatorItem];
      items := items + [ActionItem("Open Transcript...", RemoteCall("PromptToOpenTranscript")),
                        SeparatorItem,
                        ActionItem("Close Tab", RemoteCall("CloseBot"))];
      assert items == FileMenuHead() + [OpenRecent(recentBots)] + FileMenuMiddle();
      var signedInUser := settings.signedInUser;
      var azureLabel := if signedInUser != "" then "Sign out (" + signedInUser + ")" else "Sign in with Azure";
      items := items + [SeparatorItem];
      items := items + [ActionItem(azureLabel, AzureSession(signedInUser != ""))];
      assert items == FileMenuHead() + [OpenRecent(recentBots)] + FileMenuMiddle()
                      + [SeparatorItem, AzureItem(signedInUser)];
      items := items + [SeparatorItem,
                        SubmenuItem("Themes", ThemeItems(settings.availableThemes, settings.theme))];
      items := items + [SeparatorItem];
      items := items + [RoleItem("quit")];
      assert items == FileMenuHead() + [OpenRecent(recentBots)] + FileMenuMiddle()
                      + [SeparatorItem, AzureItem(signedInUser)]
                      + [SeparatorItem, SubmenuItem("Themes", ThemeItems(settings.availableThemes, settings.theme))]
                      + [SeparatorItem, RoleItem("quit")];
      m := SubmenuItem("File", items);
    }

    /** `getAppMenuTemplate`: the five menus, then on macOS the application
        menu `unshift`ed in front and the window menu `splice`d in at 4; the
        result is kept as the current template. */
    method GetAppMenuTemplate(settings: Settings, updater: UpdaterState) returns (template: array<MenuItem>)
      modifies this`cache
      ensures fresh(template) && cache == template
      ensures template[..] == AppMenuTemplate(darwin, appName, version, settings, UpdateMenuItem(updater))
    {
      var file := GetFileMenu([], settings);
      var help := HelpMenu(appName, version, UpdateMenuItem(updater));
      var menus := [file, EditMenu(), ViewMenu(), ConversationMenu(), help];
      if darwin {
        menus := Insert(menus, 0, AppMenuMac(appName));
        menus := Insert(menus, 4, SubmenuItem("Window", WindowMenuMac()));
      }
      assert menus == MenusBeforeHelp(darwin, appName, settings) + [help];
      template := new MenuItem[|menus|](i requires 0 <= i < |menus| => menus[i]);
      cache := template;
    }

    /** The `menuTemplate` getter: the kept template, or a new one built and
        kept. */
    method MenuTemplate(settings: Settings, updater: UpdaterState) returns (template: array<MenuItem>)
      modifies this`cache
      ensures old(cache) != null ==> template == old(cache) && cache == old(cache)
      ensures old(cache) == null ==>
        && fresh(template) && cache == template
        && template[..] == AppMenuTemplate(darwin, appName, version, settings, UpdateMenuItem(updater))
    {
      if cache != null {
        template := cache;
      } else {
        template := GetAppMenuTemplate(settings, updater);
      }
    }

    /** The `menuTemplate` setter. */
    method SetMenuTemplate(template: array<MenuItem>)
      modifies this`cache
      ensures cache == template
    {
      cache := template;
    }

    /** `setFileMenu`: writes the file menu into the caller's template at
        the file menu's index for the platform, and hands the same array
        back. */
    method SetFileMenu(fileMenu: MenuItem, template: array<MenuItem>) returns (r: array<MenuItem>)
      requires FileMenuIndex(darwin) < template.Length
      modifies template
      ensures r == template
      ensures template[..] == old(template[..])[FileMenuIndex(darwin) := fileMenu]
    {
      template[FileMenuIndex(darwin)] := fileMenu;
      r := template;
    }

    /** `refreshAppUpdateMenu`: finds the help menu in the current template
        (building one if there is none) and the update item in it, and
        merges the item for the updater's state into it in place. The
        source throws where a lookup finds nothing. */
    method RefreshAppUpdateMenu(settings: Settings, updater: UpdaterState) returns (error: Option<RefreshError>)
      modifies this`cache, cache
      ensures cache != null
      ensures old(cache) != null ==> cache == old(cache)
      ensures old(cache) == null ==> fresh(cache)
      ensures var before :=
          if old(cache) != null then old(cache[..])
          else AppMenuTemplate(darwin, appName, version, settings, UpdateMenuItem(updater));
        match PatchAutoUpdate(before, UpdateMenuItem(updater))
        case Success(after) => error.None? && cache[..] == after
        case Failure(e) => error == Some(e) && cache[..] == before
    {
      var template := MenuTemplate(settings, updater);
      error := PatchUpdateItem(template, UpdateMenuItem(updater));
    }
  }

  /** The in-place part of `refreshAppUpdateMenu`: `find` the help menu,
      `find` the update item in its submenu and `Object.assign` `item` onto
      it. */
  method PatchUpdateItem(template: array<MenuItem>, item: MenuItem) returns (error: Option<RefreshError>)
    modifies template
    ensures match PatchAutoUpdate(old(template[..]), item)
      case Success(after) => error.None? && template[..] == after
      case Failure(e) => error == Some(e) && template[..] == old(template[..])
  {
    var helpIndex := FirstIndex(template[..], IsHelpMenu);
    if helpIndex.None? {
      return Some(NoHelpMenu);
    }
    var h := helpIndex.value;
    var helpMenu := template[h];
    if helpMenu.submenu.None? {
      return Some(NoSubmenu);
    }
    var items := helpMenu.submenu.value;
    var itemIndex := FirstIndex(items, IsUpdateItem);
    if itemIndex.None? {
      return Some(NoUpdateItem);
    }
    var k := itemIndex.value;
    template[h] := helpMenu.(submenu := Some(items[k := Assign(items[k], item)]));
    error := None;
  }
}
