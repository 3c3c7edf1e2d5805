/** The application menu of the emulator's main process: the templates the
    menu builder hands to Electron. Click handlers are kept as tags saying
    what they would do; Electron, the settings store and the updater are
    read through parameters. */
module AppMenu {
  import opened Wrappers
  import Decimal

  // ---------------------------------------------------------------------
  // Menu items
  // ---------------------------------------------------------------------

  /** What a click handler does, as far as the menu is concerned. */
  datatype Click =
    | RemoteCall(command: string)
    | OpenExternal(url: string)
    | SwitchBot(path: string)
    | AzureSession(signOut: bool)
    | ChooseTheme(name: string)
    | SystemActivity(service: string)
    | ShowAbout(title: string, message: string)
    | QuitAndInstall
    | CheckForUpdates

  datatype ItemType = Separator | Checkbox

  /** An Electron `MenuItemConstructorOptions` object: every property is
      optional, and an absent one is `None`. `label` is `caption` and `type`
      is `kind` here, both names being taken in Dafny. */
  datatype MenuItem = MenuItem(
    id: Option<string>,
    caption: Option<string>,
    role: Option<string>,
    kind: Option<ItemType>,
    enabled: Option<bool>,
    checked: Option<bool>,
    submenu: Option<seq<MenuItem>>,
    click: Option<Click>)

  /** `{}` */
  const Blank := MenuItem(None, None, None, None, None, None, None, None)

  /** `{ type: 'separator' }` */
  const SeparatorItem := Blank.(kind := Some(Separator))

  /** `{ role }` */
  function RoleItem(role: string): MenuItem {
    Blank.(role := Some(role))
  }

  /** `{ label, click }` */
  function ActionItem(caption: string, click: Click): MenuItem {
    Blank.(caption := Some(caption), click := Some(click))
  }

  /** `{ label, submenu }` */
  function SubmenuItem(caption: string, items: seq<MenuItem>): MenuItem {
    Blank.(caption := Some(caption), submenu := Some(items))
  }

  /** What a top-level menu is called: its label, or its role when it has
      no caption (the help menu). */
  function Title(m: MenuItem): string {
    if m.caption.Some? then m.caption.value else m.role.GetOr("")
  }

  function Titles(ms: seq<MenuItem>): (r: seq<string>)
    ensures |r| == |ms| && forall i :: 0 <= i < |ms| ==> r[i] == Title(ms[i])
  {
    if ms == [] then [] else [Title(ms[0])] + Titles(ms[1..])
  }

  // ---------------------------------------------------------------------
  // Inputs read from the settings store and the updater
  // ---------------------------------------------------------------------

  /** A bot in the recent-bots list; a falsy entry is `None`. */
  datatype BotInfo = BotInfo(displayName: string, path: string)

  datatype Theme = Theme(name: string)

  /** The settings the file menu reads. A user that is not signed in is the
      empty string (every falsy value reads the same). */
  datatype Settings = Settings(signedInUser: string, availableThemes: seq<Theme>, theme: string)

  /** The statuses the menu tells apart; every other status of the updater
      is `OtherStatus`. */
  datatype UpdateStatus =
    | UpdateReadyToInstall
    | CheckingForUpdate
    | UpdateDownloading
    | UpdateAvailable
    | OtherStatus

  /** `AppUpdater.status` and `AppUpdater.downloadProgress`. */
  datatype UpdaterState = UpdaterState(status: UpdateStatus, downloadProgress: nat)

  // ---------------------------------------------------------------------
  // Recent bots (createRecentBotsList)
  // ---------------------------------------------------------------------

  /** The item for one recent bot: its display name, switching to it. */
  function BotItem(b: BotInfo): MenuItem {
    ActionItem(b.displayName, SwitchBot(b.path))
  }

  /** The truthy entries of a list, in order. */
  function Present(bots: seq<Option<BotInfo>>): (r: seq<BotInfo>)
    ensures |r| <= |bots|
    ensures forall b :: b in r <==> Some(b) in bots
  {
    if bots == [] then []
    else
      var rest := Present(bots[1..]);
      assert bots == [bots[0]] + bots[1..];
      if bots[0].Some? then [bots[0].value] + rest else rest
  }

  /** `bots.filter(bot => !!bot).map(...)`: one item per truthy entry. */
  function RecentBotsList(bots: seq<Option<BotInfo>>): (r: seq<MenuItem>)
    ensures |r| <= |bots|
  {
    if bots == [] then []
    else (if bots[0].Some? then [BotItem(bots[0].value)] else []) + RecentBotsList(bots[1..])
  }

  /** The list of a concatenation is the concatenation of the lists, so the
      order of the bots is kept. */
  lemma {:induction false} RecentBotsAppend(a: seq<Option<BotInfo>>, b: seq<Option<BotInfo>>)
    ensures RecentBotsList(a + b) == RecentBotsList(a) + RecentBotsList(b)
  {
    if a == [] {
      assert a + b == b;
    } else {
      var first := if a[0].Some? then [BotItem(a[0].value)] else [];
      assert (a + b)[0] == a[0] && (a + b)[1..] == a[1..] + b;
      RecentBotsAppend(a[1..], b);
      calc {
        RecentBotsList(a + b);
        first + RecentBotsList(a[1..] + b);
        first + (RecentBotsList(a[1..]) + RecentBotsList(b));
        (first + RecentBotsList(a[1..])) + RecentBotsList(b);
      }
    }
  }

  /** A falsy entry adds nothing; a truthy one adds its item at the end. */
  lemma RecentBotsSnoc(bots: seq<Option<BotInfo>>, last: Option<BotInfo>)
    ensures RecentBotsList(bots + [last]) ==
      RecentBotsList(bots) + (if last.Some? then [BotItem(last.value)] else [])
  {
    RecentBotsAppend(bots, [last]);
  }

  /** The items are exactly those of the truthy entries, in order: one item
      per bot, labelled with its display name. */
  lemma {:induction false} RecentBotsArePresent(bots: seq<Option<BotInfo>>)
    ensures |RecentBotsList(bots)| == |Present(bots)|
    ensures forall i :: 0 <= i < |Present(bots)| ==>
      RecentBotsList(bots)[i] == BotItem(Present(bots)[i])
  {
    if bots != [] {
      RecentBotsArePresent(bots[1..]);
    }
  }

  /** With no falsy entry every bot gets an item: the list is not cut at
      five, whatever the comment above the source says. */
  lemma {:induction false} AllBotsListed(bots: seq<Option<BotInfo>>)
    requires forall i :: 0 <= i < |bots| ==> bots[i].Some?
    ensures |RecentBotsList(bots)| == |bots|
  {
    if bots != [] {
      AllBotsListed(bots[1..]);
    }
  }

  lemma RecentBotsNotCapped(b: BotInfo)
    ensures |RecentBotsList([Some(b), Some(b), Some(b), Some(b), Some(b), Some(b)])| == 6
  {
    AllBotsListed([Some(b), Some(b), Some(b), Some(b), Some(b), Some(b)]);
  }

  // ---------------------------------------------------------------------
  // File menu (getFileMenu)
  // ---------------------------------------------------------------------

  /** "Open Recent...": a submenu of the recent bots when a non-empty list
      is given, otherwise a disabled item. */
  function OpenRecent(recentBots: seq<Option<BotInfo>>): (r: MenuItem)
    ensures r.caption == Some("Open Recent...")
    ensures r.enabled == Some(false) <==> recentBots == []
    ensures r.submenu.Some? <==> recentBots != []
    ensures r.submenu.Some? ==> r.submenu.value == RecentBotsList(recentBots)
  {
    if |recentBots| > 0 then SubmenuItem("Open Recent...", RecentBotsList(recentBots))
    else Blank.(caption := Some("Open Recent..."), enabled := Some(false))
  }

  /** The Azure item: signs the user out when one is signed in, in. */
  function AzureItem(signedInUser: string): (r: MenuItem)
    ensures signedInUser != "" ==> r.caption == Some("Sign out (" + signedInUser + ")")
    ensures signedInUser == "" ==> r.caption == Some("Sign in with Azure")
    ensures r.click == Some(AzureSession(signedInUser != ""))
  {
    var caption := if signedInUser != "" then "Sign out (" + signedInUser + ")" else "Sign in with Azure";
    ActionItem(caption, AzureSession(signedInUser != ""))
  }

  /** The checkbox for one theme. */
  function ThemeItem(t: Theme, current: string): MenuItem {
    Blank.(caption := Some(t.name), kind := Some(Checkbox), checked := Some(current == t.name),
           click := Some(ChooseTheme(t.name)))
  }

  /** The Themes submenu: one checkbox per available theme, checked when it
      is the current theme. */
  function ThemeItems(themes: seq<Theme>, current: string): (r: seq<MenuItem>)
    ensures |r| == |themes|
    ensures forall i :: 0 <= i < |themes| ==>
      r[i].caption == Some(themes[i].name) && r[i].kind == Some(Checkbox)
      && r[i].checked == Some(themes[i].name == current)
  {
    if themes == [] then [] else [ThemeItem(themes[0], current)] + ThemeItems(themes[1..], current)
  }

  /** Theme names differ from one another. */
  predicate DistinctNames(themes: seq<Theme>) {
    forall i, j :: 0 <= i < j < |themes| ==> themes[i].name != themes[j].name
  }

  /** A theme's checkbox is checked exactly when it is the current theme,
      so one is checked exactly when the current theme is available. */
  lemma CurrentThemeChecked(themes: seq<Theme>, current: string)
    ensures (exists i :: 0 <= i < |themes| && ThemeItems(themes, current)[i].checked == Some(true))
      <==> (exists i :: 0 <= i < |themes| && themes[i].name == current)
  {
    var items := ThemeItems(themes, current);
    if i :| 0 <= i < |themes| && items[i].checked == Some(true) {
      assert themes[i].name == current;
    }
    if i :| 0 <= i < |themes| && themes[i].name == current {
      assert items[i].checked == Some(true);
      assert exists k :: 0 <= k < |themes| && ThemeItems(themes, current)[k].checked == Some(true);
    }
  }

  /** With distinct theme names, no two checkboxes are checked. */
  lemma OneThemeChecked(themes: seq<Theme>, current: string, i: nat, j: nat)
    requires DistinctNames(themes)
    requires i < j < |themes|
    ensures !(ThemeItems(themes, current)[i].checked == Some(true) && ThemeItems(themes, current)[j].checked == Some(true))
  {
  }

  /** The first three entries of the file menu. */
  function FileMenuHead(): seq<MenuItem> {
    [ActionItem("New Bot Configuration...", RemoteCall("ShowBotCreationDialog")),
     SeparatorItem,
     ActionItem("Open Bot Configuration...", RemoteCall("OpenBrowse"))]
  }

  /** The entries between "Open Recent..." and the Azure item. */
  function FileMenuMiddle(): seq<MenuItem> {
    [SeparatorItem,
     ActionItem("Open Transcript...", RemoteCall("PromptToOpenTranscript")),
     SeparatorItem,
     ActionItem("Close Tab", RemoteCall("CloseBot"))]
  }

  /** The file menu: new and open, open recent, transcript and close, the
      Azure item, the themes and quit, separated. */
  function FileMenu(recentBots: seq<Option<BotInfo>>, settings: Settings): (r: MenuItem)
    ensures r.caption == Some("File") && r.submenu.Some? && |r.submenu.value| == 14
    ensures r.submenu.value[3] == OpenRecent(recentBots) && r.submenu.value[13] == RoleItem("quit")
  {
    SubmenuItem("File",
      FileMenuHead() + [OpenRecent(recentBots)] + FileMenuMiddle()
      + [SeparatorItem, AzureItem(settings.signedInUser)]
      + [SeparatorItem, SubmenuItem("Themes", ThemeItems(settings.availableThemes, settings.theme))]
      + [SeparatorItem, RoleItem("quit")])
  }

  /** Where the entries of the file menu sit. */
  lemma FileMenuLayout(recentBots: seq<Option<BotInfo>>, settings: Settings)
    ensures var items := FileMenu(recentBots, settings).submenu.value;
      && |items| == 14
      && items[3] == OpenRecent(recentBots)
      && items[9] == AzureItem(settings.signedInUser)
      && items[11] == SubmenuItem("Themes", ThemeItems(settings.availableThemes, settings.theme))
      && items[13] == RoleItem("quit")
      && forall i :: i in {1, 4, 6, 8, 10, 12} ==> items[i] == SeparatorItem
  {
  }

  // ---------------------------------------------------------------------
  // Update item (getUpdateMenuItem)
  // ---------------------------------------------------------------------

  const UpdateItemId := "auto-update"
  const DownloadingPrefix := "Update downloading: "

  /** The update item for the updater's state: restart when an update is
      ready, a disabled progress line while one is checked for or
      downloaded, and a check otherwise. */
  function UpdateMenuItem(u: UpdaterState): (r: MenuItem)
    ensures r.id == Some(UpdateItemId) && r.caption.Some? && r.enabled.Some?
    ensures r.enabled == Some(true) <==> u.status == UpdateReadyToInstall || u.status == OtherStatus
    ensures r.click.Some? <==> r.enabled == Some(true)
    ensures r.submenu.None? && r.role.None? && r.kind.None? && r.checked.None?
    ensures u.status == UpdateReadyToInstall ==>
      r.caption == Some("Restart to Update...") && r.click == Some(QuitAndInstall)
    ensures u.status == CheckingForUpdate ==> r.caption == Some("Checking for update...")
    ensures u.status == OtherStatus ==>
      r.caption == Some("Check for Update...") && r.click == Some(CheckForUpdates)
  {
    match u.status
    case UpdateReadyToInstall =>
      Blank.(id := Some(UpdateItemId), caption := Some("Restart to Update..."),
             click := Some(QuitAndInstall), enabled := Some(true))
    case CheckingForUpdate =>
      Blank.(id := Some(UpdateItemId), caption := Some("Checking for update..."), enabled := Some(false))
    case UpdateDownloading | UpdateAvailable =>
      Blank.(id := Some(UpdateItemId),
             caption := Some(DownloadingPrefix + Decimal.NatToDecimal(u.downloadProgress) + "%"),
             enabled := Some(false))
    case OtherStatus =>
      Blank.(id := Some(UpdateItemId), caption := Some("Check for Update..."),
             click := Some(CheckForUpdates), enabled := Some(true))
  }

  /** While downloading, the label carries the progress: `parseInt` of what
      follows the prefix gives it back. */
  lemma DownloadProgressReadBack(u: UpdaterState)
    requires u.status == UpdateDownloading || u.status == UpdateAvailable
    ensures var caption := UpdateMenuItem(u).caption.value;
      && |caption| > |DownloadingPrefix|
      && caption[..|DownloadingPrefix|] == DownloadingPrefix
      && Decimal.ParseInt(caption[|DownloadingPrefix|..]) == Some(u.downloadProgress)
  {
    var digits := Decimal.NatToDecimal(u.downloadProgress);
    var caption := DownloadingPrefix + digits + "%";
    assert caption[|DownloadingPrefix|..] == digits + "%";
    Decimal.ParseIntOfDecimal(u.downloadProgress, "%");
  }

  // ---------------------------------------------------------------------
  // The fixed menus
  // ---------------------------------------------------------------------

  function AppMenuMac(appName: string): MenuItem {
    SubmenuItem(appName,
      [RoleItem("about"), SeparatorItem, RoleItem("services").(submenu := Some([])), SeparatorItem,
       RoleItem("hide"), RoleItem("hideothers"), RoleItem("unhide"), SeparatorItem, RoleItem("quit")])
  }

  function EditMenu(): MenuItem {
    SubmenuItem("Edit",
      [RoleItem("undo"), RoleItem("redo"), SeparatorItem,
       RoleItem("cut"), RoleItem("copy"), RoleItem("paste"), RoleItem("delete")])
  }

  function ViewMenu(): MenuItem {
    SubmenuItem("View",
      [RoleItem("resetzoom").(caption := Some("Reset Zoom")), RoleItem("zoomin"), RoleItem("zoomout"),
       SeparatorItem, RoleItem("togglefullscreen")])
  }

  function WindowMenuMac(): seq<MenuItem> {
    [RoleItem("close"), RoleItem("minimize"), RoleItem("zoom"), SeparatorItem, RoleItem("front")]
  }

  function ConversationMenu(): MenuItem {
    SubmenuItem("Conversation",
      [SubmenuItem("Send System Activity",
        [ActionItem("conversationUpdate ( user added )", SystemActivity("addUser")),
         ActionItem("conversationUpdate ( user removed )", SystemActivity("removeUser")),
         ActionItem("contactRelationUpdate ( bot added )", SystemActivity("botContactAdded")),
         ActionItem("contactRelationUpdate ( bot removed )", SystemActivity("botContactRemoved")),
         ActionItem("typing", SystemActivity("typing")),
         ActionItem("ping", SystemActivity("ping")),
         ActionItem("deleteUserData", SystemActivity("deleteUserData"))])])
  }

  /** The help menu's entries above the update item. */
  function HelpHead(): seq<MenuItem> {
    [ActionItem("Welcome", RemoteCall("ShowWelcomePage")),
     SeparatorItem,
     ActionItem("Privacy", OpenExternal("https://go.microsoft.com/fwlink/?LinkId=512132")),
     ActionItem("License", OpenExternal("https://aka.ms/O10ww2")),
     ActionItem("Credits", OpenExternal("https://aka.ms/Ud5ga6")),
     SeparatorItem,
     ActionItem("Report an issue", OpenExternal("https://aka.ms/cy106f")),
     SeparatorItem,
     RoleItem("toggledevtools"),
     ActionItem("Toggle Developer Tools (Inspector)", RemoteCall("ToggleDevTools")),
     SeparatorItem]
  }

  /** The help menu's entries below the update item. */
  function HelpTail(appName: string, version: string): seq<MenuItem> {
    [SeparatorItem, ActionItem("About", ShowAbout(appName, appName + "\r\nversion: " + version))]
  }

  /** The help menu, with the update item between links and About. */
  function HelpMenu(appName: string, version: string, updateItem: MenuItem): (r: MenuItem)
    ensures IsHelpMenu(r) && r.submenu.Some? && |r.submenu.value| == 14
    ensures r.submenu.value[11] == updateItem
    ensures r.submenu.value[13].caption == Some("About")
    ensures forall j :: 0 <= j < 11 ==> !IsUpdateItem(r.submenu.value[j])
  {
    RoleItem("help").(submenu := Some(HelpHead() + [updateItem] + HelpTail(appName, version)))
  }

  // ---------------------------------------------------------------------
  // The whole template (getAppMenuTemplate, setFileMenu)
  // ---------------------------------------------------------------------

  /** `splice(i, 0, x)`: `x` inserted before position `i`. */
  function Insert(s: seq<MenuItem>, i: nat, x: MenuItem): (r: seq<MenuItem>)
    requires i <= |s|
    ensures |r| == |s| + 1 && r[i] == x
    ensures forall j :: 0 <= j < i ==> r[j] == s[j]
    ensures forall j :: i < j <= |s| ==> r[j] == s[j - 1]
  {
    s[..i] + [x] + s[i..]
  }

  /** The top-level menus in front of the help menu: file, edit, view and
      conversation, and on macOS the application menu in front and the
      window menu before the conversation menu. */
  function MenusBeforeHelp(darwin: bool, appName: string, settings: Settings): (r: seq<MenuItem>)
    ensures |r| == if darwin then 6 else 4
    ensures forall j :: 0 <= j < |r| ==> r[j].role.None?
  {
    if darwin then
      [AppMenuMac(appName), FileMenu([], settings), EditMenu(), ViewMenu(),
       SubmenuItem("Window", WindowMenuMac()), ConversationMenu()]
    else [FileMenu([], settings), EditMenu(), ViewMenu(), ConversationMenu()]
  }

  /** The template the builder makes, with the given update item in its
      help menu: the builder passes the one for the updater's state, and a
      template patched since holds another. */
  function AppMenuTemplate(darwin: bool, appName: string, version: string, settings: Settings, updateItem: MenuItem)
    : (r: seq<MenuItem>)
    ensures |r| == if darwin then 7 else 5
    ensures r[|r| - 1] == HelpMenu(appName, version, updateItem)
    ensures forall j :: 0 <= j < |r| - 1 ==> !IsHelpMenu(r[j])
  {
    MenusBeforeHelp(darwin, appName, settings) + [HelpMenu(appName, version, updateItem)]
  }

  /** Where `setFileMenu` puts the file menu. */
  function FileMenuIndex(darwin: bool): nat {
    if darwin then 1 else 0
  }

  /** The top-level menus in order, per platform. */
  lemma TopLevelOrder(darwin: bool, appName: string, version: string, settings: Settings, updateItem: MenuItem)
    ensures Titles(AppMenuTemplate(darwin, appName, version, settings, updateItem)) ==
      if darwin then [appName, "File", "Edit", "View", "Window", "Conversation", "help"]
      else ["File", "Edit", "View", "Conversation", "help"]
  {
  }

  /** The index `setFileMenu` writes is the file menu's, on both platforms,
      and the built template opens no recent bots. */
  lemma FileMenuAtItsIndex(darwin: bool, appName: string, version: string, settings: Settings, updateItem: MenuItem)
    ensures var t := AppMenuTemplate(darwin, appName, version, settings, updateItem);
      FileMenuIndex(darwin) < |t| && t[FileMenuIndex(darwin)] == FileMenu([], settings)
  {
  }

  // ---------------------------------------------------------------------
  // Patching the update item (refreshAppUpdateMenu)
  // ---------------------------------------------------------------------

  /** `Array.prototype.findIndex`: the first position satisfying `p`. */
  function FirstIndex(s: seq<MenuItem>, p: MenuItem -> bool): (r: Option<nat>)
    ensures r.Some? ==> r.value < |s| && p(s[r.value]) && forall j :: 0 <= j < r.value ==> !p(s[j])
    ensures r.None? <==> forall j :: 0 <= j < |s| ==> !p(s[j])
  {
    if s == [] then None
    else if p(s[0]) then Some(0)
    else match FirstIndex(s[1..], p)
      case None => None
      case Some(j) => Some(j + 1)
  }

  /** An element satisfying `p` after a stretch where none does is the one
      found. */
  lemma {:induction false} FirstIndexAfter(front: seq<MenuItem>, x: MenuItem, back: seq<MenuItem>, p: MenuItem -> bool)
    requires forall j :: 0 <= j < |front| ==> !p(front[j])
    requires p(x)
    ensures FirstIndex(front + [x] + back, p) == Some(|front|)
  {
    if front != [] {
      assert (front + [x] + back)[1..] == front[1..] + [x] + back;
      FirstIndexAfter(front[1..], x, back, p);
    }
  }

  predicate IsHelpMenu(m: MenuItem) {
    m.role == Some("help")
  }

  predicate IsUpdateItem(m: MenuItem) {
    m.id == Some(UpdateItemId)
  }

  /** `Object.assign(target, source)`: every property `source` has is
      copied over; the others keep `target`'s. */
  function Assign(target: MenuItem, source: MenuItem): (r: MenuItem)
    ensures source.id.Some? ==> r.id == source.id
    ensures source.id.None? ==> r.id == target.id
    ensures source.caption.Some? ==> r.caption == source.caption
    ensures source.caption.None? ==> r.caption == target.caption
    ensures source.role.Some? ==> r.role == source.role
    ensures source.role.None? ==> r.role == target.role
    ensures source.kind.Some? ==> r.kind == source.kind
    ensures source.kind.None? ==> r.kind == target.kind
    ensures source.enabled.Some? ==> r.enabled == source.enabled
    ensures source.enabled.None? ==> r.enabled == target.enabled
    ensures source.checked.Some? ==> r.checked == source.checked
    ensures source.checked.None? ==> r.checked == target.checked
    ensures source.submenu.Some? ==> r.submenu == source.submenu
    ensures source.submenu.None? ==> r.submenu == target.submenu
    ensures source.click.Some? ==> r.click == source.click
    ensures source.click.None? ==> r.click == target.click
  {
    MenuItem(
      if source.id.Some? then source.id else target.id,
      if source.caption.Some? then source.caption else target.caption,
      if source.role.Some? then source.role else target.role,
      if source.kind.Some? then source.kind else target.kind,
      if source.enabled.Some? then source.enabled else target.enabled,
      if source.checked.Some? then source.checked else target.checked,
      if source.submenu.Some? then source.submenu else target.submenu,
      if source.click.Some? then source.click else target.click)
  }

  /** Why the patch throws: no help menu, a help menu without a submenu,
      or no update item in it. */
  datatype RefreshError = NoHelpMenu | NoSubmenu | NoUpdateItem

  /** The template after the update item in the help menu has been
      overwritten with `item`. */
  function PatchAutoUpdate(t: seq<MenuItem>, item: MenuItem): (r: Result<seq<MenuItem>, RefreshError>)
    ensures r == Failure(NoHelpMenu) <==> forall j :: 0 <= j < |t| ==> !IsHelpMenu(t[j])
    ensures r.Success? ==> |r.value| == |t|
    ensures r.Success? ==> forall j :: 0 <= j < |t| && !IsHelpMenu(t[j]) ==> r.value[j] == t[j]
  {
    match FirstIndex(t, IsHelpMenu)
    case None => Failure(NoHelpMenu)
    case Some(h) =>
      match t[h].submenu
      case None => Failure(NoSubmenu)
      case Some(items) =>
        match FirstIndex(items, IsUpdateItem)
        case None => Failure(NoUpdateItem)
        case Some(k) => Success(t[h := t[h].(submenu := Some(items[k := Assign(items[k], item)]))])
  }

  /** The patch rewrites the first update item of the first help menu and
      nothing else: every other menu and every other item of the help menu
      is kept, and the patched item shows the new caption and enabled state
      under the same id. */
  lemma PatchTouchesOnlyUpdateItem(t: seq<MenuItem>, u: UpdaterState)
    requires PatchAutoUpdate(t, UpdateMenuItem(u)).Success?
    ensures var r := PatchAutoUpdate(t, UpdateMenuItem(u)).value;
      var h := FirstIndex(t, IsHelpMenu).value;
      var items := t[h].submenu.value;
      var k := FirstIndex(items, IsUpdateItem).value;
      var patched := r[h].submenu.value;
      && |r| == |t|
      && (forall i :: 0 <= i < |t| && i != h ==> r[i] == t[i])
      && r[h] == t[h].(submenu := r[h].submenu)
      && |patched| == |items|
      && (forall j :: 0 <= j < |items| && j != k ==> patched[j] == items[j])
      && patched[k].id == Some(UpdateItemId)
      && patched[k].caption == UpdateMenuItem(u).caption
      && patched[k].enabled == UpdateMenuItem(u).enabled
      && patched[k].submenu == items[k].submenu
  {
  }

  /** Behind menus none of which is a help menu, the patch finds the help
      menu's update item and merges the new one into it. */
  lemma PatchHelpMenu(front: seq<MenuItem>, appName: string, version: string, current: MenuItem, item: MenuItem)
    requires forall j :: 0 <= j < |front| ==> !IsHelpMenu(front[j])
    requires IsUpdateItem(current)
    ensures PatchAutoUpdate(front + [HelpMenu(appName, version, current)], item)
      == Success(front + [HelpMenu(appName, version, Assign(current, item))])
  {
    var t := front + [HelpMenu(appName, version, current)];
    assert FirstIndex(t, IsHelpMenu) == Some(|front|) by {
      assert t == front + [HelpMenu(appName, version, current)] + [];
      FirstIndexAfter(front, HelpMenu(appName, version, current), [], IsHelpMenu);
    }
    var items := HelpHead() + [current] + HelpTail(appName, version);
    assert FirstIndex(items, IsUpdateItem) == Some(|HelpHead()|) by {
      FirstIndexAfter(HelpHead(), current, HelpTail(appName, version), IsUpdateItem);
    }
    var merged := HelpHead() + [Assign(current, item)] + HelpTail(appName, version);
    assert items[|HelpHead()| := Assign(current, item)] == merged;
    var help := HelpMenu(appName, version, Assign(current, item));
    assert t[|front| := help] == front + [help];
  }

  /** On a template the builder made, on either platform, the patch finds
      the update item and merges the new one into it: the result is the
      template built with the merged item. */
  lemma PatchOfBuiltTemplate(darwin: bool, appName: string, version: string, settings: Settings,
                             current: MenuItem, item: MenuItem)
    requires IsUpdateItem(current)
    ensures PatchAutoUpdate(AppMenuTemplate(darwin, appName, version, settings, current), item)
      == Success(AppMenuTemplate(darwin, appName, version, settings, Assign(current, item)))
  {
    var front := MenusBeforeHelp(darwin, appName, settings);
    assert forall j :: 0 <= j < |front| ==> !IsHelpMenu(front[j]);
    PatchHelpMenu(front, appName, version, current, item);
  }

  /** Merging one update item into another gives the new item exactly when
      the new one has a click handler or the old one had none: a disabled
      item that replaces an enabled one keeps the old handler. */
  lemma MergedUpdateItem(u: UpdaterState, next: UpdaterState)
    ensures Assign(UpdateMenuItem(u), UpdateMenuItem(next)) == UpdateMenuItem(next)
      <==> UpdateMenuItem(next).click.Some? || UpdateMenuItem(u).click.None?
    ensures Assign(UpdateMenuItem(u), UpdateMenuItem(next)) ==
      UpdateMenuItem(next).(click := if UpdateMenuItem(next).click.Some? then UpdateMenuItem(next).click
                                     else UpdateMenuItem(u).click)
  {
  }
}
