/**
 * The AppImage plugin of GNOME Software: turning an AppImage file into an
 * application record (gs_plugin_file_to_app), claiming AppImage records
 * (gs_plugin_adopt_app) and launching them (gs_plugin_launch).
 *
 * What libappimage, GKeyFile and lstat report about the file is given as a
 * `Bundle` value; the user data directory and the existence test
 * (g_get_user_data_dir, g_file_test) are parameters.
 */
module AppImagePlugin {
  import opened Wrappers
  import opened GPath

  /** AsBundleKind. */
  datatype BundleKind =
    | BundleUnknown | BundleLimba | BundleFlatpak | BundleSnap
    | BundlePackage | BundleCabinet | BundleAppImage

  /** AsAppState. */
  datatype AppState =
    | Unknown | Installed | Available | AvailableLocal | Updatable
    | Unavailable | QueuedForInstall | Installing | Removing
    | UpdatableLive | Purchasable | Purchasing

  /** A parsed desktop file: group name to key to raw value. */
  type KeyFile = map<string, map<string, string>>

  const DesktopGroup := "Desktop Entry"
  const KeyName := "Name"
  const KeyComment := "Comment"
  const KeyAppImageVersion := "X-AppImage-Version"

  const DesktopSuffix := ".desktop"
  const ApplicationsDir := "applications"
  const IdPrefix := "appimagekit_"
  /** The id gs_app_new is given before the real one is known. */
  const PlaceholderId := "NULL"
  /** The management plugin file_to_app records. */
  const ManagerName := "appimage"

  /** g_key_file_get_value: the raw value of key in group, or NULL. */
  function GetValue(kf: KeyFile, group: string, key: string): (v: Option<string>)
    ensures v.Some? <==> group in kf && key in kf[group]
    ensures v.Some? ==> v.value == kf[group][key]
  {
    if group in kf && key in kf[group] then Some(kf[group][key]) else None
  }

  /**
   * What the collaborators report about one AppImage file:
   * appimage_get_type, appimage_list_files (in listing order),
   * g_key_file_load_from_file on the extracted desktop file (None when it
   * fails), appimage_get_md5, and lstat's st_size (None when lstat fails).
   */
  datatype Bundle = Bundle(
    typeCode: int,
    files: seq<string>,
    keyFile: Option<KeyFile>,
    md5: string,
    size: Option<nat>)

  /** The calls file_to_app makes to its collaborators, in order. */
  datatype Call =
    | GetType | ListFiles | ExtractFile(entry: string) | LoadKeyFile
    | GetMd5 | Lstat | TestExists(path: string)

  /** Why file_to_app returned FALSE. */
  datatype Exit = UnknownType | NoDesktopFile | DesktopFileNotLoaded | SizeUnknown

  /** The fields of a GsApp this model follows. */
  datatype AppRecord = AppRecord(
    id: string,
    name: Option<string>,
    summary: Option<string>,
    description: Option<string>,
    version: Option<string>,
    sizeInstalled: nat,
    sizeDownload: nat,
    state: AppState,
    bundleKind: BundleKind,
    managementPlugin: Option<string>)

  /** The result of file_to_app: the record it adds or why it exits, and the calls it made. */
  datatype Outcome = Outcome(result: Result<AppRecord, Exit>, calls: seq<Call>)

  /** An entry file_to_app accepts as the desktop file. */
  predicate IsDesktopFile(name: string) {
    HasSuffix(name, DesktopSuffix)
  }

  /** The index of the first desktop file in the listing; |files| when there is none. */
  function FirstDesktopFile(files: seq<string>): (i: nat)
    ensures i <= |files|
    ensures i < |files| ==> IsDesktopFile(files[i])
    ensures forall j :: 0 <= j < i ==> !IsDesktopFile(files[j])
  {
    if files == [] then 0
    else if IsDesktopFile(files[0]) then 0
    else 1 + FirstDesktopFile(files[1..])
  }

  /** The three properties of FirstDesktopFile pin the index down. */
  lemma FirstDesktopFileUnique(files: seq<string>, k: nat)
    requires k <= |files|
    requires k < |files| ==> IsDesktopFile(files[k])
    requires forall j :: 0 <= j < k ==> !IsDesktopFile(files[j])
    ensures k == FirstDesktopFile(files)
  {
  }

  /** "applications/appimagekit_<md5>-<basename of the desktop file>". */
  function PartialPath(md5: string, desktopFile: string): string {
    ApplicationsDir + [Separator] + IdPrefix + md5 + "-" + PathGetBasename(desktopFile)
  }

  /** The id file_to_app gives the record: the basename of the partial path. */
  function AppId(md5: string, desktopFile: string): string
  {
    PathGetBasename(PartialPath(md5, desktopFile))
  }

  /** Where an integration tool would have put this AppImage's desktop file. */
  function IntegratedPath(dataDir: string, md5: string, desktopFile: string): string {
    BuildFilename(dataDir, PartialPath(md5, desktopFile))
  }

  /** The state file_to_app assigns, from the existence test on the integrated path. */
  function IntegrationState(integrated: bool): (s: AppState)
    ensures s == Installed || s == AvailableLocal
    ensures s == Installed <==> integrated
  {
    if integrated then Installed else AvailableLocal
  }

  /**
   * gs_plugin_file_to_app as a function of what the collaborators report.
   * The exits are taken in the source's order: unknown type, no desktop
   * file, desktop file not loadable, lstat failure.
   */
  function FileToAppSpec(b: Bundle, dataDir: string, fileExists: string -> bool): (o: Outcome)
    ensures o.calls != [] && o.calls[0] == GetType
    ensures o.result.Success? ==> o.calls[|o.calls| - 1].TestExists?
  {
    if b.typeCode < 0 then Outcome(Failure(UnknownType), [GetType])
    else
      var i := FirstDesktopFile(b.files);
      if i == |b.files| then Outcome(Failure(NoDesktopFile), [GetType, ListFiles])
      else
        var desktopFile := b.files[i];
        if b.keyFile.None? then
          Outcome(Failure(DesktopFileNotLoaded), [GetType, ListFiles, ExtractFile(desktopFile), LoadKeyFile])
        else if b.size.None? then
          Outcome(Failure(SizeUnknown),
                  [GetType, ListFiles, ExtractFile(desktopFile), LoadKeyFile, GetMd5, Lstat])
        else
          var kf := b.keyFile.value;
          var path := IntegratedPath(dataDir, b.md5, desktopFile);
          var comment := GetValue(kf, DesktopGroup, KeyComment);
          var app := AppRecord(
            AppId(b.md5, desktopFile),
            GetValue(kf, DesktopGroup, KeyName),
            comment,
            comment,
            GetValue(kf, DesktopGroup, KeyAppImageVersion),
            b.size.value,
            b.size.value,
            IntegrationState(fileExists(path)),
            BundleAppImage,
            Some(ManagerName));
          Outcome(Success(app),
                  [GetType, ListFiles, ExtractFile(desktopFile), LoadKeyFile, GetMd5, Lstat, TestExists(path)])
  }

  /** gs_plugin_adopt_app on a record: only an AppImage gets this plugin as its manager. */
  function Adopt(app: AppRecord, pluginName: string): (r: AppRecord)
    ensures r.bundleKind == BundleAppImage ==> r.managementPlugin == Some(pluginName)
    ensures r.bundleKind != BundleAppImage ==> r == app
    ensures r == app.(managementPlugin := r.managementPlugin)
  {
    if app.bundleKind == BundleAppImage then app.(managementPlugin := Some(pluginName)) else app
  }

  /** The return value of gs_plugin_launch: TRUE exactly for an AppImage. */
  function Launch(app: AppRecord): (launched: bool)
    ensures launched <==> app.bundleKind == BundleAppImage
  {
    app.bundleKind == BundleAppImage
  }

  /**
   * The path gs_plugin_launch checks. The '*' is a literal character: nothing
   * expands it, and the test only decides which debug line is logged.
   */
  function LaunchProbePath(dataDir: string, md5: string): string {
    BuildFilename(dataDir, ApplicationsDir + [Separator] + IdPrefix + md5 + "-*")
  }

  /** A GsApp, with the fields this model follows. */
  class GsApp {
    var id: string
    var name: Option<string>
    var summary: Option<string>
    var description: Option<string>
    var version: Option<string>
    var sizeInstalled: nat
    var sizeDownload: nat
    var state: AppState
    var bundleKind: BundleKind
    var managementPlugin: Option<string>

    /** The current field values. */
    function Record(): AppRecord
      reads this
    {
      AppRecord(id, name, summary, description, version, sizeInstalled, sizeDownload,
                state, bundleKind, managementPlugin)
    }

    /** gs_app_new(id): every other field unset. */
    constructor (id: string)
      ensures Record() == AppRecord(id, None, None, None, None, 0, 0, Unknown, BundleUnknown, None)
    {
      this.id := id;
      name, summary, description, version := None, None, None, None;
      sizeInstalled, sizeDownload := 0, 0;
      state := Unknown;
      bundleKind := BundleUnknown;
      managementPlugin := None;
    }

    /** gs_app_set_id. */
    method SetId(v: string)
      modifies this
      ensures Record() == old(Record()).(id := v)
    {
      id := v;
    }

    /** gs_app_set_name. */
    method SetName(v: Option<string>)
      modifies this
      ensures Record() == old(Record()).(name := v)
    {
      name := v;
    }

    /** gs_app_set_summary. */
    method SetSummary(v: Option<string>)
      modifies this
      ensures Record() == old(Record()).(summary := v)
    {
      summary := v;
    }

    /** gs_app_set_description. */
    method SetDescription(v: Option<string>)
      modifies this
      ensures Record() == old(Record()).(description := v)
    {
      description := v;
    }

    /** gs_app_set_version. */
    method SetVersion(v: Option<string>)
      modifies this
      ensures Record() == old(Record()).(version := v)
    {
      version := v;
    }

    /** gs_app_set_size_installed. */
    method SetSizeInstalled(v: nat)
      modifies this
      ensures Record() == old(Record()).(sizeInstalled := v)
    {
      sizeInstalled := v;
    }

    /** gs_app_set_size_download. */
    method SetSizeDownload(v: nat)
      modifies this
      ensures Record() == old(Record()).(sizeDownload := v)
    {
      sizeDownload := v;
    }

    /** gs_app_set_state. */
    method SetState(v: AppState)
      modifies this
      ensures Record() == old(Record()).(state := v)
    {
      state := v;
    }

    /** gs_app_set_bundle_kind. */
    method SetBundleKind(v: BundleKind)
      modifies this
      ensures Record() == old(Record()).(bundleKind := v)
    {
      bundleKind := v;
    }

    /** gs_app_set_management_plugin. */
    method SetManagementPlugin(v: Option<string>)
      modifies this
      ensures Record() == old(Record()).(managementPlugin := v)
    {
      managementPlugin := v;
    }
  }

  /** A GsAppList: the apps added so far, in order. */
  class GsAppList {
    var apps: seq<GsApp>

    constructor ()
      ensures apps == []
    {
      apps := [];
    }

    /** gs_app_list_add. */
    method Add(app: GsApp)
      modifies this
      ensures apps == old(apps) + [app]
    {
      apps := apps + [app];
    }
  }

  /**
   * The loop of file_to_app that picks the desktop file: the first listed
   * entry ending in ".desktop". i is where the scan stopped.
   */
  method SelectDesktopFile(files: seq<string>) returns (i: nat, desktopFile: Option<string>)
    ensures i <= |files|
    ensures forall j :: 0 <= j < i ==> !IsDesktopFile(files[j])
    ensures desktopFile.Some? <==> i < |files|
    ensures i < |files| ==> IsDesktopFile(files[i]) && desktopFile == Some(files[i])
  {
    desktopFile := None;
    i := 0;
    while i < |files|
      invariant i <= |files|
      invariant desktopFile == None
      invariant forall j :: 0 <= j < i ==> !IsDesktopFile(files[j])
    {
      if HasSuffix(files[i], DesktopSuffix) {
        desktopFile := Some(files[i]);
        break;
      }
      i := i + 1;
    }
  }

  /** gs_plugin_adopt_app: claims the app for pluginName when it is an AppImage. */
  method AdoptApp(pluginName: string, app: GsApp)
    modifies app
    ensures app.Record() == Adopt(old(app.Record()), pluginName)
  {
    if app.bundleKind == BundleAppImage {
      app.SetManagementPlugin(Some(pluginName));
    }
  }

  /**
   * gs_plugin_file_to_app: on success one new GsApp is appended to list and
   * ok is true; on every exit list is left as it was.
   */
  method FileToApp(list: GsAppList, b: Bundle, dataDir: string, fileExists: string -> bool)
    returns (ok: bool, calls: seq<Call>)
    modifies list
    ensures var o := FileToAppSpec(b, dataDir, fileExists);
      && ok == o.result.Success?
      && calls == o.calls
      && (!ok ==> list.apps == old(list.apps))
      && (ok ==> |list.apps| == |old(list.apps)| + 1
                 && list.apps[..|old(list.apps)|] == old(list.apps)
                 && fresh(list.apps[|old(list.apps)|])
                 && list.apps[|old(list.apps)|].Record() == o.result.value)
  {
    ghost var o := FileToAppSpec(b, dataDir, fileExists);
    // appimage_get_type
    if b.typeCode < 0 {
      return false, [GetType];
    }

    // appimage_list_files, then the scan for the desktop file
    var i, desktopFile := SelectDesktopFile(b.files);
    FirstDesktopFileUnique(b.files, i);
    if desktopFile == None {
      return false, [GetType, ListFiles];
    }
    var entry := desktopFile.value;

    // appimage_extract_file_following_symlinks (its result is not checked),
    // then g_key_file_load_from_file
    if b.keyFile.None? {
      return false, [GetType, ListFiles, ExtractFile(entry), LoadKeyFile];
    }
    var kf := b.keyFile.value;

    // appimage_get_md5
    var md5 := b.md5;

    var app := new GsApp(PlaceholderId);
    app.SetManagementPlugin(Some(ManagerName));
    app.SetBundleKind(BundleAppImage);
    app.SetName(GetValue(kf, DesktopGroup, KeyName));
    app.SetSummary(GetValue(kf, DesktopGroup, KeyComment));
    app.SetDescription(GetValue(kf, DesktopGroup, KeyComment));
    app.SetVersion(GetValue(kf, DesktopGroup, KeyAppImageVersion));

    // lstat
    if b.size.None? {
      return false, [GetType, ListFiles, ExtractFile(entry), LoadKeyFile, GetMd5, Lstat];
    }
    app.SetSizeInstalled(b.size.value);
    app.SetSizeDownload(b.size.value);

    var integratedPath := IntegratedPath(dataDir, md5, entry);
    app.SetId(AppId(md5, entry));

    // g_file_test
    calls := [GetType, ListFiles, ExtractFile(entry), LoadKeyFile, GetMd5, Lstat, TestExists(integratedPath)];
    if fileExists(integratedPath) {
      app.SetState(Installed);
    } else {
      app.SetState(AvailableLocal);
    }
    assert o.result.value == AppRecord(
      AppId(md5, entry),
      GetValue(kf, DesktopGroup, KeyName),
      GetValue(kf, DesktopGroup, KeyComment),
      GetValue(kf, DesktopGroup, KeyComment),
      GetValue(kf, DesktopGroup, KeyAppImageVersion),
      b.size.value, b.size.value,
      IntegrationState(fileExists(integratedPath)),
      BundleAppImage, Some(ManagerName));
    assert app.Record() == o.result.value;

    list.Add(app);
    assert list.apps[|old(list.apps)|] == app;
    ok := true;
  }
}
