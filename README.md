# AppImage plugin for GNOME Software — a Dafny model

This project models the three entry points of the AppImage plugin for GNOME
Software that hold its logic:

- `gs_plugin_file_to_app` turns an AppImage file into an application record
  (a `GsApp`) and appends it to the result list. The steps are:
  1. Ask libappimage for the bundle type.
  2. List the bundle's files and take the first entry ending in `.desktop`.
  3. Extract that entry and load it as a key file.
  4. Read the md5 and the file size.
  5. Derive the id `appimagekit_<md5>-<basename>`.
  6. Look for that desktop file under `<user data dir>/applications/`. If it
     exists the record is INSTALLED, otherwise AVAILABLE_LOCAL.
- `gs_plugin_adopt_app` claims records whose bundle kind is AppImage.
- `gs_plugin_launch` accepts exactly the AppImage records.

Files:

- `wrappers.dfy`: `Option` and `Result`.
- `gpath.dfy`: the GLib helpers the plugin relies on, for the POSIX separator `/`.
  - `g_str_has_suffix`.
  - `g_path_get_basename`.
  - The two-element `g_build_filename`. Leading separators of the first element
    are kept. Separators at the join collapse to one. Trailing separators of
    the last element are kept. An empty element is skipped.
- `appimage.dfy`: the data model and the operations.
  - The collaborators' answers about one file form a `Bundle` value: type code,
    listing, the loaded key file or its failure, md5, and the lstat size or its
    failure.
  - The user data directory and `g_file_test` are parameters.
  - `FileToAppSpec` is the specification function. It gives the exit or the
    record, plus the trace of collaborator calls in order.
  - `FileToApp` is the imperative operation. It scans the listing with a
    `while`/`break` loop (`SelectDesktopFile`), fills a fresh `GsApp` object
    through its setters, and appends it to a `GsAppList`. It is proved equal to
    `FileToAppSpec`.
- `properties.dfy`: lemmas about the specification function.

## Behaviour of the code worth noting

- The result of `appimage_extract_file_following_symlinks` is not checked, so
  there is no extraction-failure exit. The entry is extracted to one fixed
  path, `/tmp/gs-plugin-appimage.desktop`, that nothing removes. A failed
  extraction therefore shows up only through what the load from that path
  returns: a load failure, or a desktop file that an earlier call left
  there, possibly another AppImage's. `Bundle.keyFile` is unconstrained and
  covers both cases.
- The size is checked after the key file has been loaded and the record
  partly filled. The partly filled record is never added to the list.
- A missing `Name` key is not an error: the name is simply unset.
- The load-failure exit frees the listing (gs-plugin-appimage.c:201), including the entry that
  `desktop_file` points to (gs-plugin-appimage.c:175). `g_autofree` (gs-plugin-appimage.c:169) then frees that entry
  again, so this exit is a double free, not a clean FALSE. The same aliasing
  is why freeing the listing at the end is commented out (gs-plugin-appimage.c:308). The model
  treats the exit as returning FALSE.
- `gs_plugin_launch` marks the result of `g_get_user_data_dir()` `g_autofree`
  (gs-plugin-appimage.c:121), although GLib owns that string. A later `file_to_app` can then read
  freed memory when it builds the integrated path (gs-plugin-appimage.c:283). The `dataDir`
  parameter is unconstrained and so covers whatever is read there.

## Model

| member | source | states |
|---|---|---|
| AppImagePlugin.FirstDesktopFile | gs-plugin-appimage.c:171-179 | the index of the first listed entry ending in ".desktop": no earlier entry does, and the index equals the listing's length when none does |
| AppImagePlugin.FirstDesktopFileUnique | gs-plugin-appimage.c:171-179 | those three properties determine the index, so any index that has them is the first desktop file |
| AppImagePlugin.SelectDesktopFile | gs-plugin-appimage.c:171-179 | the scan loop stops at the first entry ending in ".desktop" and returns it; it returns NULL exactly when no entry qualifies |
| AppImagePlugin.GetValue | gs-plugin-appimage.c:264-269 | a key file lookup gives the raw value exactly when the group holds the key, and NULL otherwise |
| AppImagePlugin.IntegrationState | gs-plugin-appimage.c:287-294 | the state is INSTALLED exactly when the integrated desktop file exists, and AVAILABLE_LOCAL otherwise |
| AppImagePlugin.FileToAppSpec | gs-plugin-appimage.c:148-311 | every run calls appimage_get_type first, and a successful run ends with the existence test |
| AppImagePlugin.FileToApp | gs-plugin-appimage.c:148-311 | returns TRUE exactly when the specification succeeds, and makes the same calls. On FALSE the list is unchanged. On TRUE exactly one fresh app is appended, the earlier entries are kept, and its fields are the specified record |
| AppImagePlugin.Adopt | gs-plugin-appimage.c:98-103 | an AppImage record gets the plugin as its manager; any other record is returned unchanged; no other field changes |
| AppImagePlugin.AdoptApp | gs-plugin-appimage.c:98-103 | the app object afterwards holds what Adopt gives for its previous fields |
| AppImagePlugin.Launch | gs-plugin-appimage.c:109-137 | launch returns TRUE exactly for an AppImage record |
| AppImagePlugin.GsApp.constructor | gs-plugin-appimage.c:256 | a new app has the placeholder id and no other field set |
| AppImagePlugin.GsApp.SetId | gs-plugin-appimage.c:285 | only the id changes |
| AppImagePlugin.GsApp.SetName | gs-plugin-appimage.c:264 | only the name changes |
| AppImagePlugin.GsApp.SetSummary | gs-plugin-appimage.c:265 | only the summary changes |
| AppImagePlugin.GsApp.SetDescription | gs-plugin-appimage.c:266 | only the description changes |
| AppImagePlugin.GsApp.SetVersion | gs-plugin-appimage.c:269 | only the version changes |
| AppImagePlugin.GsApp.SetSizeInstalled | gs-plugin-appimage.c:277 | only the installed size changes |
| AppImagePlugin.GsApp.SetSizeDownload | gs-plugin-appimage.c:278 | only the download size changes |
| AppImagePlugin.GsApp.SetState | gs-plugin-appimage.c:290-293 | only the state changes |
| AppImagePlugin.GsApp.SetBundleKind | gs-plugin-appimage.c:260 | only the bundle kind changes |
| AppImagePlugin.GsApp.SetManagementPlugin | gs-plugin-appimage.c:258 | only the management plugin changes |
| AppImagePlugin.GsAppList.constructor | gs-plugin-appimage.c:150 | the list the host passes in; the plugin never creates one, and a list built here starts out empty |
| AppImagePlugin.GsAppList.Add | gs-plugin-appimage.c:305 | the app is appended at the end and the earlier entries are kept |
| AppImageProperties.SelectedDesktopFile | gs-plugin-appimage.c:171-179 | the extracted entry is a desktop file, and it is the first one listed |
| AppImageProperties.ExitOrder | gs-plugin-appimage.c:159-202 | each FALSE exit is taken exactly when the earlier checks passed and its own failed, success exactly when all four pass; an unknown type exits before the listing, a missing desktop file before any extraction |
| AppImageProperties.CallsShape | gs-plugin-appimage.c:159-198 | the calls on each path: type only, then the listing, then the selected entry is extracted before any key file is loaded, and no later step extracts anything |
| AppImageProperties.ExtractsSelectedEntry | gs-plugin-appimage.c:168-188 | any extraction is the third call, comes after the type and the listing, and extracts the first desktop file listed |
| AppImageProperties.AppIdFormat | gs-plugin-appimage.c:282-285 | for an md5 without '/', the id is "appimagekit_" + md5 + "-" + the desktop file's basename, and the partial path is "applications/" followed by the id |
| AppImageProperties.AppIdShape | gs-plugin-appimage.c:282-284 | for any md5 the id holds no '/' and ends in ".desktop" |
| AppImageProperties.HexDigestIsPlain | gs-plugin-appimage.c:239 | a hexadecimal md5 holds neither '/' nor '-' |
| AppImageProperties.AppIdInjective | gs-plugin-appimage.c:282-285 | with hexadecimal md5s, equal ids mean equal md5s and equal desktop file basenames |
| AppImageProperties.DashAfter | gs-plugin-appimage.c:282 | in "prefix + md5 + '-' + rest", the first '-' after the prefix is the one that follows an md5 without '-' |
| AppImageProperties.SplitAtFirstDash | gs-plugin-appimage.c:282 | "prefix + m + '-' + rest" determines m and rest when m holds no '-' |
| AppImageProperties.PartialPathIsInner | gs-plugin-appimage.c:282 | the partial path neither starts nor ends with '/', and ends with the 'p' of ".desktop" |
| AppImageProperties.IntegratedPathLayout | gs-plugin-appimage.c:282-283 | the integrated path ends with the partial path; for a data directory not ending in '/' it is that directory, one '/', and the partial path |
| AppImageProperties.StateClassification | gs-plugin-appimage.c:287-294 | on success the state is INSTALLED exactly when the integrated path exists and AVAILABLE_LOCAL exactly when it does not, and the last call is the existence test of that path |
| AppImageProperties.OnlyStateDependsOnFileSystem | gs-plugin-appimage.c:287-294 | two file systems give the same calls and the same exit, and records that differ at most in the state |
| AppImageProperties.FieldMapping | gs-plugin-appimage.c:256-285 | on success: the id is derived from the md5 and the selected desktop file; the name, summary and version are the Name, Comment and X-AppImage-Version values of [Desktop Entry]; the description is the summary; both sizes are lstat's size; the bundle kind is AppImage; the manager is "appimage" |
| AppImageProperties.OnlyDesktopGroupMatters | gs-plugin-appimage.c:264-269 | key files that agree on the [Desktop Entry] group give the same outcome |
| AppImageProperties.ProducedAppIsAppImage | gs-plugin-appimage.c:258-260 | every produced record is launched by launch and claimed by adopt; adopting it as "appimage" changes nothing |
| AppImageProperties.AdoptIdempotent | gs-plugin-appimage.c:98-103 | adopting twice is adopting once, and a record launch refuses is never changed |
| AppImageProperties.LaunchProbeIsNotIntegratedPath | gs-plugin-appimage.c:119-125 | the path launch checks ends in a literal "-*", so it is never the integrated path file_to_app checks for the same md5 |
| AppImageProperties.InstalledIffIntegrated | gs-plugin-appimage.c:282-294 | for an md5 without '/' and a data directory not ending in '/', the record is INSTALLED exactly when "<dataDir>/applications/<id>" exists, with the record's own id |
| AppImageProperties.IntegratedPathOfId | gs-plugin-appimage.c:282-285 | for such an md5 and data directory, the integrated path is "<dataDir>/applications/" followed by the id |
| AppImageProperties.TypicalAppImage | gs-plugin-appimage.c:148-311 | the case where everything succeeds, end to end: hexadecimal md5, a listing whose first desktop file is a plain top-level name n (other desktop files may follow it), the three keys present, a data directory not ending in '/'. The record is "appimagekit_<md5>-<n>" with the descriptor's values, and it is INSTALLED exactly when "<dataDir>/applications/<id>" exists |
| GPath.HasSuffix | gs-plugin-appimage.c:174 | g_str_has_suffix: the last characters of the string are the suffix; a suffix longer than the string never matches |
| AppImagePlugin.IsDesktopFile | gs-plugin-appimage.c:174 | the entries the scan accepts: those that end in ".desktop" |
| AppImagePlugin.PartialPath | gs-plugin-appimage.c:282 | "applications/appimagekit_" + md5 + "-" + the basename of the desktop file; its shape is stated by PartialPathIsInner and AppIdFormat |
| AppImagePlugin.AppId | gs-plugin-appimage.c:284 | the id is the basename of the partial path; AppIdFormat, AppIdShape and AppIdInjective state its form |
| AppImagePlugin.IntegratedPath | gs-plugin-appimage.c:283 | the partial path joined onto the user data directory with g_build_filename; IntegratedPathLayout states its form |
| AppImagePlugin.LaunchProbePath | gs-plugin-appimage.c:119-122 | launch's path: "applications/appimagekit_" + md5 + "-*" joined onto the data directory; LaunchProbeIsNotIntegratedPath compares it with file_to_app's |
| GPath.LastComponent | gs-plugin-appimage.c:282-284 | what follows the last '/'; LastComponentShape states its properties |
| GPath.PathGetBasename | gs-plugin-appimage.c:282-284 | g_path_get_basename: "." for an empty path, "/" for a path of separators only, otherwise the last component after trailing separators are dropped; BasenameShape states its properties |
| GPath.Core | gs-plugin-appimage.c:283 | an element with the separators at both ends removed, as g_build_filename joins it; CoreOfInner states it for inner elements |
| GPath.LeadingSeparators | gs-plugin-appimage.c:283 | the count of separators a path starts with: all of them are separators and the next character is not |
| GPath.StripTrailingSeparators | gs-plugin-appimage.c:282-284 | stripping trailing separators never lengthens the path |
| GPath.StripTrailingSeparatorsShape | gs-plugin-appimage.c:282-284 | the stripped path is a prefix that does not end in '/', and only separators were dropped |
| GPath.LastComponentShape | gs-plugin-appimage.c:282-284 | the last component is a suffix with no '/', and it is either the whole path or preceded by '/' |
| GPath.BasenameShape | gs-plugin-appimage.c:282-284 | g_path_get_basename is never empty; it is "/" or holds no '/'; for a path not ending in '/' it is the last component |
| GPath.StripTrailingOfClean | gs-plugin-appimage.c:282-284 | a path that does not end in '/' is left as it is |
| GPath.CoreOfInner | gs-plugin-appimage.c:283 | an element with no separator at either end has no leading separators, and its core is itself |
| GPath.LastComponentAfterSeparator | gs-plugin-appimage.c:284 | the last component of "a/b" is b when b holds no '/' (b may be empty) |
| GPath.BasenameAfterSeparator | gs-plugin-appimage.c:284 | g_path_get_basename of "a/b" is b when b is non-empty and holds no '/' |
| GPath.LastComponentOfPlain | gs-plugin-appimage.c:282 | a name with no '/' is its own last component |
| GPath.LastComponentKeepsSuffix | gs-plugin-appimage.c:282 | the last component keeps every suffix of the path that holds no '/' |
| GPath.BasenameKeepsSuffix | gs-plugin-appimage.c:282 | a path ending in ".desktop" has a basename that ends in ".desktop" |
| GPath.BuildFilename | gs-plugin-appimage.c:283 | joining two elements adds at most one character |
| GPath.BuildFilenameEndsWith | gs-plugin-appimage.c:283 | joining onto an element with no separator at either end gives a path ending in that element |
| GPath.BuildFilenameOfPlainDirectory | gs-plugin-appimage.c:283 | joining onto a directory that does not end in '/' inserts exactly one '/' |

## Left out

- libappimage is given as values in `Bundle`. Its type detection, file listing, extraction with symlink following and md5 computation are not modelled.
- GKeyFile parsing is not modelled: a loaded key file is a map of groups to keys to raw values, and a failed load is `None`. Locale-suffixed keys, comments and translations are not modelled.
- `lstat`, `g_file_test` and `g_get_user_data_dir` are the `size` field and the `fileExists` and `dataDir` parameters. The file system is not modelled.
- The fixed temporary path `/tmp/gs-plugin-appimage.desktop` is left out. The extraction and the load are two calls in the trace, with the loaded contents given by `Bundle`.
- A NULL md5 is not modelled: the md5 is always a string. A NULL would print as "(null)" in the id.
- `gs_app_set_scope`, `gs_app_set_kind`, `gs_app_set_local_file` and `gs_app_set_origin` are not modelled. No property of the model depends on them.
- The `GsApp` fields that are not set are assumed empty or unknown at creation. GsApp itself is not part of this model.
- Adopt and GsApp.SetManagementPlugin: the setter is modelled as unconditional. GNOME Software's `gs_app_set_management_plugin` refuses to replace a manager that is already set with a different one, and Adopt inherits that limit. gs-app.c is not part of this model. So `ProducedAppIsAppImage`'s claim that adopting a produced record under another plugin name installs that name holds for this model only. The real setter keeps "appimage", and the host adopts only apps that have no manager.
- `GsAppList.Add` always appends. Any duplicate handling `gs_app_list_add` does is not modelled, because GsAppList is not part of this model.
- Launch: the debug output and the existence test are left out. Its result does not depend on them.
- Launch: the FALSE return without a `GError` is modelled only as the value FALSE.
- `LaunchProbePath`: the `*` is taken as a literal character, because `g_file_test` does no globbing.
- `gs_plugin_initialize`, `gs_plugin_add_installed` and the rest of the file are outside the modelled core.
- Memory management, the leaked string list, `g_debug` logging and cancellation are not modelled.
- Separators other than '/' and Windows drive prefixes in `g_build_filename` and `g_path_get_basename` are not modelled. The model is for POSIX only.
