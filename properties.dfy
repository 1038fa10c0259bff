/**
 * Properties of the AppImage plugin model: the order of file_to_app's exits,
 * the shape and uniqueness of the id it derives, how the integration state
 * and the other fields are chosen, and how adopt and launch treat the
 * records it produces.
 */
module AppImageProperties {
  import opened Wrappers
  import opened GPath
  import opened AppImagePlugin

  /** Some listed entry ends in ".desktop". */
  predicate HasDesktopFile(files: seq<string>) {
    exists j :: 0 <= j < |files| && IsDesktopFile(files[j])
  }

  /** What appimage_get_md5 returns for a readable file: lower-case hexadecimal digits. */
  predicate IsHexDigest(md5: string) {
    forall k :: 0 <= k < |md5| ==> md5[k] in "0123456789abcdef"
  }

  /** The desktop file file_to_app extracts, when the listing has one. */
  function SelectedDesktopFile(files: seq<string>): (f: string)
    requires HasDesktopFile(files)
    ensures IsDesktopFile(f)
    ensures f == files[FirstDesktopFile(files)]
  {
    files[FirstDesktopFile(files)]
  }

  /**
   * Each exit is taken exactly when every earlier check passed and its own
   * failed, and success exactly when all four pass. An unknown type returns
   * before the file is listed or anything is extracted.
   */
  lemma ExitOrder(b: Bundle, dataDir: string, fileExists: string -> bool)
    ensures var o := FileToAppSpec(b, dataDir, fileExists);
      && (o.result == Failure(UnknownType) <==> b.typeCode < 0)
      && (o.result == Failure(UnknownType) ==> o.calls == [GetType])
      && (o.result == Failure(NoDesktopFile) <==> b.typeCode >= 0 && !HasDesktopFile(b.files))
      && (o.result == Failure(NoDesktopFile) ==> o.calls == [GetType, ListFiles])
      && (o.result == Failure(DesktopFileNotLoaded) <==>
            b.typeCode >= 0 && HasDesktopFile(b.files) && b.keyFile.None?)
      && (o.result == Failure(SizeUnknown) <==>
            b.typeCode >= 0 && HasDesktopFile(b.files) && b.keyFile.Some? && b.size.None?)
      && (o.result.Success? <==>
            b.typeCode >= 0 && HasDesktopFile(b.files) && b.keyFile.Some? && b.size.Some?)
  {
    var i := FirstDesktopFile(b.files);
    if HasDesktopFile(b.files) {
      var j :| 0 <= j < |b.files| && IsDesktopFile(b.files[j]);
      assert i <= j;
    }
  }

  /** The collaborator calls made on each path, up to the extraction of the selected entry. */
  lemma CallsShape(b: Bundle, dataDir: string, fileExists: string -> bool)
    ensures var o := FileToAppSpec(b, dataDir, fileExists);
      var i := FirstDesktopFile(b.files);
      && (b.typeCode < 0 ==> o.calls == [GetType])
      && (b.typeCode >= 0 && i == |b.files| ==> o.calls == [GetType, ListFiles])
      && (b.typeCode >= 0 && i < |b.files| ==>
            && |o.calls| >= 4
            && o.calls[..3] == [GetType, ListFiles, ExtractFile(b.files[i])]
            && forall k :: 3 <= k < |o.calls| ==> !o.calls[k].ExtractFile?)
  {
    var o := FileToAppSpec(b, dataDir, fileExists);
    var i := FirstDesktopFile(b.files);
    if b.typeCode >= 0 && i < |b.files| {
      var f := b.files[i];
      if b.keyFile.None? {
        assert o.calls == [GetType, ListFiles, ExtractFile(f), LoadKeyFile];
      } else if b.size.None? {
        assert o.calls == [GetType, ListFiles, ExtractFile(f), LoadKeyFile, GetMd5, Lstat];
      } else {
        var path := IntegratedPath(dataDir, b.md5, f);
        assert o.calls == [GetType, ListFiles, ExtractFile(f), LoadKeyFile, GetMd5, Lstat, TestExists(path)];
      }
    }
  }

  /** Only the selected entry is ever extracted, and only once the listing is known. */
  lemma ExtractsSelectedEntry(b: Bundle, dataDir: string, fileExists: string -> bool, k: nat)
    requires var o := FileToAppSpec(b, dataDir, fileExists); k < |o.calls| && o.calls[k].ExtractFile?
    ensures HasDesktopFile(b.files)
    ensures var o := FileToAppSpec(b, dataDir, fileExists);
      && k == 2 && o.calls[..k] == [GetType, ListFiles]
      && o.calls[k] == ExtractFile(SelectedDesktopFile(b.files))
  {
    CallsShape(b, dataDir, fileExists);
    var o := FileToAppSpec(b, dataDir, fileExists);
    var i := FirstDesktopFile(b.files);
    assert b.typeCode >= 0 && i < |b.files|;
    assert IsDesktopFile(b.files[i]);
    assert o.calls[..2] == o.calls[..3][..2];
  }

  /**
   * With a separator-free md5 the id is "appimagekit_<md5>-<basename>", and
   * the partial path is "applications/" followed by the id.
   */
  lemma AppIdFormat(md5: string, desktopFile: string)
    requires IsDesktopFile(desktopFile) && Separator !in md5
    ensures AppId(md5, desktopFile) == IdPrefix + md5 + "-" + PathGetBasename(desktopFile)
    ensures PartialPath(md5, desktopFile) == ApplicationsDir + [Separator] + AppId(md5, desktopFile)
  {
    var base := PathGetBasename(desktopFile);
    BasenameKeepsSuffix(desktopFile, DesktopSuffix);
    BasenameShape(desktopFile);
    var name := IdPrefix + md5 + "-" + base;
    assert Separator !in name by {
      assert forall k :: 0 <= k < |name| ==> name[k] != Separator by {
        forall k | 0 <= k < |name| ensures name[k] != Separator {
          if k < |IdPrefix| {
            assert name[k] == IdPrefix[k];
          } else if k < |IdPrefix| + |md5| {
            assert name[k] == md5[k - |IdPrefix|];
          } else if k > |IdPrefix| + |md5| {
            assert name[k] == base[k - |IdPrefix| - |md5| - 1];
          }
        }
      }
    }
    var partial := PartialPath(md5, desktopFile);
    assert partial == ApplicationsDir + [Separator] + name;
    LastComponentAfterSeparator(ApplicationsDir, name);
    assert partial[|partial| - 1] == name[|name| - 1] == base[|base| - 1] != Separator;
  }

  /** Whatever the md5, the id holds no separator and ends in ".desktop". */
  lemma AppIdShape(md5: string, desktopFile: string)
    requires IsDesktopFile(desktopFile)
    ensures Separator !in AppId(md5, desktopFile)
    ensures HasSuffix(AppId(md5, desktopFile), DesktopSuffix)
  {
    var base := PathGetBasename(desktopFile);
    BasenameKeepsSuffix(desktopFile, DesktopSuffix);
    var partial := PartialPath(md5, desktopFile);
    assert partial[|partial| - |base|..] == base;
    assert partial[|partial| - |DesktopSuffix|..] == base[|base| - |DesktopSuffix|..];
    BasenameKeepsSuffix(partial, DesktopSuffix);
    BasenameShape(partial);
  }

  /** Hexadecimal digests hold neither separator nor '-'. */
  lemma HexDigestIsPlain(md5: string)
    requires IsHexDigest(md5)
    ensures Separator !in md5 && '-' !in md5
  {
  }

  /**
   * Distinct (md5, desktop file basename) pairs give distinct ids: the first
   * '-' after the prefix ends the md5.
   */
  lemma AppIdInjective(m1: string, d1: string, m2: string, d2: string)
    requires IsHexDigest(m1) && IsHexDigest(m2)
    requires IsDesktopFile(d1) && IsDesktopFile(d2)
    requires AppId(m1, d1) == AppId(m2, d2)
    ensures m1 == m2 && PathGetBasename(d1) == PathGetBasename(d2)
  {
    HexDigestIsPlain(m1);
    HexDigestIsPlain(m2);
    AppIdFormat(m1, d1);
    AppIdFormat(m2, d2);
    SplitAtFirstDash(IdPrefix, m1, PathGetBasename(d1), m2, PathGetBasename(d2));
  }

  /** In prefix + m + "-" + rest, the first '-' after the prefix is the one after m. */
  lemma DashAfter(prefix: string, m: string, rest: string)
    requires '-' !in m
    ensures var s := prefix + m + "-" + rest;
      && s[|prefix| + |m|] == '-'
      && forall k :: |prefix| <= k < |prefix| + |m| ==> s[k] != '-'
  {
    var s := prefix + m + "-" + rest;
    assert forall k :: |prefix| <= k < |prefix| + |m| ==> s[k] == m[k - |prefix|];
  }

  /** prefix + m + "-" + rest determines m and rest when m holds no '-'. */
  lemma SplitAtFirstDash(prefix: string, m1: string, r1: string, m2: string, r2: string)
    requires '-' !in m1 && '-' !in m2
    requires prefix + m1 + "-" + r1 == prefix + m2 + "-" + r2
    ensures m1 == m2 && r1 == r2
  {
    var s := prefix + m1 + "-" + r1;
    var p := |prefix|;
    DashAfter(prefix, m1, r1);
    DashAfter(prefix, m2, r2);
    assert |m1| == |m2|;
    assert m1 == s[p..p + |m1|] == m2;
    assert r1 == s[p + |m1| + 1..] == r2;
  }

  /**
   * The integrated desktop file is looked up as the partial path
   * ("applications/<id>", see AppIdFormat) inside the data directory; for a
   * data directory not ending in '/' that is "<dataDir>/<partial path>".
   */
  lemma IntegratedPathLayout(dataDir: string, md5: string, desktopFile: string)
    requires IsDesktopFile(desktopFile)
    ensures HasSuffix(IntegratedPath(dataDir, md5, desktopFile), PartialPath(md5, desktopFile))
    ensures dataDir != [] && dataDir[|dataDir| - 1] != Separator ==>
      IntegratedPath(dataDir, md5, desktopFile) == dataDir + [Separator] + PartialPath(md5, desktopFile)
  {
    PartialPathIsInner(md5, desktopFile);
    var partial := PartialPath(md5, desktopFile);
    BuildFilenameEndsWith(dataDir, partial);
    if dataDir != [] && dataDir[|dataDir| - 1] != Separator {
      BuildFilenameOfPlainDirectory(dataDir, partial);
    }
  }

  /** The partial path starts with 'a' and ends with the 'p' of ".desktop". */
  lemma PartialPathIsInner(md5: string, desktopFile: string)
    requires IsDesktopFile(desktopFile)
    ensures IsInnerElement(PartialPath(md5, desktopFile))
    ensures PartialPath(md5, desktopFile)[|PartialPath(md5, desktopFile)| - 1] == 'p'
  {
    var base := PathGetBasename(desktopFile);
    BasenameKeepsSuffix(desktopFile, DesktopSuffix);
    assert base[|base| - 1] == 'p';
  }

  /**
   * The state is INSTALLED exactly when the integrated path exists, and
   * AVAILABLE_LOCAL otherwise; the last call is the existence test of that path.
   */
  lemma StateClassification(b: Bundle, dataDir: string, fileExists: string -> bool)
    requires FileToAppSpec(b, dataDir, fileExists).result.Success?
    ensures HasDesktopFile(b.files)
    ensures var o := FileToAppSpec(b, dataDir, fileExists);
      var path := IntegratedPath(dataDir, b.md5, SelectedDesktopFile(b.files));
      && (o.result.value.state == Installed <==> fileExists(path))
      && (o.result.value.state == AvailableLocal <==> !fileExists(path))
      && o.calls[|o.calls| - 1] == TestExists(path)
  {
    ExitOrder(b, dataDir, fileExists);
    var o := FileToAppSpec(b, dataDir, fileExists);
    var path := IntegratedPath(dataDir, b.md5, SelectedDesktopFile(b.files));
    assert o.result.value.state == IntegrationState(fileExists(path));
  }

  /**
   * For an md5 without '/' and a data directory not ending in '/', the
   * record is INSTALLED exactly when "<dataDir>/applications/<id>" exists.
   */
  lemma InstalledIffIntegrated(b: Bundle, dataDir: string, fileExists: string -> bool)
    requires FileToAppSpec(b, dataDir, fileExists).result.Success?
    requires Separator !in b.md5
    requires dataDir != [] && dataDir[|dataDir| - 1] != Separator
    ensures var app := FileToAppSpec(b, dataDir, fileExists).result.value;
      app.state == Installed <==> fileExists(dataDir + [Separator] + ApplicationsDir + [Separator] + app.id)
  {
    StateClassification(b, dataDir, fileExists);
    FieldMapping(b, dataDir, fileExists);
    IntegratedPathOfId(dataDir, b.md5, SelectedDesktopFile(b.files));
  }

  /** The integrated path spelled out around the id, for a plain md5 and data directory. */
  lemma IntegratedPathOfId(dataDir: string, md5: string, desktopFile: string)
    requires IsDesktopFile(desktopFile) && Separator !in md5
    requires dataDir != [] && dataDir[|dataDir| - 1] != Separator
    ensures IntegratedPath(dataDir, md5, desktopFile)
         == dataDir + [Separator] + ApplicationsDir + [Separator] + AppId(md5, desktopFile)
  {
    var id := AppId(md5, desktopFile);
    var rel := ApplicationsDir + [Separator];
    assert PartialPath(md5, desktopFile) == rel + id by {
      AppIdFormat(md5, desktopFile);
    }
    assert IntegratedPath(dataDir, md5, desktopFile) == dataDir + [Separator] + (rel + id) by {
      IntegratedPathLayout(dataDir, md5, desktopFile);
    }
    assert dataDir + [Separator] + (rel + id) == dataDir + [Separator] + ApplicationsDir + [Separator] + id;
  }

  /**
   * The existence test decides the state and nothing else: two file systems
   * give the same exit, the same record up to the state, and the same calls
   * up to the answer about that path.
   */
  lemma OnlyStateDependsOnFileSystem(b: Bundle, dataDir: string, e1: string -> bool, e2: string -> bool)
    ensures var o1 := FileToAppSpec(b, dataDir, e1);
      var o2 := FileToAppSpec(b, dataDir, e2);
      && o1.calls == o2.calls
      && o1.result.Success? == o2.result.Success?
      && (o1.result.Failure? ==> o1.result == o2.result)
      && (o1.result.Success? ==> o1.result.value == o2.result.value.(state := o1.result.value.state))
  {
  }

  /**
   * The record's fields: Name, Comment (as both summary and description) and
   * X-AppImage-Version from the [Desktop Entry] group, the lstat size as both
   * sizes, the derived id, and this plugin as the AppImage's manager.
   */
  lemma FieldMapping(b: Bundle, dataDir: string, fileExists: string -> bool)
    requires FileToAppSpec(b, dataDir, fileExists).result.Success?
    ensures HasDesktopFile(b.files) && b.keyFile.Some? && b.size.Some?
    ensures var app := FileToAppSpec(b, dataDir, fileExists).result.value;
      var kf := b.keyFile.value;
      && app.id == AppId(b.md5, SelectedDesktopFile(b.files))
      && app.name == GetValue(kf, DesktopGroup, KeyName)
      && app.summary == GetValue(kf, DesktopGroup, KeyComment)
      && app.description == app.summary
      && app.version == GetValue(kf, DesktopGroup, KeyAppImageVersion)
      && app.sizeInstalled == app.sizeDownload == b.size.value
      && app.bundleKind == BundleAppImage
      && app.managementPlugin == Some(ManagerName)
  {
    ExitOrder(b, dataDir, fileExists);
  }

  /** Groups other than [Desktop Entry] have no effect on the outcome. */
  lemma OnlyDesktopGroupMatters(b: Bundle, kf1: KeyFile, kf2: KeyFile,
                                dataDir: string, fileExists: string -> bool)
    requires (DesktopGroup in kf1) == (DesktopGroup in kf2)
    requires DesktopGroup in kf1 ==> kf1[DesktopGroup] == kf2[DesktopGroup]
    ensures FileToAppSpec(b.(keyFile := Some(kf1)), dataDir, fileExists)
         == FileToAppSpec(b.(keyFile := Some(kf2)), dataDir, fileExists)
  {
    assert forall key :: GetValue(kf1, DesktopGroup, key) == GetValue(kf2, DesktopGroup, key);
  }

  /** Every record file_to_app produces is claimed by adopt and launched by launch. */
  lemma ProducedAppIsAppImage(b: Bundle, dataDir: string, fileExists: string -> bool, pluginName: string)
    requires FileToAppSpec(b, dataDir, fileExists).result.Success?
    ensures var app := FileToAppSpec(b, dataDir, fileExists).result.value;
      && Launch(app)
      && Adopt(app, pluginName).managementPlugin == Some(pluginName)
      && Adopt(app, ManagerName) == app
  {
  }

  /** Adopting twice is adopting once, and a non-AppImage is never changed. */
  lemma AdoptIdempotent(app: AppRecord, pluginName: string)
    ensures Adopt(Adopt(app, pluginName), pluginName) == Adopt(app, pluginName)
    ensures !Launch(app) ==> Adopt(app, pluginName) == app
  {
  }

  /**
   * The path launch checks ends in a literal "-*", so it is never the
   * integrated desktop file path that file_to_app checks for the same md5.
   */
  lemma LaunchProbeIsNotIntegratedPath(dataDir: string, md5: string, desktopFile: string)
    requires IsDesktopFile(desktopFile)
    ensures LaunchProbePath(dataDir, md5) != IntegratedPath(dataDir, md5, desktopFile)
  {
    var probe := ApplicationsDir + [Separator] + IdPrefix + md5 + "-*";
    var partial := PartialPath(md5, desktopFile);
    var base := PathGetBasename(desktopFile);
    BasenameKeepsSuffix(desktopFile, DesktopSuffix);
    assert partial[|partial| - 1] == base[|base| - 1] == 'p';
    assert probe[|probe| - 1] == '*';
    BuildFilenameEndsWith(dataDir, probe);
    BuildFilenameEndsWith(dataDir, partial);
    var p1 := LaunchProbePath(dataDir, md5);
    var p2 := IntegratedPath(dataDir, md5, desktopFile);
    assert p1[|p1| - 1] == probe[|probe| - 1];
    assert p2[|p2| - 1] == partial[|partial| - 1];
  }

  /**
   * The typical case end to end: a hexadecimal md5, a listing whose first
   * desktop file (at index k) is a plain name n at the top of the AppImage,
   * whatever other desktop files follow it, a descriptor
   * with Name, Comment and X-AppImage-Version, and a data directory not
   * ending in '/'. The record is "appimagekit_<md5>-<n>", with the
   * descriptor's values, and INSTALLED exactly when
   * "<dataDir>/applications/appimagekit_<md5>-<n>" exists.
   */
  lemma TypicalAppImage(b: Bundle, k: nat, n: string, dataDir: string, fileExists: string -> bool)
    requires b.typeCode >= 0 && IsHexDigest(b.md5)
    requires IsDesktopFile(n) && Separator !in n
    requires k < |b.files| && b.files[k] == n && forall j :: 0 <= j < k ==> !IsDesktopFile(b.files[j])
    requires b.keyFile.Some? && DesktopGroup in b.keyFile.value
    requires var group := b.keyFile.value[DesktopGroup];
      KeyName in group && KeyComment in group && KeyAppImageVersion in group
    requires b.size.Some?
    requires dataDir != [] && dataDir[|dataDir| - 1] != Separator
    ensures var group := b.keyFile.value[DesktopGroup];
      var id := IdPrefix + b.md5 + "-" + n;
      var path := dataDir + [Separator] + PartialPath(b.md5, n);
      && PartialPath(b.md5, n) == ApplicationsDir + [Separator] + id
      && FileToAppSpec(b, dataDir, fileExists).result
        == Success(AppRecord(id, Some(group[KeyName]), Some(group[KeyComment]), Some(group[KeyComment]),
                             Some(group[KeyAppImageVersion]), b.size.value, b.size.value,
                             if fileExists(path) then Installed else AvailableLocal,
                             BundleAppImage, Some(ManagerName)))
  {
    FirstDesktopFileUnique(b.files, k);
    HexDigestIsPlain(b.md5);
    LastComponentOfPlain(n);
    assert n[|n| - 1] == 'p';
    assert PathGetBasename(n) == n;
    AppIdFormat(b.md5, n);
    IntegratedPathLayout(dataDir, b.md5, n);
    ExitOrder(b, dataDir, fileExists);
    FieldMapping(b, dataDir, fileExists);
    StateClassification(b, dataDir, fileExists);
    var app := FileToAppSpec(b, dataDir, fileExists).result.value;
    assert app.id == IdPrefix + b.md5 + "-" + n;
    assert IntegratedPath(dataDir, b.md5, n) == dataDir + [Separator] + PartialPath(b.md5, n);
  }
}
