/**
 * The Image Resizer module interface: the registry change set that
 * registers its shell extension (COM server, drag-and-drop handler and one
 * context-menu handler per image extension), and its enabled flag.
 */
module ImageResizer {
  import opened Wrappers

  datatype Hive = HkeyCurrentUser | HkeyLocalMachine

  /** One registry value to set: key path under `scope`, value name (None is the default value), data. */
  datatype ValueChange = ValueChange(scope: Hive, path: string, valueName: Option<string>, value: string)

  /** CLSID of the context-menu handler class. */
  const ClassClsid := "{51B4D7E5-7568-4234-B4BB-47FB3C016A69}"

  const ClsidRoot := "Software\\Classes\\CLSID"
  const InprocServerKey := "InprocServer32"
  const HandlerRelativePath := "modules\\ImageResizer\\PowerToys.ImageResizerExt.dll"
  /** Root of the per-hive class registrations, as the shell-extension keys spell it. */
  const ClassesRoot := "SOFTWARE\\Classes\\"
  const DragDropPath := ClassesRoot + "Directory\\ShellEx\\" + "DragDropHandlers\\ImageResizer"

  /** The InprocServer32 key of the handler class. */
  const InprocServerPath := ClsidRoot + "\\" + ClassClsid + "\\" + InprocServerKey

  const Placeholder := "<pwt_ext>"
  const TemplateHead := ClassesRoot + "SystemFileAssociations\\"
  const TemplateTail := "\\ShellEx\\ContextMenuHandlers\\ImageResizer"
  /** Key of the per-extension context-menu handler, with `<pwt_ext>` standing for the extension. */
  const ContextMenuTemplate := TemplateHead + Placeholder + TemplateTail

  /** The image extensions the context menu is registered for, in registration order. */
  const Extensions: seq<string> := [".bmp", ".dib", ".gif", ".jfif", ".jpe", ".jpeg", ".jpg",
                                    ".jxr", ".png", ".rle", ".tif", ".tiff", ".wdp"]

  // ---------------------------------------------------------------------------
  // String helpers (std::wstring::find and replace, std::filesystem::path's `/`)

  /** `pattern` occurs in `s` at index `i`. */
  predicate OccursAt(s: string, pattern: string, i: int) {
    0 <= i && i + |pattern| <= |s| && s[i..i + |pattern|] == pattern
  }

  predicate Contains(s: string, pattern: string) {
    exists i :: 0 <= i <= |s| && OccursAt(s, pattern, i)
  }

  /** The first index at which `pattern` occurs in `s` (std::wstring::find), None for npos. */
  function Find(s: string, pattern: string): (r: Option<nat>)
    decreases |s|
    ensures r.Some? ==> OccursAt(s, pattern, r.value)
    ensures r.Some? ==> forall j :: 0 <= j < r.value ==> !OccursAt(s, pattern, j)
    ensures r.None? ==> !Contains(s, pattern)
  {
    if |s| < |pattern| then
      None
    else if s[..|pattern|] == pattern then
      Some(0)
    else
      match Find(s[1..], pattern)
      case None =>
        assert forall j :: 1 <= j ==> OccursAt(s, pattern, j) ==> OccursAt(s[1..], pattern, j - 1);
        None
      case Some(k) =>
        assert forall j :: 1 <= j ==> OccursAt(s, pattern, j) ==> OccursAt(s[1..], pattern, j - 1);
        assert s[1..][k..k + |pattern|] == s[k + 1..k + 1 + |pattern|];
        Some(k + 1)
  }

  /** std::wstring::replace(pos, len, with). */
  function Replace(s: string, pos: nat, len: nat, with: string): (r: string)
    requires pos + len <= |s|
    ensures |r| == |s| - len + |with|
    ensures r[..pos] == s[..pos]
    ensures r[pos..pos + |with|] == with
    ensures r[pos + |with|..] == s[pos + len..]
  {
    s[..pos] + with + s[pos + len..]
  }

  /** Replacing the middle part of a three-part string. */
  lemma ReplaceMiddle(head: string, middle: string, tail: string, with: string)
    ensures Replace(head + middle + tail, |head|, |middle|, with) == head + with + tail
  {
  }

  /** `head` + `pattern` + `tail` where `head` does not hold the pattern's first character. */
  lemma {:induction false} FindAfterHead(head: string, pattern: string, tail: string)
    requires |pattern| > 0 && pattern[0] !in head
    ensures Find(head + pattern + tail, pattern) == Some(|head|)
  {
    var s := head + pattern + tail;
    if head == [] {
      assert s[..|pattern|] == pattern;
    } else {
      assert s[0] == head[0] != pattern[0];
      assert s[..|pattern|] != pattern;
      assert s[1..] == head[1..] + pattern + tail;
      FindAfterHead(head[1..], pattern, tail);
    }
  }

  /** No string avoiding the pattern's first character contains the pattern. */
  lemma NotContainedWithoutFirstChar(s: string, pattern: string)
    requires |pattern| > 0 && pattern[0] !in s
    ensures !Contains(s, pattern)
  {
  }

  /**
   * std::filesystem::path's `dir / rel` for a relative `rel`: a separator
   * goes between them unless `dir` is empty or already ends with one.
   */
  function JoinPath(dir: string, rel: string): (r: string)
    ensures dir == [] ==> r == rel
    ensures dir != [] && (dir[|dir| - 1] == '\\' || dir[|dir| - 1] == '/') ==> r == dir + rel
    ensures dir != [] && dir[|dir| - 1] != '\\' && dir[|dir| - 1] != '/' ==> r == dir + "\\" + rel
  {
    if dir == [] then rel
    else if dir[|dir| - 1] == '\\' || dir[|dir| - 1] == '/' then dir + rel
    else dir + "\\" + rel
  }

  // ---------------------------------------------------------------------------
  // The change set

  /** The registry hive the change set writes to. */
  function Scope(perUser: bool): (h: Hive)
    ensures h == HkeyCurrentUser <==> perUser
  {
    if perUser then HkeyCurrentUser else HkeyLocalMachine
  }

  /** The context-menu registration of one extension. */
  function ExtensionEntry(scope: Hive, extension: string): ValueChange {
    ValueChange(scope, TemplateHead + extension + TemplateTail, None, ClassClsid)
  }

  /** The change set, declared entry by entry. */
  function ExpectedChangeSet(perUser: bool, installationDir: string): seq<ValueChange> {
    var scope := Scope(perUser);
    [ ValueChange(scope, InprocServerPath, None, JoinPath(installationDir, HandlerRelativePath)),
      ValueChange(scope, InprocServerPath, Some("ThreadingModel"), "Apartment"),
      ValueChange(scope, DragDropPath, None, ClassClsid) ]
    + seq(|Extensions|, i requires 0 <= i < |Extensions| => ExtensionEntry(scope, Extensions[i]))
  }

  /** `<pwt_ext>` stands exactly once, right after TemplateHead, in the template. */
  lemma PlaceholderPosition()
    ensures Find(ContextMenuTemplate, Placeholder) == Some(|TemplateHead|)
  {
    assert '<' !in TemplateHead;
    FindAfterHead(TemplateHead, Placeholder, TemplateTail);
  }

  /**
   * ImageResizerModule::get_registry_change_set. `installationDir` is what
   * get_module_folderpath returns.
   */
  method GetRegistryChangeSet(perUser: bool, installationDir: string) returns (changes: seq<ValueChange>)
    ensures changes == ExpectedChangeSet(perUser, installationDir)
  {
    var scope := if perUser then HkeyCurrentUser else HkeyLocalMachine;
    assert scope == Scope(perUser);

    var clsidPath := ClsidRoot;
    clsidPath := clsidPath + "\\";
    clsidPath := clsidPath + ClassClsid;

    var inprocServerPath := clsidPath;
    inprocServerPath := inprocServerPath + "\\";
    inprocServerPath := inprocServerPath + InprocServerKey;
    assert inprocServerPath == InprocServerPath by {
      assert clsidPath == ClsidRoot + "\\" + ClassClsid;
    }

    var handlerPath := JoinPath(installationDir, HandlerRelativePath);

    changes := [ValueChange(scope, inprocServerPath, None, handlerPath),
                ValueChange(scope, inprocServerPath, Some("ThreadingModel"), "Apartment")];
    changes := changes + [ValueChange(scope, DragDropPath, None, ClassClsid)];

    var found := Find(ContextMenuTemplate, Placeholder);
    PlaceholderPosition();
    var replacePos := found.value;
    var replaceLen := |Placeholder|;

    ghost var expected := ExpectedChangeSet(perUser, installationDir);
    for i := 0 to |Extensions|
      invariant changes == expected[..3 + i]
    {
      var currentPath := ContextMenuTemplate;
      currentPath := Replace(currentPath, replacePos, replaceLen, Extensions[i]);
      ghost var entry := ValueChange(scope, currentPath, None, ClassClsid);
      assert entry == expected[3 + i] by {
        ExpectedExtensionEntry(perUser, installationDir, i);
      }
      AppendNext(expected, changes, 3 + i, entry);
      changes := changes + [ValueChange(scope, currentPath, None, ClassClsid)];
    }
  }

  /** Appending entry k to the first k entries gives the first k + 1. */
  lemma AppendNext(expected: seq<ValueChange>, changes: seq<ValueChange>, k: nat, entry: ValueChange)
    requires k < |expected| && changes == expected[..k] && entry == expected[k]
    ensures changes + [entry] == expected[..k + 1]
  {
    assert expected[..k + 1] == expected[..k] + [expected[k]];
  }

  /** Entry 3 + i of the change set is the template with its placeholder replaced by extension i. */
  lemma ExpectedExtensionEntry(perUser: bool, installationDir: string, i: nat)
    requires i < |Extensions|
    ensures |ExpectedChangeSet(perUser, installationDir)| == 3 + |Extensions|
    ensures ExpectedChangeSet(perUser, installationDir)[3 + i] ==
      ValueChange(Scope(perUser), Replace(ContextMenuTemplate, |TemplateHead|, |Placeholder|, Extensions[i]), None, ClassClsid)
  {
    ReplaceMiddle(TemplateHead, Placeholder, TemplateTail, Extensions[i]);
  }

  /** The change set has 16 entries: the COM server, its threading model, drag-and-drop, then each extension in order. */
  lemma ChangeSetLayout(perUser: bool, installationDir: string)
    ensures var cs := ExpectedChangeSet(perUser, installationDir);
      && |cs| == 16
      && cs[0] == ValueChange(Scope(perUser), InprocServerPath, None, JoinPath(installationDir, HandlerRelativePath))
      && cs[1] == ValueChange(Scope(perUser), InprocServerPath, Some("ThreadingModel"), "Apartment")
      && cs[2] == ValueChange(Scope(perUser), DragDropPath, None, ClassClsid)
      && forall i :: 0 <= i < |Extensions| ==> cs[3 + i] == ExtensionEntry(Scope(perUser), Extensions[i])
  {
  }

  /** Every entry writes to HKEY_CURRENT_USER when per-user, to HKEY_LOCAL_MACHINE otherwise. */
  lemma ChangeSetScope(perUser: bool, installationDir: string)
    ensures forall e :: e in ExpectedChangeSet(perUser, installationDir) ==>
      e.scope == (if perUser then HkeyCurrentUser else HkeyLocalMachine)
  {
  }

  /**
   * Each extension entry's key is the template with its one `<pwt_ext>`
   * replaced by the extension, and no `<pwt_ext>` is left in it.
   */
  lemma ExtensionPaths(perUser: bool, installationDir: string, i: nat)
    requires i < |Extensions|
    ensures var path := ExpectedChangeSet(perUser, installationDir)[3 + i].path;
      && Find(ContextMenuTemplate, Placeholder) == Some(|TemplateHead|)
      && path == Replace(ContextMenuTemplate, |TemplateHead|, |Placeholder|, Extensions[i])
      && !Contains(path, Placeholder)
  {
    PlaceholderPosition();
    ChangeSetLayout(perUser, installationDir);
    ExtensionsAvoidAngleBracket();
    assert Extensions[i] in Extensions;
    ExtensionKeyResolved(Extensions[i]);
  }

  /** Replacing the placeholder by an extension without '<' leaves no placeholder. */
  lemma ExtensionKeyResolved(ext: string)
    requires '<' !in ext
    ensures Replace(ContextMenuTemplate, |TemplateHead|, |Placeholder|, ext) == TemplateHead + ext + TemplateTail
    ensures !Contains(TemplateHead + ext + TemplateTail, Placeholder)
  {
    ReplaceMiddle(TemplateHead, Placeholder, TemplateTail, ext);
    assert '<' !in TemplateHead && '<' !in TemplateTail;
    assert Placeholder[0] == '<';
    NotContainedWithoutFirstChar(TemplateHead + ext + TemplateTail, Placeholder);
  }

  lemma ExtensionsAvoidAngleBracket()
    ensures forall e :: e in Extensions ==> '<' !in e
  {
  }

  /** All entries but the first two have the default value name and the class CLSID as data. */
  lemma HandlerEntriesPointAtClass(perUser: bool, installationDir: string)
    ensures var cs := ExpectedChangeSet(perUser, installationDir);
      forall i :: 2 <= i < |cs| ==> cs[i].valueName == None && cs[i].value == ClassClsid
  {
  }

  /** ASCII lower-casing of one character. */
  function LowerChar(c: char): char {
    if 'A' <= c <= 'Z' then (c as int + 32) as char else c
  }

  /** ASCII lower-casing of a name; the registry compares key and value names without regard to case. */
  function Lower(s: string): (r: string)
    ensures |r| == |s|
    ensures forall i :: 0 <= i < |s| ==> r[i] == LowerChar(s[i])
  {
    seq(|s|, i requires 0 <= i < |s| => LowerChar(s[i]))
  }

  function LowerName(name: Option<string>): Option<string> {
    match name
    case None => None
    case Some(n) => Some(Lower(n))
  }

  /** Two changes write the same registry value: same hive, same key and same value name, ignoring case. */
  predicate SameTarget(a: ValueChange, b: ValueChange) {
    a.scope == b.scope && Lower(a.path) == Lower(b.path) && LowerName(a.valueName) == LowerName(b.valueName)
  }

  /** No two entries of the change set write the same value of the same key, even ignoring case. */
  lemma ChangeSetTargetsDistinct(perUser: bool, installationDir: string)
    ensures var cs := ExpectedChangeSet(perUser, installationDir);
      forall i, j :: 0 <= i < j < |cs| ==> !SameTarget(cs[i], cs[j])
  {
    var cs := ExpectedChangeSet(perUser, installationDir);
    forall i, j | 0 <= i < j < |cs| ensures !SameTarget(cs[i], cs[j]) {
      EntryTarget(perUser, installationDir, i);
      EntryTarget(perUser, installationDir, j);
      TargetsDistinct(i, j);
    }
  }

  /** The key entry k of the change set writes to. */
  function TargetPath(k: nat): string
    requires k < 3 + |Extensions|
  {
    if k < 2 then InprocServerPath else if k == 2 then DragDropPath
    else TemplateHead + Extensions[k - 3] + TemplateTail
  }

  /** The value name entry k of the change set writes. */
  function TargetName(k: nat): Option<string> {
    if k == 1 then Some("ThreadingModel") else None
  }

  lemma EntryTarget(perUser: bool, installationDir: string, k: nat)
    requires k < |ExpectedChangeSet(perUser, installationDir)|
    ensures |ExpectedChangeSet(perUser, installationDir)| == 3 + |Extensions|
    ensures ExpectedChangeSet(perUser, installationDir)[k].path == TargetPath(k)
    ensures ExpectedChangeSet(perUser, installationDir)[k].valueName == TargetName(k)
  {
    ChangeSetLayout(perUser, installationDir);
    if k >= 3 {
      assert ExpectedChangeSet(perUser, installationDir)[3 + (k - 3)] == ExtensionEntry(Scope(perUser), Extensions[k - 3]);
    }
  }

  /** Distinct entries differ in key or in value name, ignoring case. */
  lemma TargetsDistinct(i: nat, j: nat)
    requires i < j < 3 + |Extensions|
    ensures Lower(TargetPath(i)) != Lower(TargetPath(j)) || LowerName(TargetName(i)) != LowerName(TargetName(j))
  {
    if j >= 3 {
      ExtensionKeyNotHeadKey(Extensions[j - 3]);
      if i >= 3 {
        ExtensionKeysDistinct(i - 3, j - 3);
      }
    } else if i != 0 || j != 1 {
      HeadKeysDistinct();
    }
  }

  /** The COM server key and the drag-and-drop key differ at index 17, ignoring case. */
  lemma HeadKeysDistinct()
    ensures Lower(InprocServerPath) != Lower(DragDropPath)
  {
    assert LowerChar(InprocServerPath[17]) != LowerChar(DragDropPath[17]);
  }

  /** An extension key is neither of the other two keys, ignoring case. */
  lemma ExtensionKeyNotHeadKey(ext: string)
    ensures Lower(TemplateHead + ext + TemplateTail) != Lower(InprocServerPath)
    ensures Lower(TemplateHead + ext + TemplateTail) != Lower(DragDropPath)
  {
    ExtensionPathHead(ext);
  }

  /** Two extension keys differ, ignoring case. */
  lemma ExtensionKeysDistinct(i: nat, j: nat)
    requires i < j < |Extensions|
    ensures Lower(TemplateHead + Extensions[i] + TemplateTail) != Lower(TemplateHead + Extensions[j] + TemplateTail)
  {
    ExtensionsDistinct(i, j);
    ExtensionFromLoweredPath(i);
    ExtensionFromLoweredPath(j);
  }

  /** Extension keys differ from the COM server key and from the drag-and-drop key at index 17, ignoring case. */
  lemma ExtensionPathHead(ext: string)
    ensures LowerChar((TemplateHead + ext + TemplateTail)[17]) != LowerChar(InprocServerPath[17])
    ensures LowerChar((TemplateHead + ext + TemplateTail)[17]) != LowerChar(DragDropPath[17])
  {
  }

  /** The extensions are spelled in lower case. */
  lemma ExtensionsLowerCase(i: nat)
    requires i < |Extensions|
    ensures Lower(Extensions[i]) == Extensions[i]
  {
    var e := Extensions[i];
    assert forall k :: 0 <= k < |e| ==> !('A' <= e[k] <= 'Z');
  }

  /** The extension can be read back from the lower-cased key. */
  lemma ExtensionFromLoweredPath(i: nat)
    requires i < |Extensions|
    ensures var path := Lower(TemplateHead + Extensions[i] + TemplateTail);
      |path| == |TemplateHead| + |Extensions[i]| + |TemplateTail|
      && path[|TemplateHead|..|path| - |TemplateTail|] == Extensions[i]
  {
    var ext := Extensions[i];
    var s := TemplateHead + ext + TemplateTail;
    var path := Lower(s);
    ExtensionsLowerCase(i);
    assert path[|TemplateHead|..|path| - |TemplateTail|] == Lower(ext);
  }

  lemma ExtensionsDistinct(i: nat, j: nat)
    requires i < j < |Extensions|
    ensures Extensions[i] != Extensions[j]
  {
  }

  // ---------------------------------------------------------------------------
  // The module's enabled flag

  class ImageResizerModule {
    var enabled: bool

    /** The constructor takes the enabled state from the module's settings. */
    constructor (settingsEnabled: bool)
      ensures enabled == settingsEnabled
    {
      enabled := settingsEnabled;
    }

    /** is_enabled. */
    function IsEnabled(): bool
      reads this
    {
      enabled
    }

    /** enable: sets the flag and returns the per-user change set it applies. */
    method Enable(installationDir: string) returns (applied: seq<ValueChange>)
      modifies this
      ensures IsEnabled()
      ensures applied == ExpectedChangeSet(true, installationDir)
    {
      enabled := true;
      applied := GetRegistryChangeSet(true, installationDir);
    }

    /** disable: returns the per-user change set it un-applies, then clears the flag. */
    method Disable(installationDir: string) returns (unapplied: seq<ValueChange>)
      modifies this
      ensures !IsEnabled()
      ensures unapplied == ExpectedChangeSet(true, installationDir)
    {
      unapplied := GetRegistryChangeSet(true, installationDir);
      enabled := false;
    }
  }
}
