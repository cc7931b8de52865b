# Overlay input, registry change set and experiment assignment, modelled in Dafny

This project models three pieces of rule logic from PowerToys and proves their properties:

- **Measure Tool overlay** (`OverlayUIDrawing.cpp`). This covers the two window procedures: the measure overlay and the bounds overlay, which tracks a drag-selected region. It also covers the geometry and carved visible region of a new overlay window, and the four-colour theme palette.
- **Image Resizer module interface** (`dllmain.cpp`). This covers the registry change set that registers the shell extension, and the module's enabled flag.
- **Landing-page experiment** (`Experiments_Live.cs`). This covers how the cached `experimentation.json` dictionary is reconciled with a fresh variant assignment. It also covers how `IsExperiment` is decided, both on success and when the assignment service cannot be reached, and how the client id and request parameters are settled.

Files: `wrappers.dfy` (Option), `overlay.dfy` (module `OverlayUI`), `image_resizer.dfy` (module `ImageResizer`), `experiments.dfy` (module `Experiments`).

Modelling choices:

- **Window procedures.** Each one is a method on a window class. `PostMessageW(window, WM_CLOSE)` appends `Close` to the window's `posted` queue, and `DestroyWindow` sets `destroyed`. A procedure answers `Returned(1)` or `DefaultHandler`. `DefaultHandler` means the result is whatever `DefWindowProcW` returns. The default procedure's own behaviour is not part of this model.
- **Cursor and tool state.** The cursor position that `GetCursorPos` reports is a parameter. `ScreenToClient` subtracts the window's client origin. The bounds procedure's function-local `static BoundsToolState*` is a field, bound by `Create` to the window's creation parameter.
- **Overlay geometry inputs.** `GetMonitorInfoW`, `CreateWindowExW`, `GetWindowRect` and `CombineRgn` are parameters: an optional work area and three success flags. Regions are sets of integer pixels. A GDI rectangle includes its left and top edges but not its right and bottom edges.
- **Colours.** Colours are RGBA in hundredths, so `0.96f` is written 96. The dark-mode query is a parameter.
- **Registry inputs.** `get_module_folderpath()` is a parameter, the installation folder. The change set is a sequence of `ValueChange(scope, path, valueName, value)` records.
- **Experiment inputs.** The file is a `FileEntry`: absent, malformed JSON, the literal `null`, or an object of string keys. The service's outcome is a `TasResponse`: assignments, `HttpRequestException` or any other exception. `Guid.NewGuid()` and the FlightRing system property are parameters. An exception that escapes the `HttpRequestException` handler is reported as `faulted`.

## Model

| member | source | states |
|---|---|---|
| `OverlayUI.Answer` | src/modules/MeasureTool/MeasureToolCore/OverlayUIDrawing.cpp:133-137 | erase-background is answered with 1 and never reaches the default procedure; every other message goes to the default procedure |
| `OverlayUI.MeasureToolWindow.WndProc` | src/modules/MeasureTool/MeasureToolCore/OverlayUIDrawing.cpp:46-82 | close and destroy destroy the window; key-up posts a close iff the key is Escape; right-button-up always posts a close; create runs the hide-cursor loop as written, ending at display count 0 (cursor still shown) from a count of 1 or more and one below the count otherwise (cursor hidden); nothing else changes (left-button-up included) |
| `OverlayUI.BoundsToolWindow.WndProc` | src/modules/MeasureTool/MeasureToolCore/OverlayUIDrawing.cpp:84-138 | create binds the tool state; left-button-down overwrites `currentRegionStart` with the client cursor position; left-button-up clears it and yields the selection (start, end) when a drag is in progress; a lone left-button-up changes nothing and yields no selection; Escape and right-button-up post a close without touching the tool state |
| `OverlayUI.HideCursorAsWritten` | src/modules/MeasureTool/MeasureToolCore/OverlayUIDrawing.cpp:73-77 | the loop as written stops at display count 0 when started from 1 or more, where the cursor is still shown; from 0 or below it hides the cursor with one decrement |
| `OverlayUI.HideCursor` | src/modules/MeasureTool/MeasureToolCore/OverlayUIDrawing.cpp:73-77 | the corrected loop always ends with the cursor hidden, at display count -1 (or one below a count that was already negative) |
| `OverlayUI.SurfaceGeometry` | src/modules/MeasureTool/MeasureToolCore/OverlayUIDrawing.cpp:159-169 | left and top are the work area's; width and height are its right minus left and bottom minus top; all four are 0 without monitor information |
| `OverlayUI.VisibleRegion` | src/modules/MeasureTool/MeasureToolCore/OverlayUIDrawing.cpp:198-210 | the region argument, in the screen coordinates the source builds it in: a pixel is in it iff it lies in the window rectangle and not in the toolbar rectangle |
| `OverlayUI.CarvingPartitionsWindow` | src/modules/MeasureTool/MeasureToolCore/OverlayUIDrawing.cpp:198-210 | for a toolbar inside the window, the region argument and the toolbar are disjoint and together make up the window |
| `OverlayUI.DisjointToolbarKeepsWindow` | src/modules/MeasureTool/MeasureToolCore/OverlayUIDrawing.cpp:198-210 | a toolbar sharing no pixel with the window leaves the region argument equal to the whole window |
| `OverlayUI.ShownOnScreen` | src/modules/MeasureTool/MeasureToolCore/OverlayUIDrawing.cpp:209 | a screen pixel is shown iff it lies in the window and, taken relative to the window's top-left corner, in the region given to `SetWindowRgn` |
| `OverlayUI.ScreenRegionAtOrigin` | src/modules/MeasureTool/MeasureToolCore/OverlayUIDrawing.cpp:198-210 | for a window at the screen origin, the region as built shows exactly the window minus the toolbar |
| `OverlayUI.ScreenRegionOffOrigin` | src/modules/MeasureTool/MeasureToolCore/OverlayUIDrawing.cpp:198-210 | for a window at x = 100 and 100 pixels wide with an empty toolbar, the region as built covers the whole window, yet none of the window is shown |
| `OverlayUI.WindowRelativeRegion` | src/modules/MeasureTool/MeasureToolCore/OverlayUIDrawing.cpp:198-210 | the corrected region: a point is in it iff it lies in the window's own rectangle from (0,0) and not in the toolbar shifted by the window's origin |
| `OverlayUI.WindowRelativeRegionShowsCarving` | src/modules/MeasureTool/MeasureToolCore/OverlayUIDrawing.cpp:198-210 | the corrected region shows exactly the window minus the toolbar, wherever the window is |
| `OverlayUI.CreateOverlayUIWindow` | src/modules/MeasureTool/MeasureToolCore/OverlayUIDrawing.cpp:154-213 | no window when creation fails; otherwise the window's rectangle is the work area (or the zero rectangle), and its region argument is window minus toolbar, in screen coordinates, only when the rectangle was obtained and the combine did not fail |
| `OverlayUI.CommonOverlayColors` | src/modules/MeasureTool/MeasureToolCore/OverlayUIDrawing.cpp:215-229 | exactly four colours: the line colour unchanged, black (light) or white (dark), the light or dark background, and the same border in both modes |
| `ImageResizer.Find` | src/modules/imageresizer/dll/dllmain.cpp:195 | the result is an occurrence of the pattern with no earlier occurrence, or none when the pattern does not occur |
| `ImageResizer.Replace` | src/modules/imageresizer/dll/dllmain.cpp:201 | the text before the replaced range and the text after it carry over, the range holds the new text, and the length changes by the difference |
| `ImageResizer.JoinPath` | src/modules/imageresizer/dll/dllmain.cpp:182-184 | the relative path follows the folder, with one backslash between them unless the folder is empty or already ends in a separator |
| `ImageResizer.Scope` | src/modules/imageresizer/dll/dllmain.cpp:171 | the hive is HKEY_CURRENT_USER iff per-user |
| `ImageResizer.FindAfterHead` | src/modules/imageresizer/dll/dllmain.cpp:195 | a pattern placed after text free of its first character is found right after that text |
| `ImageResizer.PlaceholderPosition` | src/modules/imageresizer/dll/dllmain.cpp:194-196 | `<pwt_ext>` is found in the template exactly where the head of the template ends |
| `ImageResizer.GetRegistryChangeSet` | src/modules/imageresizer/dll/dllmain.cpp:155-206 | the built list equals the declared change set, entry by entry and in order |
| `ImageResizer.ChangeSetLayout` | src/modules/imageresizer/dll/dllmain.cpp:157-203 | 16 entries: the InprocServer32 default value (the handler DLL under the installation folder), ThreadingModel = Apartment, the drag-and-drop handler, then one entry per extension in list order |
| `ImageResizer.ChangeSetScope` | src/modules/imageresizer/dll/dllmain.cpp:188-202 | every entry's scope is HKEY_CURRENT_USER when per-user and HKEY_LOCAL_MACHINE otherwise |
| `ImageResizer.ExtensionPaths` | src/modules/imageresizer/dll/dllmain.cpp:194-203 | each extension entry's key is the template with its `<pwt_ext>` replaced by the extension, and contains no `<pwt_ext>` |
| `ImageResizer.ExtensionKeyResolved` | src/modules/imageresizer/dll/dllmain.cpp:200-201 | replacing the placeholder by an extension without '<' gives head + extension + tail and leaves no placeholder |
| `ImageResizer.HandlerEntriesPointAtClass` | src/modules/imageresizer/dll/dllmain.cpp:191-202 | the drag-and-drop entry and every extension entry have the default value name and the class CLSID as value |
| `ImageResizer.ChangeSetTargetsDistinct` | src/modules/imageresizer/dll/dllmain.cpp:157-203 | no two entries write the same value: for any two, the key paths or the value names differ even after ASCII lower-casing, as the registry compares names without regard to case |
| `ImageResizer.ImageResizerModule.constructor` | src/modules/imageresizer/dll/dllmain.cpp:58-64 | the enabled flag starts as the settings say |
| `ImageResizer.ImageResizerModule.IsEnabled` | src/modules/imageresizer/dll/dllmain.cpp:149-152 | reports the enabled flag, which the constructor sets from the settings, `enable` sets and `disable` clears (see their rows) |
| `ImageResizer.ImageResizerModule.Enable` | src/modules/imageresizer/dll/dllmain.cpp:112-134 | afterwards `is_enabled` is true; the change set applied is the per-user one |
| `ImageResizer.ImageResizerModule.Disable` | src/modules/imageresizer/dll/dllmain.cpp:137-147 | afterwards `is_enabled` is false; the change set un-applied is the per-user one |
| `Experiments.Text` | src/common/AllExperiments/Experiments_Live.cs:136 | null has no text; a string is its own text; a number's text starts with a digit or a minus sign |
| `Experiments.TextIsAlternate` | src/common/AllExperiments/Experiments_Live.cs:97 | a value's text is "alternate" iff it is the string "alternate" |
| `Experiments.ParsedVersion` | src/common/AllExperiments/Experiments_Live.cs:75-76 | the stored version parses iff it is a number in int range, and then it is that number |
| `Experiments.MergeAssignment` | src/common/AllExperiments/Experiments_Live.cs:64-81 | the in-place adds and overwrites produce the declared merged dictionary, or the parse failure |
| `Experiments.MergeAddsMissingKeys` | src/common/AllExperiments/Experiments_Live.cs:64-72 | a missing variant is added with the flag and a missing version with the new version; an existing version is not overwritten by the add |
| `Experiments.MergeOverwritesOnlyOlder` | src/common/AllExperiments/Experiments_Live.cs:73-81 | with both keys present, version and variant are overwritten when the stored version is older, and the dictionary is left unchanged otherwise |
| `Experiments.MergeKeepsVariantWithoutVersion` | src/common/AllExperiments/Experiments_Live.cs:64-80 | a stored variant without a version keeps its value; only the version is added |
| `Experiments.MergeFailsOnlyOnBadVersion` | src/common/AllExperiments/Experiments_Live.cs:75-76 | the merge fails iff both keys are present and the stored version does not parse |
| `Experiments.MergePreservesOtherKeys` | src/common/AllExperiments/Experiments_Live.cs:59-84 | no key is removed, only the two experiment keys are added, and every other key (clientid among them) keeps its value |
| `Experiments.MergeSettlesAfterTwo` | src/common/AllExperiments/Experiments_Live.cs:64-81 | with the same assignment, a third merge changes nothing |
| `Experiments.SuccessPathDecision` | src/common/AllExperiments/Experiments_Live.cs:47-57 | on the success path IsExperiment holds iff variants were assigned and the first flag is "alternate" with a non-empty context; no exception escapes |
| `Experiments.NoVariantsChangeNothing` | src/common/AllExperiments/Experiments_Live.cs:47 | with zero assigned variants the file is untouched and IsExperiment is false |
| `Experiments.FallbackDecision` | src/common/AllExperiments/Experiments_Live.cs:90-101 | when the service is unreachable, IsExperiment holds iff the cached file's "variantassignment" is the string "alternate" |
| `Experiments.FaultsAndWrites` | src/common/AllExperiments/Experiments_Live.cs:90-107 | only the network-failure handler can let an exception escape; the file is changed only on the success path |
| `Experiments.MergeKeepsClientId` | src/common/AllExperiments/Experiments_Live.cs:59-84 | the stored client id survives initialisation |
| `Experiments.NewClientFile` | src/common/AllExperiments/Experiments_Live.cs:120-129 | a newly created file holds exactly the key "clientid" with the new GUID; an existing file is not rewritten |
| `Experiments.ClientIdRoundTrip` | src/common/AllExperiments/Experiments_Live.cs:117-138 | the client id created on the first run is the one every later run reads back |
| `Experiments.Experiments.GetVariantAssignmentRequest` | src/common/AllExperiments/Experiments_Live.cs:115-164 | the parameters are exactly "flightRing" (empty when the property is absent) and "clientid" (the settled assignment unit); the file and unit change as declared |
| `Experiments.Experiments.Initialize` | src/common/AllExperiments/Experiments_Live.cs:29-109 | IsExperiment is reset and then decided, and the file is written, exactly as the declared outcome of the built request's file and the service's answer says |
| `Experiments.EnableLandingPageExperiment` | src/common/AllExperiments/Experiments_Live.cs:20-27 | a fresh object's decision is returned, or no answer when an exception escapes |

## Left out

- The overlay thread, the `uiCreatedEvent` handshake, `RunUILoop`'s draw-and-pump loop, the destructor's `IsWindow`/`Sleep` poll, and the completion callback. These are concurrency and the Win32 message loop.
- `SetClipBoardToText`, which is clipboard I/O; its call sites are disabled in the source. A drag's selection is returned by `BoundsToolWindow.WndProc` instead.
- Window class registration (`RegisterClassExW` under `call_once`), DWM blur-behind, `ShowWindow`/`SetWindowPos`, and the Direct2D drawing. These are OS and graphics calls.
- What `DefWindowProcW` does with the messages it receives, and the delivery of posted messages.
- The function-local static pointer's sharing between bounds windows: each window keeps its own pointer here. The static is bound to the creation parameter on `WM_CREATE`. The source dereferences it unchecked, so the model requires `Create` before left-button messages.
- Floating-point colours and points: colours are exact hundredths, and points are the integer cursor positions that the source converts to float.
- A rectangle whose right is not past its left, or whose bottom is not below its top, covers no pixel in this model. GDI's normalisation of such rectangles is not modelled. GDI handle lifetimes, such as the region left unfreed when `CombineRgn` fails, are out of scope.
- The measure overlay's `WM_CREATE` is modelled with the hide-cursor loop as written (`HideCursorAsWritten`). The corrected loop under "## Findings" is proved on its own and is not what the window procedure runs.
- The overlay window's region is recorded as the argument the source builds, in screen coordinates. `ShownOnScreen` states how `SetWindowRgn` reads that argument (relative to the window's top-left corner); `CreateOverlayUIWindow` does not apply it. The corrected, window-relative region under "## Findings" is proved on its own.
- ChangeSetTargetsDistinct: case is ignored only for the ASCII letters. The registry's full Unicode case folding is not modelled, and every name in the change set is ASCII.
- JoinPath: only the separator rule of `std::filesystem::path`'s `/` is modelled. Root names such as `C:` and absolute right-hand operands are not.
- `DllMain`, tracing, `get_config`, the GPO query, `get_name`/`get_key`, sparse-package registration, and actually applying the change set to the registry. These are foreign calls and I/O.
- The HTTP client, file reads and writes, JSON (de)serialisation, telemetry, logging, `Guid.NewGuid`, `AnalyticsInfo`, and async/await. All of them are inputs or outputs. A `File.WriteAllText` that throws is not modelled.
- ParsedVersion: a string-valued "dataversion" is treated as unparseable even when it spells an int. Only JSON numbers parse. JSON booleans, arrays, objects and non-integer numbers are not among the modelled values.

## Findings

| source | as written | input that shows it | evidently intended | confidence | as-written member | corrected member |
|---|---|---|---|---|---|---|
| src/modules/MeasureTool/MeasureToolCore/OverlayUIDrawing.cpp:75 | `for (; ShowCursor(false) > 0;)` stops when the display count reaches 0, and at 0 Windows still shows the cursor | a cursor display count of 1 when `WM_CREATE` arrives: one call returns 0 and the loop stops with the cursor visible | loop while the returned count is `>= 0`, so that the count ends negative and the cursor is hidden | low, not executed: on the fresh overlay thread the count normally starts at 0 or -1, where the loop as written does hide the cursor | `OverlayUI.HideCursorAsWritten` | `OverlayUI.HideCursor` |
| src/modules/MeasureTool/MeasureToolCore/OverlayUIDrawing.cpp:198-209 | the window region is built from `GetWindowRect` and the toolbar box, both in screen coordinates, and handed to `SetWindowRgn`, which reads a region relative to the window's top-left corner | an overlay on a monitor whose work area starts at x = 100, 100 pixels wide: the region covers screen columns 100 to 199, which are window columns 100 to 199, outside the window, so nothing of the window is shown | build the region from (0,0) to the window's size and shift the toolbar box by the window's origin, so that the window minus the toolbar is shown wherever the window is | low, not executed: on a monitor at the screen origin the two agree, and the Win32 reading of the region is taken from its documentation | `OverlayUI.ScreenRegionOffOrigin` | `OverlayUI.WindowRelativeRegionShowsCarving` |

The window procedure and `CreateOverlayUIWindow` follow the code as written; the corrected members are proved beside them.
