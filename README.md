# Task image selection and renaming — a Dafny model

This project models the engine that collects inspection images from a
VTV-9000 task folder and copies them, under new names, into an output folder.
It also models the small pieces of the two front ends (the tkinter camera
dialog and the Flet application) that feed the engine or report on it.

Both front ends drive the same batch, `process_images`:

* It reads the tool log `cammaster_seq.log` into a map from a camera
  coordinate `(x, y)` to the name of its image-capture tool.
* It takes the `.DIV` lines of the first metadata file, reads each one's
  first two integers as a coordinate `[CAM, DIV]`, and renumbers DIVs that do
  not follow on within a run of one camera. It pairs the raw and normalised
  lists into two dictionaries.
* It scans every metadata file as a small state machine. The machine carries
  the last `Comment=` and `Locked=` values, and a save mode decides which
  `FILE=` images are kept.
* It gives every kept image a name from one of three filename templates and
  makes that name free of the nine characters Windows refuses in file names, with no space or dot at either end. A `_<stem>` suffix is repeated
  until the name is free. Then it copies the image: every image in camera
  mode `"0"`, only the selected cameras in camera mode `"1"`.
* Before each file it checks for a cancel, and it reports progress.

## How the model is organised

| module | file | models |
|---|---|---|
| `Wrappers` | wrappers.dfy | `Option`, `Result` and the three Python exceptions the model can raise |
| `Text` | text.dfy | the character classes, `strip`, `replace`, `in`, `str(n)`, and string order |
| `PyFormat` | pyformat.dfy | `int(s)` and `format(x, spec)` for width specifications |
| `Template` | template.dfy | `sanitize_filename` and `apply_filename_template` |
| `Folder` | folder.dfy | the image folder: a listing and each file's lines |
| `Coords` | coords.dfy | `find_cam_and_div`, `process_first_file`, `adjust_save_CAM_list`, `create_mapping`, `get_camera_list` |
| `ToolLog` | toollog.dfy | `parse_cammaster_log` and its regular expression |
| `Scanner` | scanner.dfy | `process_file` and `should_save_file` |
| `Naming` | naming.dfy | `is_image_capture_format`, `generate_new_file_name`, the suffix loop |
| `Copying` | copying.dfy | `copy_files` and `copy_select_files` |
| `Batch` | batch.dfy | the loop of `process_images` |
| `Cameras` | cameras.dfy | `convert_arrays_to_params` and the OK handlers' list of selected pairs |
| `Selection` | selection.dfy | the selection state of the tkinter dialog `create_gui` |
| `Flet` | flet.dfy | `format_value`, the OK button's number check, `extract_unknown_placeholders`, the Flet camera dialog |
| `Processing` | processing.dfy | the `processing_state` bookkeeping of the Flet run |
| `Utils` | utils.dfy | `format_value` and `find_img_folder` of `utils.py` |

The code is modelled as it is written:

* **Pure code** is modelled by functions: the sanitiser, the template engine,
  the name choice, and the two `format_value`s.
* **Loops and in-place updates** are modelled by methods with loop
  invariants, each proved equal to a specification function:
  * `process_first_file`, `adjust_save_CAM_list` and `create_mapping`;
  * `process_file`, the suffix loop, `copy_files` and `copy_select_files`;
  * the batch loop and the OK handlers' pair loop.
* **Objects** are classes whose methods change fields under `modifies`:
  * the tkinter dialog's `selected_items`, result and open flag;
  * the Flet dialog's `selected_items`;
  * the Flet `processing_state` dictionary.

**File system and callbacks.** These are values, not effects:
* a folder is a listing together with each file's lines;
* the output folder is the set of names in it;
* a copy adds its target to that set and is recorded as a source/target pair;
* `cancel_check()` is a sequence of answers, one per file;
* the progress callback's calls are the list of reports the run returns;
* `os.path.exists` is a predicate parameter.

**Exceptions** are `Err` results. Three are modelled:
* `FileNotFoundError` for a missing log or metadata file;
* `ValueError` when the first file's `.DIV` lines give two or more
  coordinates and one of them is not a pair of integers, which the tuple
  unpacking at lines 106 and 193-194 needs (a single coordinate is copied
  without being unpacked);
* `TypeError` from `list(None)`, raised by the debug print at line 385
  without a normalised `[1, 1]`, and by `copy_select_files` for an image
  whose raw coordinate is not in the mapping.

**Where the model follows the code rather than the description.**
* Tool comments are looked up by the *normalised* coordinate, as lines 257
  and 280 do.
* The comment used for the template choice is the value left after the
  whole file was scanned.
* `index` counts every kept image, including the ones the camera filter drops.
* The round trip `mapping_AB[mapping_BA[c]] == c` is proved only when the
  normalised list has no duplicates.
  * `Coords.MappingRoundTripCounterexample` shows it failing otherwise: raw
    `[[1,1],[1,5],[2,1],[1,2]]` sends `(1,5)` to `(1,2)` and back to `(1,2)`.
  * `Coords.AdjustedDistinct` shows that there are no duplicates whenever
    each camera's lines are contiguous.

## Model

| member | source | states |
|---|---|---|
| Template.ReplaceInvalid | save_task_images_CamNum_selection.py:17-20 | the text keeps its length, each of the nine characters `\ / : * ? " < > \|` becomes `_`, so none remains, and every other character stays in place |
| Template.Sanitize | save_task_images_CamNum_selection.py:7-26 | the result is non-empty, free of the nine characters `\ / : * ? " < > \|` the function replaces, with no space or dot at either end |
| Template.SanitizeSafe | save_task_images_CamNum_selection.py:17-26 | a name that is already safe comes back unchanged |
| Template.SanitizeIdempotent | save_task_images_CamNum_selection.py:17-26 | sanitising a sanitised name changes nothing |
| Template.SanitizeKeepsInterior | save_task_images_CamNum_selection.py:20-22 | spaces and dots around a clean middle are removed, and the middle is kept exactly |
| Template.MatchAtSound | save_task_images_CamNum_selection.py:55 | every match of the placeholder pattern is a well-formed `{name}` or `{name:fmt}` spelled out at the start of the text |
| Template.MatchAtComplete | save_task_images_CamNum_selection.py:55 | every well-formed placeholder is matched, whatever follows it |
| Template.Lookup | save_task_images_CamNum_selection.py:45-52 | exactly the six field names have a value; any other name has none |
| Template.SubstituteLiteral | save_task_images_CamNum_selection.py:80 | text without `{` is copied through unchanged |
| Template.SubstitutePlaceholder | save_task_images_CamNum_selection.py:57-80 | a placeholder is replaced by its replacement, and the rest of the template is processed after it |
| Template.UnknownPlaceholderVanishes | save_task_images_CamNum_selection.py:61-63 | a placeholder with an unknown name renders as nothing, with or without a format |
| Template.KnownPlaceholderValue | save_task_images_CamNum_selection.py:65-78 | `{field}` gives its argument's value; for each of the six fields a `None` argument renders as the empty text |
| Template.FormatFieldCases | save_task_images_CamNum_selection.py:66-76 | with a width format, a blank value formats as 0, a numeric value reads back as the same integer, any other value is padded text starting with itself, and the result is never narrower than the width |
| Template.Render | save_task_images_CamNum_selection.py:29-81 | rendering never fails and always gives a safe name |
| Template.BogusTemplate | save_task_images_CamNum_selection.py:61-63 | a template that is only an unknown placeholder renders as `unnamed` |
| Template.OriginalTemplate | save_task_images_CamNum_selection.py:80-81 | `{original}` passes a safe original name through unchanged |
| PyFormat.FormatInt | save_task_images_CamNum_selection.py:70 | a formatted integer is never narrower than the width asked for |
| PyFormat.FormatStr | save_task_images_CamNum_selection.py:74 | a formatted text starts with the text and is never narrower than the width |
| PyFormat.ParseFormatInt | save_task_images_CamNum_selection.py:69-70 | `int(format(n, spec))` is `n` for every modelled width specification, zero or space padded, for negative integers too |
| PyFormat.ParseNatToString | save_task_images_CamNum_selection.py:49-51 | `int(str(n))` is `n` |
| PyFormat.ParseSameStrip | save_task_images_CamNum_selection.py:69 | `int` ignores surrounding whitespace: texts that strip alike read alike |
| PyFormat.TwoDigitsOf | main_save_task_images_flet.py:45 | `f"{n:02}"` of a non-negative integer is its digits, with one leading zero when it has only one |
| Text.NatToString | save_task_images_CamNum_selection.py:49-51 | `str(n)` is a digit run worth `n`, without a leading zero |
| Text.NatToStringCanonical | save_task_images_CamNum_selection.py:49-51 | the digits of `str(n)` are the only digit run worth `n` without a leading zero |
| Text.ReplaceLeading | save_task_images_CamNum_selection.py:217 | removing a key from a line that starts with it, and holds it nowhere else, leaves the rest |
| Text.StripByIdempotent | save_task_images_CamNum_selection.py:22 | stripping a second time removes nothing more |
| Folder.FilesWithExtension | save_task_images_CamNum_selection.py:175-176 | a name is in the result exactly when it is listed and ends in the extension, and it occurs there as often as in the listing; every other name occurs zero times |
| Folder.ReadLines | save_task_images_CamNum_selection.py:214 | opening a file succeeds exactly when it is in the folder |
| Coords.FindCamAndDiv | save_task_images_CamNum_selection.py:179-181 | at most two integers are taken |
| Coords.FindCamAndDivLayout | save_task_images_CamNum_selection.py:179-181 | a name made of text without digits, the camera number, a separator without digits, the DIV number and a tail not starting with a digit gives `[cam, div]` |
| Coords.NumbersSkip | save_task_images_CamNum_selection.py:180 | `\d+` finds nothing in text without digits |
| Coords.NumbersLead | save_task_images_CamNum_selection.py:180 | a leading digit run is found whole, as its value |
| Coords.DivCoords | save_task_images_CamNum_selection.py:204-210 | at most one coordinate per line |
| Coords.DivCoordsAppend | save_task_images_CamNum_selection.py:207-209 | reading more lines only appends coordinates after the ones already read |
| Coords.DivCoordsSources | save_task_images_CamNum_selection.py:208-209 | every coordinate comes from a `.DIV` line, and when every line is one, each gives a coordinate |
| Coords.ProcessFirstFile | save_task_images_CamNum_selection.py:204-210 | the loop collects exactly the coordinates of the `.DIV` lines, in file order |
| Coords.Adjusted | save_task_images_CamNum_selection.py:184-201 | the length and the first element are preserved, and every element of a list of two or more is a pair |
| Coords.AdjustedIsTheNormalisation | save_task_images_CamNum_selection.py:184-201 | a list is a normalisation of the input if and only if it is `Adjusted` of it |
| Coords.AdjustedNormalises | save_task_images_CamNum_selection.py:184-201 | `Adjusted` keeps the length, the first element and every CAM, and renumbers exactly the DIVs that do not follow on |
| Coords.NormalisationUnique | save_task_images_CamNum_selection.py:184-201 | any list with those properties is `Adjusted` of the input |
| Coords.AdjustedAt | save_task_images_CamNum_selection.py:192-200 | each element keeps its CAM; with the same CAM as before, its DIV is the previous DIV plus one; otherwise it is the input element |
| Coords.AdjustedCam | save_task_images_CamNum_selection.py:193-200 | every CAM component is preserved |
| Coords.AdjustedRun | save_task_images_CamNum_selection.py:196-198 | within a run of one CAM, the DIVs count up by one |
| Coords.AdjustedIdempotent | save_task_images_CamNum_selection.py:184-201 | normalising a normalised list changes nothing |
| Coords.AdjustedExample | save_task_images_CamNum_selection.py:184-201 | `[[1,1],[1,2],[1,4],[2,1]]` becomes `[[1,1],[1,2],[1,3],[2,1]]` |
| Coords.AdjustSaveCamList | save_task_images_CamNum_selection.py:184-201 | the loop gives `Adjusted` of the input, and `ValueError` when an element is not a pair |
| Coords.ContiguousRun | save_task_images_CamNum_selection.py:196 | between two elements of one camera, when cameras are contiguous, every element belongs to that camera |
| Coords.AdjustedDistinctAt | save_task_images_CamNum_selection.py:184-201 | with contiguous cameras, two positions never get the same normalised coordinate |
| Coords.AdjustedDistinct | save_task_images_CamNum_selection.py:184-201 | with contiguous cameras, the normalised list has no duplicates |
| Coords.PairingAt | save_task_images_CamNum_selection.py:333-335 | a key maps to the value paired with its last occurrence |
| Coords.PairingKeys | save_task_images_CamNum_selection.py:333-345 | a key is in the dictionary exactly when it is in the zipped list, so an absent key's lookup gives `None` |
| Coords.PairingValues | save_task_images_CamNum_selection.py:333-335 | every value is paired with its key at the key's last occurrence |
| Coords.PairingTruncate | save_task_images_CamNum_selection.py:333 | `zip` stops at the shorter list |
| Coords.MappingRoundTrip | save_task_images_CamNum_selection.py:328-345 | when the normalised list has no duplicates, looking a raw coordinate up and the result back gives the raw coordinate |
| Coords.MappingsInverse | save_task_images_CamNum_selection.py:328-345 | when both lists have no duplicates, the two dictionaries have the lists' elements as keys and are inverse to each other |
| Coords.MappingRoundTripCounterexample | save_task_images_CamNum_selection.py:328-345 | a camera that comes back after another breaks the round trip |
| Coords.CreateMapping | save_task_images_CamNum_selection.py:328-337 | the loop builds `mapping_AB` from normalised to raw and `mapping_BA` from raw to normalised |
| Coords.CameraList | save_task_images_CamNum_selection.py:84-131 | no metadata file gives `[]`; an unreadable first file raises `FileNotFoundError`; otherwise the result is the normalised coordinates of its `.DIV` lines exactly when they can be unpacked, and `ValueError` when they cannot |
| ToolLog.Lit | save_task_images_CamNum_selection.py:140 | a literal matches exactly when the text starts with it, and returns what follows |
| ToolLog.SearchBy | save_task_images_CamNum_selection.py:140 | `re.search` finds a match at some position of the line with no match before it, and nothing only when no position matches |
| ToolLog.MatchCaptureLine | save_task_images_CamNum_selection.py:140-145 | every capture line gives its coordinate and tool name, whatever the spacing |
| ToolLog.MatchNeedsCapture | save_task_images_CamNum_selection.py:140-141 | a line without `画像取込,` never matches |
| ToolLog.ToolCommentsKeys | save_task_images_CamNum_selection.py:139-145 | a coordinate has a tool name exactly when some line's match names it |
| ToolLog.ToolCommentsLastWins | save_task_images_CamNum_selection.py:145 | the tool name of a coordinate is the one on the last line that names it |
| ToolLog.NonMatchingIgnored | save_task_images_CamNum_selection.py:141 | a line without a match leaves the dictionary as it was |
| ToolLog.ParseCammasterLog | save_task_images_CamNum_selection.py:135-146 | a missing log raises `FileNotFoundError`; otherwise the loop gives the dictionary of the log's lines |
| Scanner.StepLine | save_task_images_CamNum_selection.py:215-223 | one line appends at most one image and keeps the ones before |
| Scanner.ProcessFile | save_task_images_CamNum_selection.py:213-223 | the loop's dictionary and list are those of the line-by-line scan |
| Scanner.ScanAppend | save_task_images_CamNum_selection.py:213-223 | scanning in two pieces is scanning the whole: no state is reset between lines |
| Scanner.ScanRemembersLast | save_task_images_CamNum_selection.py:216-219 | the remembered comment and lock mode are the last values given in the file |
| Scanner.SaveAllKeepsEvery | save_task_images_CamNum_selection.py:227-228 | save mode `"0"` keeps every `FILE=` value, in order |
| Scanner.ScanKeeps | save_task_images_CamNum_selection.py:220-233 | the kept images are exactly the `FILE=` values whose state at their line passes the save mode, in order |
| Scanner.SaveLockedOnly | save_task_images_CamNum_selection.py:231-232 | save mode `"2"` keeps an image only when the last lock value before it is `1` |
| Scanner.KeyValue | save_task_images_CamNum_selection.py:217-221 | a line of a key and a value without surrounding spaces gives that value |
| Scanner.ScanExample | save_task_images_CamNum_selection.py:213-233 | of a commented image and an automatically saved one, mode `"0"` keeps both, `"1"` the commented one, `"2"` neither |
| Naming.CaptureFormatOf | save_task_images_CamNum_selection.py:235-246 | a tool comment is in the capture format exactly when it is `画像取込` followed by two digits |
| Naming.CaptureFormatSplit | save_task_images_CamNum_selection.py:242-244 | every tool comment in the capture format splits into the prefix and two digits |
| Naming.TemplateOf | save_task_images_CamNum_selection.py:309-315 | the given dictionary's entry, else the default of that template |
| Naming.Choose | save_task_images_CamNum_selection.py:305-315 | template1 exactly for a comment with a capture-format tool comment, template2 exactly for any other comment, template3 exactly with no comment |
| Naming.NewFileName | save_task_images_CamNum_selection.py:290-326 | the generated name is always safe |
| Naming.DefaultSubstitution | save_task_images_CamNum_selection.py:162-167 | the three default templates give comment and index, comment and tool, and the stem |
| Naming.DefaultNames | save_task_images_CamNum_selection.py:302-326 | with the default templates the name is the sanitised comment and index, comment and tool comment, or stem |
| Naming.TwoFields | save_task_images_CamNum_selection.py:164-165 | `{a}_{b}` renders as the two values joined by `_` |
| Naming.FreshFrom | save_task_images_CamNum_selection.py:264-265 | the suffix loop ends, with a `.bmp` name not in the folder |
| Naming.FreshFromCount | save_task_images_CamNum_selection.py:264-265 | the final name is the first name with some number of `_stem` suffixes, and every shorter one was taken |
| Naming.FreshFromLeast | save_task_images_CamNum_selection.py:264-265 | the final name has the fewest `_stem` suffixes that give a free name |
| Naming.UniqueName | save_task_images_CamNum_selection.py:264-265 | the `while` loop computes the name of the fewest suffixes |
| Copying.ToolOfNormalised | save_task_images_CamNum_selection.py:256-257 | the tool comment of an image with the first file's coordinate `raw[i]` is the one the log records for its normalised coordinate `norm[i]` (its last position `i`), under the positional mapping `Prepare` builds with `norm == Adjusted(raw)`, and an image whose coordinate is not among the first file's gets none |
| Copying.CopyOne | save_task_images_CamNum_selection.py:252-266 | one image is copied under its generated name stepped past the names already taken |
| Copying.CopyFiles | save_task_images_CamNum_selection.py:249-266 | the loop copies every kept image, numbered from 1 |
| Copying.CopyAllFollows | save_task_images_CamNum_selection.py:249-266 | every kept image is copied, in order, under its generated name with zero or more suffixes, and nothing is overwritten |
| Copying.PlanSources | save_task_images_CamNum_selection.py:250 | the planned copies are of the kept images, in order |
| Copying.CopySelectFiles | save_task_images_CamNum_selection.py:269-287 | the loop copies the selected images, numbered by position among all kept images |
| Copying.CopySelectError | save_task_images_CamNum_selection.py:278 | the loop raises exactly when a kept image's raw coordinate has no mapping, and then a `TypeError` |
| Copying.CopySelectErrorStays | save_task_images_CamNum_selection.py:278 | once the loop has raised, later images change nothing |
| Copying.CopySelectRaise | save_task_images_CamNum_selection.py:278 | an unmapped image stops the loop and keeps the copies made before it |
| Copying.CopySelectFollows | save_task_images_CamNum_selection.py:269-287 | exactly the selected images before the first unmapped one are copied, in order, under their generated names, and nothing is overwritten |
| Copying.SelectPlanSources | save_task_images_CamNum_selection.py:278 | an image is in the selected plan exactly when it is kept and its normalised coordinate is selected |
| Copying.SelectedKeptSnoc | save_task_images_CamNum_selection.py:270-278 | read from the front, one more image at the end is copied only when no earlier image was unmapped and it is mapped and selected |
| Copying.SelectPlanKept | save_task_images_CamNum_selection.py:270-287 | the select plan up to the first unmapped image copies the images that a front-to-back reading selects, and it stops early exactly when some image is unmapped |
| Copying.CopyImageExtends | save_task_images_CamNum_selection.py:264-266 | a copy adds one name that was not in the folder |
| Copying.CopyImageRealises | save_task_images_CamNum_selection.py:264-266 | a copy's target is the generated name with zero or more `_stem` suffixes and `.bmp` |
| Copying.NoOverwriteMeans | save_task_images_CamNum_selection.py:264-266 | no copy's target was in the folder, no two targets are equal, and the folder afterwards holds its names and the targets |
| Copying.FollowsSources | save_task_images_CamNum_selection.py:266 | copies that follow a plan copy the plan's images |
| Batch.PrepareContext | save_task_images_CamNum_selection.py:376-393 | the first file's work: the normalised coordinates, the mapping, the debug lookup of `[1, 1]`, and the cameras to copy |
| Batch.PrepareErrors | save_task_images_CamNum_selection.py:376-385 | the first file raises `FileNotFoundError` exactly when it is missing, `ValueError` exactly when it has two or more coordinates and one is not a pair, and `TypeError` exactly without a normalised `[1, 1]` |
| Batch.PrepareContextOf | save_task_images_CamNum_selection.py:376-393 | the mapping sends every raw coordinate to its normalised one, and camera mode `"1"` selects the preselected list, else every normalised coordinate |
| Batch.PrepareSelectsCameraList | save_task_images_CamNum_selection.py:387-393 | without a preselection, camera mode `"1"` selects the camera list that `get_camera_list` offers for the same folder |
| Batch.ProcessOne | save_task_images_CamNum_selection.py:395-401 | one file is scanned and its copy step is run |
| Batch.FileStepExtends | save_task_images_CamNum_selection.py:395-401 | a file's copies overwrite nothing |
| Batch.FileStepSourcesAll | save_task_images_CamNum_selection.py:395-399 | in camera mode `"0"` a file's copies are its kept images, in order |
| Batch.ProcessImages | save_task_images_CamNum_selection.py:169-410 | the orchestrator loop computes the run of the batch |
| Batch.Reports | save_task_images_CamNum_selection.py:369-370 | two reports per finished file |
| Batch.ShapedStop | save_task_images_CamNum_selection.py:360-410 | a run that stops by a cancel, an exception or the end reports as the loop does |
| Batch.ProcessShape | save_task_images_CamNum_selection.py:360-410 | a file is only reached when no cancel came before it; the reports are as the loop makes them; copies only go to names that were free and are all different |
| Batch.ProcessProgressBounded | save_task_images_CamNum_selection.py:356-406 | every report counts files done, up to the number of metadata files |
| Batch.KeptByFolder | save_task_images_CamNum_selection.py:395-396 | the images kept by file-by-file scanning are those of the folder's files |
| Batch.ProcessCopiesKept | save_task_images_CamNum_selection.py:360-406 | in camera mode `"0"` the run copies the kept images of the files it finished, file by file and in order, and no other image |
| Batch.FileStepSourcesSelect | save_task_images_CamNum_selection.py:395-401 | in camera mode `"1"` a file's copies are its kept images whose normalised coordinate is selected, up to the first unmapped one, also when it raises; it raises `TypeError` exactly when it keeps an unmapped image |
| Batch.KeptBySelected | save_task_images_CamNum_selection.py:395-401 | the images copied by file-by-file selection are those of the folder's files |
| Batch.ProcessCopiesSelected | save_task_images_CamNum_selection.py:360-406 | in camera mode `"1"`: the finished files keep no unmapped image; the run fails with `TypeError` exactly when it reaches a file that keeps one; the copies are, file by file and in order, the selected kept images, plus those of the failing file before its first unmapped image |
| Batch.ProcessOtherModeCopiesNothing | save_task_images_CamNum_selection.py:398-401 | a camera mode other than `"0"` and `"1"` copies nothing |
| Cameras.Keys | dynamic_gui_CamNum_selection.py:14 | the camera numbers of the entries, in order |
| Cameras.AddKeys | dynamic_gui_CamNum_selection.py:10-11 | appending keeps the keys, or puts a new camera number last |
| Cameras.AddLookup | dynamic_gui_CamNum_selection.py:11 | appending adds the value to its own camera's column and to no other |
| Cameras.LookupAt | dynamic_gui_CamNum_selection.py:11 | with no camera number twice, an entry is what looking up its number finds |
| Cameras.GroupLookup | dynamic_gui_CamNum_selection.py:7-11 | a camera's column holds its column numbers in input order |
| Cameras.GroupColumns | dynamic_gui_CamNum_selection.py:7-16 | one column per camera, in first-seen order, each with that camera's numbers in input order |
| Cameras.GroupKeys | dynamic_gui_CamNum_selection.py:10-14 | the columns' cameras are in first-seen order |
| Cameras.GroupTotal | dynamic_gui_CamNum_selection.py:10-16 | the columns hold as many numbers as there are pairs |
| Cameras.FirstSeenDistinct | dynamic_gui_CamNum_selection.py:14 | no label is repeated |
| Cameras.FirstSeenMembers | dynamic_gui_CamNum_selection.py:14 | the labelled cameras are exactly those of the pairs |
| Cameras.Labels | dynamic_gui_CamNum_selection.py:14 | one label `カメラ {key}` per camera, in order |
| Cameras.Values | dynamic_gui_CamNum_selection.py:16 | the columns of the entries, in order |
| Cameras.ConvertArraysToParams | dynamic_gui_CamNum_selection.py:6-18 | it raises exactly when some element is not a pair |
| Cameras.ConvertArraysToParamsColumns | dynamic_gui_CamNum_selection.py:6-18 | one label per distinct camera, in first-seen order, and each column holds that camera's numbers in input order |
| Cameras.Tagged | dynamic_gui_CamNum_selection.py:65-66 | each item of a column becomes `[position, item]` |
| Cameras.TaggedMembers | dynamic_gui_CamNum_selection.py:65-66 | the tagged pairs are the position with each item |
| Cameras.SelectedPairsMembers | dynamic_gui_CamNum_selection.py:63-66 | a pair is returned exactly when its second part is selected in the column whose position, from 1, is its first part |
| Cameras.SelectedPairsCount | dynamic_gui_CamNum_selection.py:63-66 | one pair per selected item |
| Cameras.SelectedPairsByCamera | main_save_task_images_flet.py:806-810 | the first part is a column position: it names the camera only when the cameras are numbered 1, 2, … in first-seen order |
| Cameras.CollectPairs | dynamic_gui_CamNum_selection.py:63-66 | the nested loop gives the selected pairs, column by column |
| Cameras.RemoveFirstMultiset | dynamic_gui_CamNum_selection.py:41 | `remove` takes out one occurrence and nothing else |
| Cameras.RemoveFirstDistinct | main_save_task_images_flet.py:791-792 | from a column without repeats, removal leaves exactly the other items, still without repeats |
| Selection.AppendMissingSpec | dynamic_gui_CamNum_selection.py:45-50 | selecting all keeps the selection in front, adds exactly the missing items, and adds no repeats |
| Selection.AppendMissingEmptied | dynamic_gui_CamNum_selection.py:45-57 | after a deselect, selecting all gives back a column without repeats |
| Selection.TickThenClear | dynamic_gui_CamNum_selection.py:37-42 | ticking and clearing a box restore the selection's contents, and the selection itself when the item was not selected |
| Selection.RemoveAppended | dynamic_gui_CamNum_selection.py:39-41 | clearing a box just ticked for a new item restores the selection |
| Selection.Window.constructor | dynamic_gui_CamNum_selection.py:21-26 | the columns are those of `convert_arrays_to_params`, every item starts selected, and there is no result yet |
| Selection.Window.OnCheckboxSelect | dynamic_gui_CamNum_selection.py:37-42 | ticking appends, even a repeat; clearing removes the first occurrence; clearing an unselected item raises `ValueError` and changes nothing |
| Selection.Window.SelectAll | dynamic_gui_CamNum_selection.py:45-50 | the missing items of the column are appended in column order, and the other columns are untouched |
| Selection.Window.DeselectAll | dynamic_gui_CamNum_selection.py:53-57 | the column's selection is emptied, and the other columns are untouched |
| Selection.Window.OnOk | dynamic_gui_CamNum_selection.py:60-68 | the result is the selected pairs, and the window closes |
| Selection.Window.OnCancel | dynamic_gui_CamNum_selection.py:71-75 | the result is `None`, and the window closes |
| Flet.FormatValue | main_save_task_images_flet.py:42-47 | the result is always at least two characters |
| Flet.FormatValueZero | main_save_task_images_flet.py:42-47 | `"00"` comes out exactly for `None`, text that is not an integer, and the integer 0 |
| Flet.FormatValueRoundTrip | main_save_task_images_flet.py:44-45 | an integer reads back from its formatted value |
| Flet.FormatValueDigits | main_save_task_images_flet.py:45 | a non-negative integer keeps its digits, with one leading zero when it has only one |
| Flet.FormatValueIdempotent | main_save_task_images_flet.py:42-47 | formatting a formatted value changes nothing |
| Flet.OkClickStarts | main_save_task_images_flet.py:1290-1322 | the first option's checks pass, and the settings dialog opens on the built path, exactly when no dialog is open, an output folder is chosen, both numbers are integers other than 0, and that path exists; `"00"` numbers are rejected |
| Flet.Insert | main_save_task_images_flet.py:880 | inserting into a sorted list without repeats keeps it so, with the new name added |
| Flet.SortedUnknown | main_save_task_images_flet.py:880 | the unknown names in increasing order, each once |
| Flet.UnknownPlaceholdersSpec | main_save_task_images_flet.py:872-881 | the list is increasing, and holds a name exactly when some placeholder of the template carries it and it is not one of the six allowed; a missing or empty template gives `[]` |
| Flet.IncreasingUnique | main_save_task_images_flet.py:880 | there is only one increasing list with given members, so the result is `sorted` of the set |
| Flet.ToggleSpec | main_save_task_images_flet.py:786-792 | the item is selected exactly when the box is now ticked, no other item changes, and a column without repeats keeps none |
| Flet.CameraDialog.constructor | main_save_task_images_flet.py:776-783 | one column per camera as `convert_arrays_to_params` groups them, and every item starts selected |
| Flet.CameraDialog.OnCheckboxChange | main_save_task_images_flet.py:786-792 | ticking adds a missing item and clearing removes a present one, in that column only |
| Flet.CameraDialog.SelectAll | main_save_task_images_flet.py:794-798 | the column's selection becomes a copy of the column, and the other columns are untouched |
| Flet.CameraDialog.DeselectAll | main_save_task_images_flet.py:800-804 | the column's selection is emptied, and the other columns are untouched |
| Flet.CameraDialog.OnCameraOk | main_save_task_images_flet.py:806-813 | the pairs handed to the batch are `[position + 1, item]` for each selected item, column by column |
| Processing.ProcessingState.constructor | main_save_task_images_flet.py:434-445 | the initial state: not processing, nothing reported, not started, nothing created |
| Processing.ProcessingState.Execute | main_save_task_images_flet.py:658-665 | a second start is ignored while `started` is set, and so always while a worker is running (`isProcessing`, which the class invariant ties to `started`); otherwise the state is reset and the output listing is remembered |
| Processing.ProcessingState.UpdateProgress | main_save_task_images_flet.py:519-523 | the progress fields take the report, and nothing else changes |
| Processing.ProcessingState.Cancel | main_save_task_images_flet.py:450-453 | the run is marked cancelled, and nothing else changes but the message |
| Processing.ProcessingState.Finish | main_save_task_images_flet.py:679-737 | compression runs exactly when the batch did not raise, no cancel came, and `0 < compression < 100`; a cancel hides errors and completion; the created files are the listing after minus the listing before |
| Processing.ProcessingState.Monitor | main_save_task_images_flet.py:601-654 | the monitor reports once the worker stopped and the run completed, failed or was cancelled, cancel first, then error, then success, and frees `started` |
| Processing.CreatedAreTargets | main_save_task_images_flet.py:730-733 | for copies that overwrite nothing, the listing after minus the listing before is exactly their targets, one per copy |
| Processing.ProcessCreated | main_save_task_images_flet.py:730-755 | the files a batch creates are exactly the targets of its copies, none of them there before |
| Utils.FormatValueSpec | utils.py:12-25 | an integer keeps all its digits, gains a leading zero only with one digit, and reads back; any other text comes back unchanged |
| Utils.FormatValueIdempotent | utils.py:22-25 | formatting a formatted value changes nothing |
| Utils.FormatValueAgrees | utils.py:22-25 | on integers it agrees with the Flet version, and on other text it is the text where that version gives `"00"` |
| Utils.FindImgFolder | utils.py:115-138 | the built path when it exists, and `None` exactly when it does not |
| Utils.DefaultFolderAgrees | utils.py:129-132 | with no base and the Windows separator, the path is the one the Flet OK button builds |
| Utils.BasePathLayout | utils.py:127-128 | with a base, the path is `base/task/` followed by `g{group}`, the task and `img` |

## Left out

- Regular expression classes:
  - `\d` means ASCII digits only. Python's Unicode digits are not modelled.
  - `\w` is approximated: ASCII letters, digits and `_`, plus every non-ASCII character except whitespace. Names like `画像取込01` therefore match.
- `int()` is modelled only on surrounding whitespace, an optional sign and ASCII digits. Underscores and Unicode digits are not modelled.
- `format()` is modelled only for the specifications `N` and `0N` (a width, optionally zero-padded). Any other specification counts as one that `format` rejects: the value then falls back to its text. `format(str, "0N")` is read as Python 3.10 and later do (pad on the right with `0` up to width N); under Python 3.9 that call raises and the field falls back to its unpadded text.
- The progress callback is always present, and its calls become the run's list of reports. `cancel_check` is a fixed sequence of answers, one per file. "No callback" is not a separate case.
- Threads, `asyncio` and the monitor's sleep loop are not modelled. The worker's end (`Finish`) and the monitor's check (`Monitor`) are separate atomic steps, and interleavings of a cancel with a running batch are not modelled.
- Processing.ProcessingState.Finish: the cancel is read once, at the end. It does not model a cancel that comes between the batch and compression (lines 693 and 705), nor what compression does to the folder.
- Processing.ProcessingState.Monitor: the error is an `Error` value, not the text `"{type}: {message}"`. The cancel report carries the set of created files; which dialog then shows it (line 637) is not modelled.
- `shutil.copy` is modelled as adding the target name to the output folder's set of names. File contents, and a case-insensitive file system where two names differing in case collide, are not modelled.
- The file system is modelled as a listing plus file contents. `os.listdir` order is taken as given, `pathlib` normalisation is not modelled, and the output folder is only its set of names.
- GUI widgets and `page.update()` are not modelled: labels, `update_selection`, checkbox widget values and dialog layout. Only the selection state behind them is.
- `selection_window.py` and `main_save_task_images_nocompress.py` are not part of this model.
- `config.py` file I/O is not modelled. Only `DEFAULT_VISCO_TECH_PATH` is used.
- BMP-to-JPEG conversion (`convert_bmp_to_jpeg`), task-file extraction, and `os.walk` for `img` are not modelled. Compression appears only as the exception it may raise.
- Error message texts and every `print` are not modelled. The debug print at line 385 is modelled only for the `TypeError` it raises.
- The options of `on_ok_click` other than the first (task file, shared folder), and `_parse_int_from_textfield`, are not modelled.
- Cameras.SelectedPairsByCamera: the selected pairs name a camera by its column position counted from 1, as the code does. This equals the camera number only when the cameras are numbered 1, 2, … in first-seen order, which is what the lemma assumes.
- Copying.PlannedNames: this is the list of generated names, stated by its definition. The name generator is a closure over the run's templates (`Naming.GeneratorOf`), and its properties are stated about `Naming.NewFileName`.
- Batch.ProcessCopiesSelected: it assumes that the first file prepared the context. When preparation fails, the run stops at the first file with nothing copied, as Batch.RunFromExit and Batch.ProcessStart state.
- Naming.FreshFrom: termination is argued from the finite output folder. The suffix loop is modelled on a set of names, not on a live `os.path.exists`.
