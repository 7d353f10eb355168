# Object detection on camera snapshots — a Dafny model of its core

The repository runs a TensorFlow Lite object-detection model over JPEG
snapshots from security cameras. `detect_folder.py` scans a folder once;
`odwatcher.py` watches a folder and runs the same detection on every new
file. This project models the deterministic logic around the neural
network:

* **Labels file parsing** (`load_labels`). Each line is stripped and split
  once at the first run of colons and whitespace. If the line splits in
  two and its first token is all digits, the line maps that number to the
  rest of the line. Otherwise (a single token, or a first token that is
  not all digits) the line maps its row number to its first token. A later line
  overwrites an earlier one with the same key. The two copies of this
  function are identical: `detect_folder.py:35-46` and `odwatcher.py:58-69`.
  Modules `Text` (`text.dfy`: Python's `strip`, `isdigit`, `int`, `str`
  on digit strings) and `Labels` (`labels.dfy`) model it.
* **Result extraction** (`detect_objects` after `invoke()`). The four
  output tensors are boxes, class ids, scores and a float detection count.
  The count is truncated with `int()`. Every index below it whose score
  reaches the threshold gives one detection, in index order. Indexing past
  the end of a tensor raises `IndexError`. The two copies are identical:
  `detect_folder.py:63-83` and `odwatcher.py:86-106`. Module `Detect`
  (`detect.dfy`) models this, with `DetectObjects` as the loop itself.
* **The folder scan** (`main` of `detect_folder.py` from line 108). It
  loads the labels and selects the folder entries matching
  `<camera>*.jpg`, sorted by name. With no match it prints
  `File Path is invalid` and stops. Otherwise it detects on each image in
  turn and prints one line per detection, naming its label, its score and
  the image. The label lookup `labels[class_id]` takes a float class id,
  which finds the integer key equal to it, or raises `KeyError`. Module
  `DetectFolder` (`detect_folder.dfy`) models this, with `ScanFolder`,
  `ScanImages` and `PrintResults` as the loops. `Wrappers`
  (`wrappers.dfy`) holds `Option` and `Result`.

Error paths are modelled, not excluded:

* An `IndexError` in detection is `Err(IndexError(tensor, index))`.
* A missing label is `Crashed(MissingLabel(image, classId))`.
* In both cases the lines printed before the exception are kept.

The interpreter is a parameter. `outputsOf` gives the squeezed output
tensors for each image name, and the folder listing is a sequence of
entry names.

A labels line that is not indexed stores `pair[0].strip()`, its first
token only, so `traffic light` on row 9 gives `9 -> "traffic"`
(`Labels.ExampleFirstTokenOnly`).

## Model

| member | source | states |
|---|---|---|
| Text.Strip | detect_folder.py:41-45 | the result has no leading or trailing whitespace from Python's whitespace set, and is empty exactly when the input is all whitespace |
| Text.StripPadded | detect_folder.py:41-45 | stripping whitespace padding from a trimmed string gives that string back |
| Text.StripTrimmed | detect_folder.py:42-45 | strip leaves an already trimmed string unchanged |
| Text.StripIdempotent | detect_folder.py:41-45 | stripping twice is the same as stripping once (stripping the pieces of a stripped line changes nothing) |
| Text.DigitChar | detect_folder.py:42-43 | each digit value has a digit character with that value |
| Text.Decimal | detect_folder.py:42-43 | `str(n)` is a non-empty digit string, with a leading zero only for 0 |
| Text.DecimalRoundTrip | detect_folder.py:42-43 | `int(str(n)) == n` |
| Text.LeadingZeroIgnored | detect_folder.py:43 | `int()` ignores a leading zero, so "007" and "7" give the same key |
| Labels.SplitOnce | detect_folder.py:41 | `re.split(r'[:\s]+', s, maxsplit=1)`: a single token is the whole separator-free string; two parts are a separator-free token, the maximal separator run after it and a rest that starts with a non-separator, concatenating back to the input |
| Labels.SplitOnceWhole | detect_folder.py:41 | a string without separators gives a single part |
| Labels.SplitOnceJoin | detect_folder.py:41 | token + separator run + rest splits back into exactly (token, rest) |
| Labels.ParseTwoTokens | detect_folder.py:41-43 | a line that splits in two with a digit first token maps `int(token)` to the rest |
| Labels.ParseFirstToken | detect_folder.py:41-45 | a line with one part or a non-digit first token maps its row number to the first token |
| Labels.ParseIndexed | detect_folder.py:41-43 | a padded line `digits sep name` maps the number to the name, whatever the padding and separator run |
| Labels.ParseNotIndexed | detect_folder.py:41-45 | a padded line `word sep tail` with a non-numeric first word maps the row number to that word alone |
| Labels.ParseSingleToken | detect_folder.py:41-45 | a padded single word maps the row number to the word, digits or not |
| Labels.ParseBlank | detect_folder.py:41-45 | a blank (all-whitespace) line stores "" under its row number |
| Labels.Fill | detect_folder.py:39-45 | the dictionary has at most as many keys as there are entries |
| Labels.LoadLabels | detect_folder.py:35-46 | the loop builds exactly the dictionary of the entries in line order, with at most one key per line |
| Labels.FillKeys | detect_folder.py:43-45 | a key is present exactly when some entry has it |
| Labels.FillLastWins | detect_folder.py:43-45 | the value stored under a key is that of its last entry |
| Labels.LabelsOfLastWins | detect_folder.py:40-46 | over the lines of a file: a key is present exactly when some line parses to it, and its value is the name from the last such line |
| Labels.IndexedLine | detect_folder.py:41-43 | the line `str(id) + " " + name + "\n"` parses to (id, name) |
| Labels.IndexedFile | detect_folder.py:35-46 | a file of such lines with distinct ids maps each id to its name and has no other keys |
| Labels.PlainLine | detect_folder.py:41-45 | the line `word + "\n"` parses to (row, word) |
| Labels.PlainFile | detect_folder.py:35-46 | a file of single words maps each row number to its word and has no other keys |
| Labels.SplitPersonLine | detect_folder.py:41 | "0 person" splits into ("0", "person") |
| Labels.SplitCarLine | detect_folder.py:41 | "1:car" splits into ("1", "car") |
| Labels.SplitTrafficLightLine | detect_folder.py:41 | "traffic light" splits into ("traffic", "light") |
| Labels.ExampleSpaceIndexed | detect_folder.py:41-43 | "0 person" gives 0 -> "person" on any row |
| Labels.ExampleColonIndexed | detect_folder.py:41-43 | "1:car" gives 1 -> "car" on any row |
| Labels.ExampleFirstTokenOnly | detect_folder.py:44-45 | "traffic light" on row 9 gives 9 -> "traffic" |
| Labels.ExampleRowNumbered | detect_folder.py:42-45 | a lone number is not an index ("5" on row 2 gives 2 -> "5"); a blank line on row 4 gives 4 -> "" |
| Labels.PersonIndexedLine | detect_folder.py:41-43 | "0 person\n" gives 0 -> "person" |
| Labels.CarIndexedLine | detect_folder.py:41-43 | "1 car\n" gives 1 -> "car" |
| Labels.PersonPlainLine | detect_folder.py:44-45 | "person\n" on row 0 gives 0 -> "person" |
| Labels.CarPlainLine | detect_folder.py:44-45 | "car\n" on row 1 gives 1 -> "car" |
| Labels.FillTwo | detect_folder.py:43-45 | two entries with different keys give the two-key dictionary |
| Labels.ExampleIndexedFile | detect_folder.py:35-46 | the indexed file "0 person", "1 car" loads to {0: person, 1: car} |
| Labels.ExamplePlainFile | detect_folder.py:35-46 | the unindexed file "person", "car" loads to {0: person, 1: car} |
| Detect.Truncate | detect_folder.py:72 | `int()` on a float truncates toward zero, for both signs |
| Detect.Iterations | detect_folder.py:72-75 | `range(int(count))` runs int(count) times, and not at all when that is negative |
| Detect.Selected | detect_folder.py:75-76 | the indices below n whose score reaches the threshold: strictly increasing, all of them, and only them |
| Detect.DetectObjects | detect_folder.py:63-83 | the loop returns the results of the extraction (or its IndexError); at most count results, each scoring at least the threshold |
| Detect.ExtractUpToErrPersists | detect_folder.py:75-82 | after an IndexError no later iteration runs |
| Detect.ExtractUpToOk | detect_folder.py:75-82 | the loop succeeds exactly when every score below count exists and every passing index also has a box and a class id |
| Detect.ExtractUpToErr | detect_folder.py:75-82 | an IndexError is raised at the first unreadable index, naming scores if the score is missing, otherwise boxes, then classes, in the order they are read |
| Detect.ExtractUpToSelects | detect_folder.py:74-83 | a successful loop returns exactly the (box, class, score) of each selected index, in index order |
| Detect.ExtractIsFilter | detect_folder.py:63-83 | the results are exactly the detections at the indices i < count with scores[i] >= threshold, in order; at most count of them, each at or above the threshold |
| Detect.ExtractUpToMonotone | detect_folder.py:75-76 | over the first n iterations a higher threshold keeps a subsequence of the results |
| Detect.ExtractMonotone | detect_folder.py:63-83 | a higher threshold gives a subsequence of the lower threshold's results and raises no new error |
| Detect.ExtractUpToPrefix | detect_folder.py:75-81 | the first n iterations read only the first n entries of each tensor |
| Detect.ExtractIgnoresTail | detect_folder.py:72-81 | entries at index count or beyond are never read: tensors that agree on the count and below it give the same outcome |
| Detect.ExampleSingleDetection | detect_folder.py:63-83 | one detection scoring 0.85 against threshold 0.4, with a count tensor of 1.9, is returned unchanged |
| DetectFolder.ExamplePatterns | detect_folder.py:115 | `frontdoor*.jpg` matches "frontdoor.jpg" and "frontdoor_0412.jpg", not ".JPG" or another camera |
| DetectFolder.Matching | detect_folder.py:115 | the glob keeps exactly the listing entries matching the pattern, each as often as listed |
| DetectFolder.ExampleNameOrder | detect_folder.py:115 | names sort by character, so "frontdoor10.jpg" comes before "frontdoor2.jpg", and a name before its extensions |
| DetectFolder.CommonPrefixBelow | detect_folder.py:115 | a shared prefix does not change string order |
| DetectFolder.PrefixBelow | detect_folder.py:115 | a proper prefix sorts first |
| DetectFolder.BelowIrreflexive | detect_folder.py:115 | no name sorts before itself |
| DetectFolder.BelowTransitive | detect_folder.py:115 | string order is transitive |
| DetectFolder.BelowTotal | detect_folder.py:115 | any two names are equal or ordered one way |
| DetectFolder.BelowAsymmetric | detect_folder.py:115 | two names are never ordered both ways |
| DetectFolder.NotAboveAntisymmetric | detect_folder.py:115 | `a <= b` and `b <= a` only for equal names |
| DetectFolder.SortedHead | detect_folder.py:115 | the first element of a sorted sequence is at or below every element |
| DetectFolder.SortedTail | detect_folder.py:115 | dropping the first element keeps a sequence sorted |
| DetectFolder.Insert | detect_folder.py:115 | insertion adds exactly the one element (as a multiset) |
| DetectFolder.InsertSorted | detect_folder.py:115 | inserting into a sorted sequence keeps it sorted |
| DetectFolder.Sort | detect_folder.py:115 | `sorted()`: the result is ordered and a permutation of the input |
| DetectFolder.SortedUnique | detect_folder.py:115 | two sorted permutations of the same names are equal, so the model's sort is Python's |
| DetectFolder.SelectImages | detect_folder.py:115 | the selected images are exactly the matching entries, as often as listed, in sorted order |
| DetectFolder.LabelFor | detect_folder.py:127 | `labels[class_id]` finds the label of the integer key equal to the float id, and nothing when no key equals it |
| DetectFolder.Report | detect_folder.py:126-127 | printing m results gives at most m lines, exactly m when no label is missing |
| DetectFolder.ScanUpTo | detect_folder.py:120-127 | scanning images never ends in the no-images state |
| DetectFolder.PrintResults | detect_folder.py:126-127 | the per-image loop prints the report of all its results and stops at the first missing label |
| DetectFolder.ScanImages | detect_folder.py:120-127 | the loop over the sorted images prints the scan of all of them, stopping at the first exception |
| DetectFolder.ScanFolder | detect_folder.py:108-127 | main from loading the labels on does what the scan of the listing states |
| DetectFolder.ReportCrashPersists | detect_folder.py:126-127 | after a missing label no further result is printed |
| DetectFolder.ScanCrashPersists | detect_folder.py:120-127 | after an exception no further image is processed |
| DetectFolder.ReportLines | detect_folder.py:126-127 | line i for an image is a Found line for that image with the score of result i |
| DetectFolder.ReportLabels | detect_folder.py:126-127 | line i names the label whose key equals result i's class id |
| DetectFolder.ReportCrash | detect_folder.py:126-127 | a crash comes at the first result whose class id no key equals, and prints nothing for it |
| DetectFolder.ScanLines | detect_folder.py:120-127 | every line of the first n images is a Found line of one of those images with a score at or above the threshold |
| DetectFolder.ScanInFileOrder | detect_folder.py:115-127 | over sorted images, the lines come in image-name order |
| DetectFolder.ScanCompletedCount | detect_folder.py:120-127 | a scan without an exception ran detection successfully on every image and printed exactly the sum of their result counts |
| DetectFolder.ScanCrashCause | detect_folder.py:120-127 | an exception names a selected image and its cause: the IndexError detection raised there, or a class id equal to no key |
| DetectFolder.ScanNoImages | detect_folder.py:115-118 | "File Path is invalid" is the only output exactly when no entry matches the pattern |
| DetectFolder.ScanReportsDetections | detect_folder.py:115-127 | when some image matches, every line reports a detection at or above the threshold in a matching entry of the folder |
| DetectFolder.ScanReportsInOrder | detect_folder.py:115-127 | the printed lines come in sorted image-name order |
| DetectFolder.ScanCount | detect_folder.py:115-127 | a completed scan prints one line per detection over all selected images |

## Left out

- Reading the labels file (`open`, UTF-8 decoding, `readlines`) is not modelled. The model takes the lines as `readlines` returns them, each ending in "\n" except perhaps the last.
- `int(pair[0])` ignores Python's Unicode digits: `isdigit` is modelled on ASCII '0'-'9' only. Python also accepts other decimal digits, and superscript digits, on which `int()` raises `ValueError`.
- The interpreter (`Interpreter`, `allocate_tensors`, `set_input_tensor`, `invoke`, `get_output_tensor`, `np.squeeze`) is a parameter: `outputsOf` gives each image's output tensors. After squeezing, the model takes boxes as a sequence of opaque rows (N×4) and classes and scores as sequences of length N. A model with a single detection slot would squeeze boxes to one 4-vector and classes and scores to scalars; indexing those is not modelled.
- `int(pair[0])` on a digit string longer than 4300 characters raises `ValueError` in Python 3.11 and later (detect_folder.py:43); `DecimalValue` is unbounded and gives the number.
- `int()` of an infinite detection count raises `OverflowError` (detect_folder.py:72); counts are reals here, so there is no infinity.
- Opening, converting and resizing the images with PIL is not modelled. Failures there are not modelled either.
- Scores, class ids, the count and the threshold are reals, not 32-bit floats. NaN and rounding are not modelled.
- Boxes are an opaque type.
- The timing with `time.monotonic` and the formatting of the printed line are not modelled: a `Found` line holds the label, the score value and the image name. The elapsed milliseconds and Python's float printing are left out.
- Argument parsing with `argparse` is not modelled. The model, labels, folder, camera (default "frontdoor") and threshold (default 0.7) are parameters.
- `Path.glob` is reduced to its pattern meaning over the names of the folder's entries, with the camera name taken literally. Glob metacharacters in the camera name, case-insensitive file systems, and directories whose names match are left out.
- The watchdog observer and event handlers of `odwatcher.py` are not modelled; they are I/O and concurrency. The same goes for its logging, its global state and `annotate_objects`. Its `load_labels` and `detect_objects` are the same code as in `detect_folder.py` and share this model.
- Labels.Fill: its own contract gives only the size bound; the contents are stated by `Labels.FillKeys` and `Labels.FillLastWins`.
