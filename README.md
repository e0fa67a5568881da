# NatureShield label, result and category-switch model

NatureShield classifies a photo against one of four on-device image
classifiers (plants, birds, insects, mammals) and shows the top class as a
species name read from a CSV label file. It has two front ends: a React
Native app (`NatureShieldReact/App.js`) and a Tk desktop tool
(`identify.py`). This project models in Dafny the logic of both that is
not UI or engine code, and proves properties of it:

- **Label tables from CSV rows** (`LabelRows`, `ReactLabels`,
  `DesktopLabels`). Rows come in already tokenised. Field 0 is parsed as an
  integer class id by a parser passed in as a function, because JavaScript
  `parseInt` and Python `int` differ at the edges. A row whose id does not
  parse is skipped, and the last row with a given id wins. Neither source
  checks that ids are non-negative, so the model does not either. The React
  app stores `"common (scientific)"`, or the scientific name alone when the
  common name is empty or missing. The desktop tool stores the pair
  `(scientific, common)`. A desktop row made of an integer id alone raises
  an uncaught IndexError; the model returns `Err(IndexError(row))` for it.
  Both loops are `while` loops, proved against one shared table function
  `LabelRows.Build`.
- **Result resolution** (`ReactInference`). The engine callback gives
  `"Error"` on an engine error. A non-empty list gives the label of its first
  index, and `"Unknown"` only when that key is absent (a present empty label
  stays `""`). An empty or null list gives `"No result"`. The desktop tool
  instead shows `f"{com} ({sci})"`, with `"Unknown (Unknown)"` for an absent
  index (`DesktopLabels.Upload`).
- **The App component's state** (`ReactApp.App`). A class holding the
  selected category, the label table, the image URI, the result text, the
  interpreter state (`Unloaded | Loaded(cat)`) and the sequence of calls
  made on the TFLite engine. Its invariant says four things: every two
  loads are separated by a close; every load uses the paths of one
  category's `MODEL_CONFIG` entry with `isQuantized = false` and
  `numThreads = 1`; while mounted, the most recent load is the selected
  category's; and a loaded interpreter belongs to the selected category.
  Unmounting closes the interpreter, after which every interpreter ever
  loaded has been closed.
- **Centre crop** (`DesktopCrop`). The `preprocess` box is inside the
  image, is exactly `min(w, h)` square for either parity, and is centred to
  within one pixel.

Inputs the model does not compute are parameters: the integer parser, the
read-and-parse of a label file (`None` when reading or CSV parsing fails),
the engine's load outcome and inference reply, and the image picker's
response.

## Model

| member | source | states |
|---|---|---|
| LabelRows.BuildSkip | NatureShieldReact/App.js:69-71 | a row whose first field does not parse as an integer leaves the table exactly as it was |
| LabelRows.BuildKeep | NatureShieldReact/App.js:70-75 | a row with an id stores its value under that id and changes no other entry |
| LabelRows.BuildDomain | NatureShieldReact/App.js:68-76 | an id is in the table if and only if some row carries it as its parsed first field |
| LabelRows.BuildLastWins | identify.py:29 | for an id carried by several rows, the stored value is the last such row's |
| ReactLabels.LoadCsv | NatureShieldReact/App.js:55-83 | the loop's map equals the last-wins table of all rows; a read or parse failure publishes the empty table, never a partial one |
| ReactLabels.SkippedRowUnchanged | NatureShieldReact/App.js:69-71 | appending a row whose id does not parse leaves the React table unchanged |
| ReactLabels.KeptRowLabel | NatureShieldReact/App.js:72-74 | a kept row maps its id to "com (sci)" when field 2 exists and is non-empty, else to sci; a missing field reads as "" |
| ReactLabels.LabelTableLookup | NatureShieldReact/App.js:68-76 | the table's keys are exactly the kept rows' ids, and each id maps to the display string of the last row carrying it |
| ReactInference.Resolve | NatureShieldReact/App.js:128-138 | engine error gives "Error"; a non-empty list gives the first index's label, "Unknown" only when that key is absent; an empty or null list gives "No result" |
| ReactInference.ResolveAgainstRows | NatureShieldReact/App.js:133-135 | against a table loaded from rows, the top index shows the display string of the last row carrying it, or "Unknown" when no row carries it |
| ReactInference.ExampleTableAndReplies | NatureShieldReact/App.js:68-76 | rows 12/"x"/7 give {12: "French rose (Rosa gallica)", 7: "Quercus robur"}; index 7, index 99, an empty list and an error resolve to "Quercus robur", "Unknown", "No result" and "Error" |
| DesktopLabels.LoadLabels | identify.py:17-30 | skips empty rows and rows with a non-integer first field; stores (row[1], row[2]), or (row[1], "") for two fields, last row winning; fails with IndexError exactly when some row is an integer id alone, at the first such row |
| DesktopLabels.Upload | identify.py:117-119 | an IndexError leaves no text; otherwise the text is "com (sci)" of the last row carrying the index, or "Unknown (Unknown)" when no row carries it |
| DesktopLabels.EmptyCommonContrast | identify.py:118-119 | for a row with an empty or missing common name, the React table holds sci while the desktop text is " (sci)" |
| DesktopCrop.CenterCrop | identify.py:40-42 | the box satisfies 0 <= left, right <= w, 0 <= top, bottom <= h, right-left = bottom-top = min(w,h), and its margins differ by the parity of the slack |
| ReactApp.ConfigsDistinct | NatureShieldReact/App.js:30-35 | different categories have different model files and different label files |
| ReactApp.SwitchLoadsOtherFiles | NatureShieldReact/App.js:30-35 | after a switch to a different category, the new load's model file and label file both differ from those of the load it replaces |
| ReactApp.FirstLoadDiscipline | NatureShieldReact/App.js:90-99 | the first load uses the category's MODEL_CONFIG paths, isQuantized false and numThreads 1, and is the most recent load |
| ReactApp.RunKeepsDiscipline | NatureShieldReact/App.js:118-127 | running inference keeps every two loads separated by a close and every load configured, and does not change the most recent load |
| ReactApp.CloseKeepsDiscipline | NatureShieldReact/App.js:106 | closing the interpreter keeps every two loads separated by a close and every load configured |
| ReactApp.SwitchKeepsDiscipline | NatureShieldReact/App.js:90-107 | closing and then loading category c keeps every two loads separated by a close and every load configured (c's MODEL_CONFIG paths, isQuantized false, numThreads 1), and makes c's load the most recent |
| ReactApp.AllLoadsClosed | NatureShieldReact/App.js:105-106 | in a trace of separated loads that ends with a close, every load is followed by a close |
| ReactApp.App.constructor | NatureShieldReact/App.js:39-51 | initial state: Plants, empty labels, null URI, empty result, no interpreter loaded, no engine call made |
| ReactApp.App.Mount | NatureShieldReact/App.js:54-107 | the first render's effects load the selected category's label table (empty on failure) and its model with that category's MODEL_CONFIG paths, isQuantized false and numThreads 1, with no close before this first load |
| ReactApp.App.SelectCategory | NatureShieldReact/App.js:157-160 | sets category, resets result to the dash and URI to null; on an actual change, closes the old interpreter before loading the new category's model from other model and label files, and replaces the label table; on the same category runs no effect |
| ReactApp.App.RerunEffects | NatureShieldReact/App.js:54-107 | after a category change: close the interpreter, read the category's label table (empty on failure), load its model with configured options; the invariant's trace facts are kept |
| ReactApp.App.Unmount | NatureShieldReact/App.js:105-106 | unmounting closes the interpreter and changes nothing else; afterwards every load in the trace is followed by a close |
| ReactApp.App.Classify | NatureShieldReact/App.js:110-139 | a cancelled or failed pick changes nothing and runs no inference; otherwise sets the URI, runs inference once with the fixed parameters and shows the resolved reply |

## Left out

- File reading (`RNFS.readFileAssets` / `readFile`, `io.open` with the utf-8-sig then utf-16 fallback) and CSV tokenising (`csv-parse`, Python `csv`): both are foreign code. A label file is given as `Option` of its rows. The Python fallback can return a table partly filled by the failed utf-16 pass; that decoding path is not modelled.
- A desktop label file that cannot be opened: `load_labels` takes the rows directly, so the uncaught `io.open` error at identify.py:15, like the decoding fallback, is not represented.
- Integer parsing: `parseInt(row[0], 10)` and `int(row[0])` are a function parameter, not a concrete parser.
- The TFLite engine (`loadModel`, `runModelOnImage`, `close`, `Interpreter`, `invoke`, `argmax`): its load outcome and its reply are inputs. The model does not say what the native engine answers when no interpreter is loaded.
- Pixel scaling, quantisation, resizing and numpy conversion in `preprocess`: these are floating-point image processing.
- The desktop tool's `MODEL_CONFIG`, interpreter set-up and file dialog in `upload`: these are I/O and engine calls. Only its lookup and format are modelled.
- Asynchrony: the model runs each effect and callback to completion before the next user action. The source has no guard against a late label or model load, or a late inference reply, landing after a newer category switch. It also resolves the reply against the label table captured when "Upload Image" was pressed. Neither race is modelled.
- React rendering, the Tk widgets, the image picker UI, the `Buffer` polyfill, `metro.config.js` and the model converter script `convert.py`: these are UI, build and tooling.
- Logging via `console.error`: its only effect is output.
