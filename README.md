# CSV view plugin: a verified model of its logic

The plugin lets a note-taking host open, edit and save `.csv` files in a
spreadsheet grid. Most of `src/main.ts` is glue between the host's plugin
API, a CSV parser/serialiser and a grid widget. This project models the
parts of it that carry logic of their own, and proves what they promise:

- **The empty-CSV template** (`CreateEmptyCSV`). This is a method with the
  source's nested loops, proved against a specifying function. Lemmas show
  that the text is exactly `col` newline-terminated lines of `row` empty
  quoted fields. They also give its length and the edge cases.
- **The "New CSV file" command.** The scan over the folder's children is a
  loop method. It is proved equal to the maximum of 0 and one *claim* per
  child, so it is order-independent and never decreases. The new name is
  "Untitled" or "Untitled <index>", and it never equals an existing CSV
  file's name. `parseInt` and the template literal's number-to-text step
  are modelled concretely, so the proof goes through the real parse of the
  number back out of the name.
- **The CSV view** (`CsvView`). A class holds the grid's source rows, its
  `colHeaders` setting, the persisted `hasHeadings` flags keyed by the
  grid's root element id (the file path), the autosave controls and a
  count of save requests. Its methods are `toggleHeaders`, `getViewData`,
  `loadDataAsync`, `requestAutoSave`, `hotChange`, the autosave toggle's
  change handler and the save button's click handler.
  - The header state machine is also a function on grid values (`Toggled`).
    Its lemmas give idempotence and on-then-off restoration. They also show
    that the rows handed to the serialiser are the same before and after
    any toggle, except when headers are turned on over an empty grid.
- **The autosave policy.** This is a small value type of controls with one
  decision function per handler.

The CSV parser and serialiser are parameters (`parse`, `unparse`) of the
view's methods. The host's toggle value before `setValue(true)` is a
parameter of the view's constructor.

Two behaviours of the code are worth stating up front:
- An autosave toggle suggests that edits are saved automatically. As
  written, `hotChange` never asks for a save (see Findings).
- The template's counts may be 0: zero lines give the empty string, and
  zero fields give lines that hold only a newline.

## Model

| member | source | states |
|---|---|---|
| EmptyCsv.CreateEmptyCsv | src/main.ts:18-28 | the nested loops build exactly the template text: `col` lines of `row` empty fields joined by commas, each line ended by a newline |
| EmptyCsv.EmptyCsvLines | src/main.ts:20-26 | splitting the template at newlines gives exactly `col` copies of one line, and nothing after the last newline |
| EmptyCsv.LineFields | src/main.ts:21-24 | splitting a line at commas gives exactly `row` empty quoted fields (a line of zero fields is empty) |
| EmptyCsv.EmptyCsvLength | src/main.ts:18-28 | the template has 3·row·col characters (col characters when row is 0) |
| EmptyCsv.EmptyCsvEdges | src/main.ts:18-27 | the default arguments give `""` and a newline; zero lines give the empty string |
| JsNumbers.DecimalString | src/main.ts:60 | a non-negative index is written as decimal digits without a leading zero |
| JsNumbers.ParseIntDecimal | src/main.ts:50-60 | `parseInt` reads back exactly the number the template literal wrote |
| Strings.Split | src/main.ts:49 | `split(" ")` gives at least one piece, and no piece holds the separator |
| Strings.Contains | src/main.ts:48 | `contains` holds exactly when the word occurs at some position of the name |
| JsNumbers.ParseInt | src/main.ts:50-51 | `parseInt` of blank text is NaN; a negative result needs a leading minus; text starting with a digit 1-9 gives a non-negative number; text starting with anything but a digit or a sign is NaN |
| Untitled.FileName | src/main.ts:60 | the name contains "Untitled"; split at spaces it is just "Untitled" for index 0, and "Untitled" followed by the index's decimal digits otherwise |
| Plugin.CsvPath | src/main.ts:61 | the path is the folder path, a slash, the name and `.csv`, each in its own place, so it is as long as those parts together |
| Untitled.NextUntitledIndex | src/main.ts:44-58 | the scan loop over the children ends with the untitled index of the whole folder |
| Untitled.UntitledIndexIsMax | src/main.ts:44-58 | the index is at least every child's claim, and it is 0 or the claim of some child |
| Untitled.UntitledIndexOrderIndependent | src/main.ts:45-58 | two listings of the same children give the same index |
| Untitled.UntitledIndexGrows | src/main.ts:45-58 | adding children never lowers the index |
| Untitled.UntitledIndexMonotone | src/main.ts:52-54 | the index never decreases from one step of the scan to a later one |
| Untitled.UntitledIndexAboveSuffixes | src/main.ts:48-55 | the index exceeds every number an "Untitled" CSV file carries; it is at least 1 once such a file has no number or a non-negative one |
| Untitled.ClaimOfFileName | src/main.ts:48-60 | a CSV file carrying the name made for index k claims exactly k+1 |
| Untitled.UntitledNameIsFree | src/main.ts:44-61 | the chosen name differs from the name of every CSV file in the folder |
| Untitled.UntitledIndexAfterCreate | src/main.ts:44-61 | once the new file exists, the next scan yields the next index |
| Plugin.NewCsvFile | src/main.ts:42-61 | the command creates `<folder>/<name>.csv` with the 4×4 template; the path is not that of any CSV file already in the folder |
| Plugin.NewFileAcceptedByCsvView | src/main.ts:396-409 | the CSV view accepts the created file's extension and titles it with the chosen name; without a file the title is the placeholder |
| View.HasHeadings | src/main.ts:325-326 | the persisted flag is read back when stored under the key, and it is off when nothing is stored |
| View.CanAcceptExtension | src/main.ts:402-404 | the view accepts an extension exactly when it is "csv" |
| View.DisplayText | src/main.ts:396-399 | the title is the file's base name, or "csv (no file)" without a file |
| View.ViewType | src/main.ts:407-409 | the view type is "csv" |
| View.StripBom | src/main.ts:305 | a leading byte-order mark is removed and prepending it gives the input back; other input is unchanged |
| View.StripBomTransparent | src/main.ts:305 | a file with a byte-order mark reads as the same file without it; only one mark is stripped |
| View.Toggled | src/main.ts:351-386 | after a toggle the headers are on exactly when requested; asking for the current state changes nothing |
| View.ToggledKeepsFullRows | src/main.ts:351-386 | the rows of the file (header row first when headers are on) are the same after any toggle, unless headers are turned on over an empty grid |
| View.ToggledOnEmptyGrid | src/main.ts:356-365 | turning headers on over an empty grid leaves `colHeaders` undefined and no rows |
| View.ToggledIdempotent | src/main.ts:351-386 | requesting the same header state twice is the same as once |
| View.ToggleOnThenOff | src/main.ts:356-381 | turning headers on and then off restores the original rows exactly |
| View.ToggleOffThenOn | src/main.ts:356-381 | turning a header row off and on again restores the same grid |
| View.LoadedFullRows | src/main.ts:297-335 | after a successful load, the rows handed to the serialiser are exactly the parsed rows, unless headers go on over an empty file |
| View.CsvView.constructor | src/main.ts:119-185 | a new view has an empty grid with positional headers, the header toggle off, no save requests, and the autosave controls as the constructor leaves them |
| View.CsvView.GetViewData | src/main.ts:257-265 | the serialiser is handed the source rows, with the header row first when headers are on |
| View.CsvView.ToggleHeaders | src/main.ts:351-386 | the grid becomes the toggled grid and the requested flag is persisted under the root element id |
| View.CsvView.LoadData | src/main.ts:297-335 | on parser errors: rejects with them, headers reset, rows and persisted flags untouched; otherwise the parsed rows are loaded and toggled to the persisted flag (default off), which is saved back |
| View.CsvView.RequestAutoSave | src/main.ts:238-244 | a save is requested exactly when autosave is on |
| View.CsvView.HotChange | src/main.ts:246-254 | as written, a grid change never requests a save |
| View.CsvView.ChangeAutoSave | src/main.ts:153-166 | flipping the autosave toggle sets the flag, the toggle and the save button's disabled flag to the new value |
| View.CsvView.ClickSave | src/main.ts:176-183 | a click on the enabled save button requests a save exactly when the view shows a file |
| AutoSave.InitialControlsAsWritten | src/main.ts:122-176 | the controls after construction agree with each other exactly when the toggle starts on |
| AutoSave.InitialControlsDisagree | src/main.ts:146-176 | with a toggle that starts off, autosave is off while the toggle shows on and the save button is disabled |
| AutoSave.InitialControls | src/main.ts:122-152 | the intended initial controls agree with each other, with autosave on |
| AutoSave.AfterToggle | src/main.ts:153-159 | after the user flips the toggle, the controls agree with each other and autosave has the chosen value |
| AutoSave.HotChangeAsWritten | src/main.ts:246-254 | as written, `hotChange` never asks for a save |
| AutoSave.HotChange | src/main.ts:246-254 | the intended handler never saves a change made by loading |
| AutoSave.ExactlyOneSavePath | src/main.ts:153-183 | with controls that agree, exactly one way of saving is offered: autosave or the save button |
| AutoSave.EditsAlwaysSavable | src/main.ts:238-254 | with the intended handler and controls that agree, every edit is saved at once or the save button can save it |
| AutoSave.EditLostAsWritten | src/main.ts:246-254 | as written, an edit with autosave on is not saved, and the save button is disabled |

## Left out

- Host plumbing is not modelled. This covers the plugin lifecycle, `registerView`/`registerExtensions`, the folder-menu hook, `vault.create`, notifications, `getIcon`, the icon SVG, `onResize`, `clear` and `onUnloadFile`. It also covers closing the view after a failed load and the catch path for unexpected exceptions. These are host I/O. The model returns the new file's path and contents, and the load's rejection, instead.
- The CSV parser and serialiser are function parameters. Their algorithm is a third-party library, so no parse/serialise round trip is claimed.
- Grid widget internals are reduced to the source rows and the `colHeaders` setting. This covers `loadData`, `updateSettings`, `getSourceDataArray`, sorting, filtering and the storage behind the persistent state. `getColHeader()` is taken to return the stored header row. The row it returns once `colHeaders` is undefined is an unconstrained constant (`undefinedHeader`). The grid hooks `afterColumnSort` … `afterRemoveRow` only call `requestAutoSave`, which is modelled.
- The markdown cell editor and the markdown cell renderer are not modelled. They are DOM geometry and markdown rendering.
- The save button's CSS classes are not modelled; they are presentational. A disabled button receives no clicks in the browser, so `ClickSave` requires an enabled button. Without a file, the notice reads `this.file.name` and throws before `requestSave`; the model then requests no save and leaves the exception out.
- The debounce, the promise and the loading bar are not modelled: `LoadData` is synchronous.
- Unbound methods passed as grid callbacks are not modelled. This is JavaScript `this` binding: the model runs every handler on the view.
- `value || false` in `toggleHeaders` is not modelled, because a Dafny `bool` is never undefined. The same holds for `results.errors !== undefined`, since the parser's error list always exists here.
- The header toggle's `setValue` during a load might fire `toggleHeaders` again. The model does not include that call, but it could not change the result, because toggling is idempotent (`View.ToggledIdempotent`).
- EmptyCsv.CreateEmptyCsv: the counts are natural numbers. Negative or fractional JavaScript numbers are not modelled.
- JsNumbers.ParseInt: numbers are exact integers. JavaScript loses precision beyond 2^53, and a template literal writes indices of 10^21 and more in exponent notation; neither is modelled. So the freshness promise (`Untitled.UntitledNameIsFree`) holds only below 2^53: with a file `Untitled 9007199254740992.csv` in the folder, `i+1` rounds back to 2^53 in JavaScript and the command picks that same name.
- Plugin.NewCsvFile: only CSV files are compared with the new path. A sub-folder named like the new file (for example `Untitled.csv`) would still clash.

## Findings

| source | as written | input that shows it | evidently intended | confidence | as-written member | corrected member |
|---|---|---|---|---|---|---|
| src/main.ts:247 | `hotChange` returns early whenever autosave is on. Otherwise it calls `requestAutoSave`, which saves only when autosave is on. So no grid change ever asks for a save. | a cell edit (source `"edit"`) with autosave on: no save is requested, and the save button is disabled | return early only for changes made by loading, then defer to `requestAutoSave` | not executed; high | AutoSave.HotChangeAsWritten, AutoSave.EditLostAsWritten | AutoSave.HotChange, AutoSave.EditsAlwaysSavable |
| src/main.ts:150 | the constructor copies the autosave toggle's value into `autoSaveValue` before `setValue(true)` switches the toggle on. This overwrites the `true` set at line 122. | a toggle that starts off (the host's toggle component starts off; it is not part of this model): autosave is off, the toggle shows on, and the save button is disabled | autosave on, matching the toggle and the disabled save button | not executed; medium | AutoSave.InitialControlsAsWritten, AutoSave.InitialControlsDisagree | AutoSave.InitialControls, AutoSave.ExactlyOneSavePath |

`CsvView` models the code, so its constructor and its `HotChange` keep the
behaviour as written. The corrected definitions sit beside them in
`AutoSave`, with the intended properties proved.
