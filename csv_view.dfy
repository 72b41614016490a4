/**
 * The CSV view: it loads a file's text into a grid, moves the first row in
 * and out of the grid's column headers, hands the grid's rows back to the
 * serialiser, and asks the host to save according to the autosave policy.
 *
 * The CSV parser and serialiser are parameters (`parse`, `unparse`); the
 * grid widget is reduced to its source rows and its `colHeaders` setting,
 * and its persistent state to a map from the grid's root element id (the
 * file path) to the `hasHeadings` flag.
 */
module View {
  import opened Common
  import AutoSave

  /** The byte-order mark U+FEFF. */
  const Bom: char := '\U{FEFF}'

  /** A file of the vault: its path, its name without extension, and its extension. */
  datatype VaultFile = VaultFile(path: string, basename: string, extension: string)

  /** One error the parser reports. */
  datatype ParseError = ParseError(kind: string, code: string, message: string, row: int)

  /** What the parser returns: the rows it read and the errors it met. */
  datatype ParseResult = ParseResult(data: seq<seq<string>>, errors: seq<ParseError>)

  /**
   * The grid's `colHeaders` setting: `true` (positional letters), a row of
   * labels, or `undefined`, which is what `shift()` stores when the grid has
   * no rows.
   */
  datatype Headers = Positional | Labels(labels: seq<string>) | Undefined

  /** The grid: its source rows (unfiltered, unsorted) and its column headers. */
  datatype Grid = Grid(rows: seq<seq<string>>, colHeaders: Headers)

  /** The source's test `colHeaders !== true`. */
  predicate HeadersOn(h: Headers)
  {
    !h.Positional?
  }

  /**
   * `getColHeader()` while headers are on: the stored labels, or, once the
   * setting is `undefined`, whatever row the widget reports then
   * (`undefinedHeader`, not modelled further).
   */
  function ColHeader(g: Grid, undefinedHeader: seq<string>): seq<string>
    requires HeadersOn(g.colHeaders)
  {
    match g.colHeaders
    case Labels(labels) => labels
    case Undefined => undefinedHeader
  }

  /** The rows of the file the grid stands for: the header row first when headers are on. */
  function FullRows(g: Grid, undefinedHeader: seq<string>): seq<seq<string>>
  {
    if HeadersOn(g.colHeaders) then [ColHeader(g, undefinedHeader)] + g.rows else g.rows
  }

  /**
   * `toggleHeaders(value)` on the grid: turning headers on while they are
   * off takes the first row off as the header row; turning them off while
   * they are on puts the header row back as the first row; otherwise the
   * grid is left alone.
   */
  function Toggled(g: Grid, value: bool, undefinedHeader: seq<string>): (g': Grid)
    ensures HeadersOn(g'.colHeaders) == value
    ensures value == HeadersOn(g.colHeaders) ==> g' == g
  {
    if value then
      if g.colHeaders == Positional then
        if |g.rows| > 0 then Grid(g.rows[1..], Labels(g.rows[0])) else Grid(g.rows, Undefined)
      else g
    else if HeadersOn(g.colHeaders) then Grid([ColHeader(g, undefinedHeader)] + g.rows, Positional)
    else g
  }

  /** Except for turning headers on over an empty grid, toggling keeps the file's rows as they are. */
  lemma ToggledKeepsFullRows(g: Grid, value: bool, undefinedHeader: seq<string>)
    requires !(value && g.colHeaders == Positional && g.rows == [])
    ensures FullRows(Toggled(g, value, undefinedHeader), undefinedHeader) == FullRows(g, undefinedHeader)
  {
    if value && g.colHeaders == Positional {
      assert [g.rows[0]] + g.rows[1..] == g.rows;
    }
  }

  /** Turning headers on over an empty grid leaves `colHeaders` undefined and adds the widget's header row to the file. */
  lemma ToggledOnEmptyGrid(undefinedHeader: seq<string>)
    ensures Toggled(Grid([], Positional), true, undefinedHeader) == Grid([], Undefined)
    ensures FullRows(Toggled(Grid([], Positional), true, undefinedHeader), undefinedHeader) == [undefinedHeader]
  {
  }

  /** Asking twice for the same header state is the same as asking once. */
  lemma ToggledIdempotent(g: Grid, value: bool, undefinedHeader: seq<string>)
    ensures Toggled(Toggled(g, value, undefinedHeader), value, undefinedHeader) == Toggled(g, value, undefinedHeader)
  {
  }

  /** Turning headers on and then off restores the original rows exactly. */
  lemma ToggleOnThenOff(g: Grid, undefinedHeader: seq<string>)
    requires g.colHeaders == Positional && g.rows != []
    ensures Toggled(Toggled(g, true, undefinedHeader), false, undefinedHeader) == g
  {
    assert [g.rows[0]] + g.rows[1..] == g.rows;
  }

  /** Turning a header row off and then on again restores the same grid. */
  lemma ToggleOffThenOn(g: Grid, undefinedHeader: seq<string>)
    requires g.colHeaders.Labels?
    ensures Toggled(Toggled(g, false, undefinedHeader), true, undefinedHeader) == g
  {
    assert ([g.colHeaders.labels] + g.rows)[1..] == g.rows;
  }

  /** The persisted `hasHeadings` flag for `key`, false when nothing is stored. */
  function HasHeadings(state: map<string, bool>, key: string): (flag: bool)
    ensures flag <==> key in state && state[key]
    ensures key !in state ==> !flag
  {
    if key in state then state[key] else false
  }

  /** Strips one leading byte-order mark, as Excel writes one. */
  function StripBom(data: string): (r: string)
    ensures |data| > 0 && data[0] == Bom ==> [Bom] + r == data
    ensures |data| == 0 || data[0] != Bom ==> r == data
  {
    if |data| > 0 && data[0] == Bom then data[1..] else data
  }

  /** A file that starts with a byte-order mark reads as the same file without it; only one mark is stripped. */
  lemma StripBomTransparent(data: string)
    requires |data| == 0 || data[0] != Bom
    ensures StripBom([Bom] + data) == StripBom(data) == data
    ensures StripBom([Bom, Bom] + data) == [Bom] + data
  {
    assert ([Bom] + data)[1..] == data;
    assert ([Bom, Bom] + data)[1..] == [Bom] + data;
  }

  /** `canAcceptExtension(extension)`: the view takes exactly the files whose extension is its own type name. */
  function CanAcceptExtension(extension: string): (accepted: bool)
    ensures accepted <==> extension == ViewType()
  {
    extension == "csv"
  }

  /** `getViewType()`: the type the view is registered under. */
  function ViewType(): (t: string)
    ensures t == "csv"
  {
    "csv"
  }

  /** `getDisplayText()`: the file's name without extension, or a placeholder without a file. */
  function DisplayText(file: Option<VaultFile>): (text: string)
    ensures file.Some? ==> text == file.value.basename
    ensures file.None? ==> text == "csv (no file)"
  {
    match file
    case Some(f) => f.basename
    case None => "csv (no file)"
  }

  class CsvView {
    /** The file the view shows. */
    var file: Option<VaultFile>
    /** The grid's root element id, the key of its persistent state. */
    var rootId: string
    /** The grid's source rows. */
    var rows: seq<seq<string>>
    /** The grid's `colHeaders` setting. */
    var colHeaders: Headers
    /** The persistent `hasHeadings` flag, by root element id. */
    var state: map<string, bool>
    /** What the "File Includes Headers" toggle shows. */
    var headerToggleShown: bool
    /** The autosave flag the handlers read. */
    var autoSaveValue: bool
    /** What the "Auto Save" toggle shows. */
    var autoSaveShown: bool
    /** Whether the save button is disabled. */
    var saveDisabled: bool
    /** How many times the view has asked the host to save the file. */
    var saveRequests: nat
    /** The row `getColHeader()` reports once `colHeaders` is undefined. */
    const undefinedHeader: seq<string>

    function GridState(): Grid
      reads this
    {
      Grid(rows, colHeaders)
    }

    function Controls(): AutoSave.Controls
      reads this
    {
      AutoSave.Controls(autoSaveValue, autoSaveShown, saveDisabled)
    }

    /**
     * The constructor's state handling: an empty grid with positional
     * headers, the header toggle off, and the autosave controls as the
     * constructor leaves them, given the value the autosave toggle has
     * before it is switched on.
     */
    constructor (file: Option<VaultFile>, state: map<string, bool>, toggleInitial: bool, undefinedHeader: seq<string>)
      ensures this.file == file && this.state == state && this.undefinedHeader == undefinedHeader
      ensures GridState() == Grid([], Positional) && !headerToggleShown
      ensures Controls() == AutoSave.InitialControlsAsWritten(toggleInitial)
      ensures saveRequests == 0
    {
      this.file := file;
      this.state := state;
      this.undefinedHeader := undefinedHeader;
      rootId := "";
      rows := [];
      colHeaders := Positional;
      headerToggleShown := false;
      autoSaveValue := true;
      // the toggle is read before it is switched on
      autoSaveValue := toggleInitial;
      autoSaveShown := true;
      saveDisabled := autoSaveShown;
      saveRequests := 0;
    }

    /** `getViewData()`: the text the serialiser makes of the file's rows. */
    method GetViewData(unparse: seq<seq<string>> -> string) returns (text: string)
      ensures text == unparse(FullRows(GridState(), undefinedHeader))
    {
      var data := rows;
      if colHeaders != Positional {
        data := [ColHeader(GridState(), undefinedHeader)] + data;
      }
      text := unparse(data);
    }

    /** `toggleHeaders(value)`: moves the header row in or out of the grid and persists `value`. */
    method ToggleHeaders(value: bool)
      modifies this`rows, this`colHeaders, this`state
      ensures GridState() == Toggled(old(GridState()), value, undefinedHeader)
      ensures state == old(state)[rootId := value]
    {
      if value {
        if colHeaders == Positional {
          var data := rows;
          if |data| > 0 {
            colHeaders := Labels(data[0]);
            data := data[1..];
          } else {
            colHeaders := Undefined;
          }
          rows := data;
        }
      } else {
        if colHeaders != Positional {
          var data := rows;
          data := [ColHeader(GridState(), undefinedHeader)] + data;
          colHeaders := Positional;
          rows := data;
        }
      }
      state := state[rootId := value];
    }

    /**
     * `loadDataAsync(data)`: resets the headers, strips a byte-order mark and
     * parses; rejects with the parser's errors, if any, without touching the
     * grid's rows or the persistent state; otherwise loads the rows and
     * applies the persisted header flag (false by default).
     */
    method LoadData(data: string, parse: string -> ParseResult) returns (r: Result<(), seq<ParseError>>)
      requires file.Some?
      modifies this`rootId, this`rows, this`colHeaders, this`state, this`headerToggleShown
      ensures rootId == file.value.path
      ensures var parsed := parse(StripBom(data));
        if |parsed.errors| != 0 then
          && r == Failure(parsed.errors)
          && GridState() == Grid(old(rows), Positional)
          && state == old(state)
          && headerToggleShown == old(headerToggleShown)
        else
          var hasHeadings := HasHeadings(old(state), file.value.path);
          && r == Success(())
          && GridState() == Toggled(Grid(parsed.data, Positional), hasHeadings, undefinedHeader)
          && state == old(state)[file.value.path := hasHeadings]
          && headerToggleShown == hasHeadings
    {
      rootId := file.value.path;
      colHeaders := Positional;
      var text := data;
      if |text| > 0 && text[0] == Bom {
        text := text[1..];
      }
      var results := parse(text);
      if |results.errors| != 0 {
        r := Failure(results.errors);
        return;
      }
      rows := results.data;
      var hasHeadings := if rootId in state then state[rootId] else false;
      headerToggleShown := hasHeadings;
      ToggleHeaders(hasHeadings);
      r := Success(());
    }

    /** `requestAutoSave()`: asks the host to save when autosave is on. */
    method RequestAutoSave()
      modifies this`saveRequests
      ensures saveRequests == old(saveRequests) + (if AutoSave.RequestAutoSave(Controls()) then 1 else 0)
    {
      if autoSaveValue {
        saveRequests := saveRequests + 1;
      }
    }

    /** `hotChange(changes, source)` as written. */
    method HotChange(source: string)
      modifies this`saveRequests
      ensures saveRequests == old(saveRequests) + (if AutoSave.HotChangeAsWritten(Controls(), source) then 1 else 0)
    {
      if source == "loadData" || autoSaveValue {
        return;
      }
      RequestAutoSave();
    }

    /** The user flips the autosave toggle to `value`, and its change handler runs. */
    method ChangeAutoSave(value: bool)
      modifies this`autoSaveShown, this`autoSaveValue, this`saveDisabled
      ensures Controls() == AutoSave.AfterToggle(old(Controls()), value)
    {
      autoSaveShown := value;
      autoSaveValue := value;
      saveDisabled := value;
    }

    /**
     * The save button's click handler, which runs only while the button is
     * enabled; it reads the file's name for its notice before it requests
     * the save, so without a file it stops there.
     */
    method ClickSave()
      requires !saveDisabled
      modifies this`saveRequests
      ensures saveRequests == old(saveRequests) + (if AutoSave.SaveClick(file.Some?) then 1 else 0)
    {
      if file.None? {
        return;
      }
      saveRequests := saveRequests + 1;
    }
  }

  /** After a successful load the serialiser is handed exactly the parsed rows, unless headers go on over an empty file. */
  lemma LoadedFullRows(parsed: ParseResult, hasHeadings: bool, undefinedHeader: seq<string>)
    requires parsed.data != [] || !hasHeadings
    ensures FullRows(Toggled(Grid(parsed.data, Positional), hasHeadings, undefinedHeader), undefinedHeader) == parsed.data
  {
    ToggledKeepsFullRows(Grid(parsed.data, Positional), hasHeadings, undefinedHeader);
  }
}
