/**
 * The plugin's "New CSV file" folder-menu command: it scans the folder,
 * names the new file after the next free "Untitled" index and writes the
 * empty template into it. The vault write itself belongs to the host and
 * is represented by the path and contents returned.
 */
module Plugin {
  import opened Untitled
  import EmptyCsv
  import View
  import opened Common

  /** The path of a CSV file named `basename` in the folder at `folderPath`. */
  function CsvPath(folderPath: string, basename: string): (path: string)
    ensures |path| == |folderPath| + |basename| + 5
    ensures path[..|folderPath| + 1] == folderPath + "/"
    ensures path[|folderPath| + 1..|path| - 4] == basename
    ensures path[|path| - 4..] == ".csv"
  {
    folderPath + "/" + basename + ".csv"
  }

  lemma CsvPathInjective(folderPath: string, a: string, b: string)
    requires CsvPath(folderPath, a) == CsvPath(folderPath, b)
    ensures a == b
  {
  }

  /**
   * The click handler: the file it creates, named "Untitled" or
   * "Untitled <index>", and the template it writes there. The file never
   * takes the place of a CSV file already in the folder.
   */
  method NewCsvFile(folderPath: string, children: seq<Child>) returns (file: View.VaultFile, contents: string)
    ensures file == View.VaultFile(CsvPath(folderPath, FileName(UntitledIndex(children))), FileName(UntitledIndex(children)), "csv")
    ensures contents == EmptyCsv.EmptyCsvText(4, 4)
    ensures forall c :: c in children && c.File? && c.extension == "csv" ==> file.path != CsvPath(folderPath, c.basename)
  {
    var index := NextUntitledIndex(children);
    var fileName := FileName(index);
    var path := CsvPath(folderPath, fileName);
    contents := EmptyCsv.CreateEmptyCsv(4, 4);
    file := View.VaultFile(path, fileName, "csv");
    UntitledNameIsFree(children);
    forall c | c in children && c.File? && c.extension == "csv"
      ensures file.path != CsvPath(folderPath, c.basename)
    {
      if file.path == CsvPath(folderPath, c.basename) {
        CsvPathInjective(folderPath, fileName, c.basename);
      }
    }
  }

  /** The created file is one the CSV view accepts, and the view titles it with the chosen name. */
  lemma NewFileAcceptedByCsvView(folderPath: string, children: seq<Child>)
    ensures var name := FileName(UntitledIndex(children));
      var file := View.VaultFile(CsvPath(folderPath, name), name, "csv");
      View.CanAcceptExtension(file.extension) && View.DisplayText(Some(file)) == name
    ensures View.DisplayText(None) == "csv (no file)" && View.ViewType() == "csv"
  {
  }
}
