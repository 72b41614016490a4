/**
 * The "New CSV file" command picks the name of the file it creates by
 * scanning the folder's children for CSV files already called "Untitled",
 * "Untitled 1", "Untitled 2", ... and taking the next free index.
 */
module Untitled {
  import opened Common
  import opened Strings
  import opened JsNumbers

  /** A child of a folder: a file, with its extension and its name without the extension, or a sub-folder. */
  datatype Child = File(extension: string, basename: string) | Folder(name: string)

  const Untitled := "Untitled"

  /** Whether the scan looks at `c` at all: a CSV file whose name contains "Untitled". */
  predicate Scanned(c: Child)
  {
    c.File? && c.extension == "csv" && Contains(c.basename, Untitled)
  }

  /** The number `parseInt` reads from the second space-separated word of `basename`, if any. */
  function Suffix(basename: string): Option<int>
  {
    var words := Split(basename, ' ');
    if |words| > 1 then ParseInt(words[1]) else None
  }

  /**
   * The least index a single child forces on the new file: one past its
   * number, 1 for a scanned file without a number, 0 for a child the scan
   * ignores.
   */
  function Claim(c: Child): int
  {
    if !Scanned(c) then 0
    else match Suffix(c.basename)
      case Some(i) => i + 1
      case None => 1
  }

  /** The index the scan ends with: 0, or the largest claim of any child. */
  function UntitledIndex(children: seq<Child>): nat
  {
    if |children| == 0 then 0
    else
      var before := UntitledIndex(children[..|children| - 1]);
      var claim := Claim(children[|children| - 1]);
      if claim > before then claim else before
  }

  /** The scan of the click handler: one pass over the children, updating `index`. */
  method NextUntitledIndex(children: seq<Child>) returns (index: nat)
    ensures index == UntitledIndex(children)
  {
    index := 0;
    for k := 0 to |children|
      invariant index == UntitledIndex(children[..k])
    {
      var child := children[k];
      if child.File? {
        if child.extension == "csv" && Contains(child.basename, Untitled) {
          var split := Split(child.basename, ' ');
          if |split| > 1 && ParseInt(split[1]).Some? {
            var i := ParseInt(split[1]).value;
            index := if i >= index then i + 1 else index;
          } else {
            index := if index > 0 then index else 1;
          }
        }
      }
      assert children[..k + 1][..k] == children[..k];
    }
    assert children[..|children|] == children;
  }

  /** The index is the maximum of 0 and the claims of all children. */
  lemma {:induction false} UntitledIndexIsMax(children: seq<Child>)
    ensures forall c :: c in children ==> Claim(c) <= UntitledIndex(children)
    ensures UntitledIndex(children) == 0 || exists c :: c in children && Claim(c) == UntitledIndex(children)
  {
    if |children| > 0 {
      var init := children[..|children| - 1];
      var last := children[|children| - 1];
      UntitledIndexIsMax(init);
      assert children == init + [last];
      if UntitledIndex(children) != 0 && UntitledIndex(children) != Claim(last) {
        var c :| c in init && Claim(c) == UntitledIndex(init);
        assert c in children;
      }
    }
  }

  /** The order in which the folder lists its children does not matter. */
  lemma UntitledIndexOrderIndependent(a: seq<Child>, b: seq<Child>)
    requires multiset(a) == multiset(b)
    ensures UntitledIndex(a) == UntitledIndex(b)
  {
    UntitledIndexIsMax(a);
    UntitledIndexIsMax(b);
    forall c | c in a ensures c in b {
      assert c in multiset(a);
    }
    forall c | c in b ensures c in a {
      assert c in multiset(b);
    }
  }

  /** More children never lower the index. */
  lemma UntitledIndexGrows(a: seq<Child>, b: seq<Child>)
    ensures UntitledIndex(a) <= UntitledIndex(a + b)
  {
    UntitledIndexIsMax(a);
    UntitledIndexIsMax(a + b);
    if UntitledIndex(a) != 0 {
      var c :| c in a && Claim(c) == UntitledIndex(a);
      assert c in a + b;
    }
  }

  /** The index never decreases during the scan. */
  lemma UntitledIndexMonotone(children: seq<Child>, j: nat, k: nat)
    requires j <= k <= |children|
    ensures UntitledIndex(children[..j]) <= UntitledIndex(children[..k])
  {
    assert children[..k] == children[..j] + children[j..k];
    UntitledIndexGrows(children[..j], children[j..k]);
  }

  /**
   * The index is above every number an "Untitled" CSV file carries, and at
   * least 1 once such a file has no number or a non-negative one (a file
   * named "Untitled -3" alone leaves the index at 0).
   */
  lemma UntitledIndexAboveSuffixes(children: seq<Child>, c: Child)
    requires c in children && Scanned(c)
    ensures Suffix(c.basename).None? || Suffix(c.basename).value >= 0 ==> UntitledIndex(children) >= 1
    ensures Suffix(c.basename).Some? ==> Suffix(c.basename).value < UntitledIndex(children)
  {
    UntitledIndexIsMax(children);
  }

  /** The name of the new file: "Untitled", or "Untitled <index>" for a positive index. */
  function FileName(index: nat): (name: string)
    ensures Contains(name, Untitled)
    ensures index == 0 ==> Split(name, ' ') == [Untitled]
    ensures index > 0 ==> Split(name, ' ') == [Untitled, DecimalString(index)]
  {
    var name := Untitled + (if index > 0 then " " + DecimalString(index) else "");
    ContainsPrefix(Untitled, name[|Untitled|..]);
    assert Untitled + name[|Untitled|..] == name;
    assert ' ' !in Untitled;
    SplitWithoutSeparator(Untitled, ' ');
    if index > 0 then
      var digits := DecimalString(index);
      assert ' ' !in digits;
      SplitWithoutSeparator(digits, ' ');
      assert name == Untitled + [' '] + digits;
      SplitAround(Untitled, ' ', digits);
      name
    else
      assert name == Untitled;
      name
  }


  /** A CSV file carrying the name made for `index` claims exactly the next index. */
  lemma ClaimOfFileName(index: nat)
    ensures Claim(File("csv", FileName(index))) == index + 1
  {
    var name := FileName(index);
    assert Scanned(File("csv", name));
    if index > 0 {
      ParseIntDecimal(index);
      assert Suffix(name) == Some(index);
    } else {
      assert Suffix(name) == None;
    }
  }

  /** The new file never takes the name of a CSV file already in the folder. */
  lemma UntitledNameIsFree(children: seq<Child>)
    ensures forall c :: c in children && c.File? && c.extension == "csv" ==> c.basename != FileName(UntitledIndex(children))
  {
    UntitledIndexIsMax(children);
    ClaimOfFileName(UntitledIndex(children));
  }

  /** Once the new file exists, the next scan yields the next index. */
  lemma UntitledIndexAfterCreate(children: seq<Child>)
    ensures UntitledIndex(children + [File("csv", FileName(UntitledIndex(children)))]) == UntitledIndex(children) + 1
  {
    var created := File("csv", FileName(UntitledIndex(children)));
    ClaimOfFileName(UntitledIndex(children));
    assert (children + [created])[..|children|] == children;
  }
}
