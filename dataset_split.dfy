/** The dataset scripts: balancing the two class folders by deleting the
    surplus of the larger one, creating the split/class directory tree, and
    distributing each class's shuffled file list into train, val and test by
    symbolic links. Two variants exist: one balances first and splits 80/20/0,
    the other does not balance and splits 70/15/15. The directory listing
    followed by `random.shuffle` is an arbitrary enumeration of a folder,
    passed in; `int(total * ratio)` is the floor of an exact percentage. */
module DatasetSplit {
  import opened Arithmetic

  const CIBLE := "cible"
  const NOCIBLE := "nocible"
  const SOURCE_DIRS: seq<string> := [CIBLE, NOCIBLE]

  const TRAIN := "train"
  const VAL := "val"
  const TEST := "test"
  const DEST_DIRS: seq<string> := [TRAIN, VAL, TEST]

  // ---------------------------------------------------------------------
  // Sequences of names

  function Elems(s: seq<string>): set<string> {
    set x | x in s
  }

  predicate Distinct(s: seq<string>) {
    forall i, j :: 0 <= i < j < |s| ==> s[i] != s[j]
  }

  /** `order` lists every element of `files` exactly once: the result of
      listing a folder and shuffling the list. */
  predicate Enumerates(order: seq<string>, files: set<string>) {
    Distinct(order) && Elems(order) == files
  }

  lemma {:induction false} DistinctCount(s: seq<string>)
    requires Distinct(s)
    ensures |Elems(s)| == |s|
  {
    if s != [] {
      var init := s[..|s| - 1];
      DistinctCount(init);
      assert Elems(s) == Elems(init) + {s[|s| - 1]};
      assert s[|s| - 1] !in Elems(init);
    }
  }

  /** Removing the tail of an enumeration from its set leaves its head. */
  lemma DropTail(order: seq<string>, k: nat)
    requires Distinct(order) && k <= |order|
    ensures Elems(order) - Elems(order[k..]) == Elems(order[..k])
  {
    forall x | x in Elems(order[..k])
      ensures x !in Elems(order[k..])
    {
      var i :| 0 <= i < k && order[i] == x;
      forall j | 0 <= j < |order| - k
        ensures order[k..][j] != x
      {
        assert order[k..][j] == order[k + j];
      }
    }
    assert order == order[..k] + order[k..];
  }

  // ---------------------------------------------------------------------
  // Ratios and slices

  /** The split ratios as whole percentages. */
  datatype Ratios = Ratios(train: nat, val: nat, test: nat)

  /** `{"train": 0.80, "val": 0.20, "test": 0.0}`, used after balancing. */
  const BALANCED_RATIOS := Ratios(80, 20, 0)
  /** `{"train": 0.70, "val": 0.15, "test": 0.15}`, used without balancing. */
  const DEFAULT_RATIOS := Ratios(70, 15, 15)

  predicate ValidRatios(r: Ratios) {
    r.train + r.val + r.test == 100
  }

  /** `int(total * ratio)` for a whole percentage. */
  function Portion(total: nat, percent: nat): nat {
    total * percent / 100
  }

  /** `train_end` and `val_end`: the cut points are ordered and inside the
      list. `train_end` is the floor of the exact train share; `val_end`, a
      sum of two floors, is the floor of the exact train-plus-val share or
      one less than it. */
  function Bounds(total: nat, r: Ratios): (b: (nat, nat))
    requires ValidRatios(r)
    ensures b.0 <= b.1 <= total
    ensures 100 * b.0 <= total * r.train < 100 * b.0 + 100
    ensures total * (r.train + r.val) / 100 - 1 <= b.1 <= total * (r.train + r.val) / 100
  {
    var trainEnd := Portion(total, r.train);
    var valEnd := trainEnd + Portion(total, r.val);
    PortionsFit(total, r.train, r.val);
    FloorsOfSum(total * r.train, total * r.val);
    assert total * (r.train + r.val) == total * r.train + total * r.val;
    (trainEnd, valEnd)
  }

  /** The floors of two shares add up to the floor of their sum, or one
      less. */
  lemma FloorsOfSum(x: nat, y: nat)
    ensures (x + y) / 100 - 1 <= x / 100 + y / 100 <= (x + y) / 100
  {
    var q1, r1 := x / 100, x % 100;
    var q2, r2 := y / 100, y % 100;
    if r1 + r2 < 100 {
      DivModUnique(x + y, 100, q1 + q2, r1 + r2);
    } else {
      DivModUnique(x + y, 100, q1 + q2 + 1, r1 + r2 - 100);
    }
  }

  lemma PortionsFit(total: nat, a: nat, b: nat)
    requires a + b <= 100
    ensures Portion(total, a) + Portion(total, b) <= total
  {
    var x, y := Portion(total, a), Portion(total, b);
    assert x * 100 <= total * a;
    assert y * 100 <= total * b;
    assert total * a + total * b == total * (a + b);
    MulNonNegative(total, 100 - (a + b));
    assert total * (100 - (a + b)) == total * 100 - total * (a + b);
  }

  datatype Splits = Splits(train: seq<string>, val: seq<string>, test: seq<string>)

  /** `files[:train_end]`, `files[train_end:val_end]`, `files[val_end:]`. */
  function Slices(files: seq<string>, r: Ratios): (s: Splits)
    requires ValidRatios(r)
    ensures s.train + s.val + s.test == files
    ensures |s.train| == Portion(|files|, r.train)
    ensures |s.val| == Portion(|files|, r.val)
    ensures |s.test| == |files| - Portion(|files|, r.train) - Portion(|files|, r.val)
  {
    var (trainEnd, valEnd) := Bounds(|files|, r);
    assert files == files[..trainEnd] + files[trainEnd..valEnd] + files[valEnd..];
    Splits(files[..trainEnd], files[trainEnd..valEnd], files[valEnd..])
  }

  /** The slice named `split`. */
  function SliceOf(s: Splits, split: string): seq<string> {
    if split == TRAIN then s.train
    else if split == VAL then s.val
    else if split == TEST then s.test
    else []
  }

  /** In a list without duplicates, the element at index `i` is in the slice
      `[lo, hi)` exactly when `i` is. */
  lemma InSliceIffIndexIn(files: seq<string>, lo: nat, hi: nat, i: nat)
    requires Distinct(files) && lo <= hi <= |files| && i < |files|
    ensures files[i] in files[lo..hi] <==> lo <= i < hi
  {
    if files[i] in files[lo..hi] {
      var k :| 0 <= k < hi - lo && files[lo..hi][k] == files[i];
      assert files[lo + k] == files[i];
    }
    if lo <= i < hi {
      assert files[lo..hi][i - lo] == files[i];
    }
  }

  /** Every file of a shuffled listing lands in exactly one of the three
      splits. */
  lemma {:induction false} SlicesPartition(files: seq<string>, r: Ratios, f: string)
    requires ValidRatios(r) && Distinct(files) && f in files
    ensures var s := Slices(files, r);
      && (f in s.train || f in s.val || f in s.test)
      && !(f in s.train && f in s.val) && !(f in s.train && f in s.test) && !(f in s.val && f in s.test)
  {
    var s := Slices(files, r);
    var (trainEnd, valEnd) := Bounds(|files|, r);
    assert s == Splits(files[0..trainEnd], files[trainEnd..valEnd], files[valEnd..|files|]);
    var i :| 0 <= i < |files| && files[i] == f;
    InSliceIffIndexIn(files, 0, trainEnd, i);
    InSliceIffIndexIn(files, trainEnd, valEnd, i);
    InSliceIffIndexIn(files, valEnd, |files|, i);
  }

  /** With the 80/20/0 ratios the test split is not empty in general: it
      receives the rounding remainder, one file exactly when the total is not
      a multiple of five. */
  lemma TestGetsRoundingRemainder(files: seq<string>)
    ensures |Slices(files, BALANCED_RATIOS).test| == (if |files| % 5 == 0 then 0 else 1)
  {
    var total := |files|;
    var q, r := total / 5, total % 5;
    assert total == 5 * q + r;
    if r == 0 {
      DivModUnique(total * 80, 100, 4 * q, 0);
      DivModUnique(total * 20, 100, q, 0);
    } else if r == 1 {
      DivModUnique(total * 80, 100, 4 * q, 80);
      DivModUnique(total * 20, 100, q, 20);
    } else if r == 2 {
      DivModUnique(total * 80, 100, 4 * q + 1, 60);
      DivModUnique(total * 20, 100, q, 40);
    } else if r == 3 {
      DivModUnique(total * 80, 100, 4 * q + 2, 40);
      DivModUnique(total * 20, 100, q, 60);
    } else {
      DivModUnique(total * 80, 100, 4 * q + 3, 20);
      DivModUnique(total * 20, 100, q, 80);
    }
  }

  /** With the 70/15/15 ratios the test split, which takes everything after
      val, gets at least as many files as val and at most two more. */
  lemma TestShareOfDefaultRatios(files: seq<string>)
    ensures var s := Slices(files, DEFAULT_RATIOS);
      |s.val| <= |s.test| <= |s.val| + 2
  {
    var t := |files|;
    var a, b := Portion(t, 70), Portion(t, 15);
    assert 100 * a <= 70 * t < 100 * a + 100;
    assert 100 * b <= 15 * t < 100 * b + 100;
  }

  // ---------------------------------------------------------------------
  // The data directory

  /** A symbolic link's location: `split/cls/name`. */
  datatype LinkPath = LinkPath(split: string, cls: string, name: string)
  /** A link's target: the absolute path of `cls/name`. */
  datatype FilePath = FilePath(cls: string, name: string)

  /** The part of the data directory the scripts touch: the regular files of
      each existing folder, the split/class directories, and the entries
      inside those directories. */
  class Disk {
    var folders: map<string, set<string>>
    var dirs: set<(string, string)>
    var links: map<LinkPath, FilePath>

    constructor (folders: map<string, set<string>>, dirs: set<(string, string)>, links: map<LinkPath, FilePath>)
      ensures this.folders == folders && this.dirs == dirs && this.links == links
    {
      this.folders := folders;
      this.dirs := dirs;
      this.links := links;
    }
  }

  /** The number of files of a class: 0 for a folder that does not exist. */
  function CountOf(folders: map<string, set<string>>, cls: string): nat {
    if cls in folders then |folders[cls]| else 0
  }

  /** `shuffled` holds the shuffled listing of every class folder present. */
  predicate Listed(folders: map<string, set<string>>, shuffled: map<string, seq<string>>) {
    && (CIBLE in folders ==> CIBLE in shuffled && Enumerates(shuffled[CIBLE], folders[CIBLE]))
    && (NOCIBLE in folders ==> NOCIBLE in shuffled && Enumerates(shuffled[NOCIBLE], folders[NOCIBLE]))
  }

  // ---------------------------------------------------------------------
  // balance_data

  /** The class with more files, and the count of the other. */
  function Larger(folders: map<string, set<string>>): (string, nat) {
    if CountOf(folders, CIBLE) > CountOf(folders, NOCIBLE)
    then (CIBLE, CountOf(folders, NOCIBLE))
    else (NOCIBLE, CountOf(folders, CIBLE))
  }

  /** The folders after balancing: unchanged when the counts agree; otherwise
      the larger class keeps the first `target` files of its shuffled list. */
  function Balanced(folders: map<string, set<string>>, shuffled: map<string, seq<string>>): map<string, set<string>>
    requires Listed(folders, shuffled)
  {
    if CountOf(folders, CIBLE) == CountOf(folders, NOCIBLE) then folders
    else
      var (larger, target) := Larger(folders);
      DistinctCount(shuffled[larger]);
      folders[larger := Elems(shuffled[larger][..target])]
  }

  /** After balancing both classes have the smaller count; the larger one
      keeps only files it had; nothing else changes. */
  lemma BalanceEqualizes(folders: map<string, set<string>>, shuffled: map<string, seq<string>>)
    requires Listed(folders, shuffled)
    ensures var b := Balanced(folders, shuffled);
      var m := if CountOf(folders, CIBLE) <= CountOf(folders, NOCIBLE) then CountOf(folders, CIBLE) else CountOf(folders, NOCIBLE);
      && CountOf(b, CIBLE) == m && CountOf(b, NOCIBLE) == m
      && b.Keys == folders.Keys
      && (forall c :: c in folders ==> b[c] <= folders[c])
      && (forall c :: c in folders && c != Larger(folders).0 ==> b[c] == folders[c])
  {
    if CountOf(folders, CIBLE) != CountOf(folders, NOCIBLE) {
      var (larger, target) := Larger(folders);
      var order := shuffled[larger];
      DistinctCount(order);
      DistinctCount(order[..target]);
    }
  }

  /** A missing class folder counts as empty, so balancing deletes every file
      of the other class. */
  lemma MissingClassEmptiesOther(folders: map<string, set<string>>, shuffled: map<string, seq<string>>)
    requires Listed(folders, shuffled)
    requires CIBLE !in folders && NOCIBLE in folders
    ensures Balanced(folders, shuffled)[NOCIBLE] == {}
  {
  }

  /** The deletion loop of `balance_data`: `os.remove` on each name, in
      order, inside the folder `cls`. */
  method RemoveFiles(disk: Disk, cls: string, names: seq<string>)
    requires cls in disk.folders
    modifies disk
    ensures disk.folders == old(disk.folders)[cls := old(disk.folders)[cls] - Elems(names)]
    ensures disk.dirs == old(disk.dirs) && disk.links == old(disk.links)
  {
    ghost var kept := disk.folders[cls];
    assert Elems(names[..0]) == {};
    for i := 0 to |names|
      invariant kept == old(disk.folders)[cls] - Elems(names[..i])
      invariant disk.folders == old(disk.folders)[cls := kept]
      invariant disk.dirs == old(disk.dirs) && disk.links == old(disk.links)
    {
      assert Elems(names[..i + 1]) == Elems(names[..i]) + {names[i]};
      kept := kept - {names[i]};
      disk.folders := disk.folders[cls := disk.folders[cls] - {names[i]}];
    }
    assert names[..|names|] == names;
  }

  /** `balance_data`: when the counts differ, the surplus of the larger folder
      (its shuffled list after the first `target` names) is deleted one file
      at a time; the number deleted is returned. */
  method Balance(disk: Disk, shuffled: map<string, seq<string>>) returns (removed: nat)
    requires Listed(disk.folders, shuffled)
    modifies disk
    ensures disk.folders == Balanced(old(disk.folders), shuffled)
    ensures disk.dirs == old(disk.dirs) && disk.links == old(disk.links)
    ensures removed == if CountOf(old(disk.folders), CIBLE) == CountOf(old(disk.folders), NOCIBLE) then 0
      else CountOf(old(disk.folders), Larger(old(disk.folders)).0) - Larger(old(disk.folders)).1
  {
    var cibleCount := CountOf(disk.folders, CIBLE);
    var nocibleCount := CountOf(disk.folders, NOCIBLE);
    if cibleCount == nocibleCount {
      return 0;
    }
    var larger, target;
    if cibleCount > nocibleCount {
      larger, target := CIBLE, nocibleCount;
    } else {
      larger, target := NOCIBLE, cibleCount;
    }
    var files := shuffled[larger];
    DistinctCount(files);
    var toRemove := files[target..];
    RemoveFiles(disk, larger, toRemove);
    DropTail(files, target);
    assert Larger(old(disk.folders)) == (larger, target);
    removed := |toRemove|;
  }

  // ---------------------------------------------------------------------
  // create_directory_structure

  /** Every split/class directory: train, val and test, each with cible and
      nocible. */
  function SplitDirs(): (dirs: set<(string, string)>)
    ensures |dirs| == |DEST_DIRS| * |SOURCE_DIRS|
  {
    var d := {(TRAIN, CIBLE), (TRAIN, NOCIBLE), (VAL, CIBLE), (VAL, NOCIBLE), (TEST, CIBLE), (TEST, NOCIBLE)};
    assert |d| == 6 by {
      assert d == {(TRAIN, CIBLE)} + {(TRAIN, NOCIBLE)} + {(VAL, CIBLE)} + {(VAL, NOCIBLE)} + {(TEST, CIBLE)} + {(TEST, NOCIBLE)};
    }
    d
  }

  /** The nested loops of `create_directory_structure`; `exist_ok=True`
      makes an existing directory harmless, so a re-run changes nothing. */
  method CreateDirectoryStructure(disk: Disk)
    modifies disk
    ensures disk.dirs == old(disk.dirs) + SplitDirs()
    ensures disk.folders == old(disk.folders) && disk.links == old(disk.links)
  {
    for i := 0 to |DEST_DIRS|
      invariant forall a, b :: 0 <= a < i && 0 <= b < |SOURCE_DIRS| ==> (DEST_DIRS[a], SOURCE_DIRS[b]) in disk.dirs
      invariant old(disk.dirs) <= disk.dirs <= old(disk.dirs) + SplitDirs()
      invariant disk.folders == old(disk.folders) && disk.links == old(disk.links)
    {
      for j := 0 to |SOURCE_DIRS|
        invariant forall a, b :: 0 <= a < i && 0 <= b < |SOURCE_DIRS| ==> (DEST_DIRS[a], SOURCE_DIRS[b]) in disk.dirs
        invariant forall b :: 0 <= b < j ==> (DEST_DIRS[i], SOURCE_DIRS[b]) in disk.dirs
        invariant old(disk.dirs) <= disk.dirs <= old(disk.dirs) + SplitDirs()
        invariant disk.folders == old(disk.folders) && disk.links == old(disk.links)
      {
        disk.dirs := disk.dirs + {(DEST_DIRS[i], SOURCE_DIRS[j])};
      }
    }
    assert (DEST_DIRS[0], SOURCE_DIRS[0]) in disk.dirs && (DEST_DIRS[0], SOURCE_DIRS[1]) in disk.dirs;
    assert (DEST_DIRS[1], SOURCE_DIRS[0]) in disk.dirs && (DEST_DIRS[1], SOURCE_DIRS[1]) in disk.dirs;
    assert (DEST_DIRS[2], SOURCE_DIRS[0]) in disk.dirs && (DEST_DIRS[2], SOURCE_DIRS[1]) in disk.dirs;
  }

  // ---------------------------------------------------------------------
  // split_dataset

  /** The entries after linking `names`, in order, into `split/cls/`: each
      one replaces whatever was at its path. */
  function LinkAll(links: map<LinkPath, FilePath>, split: string, cls: string, names: seq<string>): map<LinkPath, FilePath> {
    if names == [] then links
    else
      var name := names[|names| - 1];
      LinkAll(links, split, cls, names[..|names| - 1])[LinkPath(split, cls, name) := FilePath(cls, name)]
  }

  /** Linking puts exactly the listed names into `split/cls/`, each pointing
      at its own file, and keeps every other entry. */
  lemma {:induction false} LinkAllSpec(links: map<LinkPath, FilePath>, split: string, cls: string, names: seq<string>, k: LinkPath)
    ensures var m := LinkAll(links, split, cls, names);
      var made := k.split == split && k.cls == cls && k.name in names;
      && (k in m <==> k in links || made)
      && (made ==> m[k] == FilePath(cls, k.name))
      && (!made && k in links ==> m[k] == links[k])
  {
    if names != [] {
      var init := names[..|names| - 1];
      LinkAllSpec(links, split, cls, init, k);
      assert names == init + [names[|names| - 1]];
    }
  }

  /** The entries after linking each (split, names) pair in order. */
  function LinkEach(links: map<LinkPath, FilePath>, cls: string, pairs: seq<(string, seq<string>)>): map<LinkPath, FilePath> {
    if pairs == [] then links
    else
      var (split, names) := pairs[|pairs| - 1];
      LinkAll(LinkEach(links, cls, pairs[..|pairs| - 1]), split, cls, names)
  }

  /** `splits.items()` in insertion order. */
  function SplitItems(s: Splits): seq<(string, seq<string>)> {
    [(TRAIN, s.train), (VAL, s.val), (TEST, s.test)]
  }

  /** The links made for class `cls`, or none when its folder is missing. */
  function LinkClass(links: map<LinkPath, FilePath>, folders: map<string, set<string>>,
                     shuffled: map<string, seq<string>>, r: Ratios, cls: string): map<LinkPath, FilePath>
    requires ValidRatios(r) && Listed(folders, shuffled) && (cls == CIBLE || cls == NOCIBLE)
  {
    if cls in folders then LinkEach(links, cls, SplitItems(Slices(shuffled[cls], r))) else links
  }

  /** The links after the first `n` class folders have been processed. */
  function LinkClasses(links: map<LinkPath, FilePath>, folders: map<string, set<string>>,
                       shuffled: map<string, seq<string>>, r: Ratios, n: nat): map<LinkPath, FilePath>
    requires ValidRatios(r) && Listed(folders, shuffled) && n <= |SOURCE_DIRS|
  {
    if n == 0 then links
    else LinkClass(LinkClasses(links, folders, shuffled, r, n - 1), folders, shuffled, r, SOURCE_DIRS[n - 1])
  }

  /** The links `split_dataset` leaves behind. */
  function SplitLinks(links: map<LinkPath, FilePath>, folders: map<string, set<string>>,
                      shuffled: map<string, seq<string>>, r: Ratios): map<LinkPath, FilePath>
    requires ValidRatios(r) && Listed(folders, shuffled)
  {
    LinkClasses(links, folders, shuffled, r, |SOURCE_DIRS|)
  }

  /** Whether `split_dataset` makes a link at `k`: the class folder exists
      and the name is in the slice of its shuffled list that `k.split` names. */
  predicate NewLink(folders: map<string, set<string>>, shuffled: map<string, seq<string>>, r: Ratios, k: LinkPath)
    requires ValidRatios(r) && Listed(folders, shuffled)
  {
    && (k.cls == CIBLE || k.cls == NOCIBLE)
    && k.cls in folders
    && (k.split == TRAIN || k.split == VAL || k.split == TEST)
    && k.name in SliceOf(Slices(shuffled[k.cls], r), k.split)
  }

  /** Linking the three slices of one class in turn. */
  lemma {:induction false} LinkSplitsSpec(links: map<LinkPath, FilePath>, cls: string, s: Splits, k: LinkPath)
    ensures var m := LinkEach(links, cls, SplitItems(s));
      var made := k.cls == cls && (k.split == TRAIN || k.split == VAL || k.split == TEST) && k.name in SliceOf(s, k.split);
      && (k in m <==> k in links || made)
      && (made ==> m[k] == FilePath(cls, k.name))
      && (!made && k in links ==> m[k] == links[k])
  {
    var items := SplitItems(s);
    var m1 := LinkAll(links, TRAIN, cls, s.train);
    var m2 := LinkAll(m1, VAL, cls, s.val);
    assert items[..1] == [(TRAIN, s.train)] && items[..2] == [(TRAIN, s.train), (VAL, s.val)];
    assert LinkEach(links, cls, items[..1]) == m1;
    assert LinkEach(links, cls, items[..2]) == m2;
    LinkAllSpec(links, TRAIN, cls, s.train, k);
    LinkAllSpec(m1, VAL, cls, s.val, k);
    LinkAllSpec(m2, TEST, cls, s.test, k);
  }

  lemma LinkClassSpec(links: map<LinkPath, FilePath>, folders: map<string, set<string>>,
                      shuffled: map<string, seq<string>>, r: Ratios, cls: string, k: LinkPath)
    requires ValidRatios(r) && Listed(folders, shuffled) && (cls == CIBLE || cls == NOCIBLE)
    ensures var m := LinkClass(links, folders, shuffled, r, cls);
      var made := k.cls == cls && NewLink(folders, shuffled, r, k);
      && (k in m <==> k in links || made)
      && (made ==> m[k] == FilePath(cls, k.name))
      && (!made && k in links ==> m[k] == links[k])
  {
    if cls in folders {
      LinkSplitsSpec(links, cls, Slices(shuffled[cls], r), k);
    }
  }

  /** A link is only ever made for a file that is in its class folder. */
  lemma NewLinkNamesAFile(folders: map<string, set<string>>, shuffled: map<string, seq<string>>, r: Ratios, k: LinkPath)
    requires ValidRatios(r) && Listed(folders, shuffled) && NewLink(folders, shuffled, r, k)
    ensures k.name in folders[k.cls]
  {
    var s := Slices(shuffled[k.cls], r);
    assert k.name in s.train + s.val + s.test;
    assert k.name in shuffled[k.cls];
    assert k.name in Elems(shuffled[k.cls]);
  }

  /** What `split_dataset` does to the entries of the split directories: a
      link for each file of each existing class folder, placed by its slice,
      pointing at that file; every other entry, including a stale link left
      in another split by an earlier run, is kept. */
  lemma SplitLinksSpec(links: map<LinkPath, FilePath>, folders: map<string, set<string>>,
                       shuffled: map<string, seq<string>>, r: Ratios, k: LinkPath)
    requires ValidRatios(r) && Listed(folders, shuffled)
    ensures var m := SplitLinks(links, folders, shuffled, r);
      var made := NewLink(folders, shuffled, r, k);
      && (k in m <==> k in links || made)
      && (made ==> m[k] == FilePath(k.cls, k.name) && k.name in folders[k.cls])
      && (!made && k in links ==> m[k] == links[k])
  {
    var m1 := LinkClass(links, folders, shuffled, r, CIBLE);
    assert LinkClasses(links, folders, shuffled, r, 1) == m1;
    assert SplitLinks(links, folders, shuffled, r) == LinkClass(m1, folders, shuffled, r, NOCIBLE);
    LinkClassSpec(links, folders, shuffled, r, CIBLE, k);
    LinkClassSpec(m1, folders, shuffled, r, NOCIBLE, k);
    if NewLink(folders, shuffled, r, k) {
      NewLinkNamesAFile(folders, shuffled, r, k);
    }
  }

  /** Every file of an existing class folder is linked into exactly one of
      train, val and test. */
  lemma EveryFileInExactlyOneSplit(links: map<LinkPath, FilePath>, folders: map<string, set<string>>,
                                   shuffled: map<string, seq<string>>, r: Ratios, cls: string, name: string)
    requires ValidRatios(r) && Listed(folders, shuffled)
    requires (cls == CIBLE || cls == NOCIBLE) && cls in folders && name in folders[cls]
    ensures var t, v, e := NewLink(folders, shuffled, r, LinkPath(TRAIN, cls, name)),
                           NewLink(folders, shuffled, r, LinkPath(VAL, cls, name)),
                           NewLink(folders, shuffled, r, LinkPath(TEST, cls, name));
      (t || v || e) && !(t && v) && !(t && e) && !(v && e)
    ensures var m := SplitLinks(links, folders, shuffled, r);
      forall split :: split in DEST_DIRS && NewLink(folders, shuffled, r, LinkPath(split, cls, name)) ==>
        LinkPath(split, cls, name) in m && m[LinkPath(split, cls, name)] == FilePath(cls, name)
  {
    assert name in Elems(shuffled[cls]);
    SlicesPartition(shuffled[cls], r, name);
    var m := SplitLinks(links, folders, shuffled, r);
    forall split | split in DEST_DIRS && NewLink(folders, shuffled, r, LinkPath(split, cls, name))
      ensures LinkPath(split, cls, name) in m && m[LinkPath(split, cls, name)] == FilePath(cls, name)
    {
      SplitLinksSpec(links, folders, shuffled, r, LinkPath(split, cls, name));
    }
  }

  /** Running the split a second time over the same shuffled lists changes
      nothing: each link is replaced by an identical one. */
  lemma SplitIsIdempotent(links: map<LinkPath, FilePath>, folders: map<string, set<string>>,
                          shuffled: map<string, seq<string>>, r: Ratios)
    requires ValidRatios(r) && Listed(folders, shuffled)
    ensures var once := SplitLinks(links, folders, shuffled, r);
      SplitLinks(once, folders, shuffled, r) == once
  {
    var once := SplitLinks(links, folders, shuffled, r);
    var twice := SplitLinks(once, folders, shuffled, r);
    forall k
      ensures (k in twice <==> k in once) && (k in once ==> twice[k] == once[k])
    {
      SplitLinksSpec(links, folders, shuffled, r, k);
      SplitLinksSpec(once, folders, shuffled, r, k);
    }
  }

  /** The innermost loop of `split_dataset`: for each name, remove whatever
      is at `split/cls/name`, then create the link. The directory must exist,
      or creating the link fails. */
  method LinkFiles(disk: Disk, split: string, cls: string, names: seq<string>)
    requires (split, cls) in disk.dirs
    modifies disk
    ensures disk.links == LinkAll(old(disk.links), split, cls, names)
    ensures disk.folders == old(disk.folders) && disk.dirs == old(disk.dirs)
  {
    for j := 0 to |names|
      invariant disk.links == LinkAll(old(disk.links), split, cls, names[..j])
      invariant disk.folders == old(disk.folders) && disk.dirs == old(disk.dirs)
    {
      var dst := LinkPath(split, cls, names[j]);
      if dst in disk.links {
        disk.links := disk.links - {dst};
      }
      disk.links := disk.links[dst := FilePath(cls, names[j])];
      assert names[..j + 1][..j] == names[..j];
    }
    assert names[..|names|] == names;
  }

  /** The body of `split_dataset` for one existing class folder: cut its
      shuffled list at `train_end` and `val_end` and link the train, val and
      test slices in that order. */
  method SplitClass(disk: Disk, r: Ratios, cls: string, files: seq<string>)
    requires ValidRatios(r)
    requires (TRAIN, cls) in disk.dirs && (VAL, cls) in disk.dirs && (TEST, cls) in disk.dirs
    modifies disk
    ensures disk.links == LinkEach(old(disk.links), cls, SplitItems(Slices(files, r)))
    ensures disk.folders == old(disk.folders) && disk.dirs == old(disk.dirs)
  {
    var total := |files|;
    var trainEnd := total * r.train / 100;
    var valEnd := trainEnd + total * r.val / 100;
    PortionsFit(total, r.train, r.val);
    var splits := [(TRAIN, files[..trainEnd]), (VAL, files[trainEnd..valEnd]), (TEST, files[valEnd..])];
    assert splits == SplitItems(Slices(files, r));
    for k := 0 to |splits|
      invariant disk.links == LinkEach(old(disk.links), cls, splits[..k])
      invariant disk.folders == old(disk.folders) && disk.dirs == old(disk.dirs)
    {
      var (split, names) := splits[k];
      LinkFiles(disk, split, cls, names);
      assert splits[..k + 1][..k] == splits[..k];
    }
    assert splits[..|splits|] == splits;
  }

  /** `split_dataset`: each class folder that exists is split and linked; a
      missing folder is skipped. */
  method SplitDataset(disk: Disk, r: Ratios, shuffled: map<string, seq<string>>)
    requires ValidRatios(r) && Listed(disk.folders, shuffled)
    requires SplitDirs() <= disk.dirs
    modifies disk
    ensures disk.links == SplitLinks(old(disk.links), old(disk.folders), shuffled, r)
    ensures disk.folders == old(disk.folders) && disk.dirs == old(disk.dirs)
  {
    for ci := 0 to |SOURCE_DIRS|
      invariant disk.links == LinkClasses(old(disk.links), old(disk.folders), shuffled, r, ci)
      invariant disk.folders == old(disk.folders) && disk.dirs == old(disk.dirs)
    {
      var cls := SOURCE_DIRS[ci];
      if cls !in disk.folders {
        continue;
      }
      assert (TRAIN, cls) in SplitDirs() && (VAL, cls) in SplitDirs() && (TEST, cls) in SplitDirs();
      SplitClass(disk, r, cls, shuffled[cls]);
    }
  }

  // ---------------------------------------------------------------------
  // The two scripts

  /** After balancing, two existing class folders are cut into slices of the
      same sizes, so every split holds as many cible as nocible files. */
  lemma BalancedClassesSplitAlike(folders: map<string, set<string>>, before: map<string, seq<string>>,
                                  after: map<string, seq<string>>, r: Ratios)
    requires Listed(folders, before) && CIBLE in folders && NOCIBLE in folders
    requires ValidRatios(r) && Listed(Balanced(folders, before), after)
    ensures var c, n := Slices(after[CIBLE], r), Slices(after[NOCIBLE], r);
      |c.train| == |n.train| && |c.val| == |n.val| && |c.test| == |n.test|
  {
    var b := Balanced(folders, before);
    BalanceEqualizes(folders, before);
    DistinctCount(after[CIBLE]);
    DistinctCount(after[NOCIBLE]);
  }

  /** The script that balances first: `balance_data`, then
      `create_directory_structure`, then `split_dataset` with 80/20/0 over a
      fresh shuffled listing of the balanced folders. */
  method PrepareBalancedDataset(disk: Disk, before: map<string, seq<string>>, after: map<string, seq<string>>)
    requires Listed(disk.folders, before)
    requires Listed(Balanced(disk.folders, before), after)
    modifies disk
    ensures disk.folders == Balanced(old(disk.folders), before)
    ensures disk.dirs == old(disk.dirs) + SplitDirs()
    ensures disk.links == SplitLinks(old(disk.links), disk.folders, after, BALANCED_RATIOS)
  {
    var _ := Balance(disk, before);
    CreateDirectoryStructure(disk);
    SplitDataset(disk, BALANCED_RATIOS, after);
  }

  /** The script that does not balance: `create_directory_structure`, then
      `split_dataset` with 70/15/15. */
  method PrepareDataset(disk: Disk, shuffled: map<string, seq<string>>)
    requires Listed(disk.folders, shuffled)
    modifies disk
    ensures disk.folders == old(disk.folders)
    ensures disk.dirs == old(disk.dirs) + SplitDirs()
    ensures disk.links == SplitLinks(old(disk.links), disk.folders, shuffled, DEFAULT_RATIOS)
  {
    CreateDirectoryStructure(disk);
    SplitDataset(disk, DEFAULT_RATIOS, shuffled);
  }
}
