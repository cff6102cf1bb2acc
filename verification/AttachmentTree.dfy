/**
  The directory listing that the console derives from a flat catalog of object keys
  (internal/console/chat_attachment_tree.go, internal/artifacts/config.go). A key is handled as text, as the
  code does it; the contracts speak of its components.
*/
module AttachmentTree {
  import opened Text
  import opened Sorting

  datatype Info = Info(size: int, modifiedAt: string)

  datatype CatalogEntry = CatalogEntry(relativeKey: string, info: Info)

  datatype TreeEntry = Directory(name: string, path: string) | File(name: string, path: string, info: Info)

  // ----- keys and their components

  function Components(s: string): (cs: seq<string>)
    ensures cs != [] && forall i :: 0 <= i < |cs| ==> '/' !in cs[i]
    decreases |s|
  {
    var i := IndexOf(s, '/');
    if i == |s| then assert s[..i] == s; [s] else [s[..i]] + Components(s[i + 1..])
  }

  function Join(cs: seq<string>): string
  {
    if cs == [] then "" else if |cs| == 1 then cs[0] else cs[0] + "/" + Join(cs[1..])
  }

  /** Resolving components onto a rooted path: empty and "." components go, ".." removes the one before. */
  function Resolve(stack: seq<string>, cs: seq<string>): seq<string>
    decreases |cs|
  {
    if cs == [] then stack
    else if cs[0] == "" || cs[0] == "." then Resolve(stack, cs[1..])
    else if cs[0] == ".." then Resolve(if stack == [] then [] else stack[..|stack| - 1], cs[1..])
    else Resolve(stack + [cs[0]], cs[1..])
  }

  /** The components of a key after `NormalizeObjectKey`. */
  function Key(value: string): seq<string>
  {
    Resolve([], Components(TrimSpace(value)))
  }

  function NormalizeObjectKey(value: string): string
  {
    Join(Key(value))
  }

  predicate IsName(c: string)
  {
    c != "" && c != "." && c != ".." && '/' !in c
  }

  ghost predicate AllNames(cs: seq<string>)
  {
    forall i :: 0 <= i < |cs| ==> IsName(cs[i])
  }

  lemma {:induction false} ResolveGivesNames(stack: seq<string>, cs: seq<string>)
    requires AllNames(stack) && forall i :: 0 <= i < |cs| ==> '/' !in cs[i]
    ensures AllNames(Resolve(stack, cs))
    decreases |cs|
  {
    if cs != [] {
      var next := if cs[0] == "" || cs[0] == "." then stack
                  else if cs[0] == ".." then (if stack == [] then [] else stack[..|stack| - 1])
                  else stack + [cs[0]];
      ResolveGivesNames(next, cs[1..]);
    }
  }

  lemma KeyHasNames(value: string)
    ensures AllNames(Key(value))
  {
    ResolveGivesNames([], Components(TrimSpace(value)));
  }

  lemma {:induction false} ResolveNames(stack: seq<string>, cs: seq<string>)
    requires AllNames(cs)
    ensures Resolve(stack, cs) == stack + cs
    decreases |cs|
  {
    if cs == [] {
      assert stack + cs == stack;
    } else {
      ResolveNames(stack + [cs[0]], cs[1..]);
      assert stack + [cs[0]] + cs[1..] == stack + cs;
    }
  }

  // What resolving does with the components that are no names: "" and "." change nothing, ".." takes the name
  // before it away, and at the root nothing. Names stay (ResolveNames).

  lemma {:induction false} ResolveSplit(stack: seq<string>, a: seq<string>, b: seq<string>)
    ensures Resolve(stack, a + b) == Resolve(Resolve(stack, a), b)
    decreases |a|
  {
    if a == [] {
      assert a + b == b;
    } else {
      assert (a + b)[0] == a[0] && (a + b)[1..] == a[1..] + b;
      ResolveSplit(if a[0] == "" || a[0] == "." then stack
                   else if a[0] == ".." then (if stack == [] then [] else stack[..|stack| - 1])
                   else stack + [a[0]], a[1..], b);
    }
  }

  lemma DotsResolve(stack: seq<string>, before: seq<string>, after: seq<string>, name: string)
    requires IsName(name)
    ensures Resolve(stack, before + ["."] + after) == Resolve(stack, before + after)
    ensures Resolve(stack, before + [""] + after) == Resolve(stack, before + after)
    ensures Resolve(stack, before + [name, ".."] + after) == Resolve(stack, before + after)
    ensures Resolve([], [".."] + after) == Resolve([], after)
  {
    var reached := Resolve(stack, before);
    Associate(before, ["."], after);
    Associate(before, [""], after);
    Associate(before, [name, ".."], after);
    ResolveSplit(stack, before, ["."] + after);
    ResolveSplit(stack, before, [""] + after);
    ResolveSplit(stack, before, [name, ".."] + after);
    ResolveSplit(stack, before, after);
    assert (["."] + after)[1..] == after && ([""] + after)[1..] == after && ([".."] + after)[1..] == after;
    assert ([name, ".."] + after)[1..] == [".."] + after;
    assert (reached + [name])[..|reached|] == reached;
  }

  lemma JoinIsEmpty(cs: seq<string>)
    requires AllNames(cs)
    ensures Join(cs) == "" <==> cs == []
  {
  }

  /** The first component of a joined key is what precedes the first slash. */
  lemma FirstSlash(cs: seq<string>)
    requires AllNames(cs) && cs != []
    ensures var s, i := Join(cs), |cs[0]|;
            && IndexOf(s, '/') == i && i <= |s| && s[..i] == cs[0]
            && (|cs| == 1 ==> i == |s|)
            && (|cs| > 1 ==> i < |s| && s[i + 1..] == Join(cs[1..]) && s[i + 1..] != "")
  {
    var rest := if |cs| == 1 then "" else "/" + Join(cs[1..]);
    assert Join(cs) == cs[0] + rest;
    IndexOfAfter(cs[0], '/', rest);
    assert (cs[0] + rest)[..|cs[0]|] == cs[0];
    if |cs| > 1 {
      assert (cs[0] + rest)[|cs[0]| + 1..] == Join(cs[1..]);
      JoinIsEmpty(cs[1..]);
    }
  }

  lemma ComponentsCons(c: string, rest: string)
    requires '/' !in c
    ensures Components(c + ("/" + rest)) == [c] + Components(rest)
  {
    var s := c + ("/" + rest);
    IndexOfAfter(c, '/', "/" + rest);
    assert s[..|c|] == c && s[|c| + 1..] == rest;
  }

  lemma {:induction false} ComponentsOfJoin(cs: seq<string>)
    requires AllNames(cs) && cs != []
    ensures Components(Join(cs)) == cs
  {
    FirstSlash(cs);
    if |cs| > 1 {
      ComponentsOfJoin(cs[1..]);
      ComponentsCons(cs[0], Join(cs[1..]));
      Associate(cs[0], "/", Join(cs[1..]));
      assert cs == [cs[0]] + cs[1..];
    }
  }

  lemma {:induction false} JoinAppend(a: seq<string>, b: seq<string>)
    requires a != [] && b != []
    ensures Join(a + b) == Join(a) + "/" + Join(b)
  {
    assert a + b == [a[0]] + (a[1..] + b);
    if |a| > 1 {
      JoinAppend(a[1..], b);
      Associate(a[0] + "/", Join(a[1..]) + "/", Join(b));
      Associate(a[0] + "/", Join(a[1..]), "/");
    } else {
      assert a[1..] + b == b;
    }
  }

  // ----- one key seen from a directory

  ghost predicate Below(base: seq<string>, key: seq<string>)
  {
    |key| > |base| && key[..|base|] == base
  }

  function Prefix(base: seq<string>): string
  {
    if Join(base) != "" then Join(base) + "/" else ""
  }

  lemma PrefixSplit(base: seq<string>)
    requires AllNames(base) && base != []
    ensures Prefix(base) == base[0] + ("/" + Prefix(base[1..]))
  {
    JoinIsEmpty(base);
    JoinIsEmpty(base[1..]);
    if |base| > 1 {
      Associate(base[0] + "/", Join(base[1..]), "/");
      Associate(base[0], "/", Prefix(base[1..]));
    }
  }

  lemma BelowHasPrefix(base: seq<string>, key: seq<string>)
    requires AllNames(base) && Below(base, key)
    ensures Join(key) == Prefix(base) + Join(key[|base|..])
  {
    JoinIsEmpty(base);
    if base == [] {
      assert key[0..] == key;
    } else {
      assert key == base + key[|base|..];
      JoinAppend(base, key[|base|..]);
    }
  }

  lemma FirstOfPrefix(base: seq<string>, text: string)
    requires AllNames(base) && base != [] && Prefix(base) <= text
    ensures text == base[0] + ("/" + (Prefix(base[1..]) + text[|Prefix(base)|..]))
  {
    var n, more, rest := base[0], Prefix(base[1..]), text[|Prefix(base)|..];
    PrefixSplit(base);
    assert text == Prefix(base) + rest;
    Associate(n, "/" + more, rest);
    Associate("/", more, rest);
  }

  lemma {:induction false} PrefixGivesBelow(base: seq<string>, key: seq<string>)
    requires AllNames(base) && AllNames(key) && key != [] && Prefix(base) <= Join(key)
    ensures Below(base, key)
    decreases |base|
  {
    if base != [] {
      var more, rest := Prefix(base[1..]), Join(key)[|Prefix(base)|..];
      FirstOfPrefix(base, Join(key));
      FirstNameIs(key, base[0], more + rest);
      PrefixGivesBelow(base[1..], key[1..]);
      assert base == [base[0]] + base[1..] && key == [base[0]] + key[1..];
    }
  }

  /** What precedes the first slash is the first component, and what follows it the others. */
  lemma FirstNameIs(key: seq<string>, n: string, rest: string)
    requires AllNames(key) && key != [] && '/' !in n && Join(key) == n + ("/" + rest)
    ensures key[0] == n && |key| > 1 && Join(key[1..]) == rest
  {
    IndexOfAfter(n, '/', "/" + rest);
    FirstSlash(key);
    assert Join(key)[..|n|] == n && Join(key)[|n| + 1..] == rest;
  }

  /** A key is below a directory exactly when its text starts with that of the directory and a slash; what
      follows is the text of the remaining components. */
  lemma PrefixIsBelow(base: seq<string>, key: seq<string>)
    requires AllNames(base) && AllNames(key) && key != []
    ensures Prefix(base) <= Join(key) <==> Below(base, key)
    ensures Below(base, key) ==> Join(key) == Prefix(base) + Join(key[|base|..])
  {
    if Below(base, key) { BelowHasPrefix(base, key); }
    if Prefix(base) <= Join(key) { PrefixGivesBelow(base, key); }
  }

  // ----- what a listing shows

  function FileOf(entry: CatalogEntry): TreeEntry
    requires Key(entry.relativeKey) != []
  {
    var key := Key(entry.relativeKey);
    File(Last(key), Join(key), entry.info)
  }

  function DirectoryAt(base: seq<string>, name: string): TreeEntry
  {
    Directory(name, Join(base + [name]))
  }

  /** The files of the entries whose keys satisfy a predicate, in catalog order. */
  ghost function Select(catalog: seq<CatalogEntry>, wanted: seq<string> -> bool): seq<TreeEntry>
  {
    if catalog == [] then []
    else
      var front, key := Select(Init(catalog), wanted), Key(Last(catalog).relativeKey);
      if key != [] && wanted(key) then front + [FileOf(Last(catalog))] else front
  }

  ghost function Here(base: seq<string>): seq<string> -> bool
  {
    key => Below(base, key) && |key| == |base| + 1
  }

  ghost function Under(base: seq<string>): seq<string> -> bool
  {
    key => Below(base, key)
  }

  function KeyAt(catalog: seq<CatalogEntry>, i: nat): seq<string>
    requires i < |catalog|
  {
    Key(catalog[i].relativeKey)
  }

  /** The names of the directories in `base`: those with something in them. */
  ghost function DirNames(catalog: seq<CatalogEntry>, base: seq<string>): set<string>
  {
    set i | 0 <= i < |catalog| && Below(base, KeyAt(catalog, i)) && |KeyAt(catalog, i)| > |base| + 1
      :: KeyAt(catalog, i)[|base|]
  }

  predicate EntryLess(l: TreeEntry, r: TreeEntry)
  {
    if ToLower(l.name) == ToLower(r.name) then StringLess(l.path, r.path)
    else StringLess(ToLower(l.name), ToLower(r.name))
  }

  const EntryOrder: Less<TreeEntry> := (l, r) => EntryLess(l, r)

  ghost predicate AreDirectories(base: seq<string>, names: set<string>, dirs: seq<TreeEntry>)
  {
    && (forall i :: 0 <= i < |dirs| ==>
          dirs[i].Directory? && dirs[i].name in names && dirs[i] == DirectoryAt(base, dirs[i].name))
    && (forall i, j :: 0 <= i < j < |dirs| ==> dirs[i].name != dirs[j].name)
    && (forall n :: n in names ==> DirectoryAt(base, n) in dirs)
  }

  /** The listing of a directory: one entry for each directory in it, then one for each occurrence of a key
      directly in it, both in order. */
  ghost predicate IsListing(catalog: seq<CatalogEntry>, base: seq<string>, dirs: seq<TreeEntry>, files: seq<TreeEntry>)
  {
    && AreDirectories(base, DirNames(catalog, base), dirs) && SortedBy(EntryOrder, dirs)
    && multiset(files) == multiset(Select(catalog, Here(base))) && SortedBy(EntryOrder, files)
  }

  lemma EntriesAreOrdered(s: seq<TreeEntry>)
    ensures OrdersWeakly(EntryOrder, s)
  {
    forall x: string, y: string { StringLessIsTotal(x, y); }
    forall x: string, y: string, z: string | StringLess(x, y) && StringLess(y, z) ensures StringLess(x, z) {
      StringLessIsTransitive(x, y, z);
    }
  }

  /** Which directories a listing has: one for each name that some key goes on after. */
  lemma DirectoryIsListedIff(catalog: seq<CatalogEntry>, base: seq<string>, dirs: seq<TreeEntry>,
                             files: seq<TreeEntry>, x: TreeEntry)
    requires IsListing(catalog, base, dirs, files)
    ensures x in dirs <==>
              && x.Directory? && x.path == Join(base + [x.name])
              && exists i :: 0 <= i < |catalog| && |KeyAt(catalog, i)| > |base| + 1
                             && KeyAt(catalog, i)[..|base|] == base && KeyAt(catalog, i)[|base|] == x.name
  {
    if x in dirs {
      var i :| 0 <= i < |dirs| && dirs[i] == x;
    }
    if x.Directory? && x.path == Join(base + [x.name]) && x.name in DirNames(catalog, base) {
      assert x == DirectoryAt(base, x.name);
    }
  }

  /** And which files: one for each key directly in the base, under its last name and its whole path, with the
      data of its entry. */
  lemma FileIsListedIff(catalog: seq<CatalogEntry>, base: seq<string>, dirs: seq<TreeEntry>,
                        files: seq<TreeEntry>, x: TreeEntry)
    requires IsListing(catalog, base, dirs, files)
    ensures x in files <==>
              x.File? && exists i :: (&& 0 <= i < |catalog| && KeyAt(catalog, i) == base + [x.name]
                                      && x == File(x.name, Join(base + [x.name]), catalog[i].info))
  {
    assert x in files <==> x in multiset(files);
    assert x in Select(catalog, Here(base)) <==> x in multiset(Select(catalog, Here(base)));
    SelectedFrom(catalog, Here(base), x);
    if x in files {
      var i :| 0 <= i < |catalog| && KeyAt(catalog, i) != [] && Here(base)(KeyAt(catalog, i))
               && x == FileOf(catalog[i]);
      OneNameMore(base, KeyAt(catalog, i));
      assert KeyAt(catalog, i) == KeyAt(catalog, i)[..|base| + 1];
    }
    if x.File? {
      if i :| 0 <= i < |catalog| && KeyAt(catalog, i) == base + [x.name]
              && x == File(x.name, Join(base + [x.name]), catalog[i].info) {
        assert Here(base)(KeyAt(catalog, i)) && x == FileOf(catalog[i]);
      }
    }
  }

  /** How a listing is ordered: by name, upper and lower case alike, and entries with equal names by path. */
  lemma ListingIsOrdered(catalog: seq<CatalogEntry>, base: seq<string>, dirs: seq<TreeEntry>, files: seq<TreeEntry>,
                         entries: seq<TreeEntry>, i: nat, j: nat)
    requires IsListing(catalog, base, dirs, files) && (entries == dirs || entries == files) && i < j < |entries|
    ensures var l, r := entries[i], entries[j];
            || (exists k: nat :: LessAt(ToLower(l.name), ToLower(r.name), k))
            || (ToLower(l.name) == ToLower(r.name)
                && (l.path == r.path || exists k: nat :: LessAt(l.path, r.path, k)))
  {
    var l, r := entries[i], entries[j];
    assert !EntryOrder(r, l);
    StringLessIsTotal(ToLower(l.name), ToLower(r.name));
    StringLessIsTotal(l.path, r.path);
    StringLessIff(ToLower(l.name), ToLower(r.name));
    StringLessIff(l.path, r.path);
  }

  // ----- the listing

  /** The map holds one directory for each of the names, under its path. */
  ghost predicate Holds(base: seq<string>, names: set<string>, directories: map<string, TreeEntry>)
  {
    && (forall p :: p in directories ==>
          && directories[p].Directory? && directories[p].path == p
          && directories[p].name in names && directories[p] == DirectoryAt(base, directories[p].name))
    && (forall n :: n in names ==> Join(base + [n]) in directories)
  }

  lemma HoldOneMore(base: seq<string>, names: set<string>, directories: map<string, TreeEntry>, name: string)
    requires Holds(base, names, directories)
    ensures var path := Join(base + [name]);
            Holds(base, names + {name},
                  if path in directories then directories else directories[path := Directory(name, path)])
  {
  }

  /** What the loop has gathered from a part of the catalog. */
  ghost predicate Gathered(catalog: seq<CatalogEntry>, base: seq<string>,
                           directories: map<string, TreeEntry>, files: seq<TreeEntry>)
  {
    files == Select(catalog, Here(base)) && Holds(base, DirNames(catalog, base), directories)
  }

  lemma DirNamesSnoc(catalog: seq<CatalogEntry>, entry: CatalogEntry, base: seq<string>)
    ensures var key := Key(entry.relativeKey);
            DirNames(catalog + [entry], base) ==
            DirNames(catalog, base) + if Below(base, key) && |key| > |base| + 1 then {key[|base|]} else {}
  {
    var more := catalog + [entry];
    assert forall i :: 0 <= i < |catalog| ==> KeyAt(more, i) == KeyAt(catalog, i);
    assert KeyAt(more, |catalog|) == Key(entry.relativeKey);
  }

  lemma SelectSnoc(catalog: seq<CatalogEntry>, entry: CatalogEntry, wanted: seq<string> -> bool)
    ensures var key := Key(entry.relativeKey);
            Select(catalog + [entry], wanted) ==
            Select(catalog, wanted) + if key != [] && wanted(key) then [FileOf(entry)] else []
  {
    assert Init(catalog + [entry]) == catalog && Last(catalog + [entry]) == entry;
  }

  /** The text that follows the prefix of a directory is a name and a tail; the tail is empty for a file. */
  lemma ChildOfKey(base: seq<string>, key: seq<string>, child: string)
    requires AllNames(base) && AllNames(key) && Below(base, key) && child == Join(key[|base|..])
    ensures var index := IndexOf(child, '/');
            && child != "" && child[..index] == key[|base|]
            && (index < |child| && child[index + 1..] != "" <==> |key| > |base| + 1)
    ensures (if Join(base) != "" then Join(base) + "/" + key[|base|] else key[|base|]) == Join(base + [key[|base|]])
  {
    FirstSlash(key[|base|..]);
    JoinIsEmpty(key[|base|..]);
    JoinIsEmpty(base);
    assert Join([key[|base|]]) == key[|base|];
    if base != [] { JoinAppend(base, [key[|base|]]); } else { assert base + [key[|base|]] == [key[|base|]]; }
  }

  lemma FileHere(entry: CatalogEntry, base: seq<string>)
    requires Below(base, Key(entry.relativeKey)) && |Key(entry.relativeKey)| == |base| + 1
    ensures var name := Key(entry.relativeKey)[|base|];
            FileOf(entry) == File(name, Join(base + [name]), entry.info)
  {
    var key := Key(entry.relativeKey);
    assert key == key[..|base|] + [key[|base|]];
  }

  lemma SeenHere(done: seq<CatalogEntry>, entry: CatalogEntry, base: seq<string>, files: seq<TreeEntry>)
    requires files == Select(done, Here(base))
    ensures var key := Key(entry.relativeKey);
            Select(done + [entry], Here(base)) ==
            if Below(base, key) && |key| == |base| + 1
            then files + [File(key[|base|], Join(base + [key[|base|]]), entry.info)]
            else files
  {
    SelectSnoc(done, entry, Here(base));
    assert files + [] == files;
    var key := Key(entry.relativeKey);
    if Below(base, key) && |key| == |base| + 1 { FileHere(entry, base); }
  }

  lemma GatherDirectory(done: seq<CatalogEntry>, entry: CatalogEntry, base: seq<string>,
                        directories: map<string, TreeEntry>, files: seq<TreeEntry>)
    requires Gathered(done, base, directories, files)
    requires Below(base, Key(entry.relativeKey)) && |Key(entry.relativeKey)| > |base| + 1
    ensures var name := Key(entry.relativeKey)[|base|];
            var path := Join(base + [name]);
            Gathered(done + [entry], base,
                     if path in directories then directories else directories[path := Directory(name, path)], files)
  {
    DirNamesSnoc(done, entry, base);
    SeenHere(done, entry, base, files);
    HoldOneMore(base, DirNames(done, base), directories, Key(entry.relativeKey)[|base|]);
  }

  lemma GatherFile(done: seq<CatalogEntry>, entry: CatalogEntry, base: seq<string>,
                   directories: map<string, TreeEntry>, files: seq<TreeEntry>)
    requires Gathered(done, base, directories, files)
    requires Below(base, Key(entry.relativeKey)) && |Key(entry.relativeKey)| == |base| + 1
    ensures var name := Key(entry.relativeKey)[|base|];
            Gathered(done + [entry], base, directories, files + [File(name, Join(base + [name]), entry.info)])
  {
    DirNamesSnoc(done, entry, base);
    SeenHere(done, entry, base, files);
    assert DirNames(done, base) + {} == DirNames(done, base);
  }

  lemma GatherNothing(done: seq<CatalogEntry>, entry: CatalogEntry, base: seq<string>,
                      directories: map<string, TreeEntry>, files: seq<TreeEntry>)
    requires Gathered(done, base, directories, files) && !Below(base, Key(entry.relativeKey))
    ensures Gathered(done + [entry], base, directories, files)
  {
    DirNamesSnoc(done, entry, base);
    SeenHere(done, entry, base, files);
    assert DirNames(done, base) + {} == DirNames(done, base);
  }

  method TreeEntries(catalog: seq<CatalogEntry>, relativePath: string) returns (entries: seq<TreeEntry>, d: nat)
    ensures d <= |entries| && IsListing(catalog, Key(relativePath), entries[..d], entries[d..])
  {
    ghost var base := Key(relativePath);
    KeyHasNames(relativePath);
    var basePath := NormalizeObjectKey(relativePath);
    var prefix := "";
    if basePath != "" {
      prefix := basePath + "/";
    }
    var directories: map<string, TreeEntry> := map[];
    var files: seq<TreeEntry> := [];
    for i := 0 to |catalog|
      invariant Gathered(catalog[..i], base, directories, files)
    {
      var entry := catalog[i];
      directories, files := AddEntry(catalog[..i], entry, basePath, prefix, base, directories, files);
      assert catalog[..i + 1] == catalog[..i] + [entry];
    }
    assert catalog[..|catalog|] == catalog;
    var list := MapValues(base, DirNames(catalog, base), directories);
    ghost var names := DirNames(catalog, base);
    SortDirectories(base, names, list);
    EntriesAreOrdered(files);
    SortSorts(EntryOrder, files);
    var sorted, sortedFiles := Sort(EntryOrder, list), Sort(EntryOrder, files);
    entries, d := sorted + sortedFiles, |sorted|;
    assert entries[..d] == sorted && entries[d..] == sortedFiles;
  }

  /** The body of the loop over the catalog. */
  method AddEntry(ghost done: seq<CatalogEntry>, entry: CatalogEntry, basePath: string, prefix: string,
                  ghost base: seq<string>, directories: map<string, TreeEntry>, files: seq<TreeEntry>)
    returns (newDirectories: map<string, TreeEntry>, newFiles: seq<TreeEntry>)
    requires AllNames(base) && basePath == Join(base) && prefix == Prefix(base)
    requires Gathered(done, base, directories, files)
    ensures Gathered(done + [entry], base, newDirectories, newFiles)
  {
    newDirectories, newFiles := directories, files;
    ghost var components := Key(entry.relativeKey);
    KeyHasNames(entry.relativeKey);
    var key := NormalizeObjectKey(entry.relativeKey);
    JoinIsEmpty(components);
    if key == "" {
      GatherNothing(done, entry, base, directories, files);
      return;
    }
    PrefixIsBelow(base, components);
    var child := key;
    if prefix != "" {
      if !(prefix <= key) {
        GatherNothing(done, entry, base, directories, files);
        return;
      }
      child := key[|prefix|..];
    }
    ChildOfKey(base, components, child);
    if child == "" {
      return;
    }
    var index := IndexOf(child, '/');
    var name, tail := child[..index], if index < |child| then child[index + 1..] else "";
    var entryPath := if basePath != "" then basePath + "/" + name else name;
    if tail != "" {
      GatherDirectory(done, entry, base, directories, files);
      if entryPath !in directories {
        newDirectories := directories[entryPath := Directory(name, entryPath)];
      }
      return;
    }
    GatherFile(done, entry, base, directories, files);
    newFiles := files + [File(name, entryPath, entry.info)];
  }

  /** The values of the map, in any order. */
  method MapValues(ghost base: seq<string>, ghost names: set<string>, directories: map<string, TreeEntry>)
    returns (list: seq<TreeEntry>)
    requires Holds(base, names, directories)
    ensures AreDirectories(base, names, list)
  {
    list := [];
    var left := directories.Keys;
    while left != {}
      invariant left <= directories.Keys
      invariant forall i :: 0 <= i < |list| ==>
                  list[i].path in directories && list[i].path !in left && list[i] == directories[list[i].path]
      invariant forall i, j :: 0 <= i < j < |list| ==> list[i].path != list[j].path
      invariant forall p :: p in directories && p !in left ==> directories[p] in list
      decreases |left|
    {
      var p :| p in left;
      list := list + [directories[p]];
      left := left - {p};
    }
    forall n | n in names ensures DirectoryAt(base, n) in list {
      var p := Join(base + [n]);
      SameNameByPath(base, n, directories[p].name);
    }
  }

  lemma SameNameByPath(base: seq<string>, a: string, b: string)
    requires Join(base + [a]) == Join(base + [b])
    ensures a == b
  {
    if base == [] {
      assert base + [a] == [a] && base + [b] == [b];
    } else {
      JoinAppend(base, [a]);
      JoinAppend(base, [b]);
      var front := Join(base) + "/";
      assert (front + a)[|front|..] == a && (front + b)[|front|..] == b;
    }
  }

  lemma SortDirectories(base: seq<string>, names: set<string>, list: seq<TreeEntry>)
    requires AreDirectories(base, names, list)
    ensures var sorted := Sort(EntryOrder, list);
            AreDirectories(base, names, sorted) && SortedBy(EntryOrder, sorted)
  {
    EntriesAreOrdered(list);
    SortSorts(EntryOrder, list);
    PermuteDirectories(base, names, list, Sort(EntryOrder, list));
  }

  lemma PermuteDirectories(base: seq<string>, names: set<string>, list: seq<TreeEntry>, other: seq<TreeEntry>)
    requires AreDirectories(base, names, list) && multiset(other) == multiset(list)
    ensures AreDirectories(base, names, other)
  {
    forall i | 0 <= i < |other| ensures other[i] in list { SameElements(other, list, other[i]); }
    DistinctStays(list, other);
    forall n | n in names ensures DirectoryAt(base, n) in other { SameElements(other, list, DirectoryAt(base, n)); }
  }

  /** A listing leaves no choice, except for the order of files that have the same key. */
  lemma ListingIsDetermined(catalog: seq<CatalogEntry>, base: seq<string>, dirs: seq<TreeEntry>, files: seq<TreeEntry>,
                            dirs': seq<TreeEntry>, files': seq<TreeEntry>)
    requires IsListing(catalog, base, dirs, files) && IsListing(catalog, base, dirs', files')
    ensures dirs == dirs' && multiset(files) == multiset(files')
  {
    var names := DirNames(catalog, base);
    DirectoriesInclude(base, names, dirs, dirs');
    DirectoriesInclude(base, names, dirs', dirs);
    SameDistinctElements(dirs, dirs');
    DirectoriesAreOrdered(base, names, dirs);
    SortedIsUnique(EntryOrder, dirs, dirs');
  }

  lemma DirectoriesInclude(base: seq<string>, names: set<string>, dirs: seq<TreeEntry>, dirs': seq<TreeEntry>)
    requires AreDirectories(base, names, dirs) && AreDirectories(base, names, dirs')
    ensures Distinct(dirs) && forall x :: x in dirs ==> x in dirs'
  {
    forall x | x in dirs ensures x in dirs' {
      var i :| 0 <= i < |dirs| && dirs[i] == x;
      assert DirectoryAt(base, dirs[i].name) in dirs';
    }
  }

  lemma DirectoriesAreOrdered(base: seq<string>, names: set<string>, dirs: seq<TreeEntry>)
    requires AreDirectories(base, names, dirs)
    ensures OrdersAll(EntryOrder, dirs)
  {
    forall x: string, y: string { StringLessIsTotal(x, y); }
    forall x: string, y: string, z: string | StringLess(x, y) && StringLess(y, z) ensures StringLess(x, z) {
      StringLessIsTransitive(x, y, z);
    }
    forall x, y | x in dirs && y in dirs && x.path == y.path ensures x == y {
      SameNameByPath(base, x.name, y.name);
    }
  }

  // ----- opening directories one after the other

  lemma {:induction false} ResolveShrinks(stack: seq<string>, cs: seq<string>)
    ensures Weight(Resolve(stack, cs)) <= Weight(stack) + Weight(cs)
    decreases |cs|
  {
    if cs != [] {
      var front := if stack == [] then [] else stack[..|stack| - 1];
      assert stack != [] ==> stack == front + [stack[|stack| - 1]];
      if stack != [] { WeightSnoc(front, stack[|stack| - 1]); }
      WeightSnoc(stack, cs[0]);
      var next := if cs[0] == "" || cs[0] == "." then stack else if cs[0] == ".." then front else stack + [cs[0]];
      ResolveShrinks(next, cs[1..]);
    }
  }

  /** The length of the components, each with a slash. */
  function Weight(cs: seq<string>): nat
  {
    if cs == [] then 0 else |cs[0]| + 1 + Weight(cs[1..])
  }

  lemma {:induction false} WeightSnoc(cs: seq<string>, c: string)
    ensures Weight(cs + [c]) == Weight(cs) + |c| + 1
  {
    if cs != [] {
      WeightSnoc(cs[1..], c);
      assert (cs + [c])[1..] == cs[1..] + [c];
    }
  }

  lemma {:induction false} WeightOfComponents(s: string)
    ensures Weight(Components(s)) == |s| + 1
    decreases |s|
  {
    var i := IndexOf(s, '/');
    if i < |s| {
      WeightOfComponents(s[i + 1..]);
      var c := s[..i];
      assert Components(s) == [c] + Components(s[i + 1..]);
    }
  }

  lemma {:induction false} WeightOfJoin(cs: seq<string>)
    requires cs != []
    ensures Weight(cs) == |Join(cs)| + 1
  {
    if |cs| > 1 { WeightOfJoin(cs[1..]); }
  }

  /** Opening a path leads to the directory of that path exactly when the path has no white space at its
      ends: the path is normalized again, and normalizing trims. */
  lemma OpenIsRight(cs: seq<string>)
    requires AllNames(cs) && cs != []
    ensures Key(Join(cs)) == cs <==> Trimmed(Join(cs))
  {
    var s := Join(cs);
    TrimmedIsFixed(s);
    if Trimmed(s) {
      ComponentsOfJoin(cs);
      ResolveNames([], cs);
      assert [] + cs == cs;
    } else {
      var left, right := TrimSpaceSplits(s);
      var t := TrimSpace(s);
      assert |t| < |s|;
      WeightOfComponents(t);
      ResolveShrinks([], Components(t));
      WeightOfJoin(cs);
    }
  }

  lemma BlankIsTrimmed(core: string, s: string)
    requires s == core + " " && core != "" && Trimmed(core)
    ensures TrimSpace(s) == core
  {
    assert s == "" + core + " ";
    TrimSpaceUnique(s, "", core, " ");
  }

  /** A directory whose name is a blank opens the directory it is in, so descending never ends. */
  lemma BlankDirectoryOpensItsParent(base: seq<string>)
    requires AllNames(base) && base != [] && Trimmed(Join(base))
    ensures IsName(" ") && Key(Join(base + [" "])) == base
  {
    var s := Join(base);
    JoinAppend(base, [" "]);
    JoinIsEmpty(base);
    BlankIsTrimmed(s + "/", Join(base + [" "]));
    ComponentsAppend(s, "");
    ComponentsOfJoin(base);
    assert "/" + "" == "/" && Components("") == [""];
    ResolveSplit([], base, [""]);
    ResolveNames([], base);
    assert [] + base == base;
  }

  lemma {:induction false} ComponentsAppend(a: string, b: string)
    ensures Components(a + ("/" + b)) == Components(a) + Components(b)
    decreases |a|
  {
    var i := IndexOf(a, '/');
    if i == |a| {
      assert a[..i] == a;
      ComponentsCons(a, b);
    } else {
      var front, rest := a[..i], a[i + 1..];
      assert a == front + ("/" + rest);
      Associate(front, "/" + rest, "/" + b);
      Associate("/", rest, "/" + b);
      ComponentsCons(front, rest + ("/" + b));
      ComponentsAppend(rest, b);
      Associate([front], Components(rest), Components(b));
    }
  }

  /** All directories below `base` have paths that open them. */
  ghost predicate OpensRight(catalog: seq<CatalogEntry>, base: seq<string>)
  {
    forall i, k :: 0 <= i < |catalog| && |base| < k < |KeyAt(catalog, i)| && Below(base, KeyAt(catalog, i)) ==>
                     Key(Join(KeyAt(catalog, i)[..k])) == KeyAt(catalog, i)[..k]
  }

  /** That is so exactly when none of these paths has white space at its ends. */
  lemma OpensRightIff(catalog: seq<CatalogEntry>, base: seq<string>)
    ensures OpensRight(catalog, base) <==>
            forall i, k :: 0 <= i < |catalog| && |base| < k < |KeyAt(catalog, i)| && Below(base, KeyAt(catalog, i)) ==>
                             Trimmed(Join(KeyAt(catalog, i)[..k]))
  {
    forall i, k | 0 <= i < |catalog| && |base| < k < |KeyAt(catalog, i)| && Below(base, KeyAt(catalog, i))
      ensures Key(Join(KeyAt(catalog, i)[..k])) == KeyAt(catalog, i)[..k] <==> Trimmed(Join(KeyAt(catalog, i)[..k]))
    {
      KeyHasNames(catalog[i].relativeKey);
      OpenIsRight(KeyAt(catalog, i)[..k]);
    }
  }

  function MaxDepth(catalog: seq<CatalogEntry>): nat
  {
    if catalog == [] then 0
    else
      var depth, others := |Key(catalog[0].relativeKey)|, MaxDepth(catalog[1..]);
      if depth > others then depth else others
  }

  lemma {:induction false} MaxDepthBounds(catalog: seq<CatalogEntry>, i: nat)
    requires i < |catalog|
    ensures |KeyAt(catalog, i)| <= MaxDepth(catalog)
  {
    if i > 0 {
      MaxDepthBounds(catalog[1..], i - 1);
      assert KeyAt(catalog[1..], i - 1) == KeyAt(catalog, i);
    }
  }

  /** The keys that lie in one of the named directories. */
  ghost function InNames(base: seq<string>, names: set<string>): seq<string> -> bool
  {
    key => Below(base, key) && |key| > |base| + 1 && key[|base|] in names
  }

  lemma {:induction false} SelectEither(catalog: seq<CatalogEntry>, p: seq<string> -> bool, q: seq<string> -> bool,
                                        either: seq<string> -> bool)
    requires forall i :: 0 <= i < |catalog| ==>
               && (either(KeyAt(catalog, i)) <==> p(KeyAt(catalog, i)) || q(KeyAt(catalog, i)))
               && !(p(KeyAt(catalog, i)) && q(KeyAt(catalog, i)))
    ensures multiset(Select(catalog, either)) == multiset(Select(catalog, p)) + multiset(Select(catalog, q))
  {
    if catalog != [] {
      assert forall i :: 0 <= i < |Init(catalog)| ==> KeyAt(Init(catalog), i) == KeyAt(catalog, i);
      SelectEither(Init(catalog), p, q, either);
      assert KeyAt(catalog, |catalog| - 1) == Key(Last(catalog).relativeKey);
    }
  }

  lemma {:induction false} SelectNone(catalog: seq<CatalogEntry>, p: seq<string> -> bool)
    requires forall i :: 0 <= i < |catalog| ==> !p(KeyAt(catalog, i))
    ensures Select(catalog, p) == []
  {
    if catalog != [] {
      assert forall i :: 0 <= i < |Init(catalog)| ==> KeyAt(Init(catalog), i) == KeyAt(catalog, i);
      SelectNone(Init(catalog), p);
      assert KeyAt(catalog, |catalog| - 1) == Key(Last(catalog).relativeKey);
    }
  }

  /** What is under a directory is what is directly in it and what is in its directories. */
  lemma UnderIsHereAndBelow(catalog: seq<CatalogEntry>, base: seq<string>)
    ensures multiset(Select(catalog, Under(base))) ==
            multiset(Select(catalog, Here(base))) + multiset(Select(catalog, InNames(base, DirNames(catalog, base))))
  {
    SelectEither(catalog, Here(base), InNames(base, DirNames(catalog, base)), Under(base));
  }

  lemma OneMoreName(catalog: seq<CatalogEntry>, base: seq<string>, names: set<string>, name: string)
    requires name !in names
    ensures multiset(Select(catalog, InNames(base, names + {name}))) ==
            multiset(Select(catalog, InNames(base, names))) + multiset(Select(catalog, Under(base + [name])))
  {
    forall i | 0 <= i < |catalog|
      ensures Under(base + [name])(KeyAt(catalog, i)) <==>
              Below(base, KeyAt(catalog, i)) && |KeyAt(catalog, i)| > |base| + 1 && KeyAt(catalog, i)[|base|] == name
    {
      BelowChild(base, name, KeyAt(catalog, i));
    }
    SelectEither(catalog, InNames(base, names), Under(base + [name]), InNames(base, names + {name}));
  }

  lemma BelowChild(base: seq<string>, name: string, key: seq<string>)
    ensures Below(base + [name], key) <==> Below(base, key) && |key| > |base| + 1 && key[|base|] == name
  {
    var k := |base|;
    if |key| > k + 1 {
      assert key[..k + 1] == key[..k] + [key[k]];
      if key[..k + 1] == base + [name] {
        assert key[k] == key[..k + 1][k] == name;
        assert key[..k] == key[..k + 1][..k] == base;
      }
    }
  }

  ghost function NamesOf(entries: seq<TreeEntry>): set<string>
  {
    set i | 0 <= i < |entries| :: entries[i].name
  }

  /** A directory that is listed can be opened, is less deep than the catalog, and opens right all the way. */
  lemma ListedOpens(catalog: seq<CatalogEntry>, base: seq<string>, name: string)
    requires OpensRight(catalog, base) && name in DirNames(catalog, base)
    ensures Key(Join(base + [name])) == base + [name] && OpensRight(catalog, base + [name])
    ensures |base| + 1 < MaxDepth(catalog)
  {
    var i :| 0 <= i < |catalog| && Below(base, KeyAt(catalog, i)) && |KeyAt(catalog, i)| > |base| + 1
        && KeyAt(catalog, i)[|base|] == name;
    var key := KeyAt(catalog, i);
    assert key[..|base| + 1] == key[..|base|] + [key[|base|]];
    MaxDepthBounds(catalog, i);
    forall j | 0 <= j < |catalog| && Below(base + [name], KeyAt(catalog, j)) ensures Below(base, KeyAt(catalog, j)) {
      BelowChild(base, name, KeyAt(catalog, j));
    }
  }

  lemma NamesSnoc(entries: seq<TreeEntry>, i: nat)
    requires i < |entries|
    ensures NamesOf(entries[..i + 1]) == NamesOf(entries[..i]) + {entries[i].name}
  {
    var now, before := entries[..i + 1], entries[..i];
    assert forall j :: 0 <= j < i ==> now[j] == before[j];
    assert now[i] == entries[i];
  }

  // ----- paths that a client can come from

  /** The path of a base does not start with white space. */
  predicate Flush(base: seq<string>)
  {
    base != [] ==> base[0] != "" && !IsSpace(base[0][0])
  }

  /** From `start` on, no directory on the way to a key has a path with white space at its ends. */
  ghost predicate CleanSince(start: seq<string>, key: seq<string>)
  {
    forall k :: |start| < k < |key| ==> Trimmed(Join(key[..k]))
  }

  /** Neither has any directory on the way from `start` to a base, nor the base itself. */
  ghost predicate CleanTo(start: seq<string>, base: seq<string>)
  {
    forall k :: |start| < k <= |base| ==> Trimmed(Join(base[..k]))
  }

  /** What is kept of the bases that a client reaches by opening directories from `start`: one that is below the
      start again is clean from there; and once a path starts without white space they all do, until then
      they get no longer. */
  ghost predicate MayReach(start: seq<string>, base: seq<string>)
  {
    && (Flush(base) || |base| <= |start|)
    && (Flush(start) ==> Flush(base))
    && (start <= base ==> CleanTo(start, base))
  }

  /** The last name without the white space at its end, and at its start if there is nothing before it. */
  function Cut(base: seq<string>, name: string): string
  {
    if base == [] then TrimSpace(name) else TrimRight(name)
  }

  lemma CutTrims(base: seq<string>, name: string)
    requires AllNames(base) && Flush(base) && IsName(name)
    ensures '/' !in Cut(base, name)
    ensures TrimSpace(Join(base + [name])) == Prefix(base) + Cut(base, name)
    ensures Trimmed(Prefix(base) + Cut(base, name))
  {
    var c := Cut(base, name);
    JoinIsEmpty(base);
    if base == [] {
      assert base + [name] == [name];
      var left, right := TrimSpaceSplits(name);
      assert forall x :: x in c ==> x in name;
    } else {
      var k := TrimRightSplits(name);
      assert forall x :: x in c ==> x in name;
      var front := Join(base) + "/";
      JoinAppend(base, [name]);
      assert base[..|base|] == base;
      assert Join(base + [name]) == "" + (front + c) + name[k..] by {
        assert name == c + name[k..];
        Associate(front, c, name[k..]);
      }
      assert (front + c)[0] == Join(base)[0] == base[0][0];
      assert c == "" ==> (front + c)[|front + c| - 1] == '/';
      assert c != "" ==> (front + c)[|front + c| - 1] == c[|c| - 1];
      TrimSpaceUnique(Join(base + [name]), "", front + c, name[k..]);
    }
  }

  lemma {:induction false} NoSlashOneComponent(c: string)
    requires '/' !in c
    ensures Components(c) == [c]
  {
    IndexOfAfter(c, '/', "");
    assert c + "" == c && c[..|c|] == c;
  }

  lemma KeyOfText(base: seq<string>, c: string, text: string)
    requires AllNames(base) && '/' !in c && TrimSpace(text) == Prefix(base) + c
    ensures Key(text) == Resolve(base, [c])
  {
    JoinIsEmpty(base);
    NoSlashOneComponent(c);
    ResolveNames([], base);
    assert [] + base == base;
    ResolveSplit([], base, [c]);
    if base == [] {
      assert base + [c] == [c] && "" + c == c;
    } else {
      ComponentsAppend(Join(base), c);
      ComponentsOfJoin(base);
      Associate(Join(base), "/", c);
    }
  }

  /** Where opening a listed directory leads from a base that starts without white space: to that directory
      without the white space of its name, to the base itself, or to the directory above. */
  lemma OpenedBase(base: seq<string>, name: string)
    requires AllNames(base) && Flush(base) && IsName(name)
    ensures var next, c := Key(Join(base + [name])), Cut(base, name);
            && Flush(next) && AllNames(next)
            && (next == base || (base != [] && next == base[..|base| - 1]) || (base == [] && next == [])
                || (next == base + [c] && Trimmed(Join(next))))
  {
    var c := Cut(base, name);
    CutTrims(base, name);
    KeyOfText(base, c, Join(base + [name]));
    assert [c][1..] == [];
    assert Resolve(base + [c], []) == base + [c];
    KeyHasNames(Join(base + [name]));
    if IsName(c) { JoinSnoc(base, c); }
  }

  lemma JoinSnoc(base: seq<string>, c: string)
    requires AllNames(base)
    ensures Join(base + [c]) == Prefix(base) + c
  {
    JoinIsEmpty(base);
    if base == [] { assert base + [c] == [c] && "" + c == c; } else { JoinAppend(base, [c]); }
  }

  // Resolving components puts no more on the stack than there are, and fewer when the first one goes.

  lemma {:induction false} ResolveBound(stack: seq<string>, cs: seq<string>)
    ensures |Resolve(stack, cs)| <= |stack| + |cs|
    decreases |cs|
  {
    if cs != [] {
      ResolveBound(if cs[0] == "" || cs[0] == "." then stack
                   else if cs[0] == ".." then (if stack == [] then [] else stack[..|stack| - 1])
                   else stack + [cs[0]], cs[1..]);
    }
  }

  lemma {:induction false} ResolveKeepsFirst(stack: seq<string>, cs: seq<string>)
    requires stack != []
    ensures var r := Resolve(stack, cs); (r != [] && r[0] == stack[0]) || |r| <= |stack| + |cs| - 2
    decreases |cs|
  {
    if cs != [] {
      if cs[0] == ".." && |stack| == 1 {
        ResolveBound([], cs[1..]);
      } else {
        ResolveKeepsFirst(if cs[0] == "" || cs[0] == "." then stack
                          else if cs[0] == ".." then stack[..|stack| - 1]
                          else stack + [cs[0]], cs[1..]);
      }
    }
  }

  lemma NoSlashInSpace(space: string)
    requires AllSpace(space)
    ensures '/' !in space
  {
  }

  lemma TextInFrontOf(text: string, front: string, rest: string)
    requires '/' !in text && '/' !in front
    ensures |Components(text + (front + ("/" + rest)))| == |Components(front + ("/" + rest))|
  {
    Associate(text, front, "/" + rest);
    ComponentsCons(front, rest);
    ComponentsCons(text + front, rest);
  }

  /** Text without a slash in front lengthens the first component only. */
  lemma TextInFront(text: string, s: string)
    requires '/' !in text
    ensures |Components(text + s)| == |Components(s)|
  {
    var i := IndexOf(s, '/');
    if i < |s| {
      assert s == s[..i] + ("/" + s[i + 1..]);
      TextInFrontOf(text, s[..i], s[i + 1..]);
    } else {
      assert s[..i] == s && '/' !in s;
      NoSlashOneComponent(s);
      NoSlashOneComponent(text + s);
    }
  }

  lemma {:induction false} TextBehind(s: string, text: string)
    requires '/' !in text
    ensures |Components(s + text)| == |Components(s)|
    decreases |s|
  {
    var i := IndexOf(s, '/');
    if i == |s| {
      assert s[..i] == s;
      NoSlashOneComponent(s);
      NoSlashOneComponent(s + text);
    } else {
      var front, rest := s[..i], s[i + 1..];
      assert s == front + ("/" + rest);
      Associate(front, "/" + rest, text);
      Associate("/", rest, text);
      ComponentsCons(front, rest);
      ComponentsCons(front, rest + text);
      TextBehind(rest, text);
    }
  }

  /** Normalizing a joined path: the result starts without white space, or is shorter than the path. */
  lemma ReopenedIsFlush(cs: seq<string>)
    requires AllNames(cs) && cs != []
    ensures Flush(Key(Join(cs))) || |Key(Join(cs))| < |cs|
  {
    var s := Join(cs);
    var left, right := TrimSpaceSplits(s);
    var t := TrimSpace(s);
    ComponentsOfJoin(cs);
    NoSlashInSpace(right);
    TextBehind(left + t, right);
    NoSlashInSpace(left);
    TextInFront(left, t);
    FirstComponent(t);
    var c := Components(t);
    assert |c| == |cs|;
    if IsName(c[0]) {
      assert [] + [c[0]] == [c[0]];
      ResolveKeepsFirst([c[0]], c[1..]);
    } else {
      ResolveBound([], c[1..]);
    }
  }

  lemma FirstComponent(t: string)
    requires Trimmed(t)
    ensures var c := Components(t)[0]; '/' !in c && (c != "" ==> !IsSpace(c[0]))
  {
  }

  /** Opening any listed directory keeps what is kept. */
  lemma OpenKeeps(start: seq<string>, base: seq<string>, name: string)
    requires AllNames(base) && IsName(name) && MayReach(start, base)
    ensures MayReach(start, Key(Join(base + [name])))
  {
    var next := Key(Join(base + [name]));
    if Flush(base) {
      OpenedBase(base, name);
      if start <= next { CleanStep(start, base, next); }
    } else {
      ReopenedIsFlush(base + [name]);
    }
  }

  lemma CleanStep(start: seq<string>, base: seq<string>, next: seq<string>)
    requires start <= next && (start <= base ==> CleanTo(start, base))
    requires next <= base || (|next| == |base| + 1 && base <= next && Trimmed(Join(next)))
    ensures CleanTo(start, next)
  {
    forall k | |start| < k <= |next| ensures Trimmed(Join(next[..k])) {
      if k <= |base| { assert next[..k] == base[..k] && start <= base; } else { assert next[..k] == next; }
    }
  }

  // ----- what a client finds

  /** A file that stands for an entry whose way, if it is below the start, is clean from there. */
  ghost predicate FromCleanWay(catalog: seq<CatalogEntry>, start: seq<string>, x: TreeEntry)
  {
    exists i :: 0 <= i < |catalog| && KeyAt(catalog, i) != [] && x == FileOf(catalog[i])
                && (Below(start, KeyAt(catalog, i)) ==> CleanSince(start, KeyAt(catalog, i)))
  }

  lemma {:induction false} SelectedFrom(catalog: seq<CatalogEntry>, wanted: seq<string> -> bool, x: TreeEntry)
    ensures x in Select(catalog, wanted) <==>
            exists i :: 0 <= i < |catalog| && KeyAt(catalog, i) != [] && wanted(KeyAt(catalog, i))
                && x == FileOf(catalog[i])
  {
    if catalog != [] {
      var front, last := Init(catalog), |catalog| - 1;
      SelectedFrom(front, wanted, x);
      assert forall i :: 0 <= i < last ==> front[i] == catalog[i] && KeyAt(front, i) == KeyAt(catalog, i);
      assert catalog[last] == Last(catalog) && KeyAt(catalog, last) == Key(Last(catalog).relativeKey);
    }
  }

  /** So is what lies directly in a base that may be reached. */
  lemma HereIsClean(catalog: seq<CatalogEntry>, start: seq<string>, base: seq<string>, x: TreeEntry)
    requires MayReach(start, base) && x in Select(catalog, Here(base))
    ensures FromCleanWay(catalog, start, x)
  {
    SelectedFrom(catalog, Here(base), x);
    var i :| 0 <= i < |catalog| && KeyAt(catalog, i) != [] && Here(base)(KeyAt(catalog, i)) && x == FileOf(catalog[i]);
    var key := KeyAt(catalog, i);
    if Below(start, key) { WayToBase(start, base, key); }
  }

  lemma WayToBase(start: seq<string>, base: seq<string>, key: seq<string>)
    requires start <= base ==> CleanTo(start, base)
    requires Below(start, key) && Below(base, key) && |key| == |base| + 1
    ensures CleanSince(start, key)
  {
    forall k | |start| < k < |key| ensures Trimmed(Join(key[..k])) {
      assert start == base[..|start|] && key[..k] == base[..k];
    }
  }

  /** Two entries that look the same have the same key. */
  lemma FileShowsKey(e: CatalogEntry, f: CatalogEntry)
    requires Key(e.relativeKey) != [] && Key(f.relativeKey) != [] && FileOf(e) == FileOf(f)
    ensures Key(e.relativeKey) == Key(f.relativeKey)
  {
    KeyHasNames(e.relativeKey);
    KeyHasNames(f.relativeKey);
    ComponentsOfJoin(Key(e.relativeKey));
    ComponentsOfJoin(Key(f.relativeKey));
  }

  lemma CleanWayIsFound(catalog: seq<CatalogEntry>, start: seq<string>, i: nat)
    requires i < |catalog| && Below(start, KeyAt(catalog, i)) && FromCleanWay(catalog, start, FileOf(catalog[i]))
    ensures CleanSince(start, KeyAt(catalog, i))
  {
    var j :| 0 <= j < |catalog| && KeyAt(catalog, j) != [] && FileOf(catalog[i]) == FileOf(catalog[j])
             && (Below(start, KeyAt(catalog, j)) ==> CleanSince(start, KeyAt(catalog, j)));
    FileShowsKey(catalog[i], catalog[j]);
  }

  /** The next directory on a clean way opens itself. */
  lemma WayOpens(base: seq<string>, key: seq<string>)
    requires AllNames(key) && Below(base, key) && |key| > |base| + 1 && CleanSince(base, key)
    ensures Key(Join(base + [key[|base|]])) == base + [key[|base|]]
  {
    OneNameMore(base, key);
    assert Trimmed(Join(key[..|base| + 1]));
    OpenIsRight(key[..|base| + 1]);
  }

  lemma OneNameMore(base: seq<string>, key: seq<string>)
    requires Below(base, key)
    ensures key[..|base| + 1] == base + [key[|base|]]
  {
  }

  /** The directory that leads on to a key below it is listed, and opens itself when the way is clean. */
  lemma NextOnTheWay(catalog: seq<CatalogEntry>, base: seq<string>, i: nat)
    requires i < |catalog| && Below(base, KeyAt(catalog, i)) && |KeyAt(catalog, i)| > |base| + 1
    requires CleanSince(base, KeyAt(catalog, i))
    ensures var name := KeyAt(catalog, i)[|base|];
            && Key(Join(base + [name])) == base + [name] && Below(base + [name], KeyAt(catalog, i))
  {
    KeyHasNames(catalog[i].relativeKey);
    WayOpens(base, KeyAt(catalog, i));
    BelowChild(base, KeyAt(catalog, i)[|base|], KeyAt(catalog, i));
  }

  /** Opening right means that every way is clean. */
  lemma OpensRightIffClean(catalog: seq<CatalogEntry>, base: seq<string>)
    ensures OpensRight(catalog, base) <==>
            forall i :: 0 <= i < |catalog| && Below(base, KeyAt(catalog, i)) ==> CleanSince(base, KeyAt(catalog, i))
  {
    OpensRightIff(catalog, base);
  }

  /** The keys that are directly in `base` or, at most `depth` levels further down, in one of the named
      directories. */
  ghost predicate InReach(base: seq<string>, names: set<string>, depth: nat, key: seq<string>)
  {
    Below(base, key) && |key| <= |base| + 1 + depth && (|key| > |base| + 1 ==> key[|base|] in names)
  }

  ghost predicate Reached(base: seq<string>, names: set<string>, depth: nat, key: seq<string>)
  {
    InReach(base, names, depth, key) && CleanSince(base, key)
  }

  /** `found` holds every file in reach with a clean way and, from whatever start the base may be reached, none
      below that start with a way that is not clean. */
  ghost predicate FindsClean(catalog: seq<CatalogEntry>, base: seq<string>, names: set<string>, depth: nat,
                             found: multiset<TreeEntry>)
  {
    && (forall start, x :: MayReach(start, base) && x in found ==> FromCleanWay(catalog, start, x))
    && (forall i :: 0 <= i < |catalog| && Reached(base, names, depth, KeyAt(catalog, i)) ==>
          FileOf(catalog[i]) in found)
  }

  lemma FilesAreFound(catalog: seq<CatalogEntry>, base: seq<string>, depth: nat, files: seq<TreeEntry>)
    requires multiset(files) == multiset(Select(catalog, Here(base)))
    ensures FindsClean(catalog, base, {}, depth, multiset(files))
  {
    var here := Select(catalog, Here(base));
    forall start, x | MayReach(start, base) && x in multiset(files) ensures FromCleanWay(catalog, start, x) {
      assert x in multiset(here);
      HereIsClean(catalog, start, base, x);
    }
    forall i | 0 <= i < |catalog| && InReach(base, {}, depth, KeyAt(catalog, i))
      ensures FileOf(catalog[i]) in multiset(files)
    {
      SelectedFrom(catalog, Here(base), FileOf(catalog[i]));
      assert Here(base)(KeyAt(catalog, i));
      assert FileOf(catalog[i]) in multiset(here);
    }
  }

  /** One more directory explored. */
  lemma FindsMore(catalog: seq<CatalogEntry>, base: seq<string>, names: set<string>, name: string, depth: nat,
                  found: multiset<TreeEntry>, below: multiset<TreeEntry>)
    requires AllNames(base) && IsName(name)
    requires depth > 0 && FindsClean(catalog, base, names, depth, found)
    requires var next := Key(Join(base + [name])); FindsClean(catalog, next, DirNames(catalog, next), depth - 1, below)
    ensures FindsClean(catalog, base, names + {name}, depth, found + below)
  {
    forall start, x | MayReach(start, base) && x in found + below ensures FromCleanWay(catalog, start, x) {
      OpenKeeps(start, base, name);
    }
    forall i | 0 <= i < |catalog| && InReach(base, names + {name}, depth, KeyAt(catalog, i))
               && CleanSince(base, KeyAt(catalog, i))
      ensures FileOf(catalog[i]) in found + below
    {
      var key := KeyAt(catalog, i);
      if |key| > |base| + 1 && key[|base|] == name {
        NextOnTheWay(catalog, base, i);
        ReachIsListed(catalog, base + [name], depth - 1, i);
      } else {
        assert InReach(base, names, depth, key);
      }
    }
  }

  /** The directories of a listing leave nothing out. */
  lemma ReachIsListed(catalog: seq<CatalogEntry>, base: seq<string>, depth: nat, i: nat)
    requires i < |catalog| && Below(base, KeyAt(catalog, i)) && |KeyAt(catalog, i)| <= |base| + 1 + depth
    ensures InReach(base, DirNames(catalog, base), depth, KeyAt(catalog, i))
  {
  }

  /** What exploring from `base` to a depth finds. If all directories below the start open themselves, every
      key strictly under the start exactly as often as it occurs, each as a file at its own path. Whatever is
      in the catalog, the files under the start with clean ways from there, and no others under it. */
  ghost predicate IsExploration(catalog: seq<CatalogEntry>, base: seq<string>, depth: nat, found: multiset<TreeEntry>)
  {
    && (OpensRight(catalog, base) && MaxDepth(catalog) <= |base| + 1 + depth ==>
          found == multiset(Select(catalog, Under(base))))
    && FindsClean(catalog, base, DirNames(catalog, base), depth, found)
  }

  /** A key under the start is found exactly if its way from there is clean. */
  lemma FoundIffClean(catalog: seq<CatalogEntry>, base: seq<string>, depth: nat, found: multiset<TreeEntry>, i: nat)
    requires IsExploration(catalog, base, depth, found)
    requires i < |catalog| && Below(base, KeyAt(catalog, i)) && |KeyAt(catalog, i)| <= |base| + 1 + depth
    ensures FileOf(catalog[i]) in found <==> CleanSince(base, KeyAt(catalog, i))
  {
    if FileOf(catalog[i]) in found {
      assert MayReach(base, base);
      CleanWayIsFound(catalog, base, i);
    } else {
      ReachIsListed(catalog, base, depth, i);
    }
  }

  /** So each key is found exactly as often as it occurs exactly if all ways are clean: in other words, if no
      directory between the start and a key has a path with white space at its ends. */
  lemma FoundAsOftenIff(catalog: seq<CatalogEntry>, base: seq<string>, depth: nat, found: multiset<TreeEntry>)
    requires IsExploration(catalog, base, depth, found) && MaxDepth(catalog) <= |base| + 1 + depth
    ensures found == multiset(Select(catalog, Under(base))) <==>
            forall i :: 0 <= i < |catalog| && Below(base, KeyAt(catalog, i)) ==> CleanSince(base, KeyAt(catalog, i))
  {
    OpensRightIffClean(catalog, base);
    if found == multiset(Select(catalog, Under(base))) {
      forall i | 0 <= i < |catalog| && Below(base, KeyAt(catalog, i)) ensures CleanSince(base, KeyAt(catalog, i)) {
        SelectedFrom(catalog, Under(base), FileOf(catalog[i]));
        assert Under(base)(KeyAt(catalog, i));
        assert FileOf(catalog[i]) in multiset(Select(catalog, Under(base)));
        MaxDepthBounds(catalog, i);
        FoundIffClean(catalog, base, depth, found, i);
      }
    }
  }

  /** What has been found when the directories with the given names have been explored. */
  ghost predicate ExploredSoFar(catalog: seq<CatalogEntry>, base: seq<string>, names: set<string>, depth: nat,
                                found: multiset<TreeEntry>)
  {
    && (OpensRight(catalog, base) && MaxDepth(catalog) <= |base| + 1 + depth ==>
          found == multiset(Select(catalog, Here(base))) + multiset(Select(catalog, InNames(base, names))))
    && FindsClean(catalog, base, names, depth, found)
  }

  lemma NothingExplored(catalog: seq<CatalogEntry>, base: seq<string>, depth: nat, files: seq<TreeEntry>)
    requires multiset(files) == multiset(Select(catalog, Here(base)))
    ensures ExploredSoFar(catalog, base, {}, depth, multiset(files))
  {
    SelectNone(catalog, InNames(base, {}));
    FilesAreFound(catalog, base, depth, files);
  }

  lemma AllExplored(catalog: seq<CatalogEntry>, base: seq<string>, depth: nat, found: multiset<TreeEntry>)
    requires ExploredSoFar(catalog, base, DirNames(catalog, base), depth, found)
    ensures IsExploration(catalog, base, depth, found)
  {
    UnderIsHereAndBelow(catalog, base);
  }

  /** A client that opens directory after directory, to any depth. */
  method Explore(catalog: seq<CatalogEntry>, path: string, depth: nat) returns (found: multiset<TreeEntry>)
    ensures IsExploration(catalog, Key(path), depth, found)
    decreases depth
  {
    ghost var base := Key(path);
    KeyHasNames(path);
    var entries, d := TreeEntries(catalog, path);
    var dirs := entries[..d];
    found := multiset(entries[d..]);
    NothingExplored(catalog, base, depth, entries[d..]);
    if depth == 0 {
      NothingDeeper(catalog, base, found);
      return;
    }
    assert NamesOf(dirs[..0]) == {};
    for i := 0 to d
      invariant ExploredSoFar(catalog, base, NamesOf(dirs[..i]), depth, found)
    {
      DirectoryToOpen(base, DirNames(catalog, base), dirs, i);
      var below := Explore(catalog, dirs[i].path, depth - 1);
      OneMoreExplored(catalog, base, NamesOf(dirs[..i]), dirs[i].name, depth, found, below);
      found := found + below;
    }
    assert dirs[..d] == dirs;
    NamesAreAll(catalog, base, dirs);
    AllExplored(catalog, base, depth, found);
  }

  lemma DirectoryToOpen(base: seq<string>, names: set<string>, dirs: seq<TreeEntry>, i: nat)
    requires AreDirectories(base, names, dirs) && i < |dirs|
    ensures dirs[i].name in names && dirs[i].path == Join(base + [dirs[i].name])
    ensures dirs[i].name !in NamesOf(dirs[..i]) && NamesOf(dirs[..i + 1]) == NamesOf(dirs[..i]) + {dirs[i].name}
  {
    NamesSnoc(dirs, i);
  }

  /** The step of Explore. */
  lemma OneMoreExplored(catalog: seq<CatalogEntry>, base: seq<string>, names: set<string>, name: string, depth: nat,
                        found: multiset<TreeEntry>, below: multiset<TreeEntry>)
    requires AllNames(base) && name in DirNames(catalog, base) && name !in names && depth > 0
    requires ExploredSoFar(catalog, base, names, depth, found)
    requires IsExploration(catalog, Key(Join(base + [name])), depth - 1, below)
    ensures ExploredSoFar(catalog, base, names + {name}, depth, found + below)
  {
    if OpensRight(catalog, base) {
      ListedOpens(catalog, base, name);
      OneMoreName(catalog, base, names, name);
    }
    ListedIsName(catalog, base, name);
    FindsMore(catalog, base, names, name, depth, found, below);
  }

  lemma ListedIsName(catalog: seq<CatalogEntry>, base: seq<string>, name: string)
    requires name in DirNames(catalog, base)
    ensures IsName(name)
  {
    var i :| 0 <= i < |catalog| && Below(base, KeyAt(catalog, i)) && |KeyAt(catalog, i)| > |base| + 1
             && KeyAt(catalog, i)[|base|] == name;
    KeyHasNames(catalog[i].relativeKey);
  }

  /** With no levels to go the files are all there is to find. */
  lemma NothingDeeper(catalog: seq<CatalogEntry>, base: seq<string>, found: multiset<TreeEntry>)
    requires ExploredSoFar(catalog, base, {}, 0, found)
    ensures IsExploration(catalog, base, 0, found)
  {
    forall i | 0 <= i < |catalog| ensures |KeyAt(catalog, i)| <= MaxDepth(catalog) { MaxDepthBounds(catalog, i); }
    UnderIsHereAndBelow(catalog, base);
    if MaxDepth(catalog) <= |base| + 1 {
      assert DirNames(catalog, base) == {};
    }
    assert forall i :: 0 <= i < |catalog| && InReach(base, DirNames(catalog, base), 0, KeyAt(catalog, i)) ==>
                         InReach(base, {}, 0, KeyAt(catalog, i));
  }

  lemma NamesAreAll(catalog: seq<CatalogEntry>, base: seq<string>, dirs: seq<TreeEntry>)
    requires AreDirectories(base, DirNames(catalog, base), dirs)
    ensures NamesOf(dirs) == DirNames(catalog, base)
  {
    forall n | n in DirNames(catalog, base) ensures n in NamesOf(dirs) {
      var i :| 0 <= i < |dirs| && dirs[i] == DirectoryAt(base, n);
      assert dirs[i].name == n;
    }
  }

  // ----- the catalog of one user

  ghost predicate Within(scope: seq<string>, key: seq<string>)
  {
    scope <= key
  }

  ghost function Keep(catalog: seq<CatalogEntry>, scope: seq<string>): seq<CatalogEntry>
  {
    if catalog == [] then []
    else if Within(scope, Key(Last(catalog).relativeKey)) then Keep(Init(catalog), scope) + [Last(catalog)]
    else Keep(Init(catalog), scope)
  }

  lemma KeepSnoc(catalog: seq<CatalogEntry>, scope: seq<string>, i: nat)
    requires i < |catalog|
    ensures Keep(catalog[..i + 1], scope) ==
            Keep(catalog[..i], scope) + if Within(scope, KeyAt(catalog, i)) then [catalog[i]] else []
  {
    assert Init(catalog[..i + 1]) == catalog[..i] && Last(catalog[..i + 1]) == catalog[i];
  }

  lemma {:induction false} KeepAll(catalog: seq<CatalogEntry>)
    ensures Keep(catalog, []) == catalog
  {
    if catalog != [] {
      KeepAll(Init(catalog));
      assert Within([], Key(Last(catalog).relativeKey));
      assert catalog == Init(catalog) + [Last(catalog)];
    }
  }

  /** `filterConsoleChatAttachmentCatalog` */
  method FilterCatalog(catalog: seq<CatalogEntry>, prefix: string) returns (kept: seq<CatalogEntry>)
    ensures kept == Keep(catalog, Key(prefix))
  {
    var scope := NormalizeObjectKey(prefix);
    KeyHasNames(prefix);
    JoinIsEmpty(Key(prefix));
    if scope == "" {
      KeepAll(catalog);
      return catalog;
    }
    kept := [];
    for i := 0 to |catalog|
      invariant kept == Keep(catalog[..i], Key(prefix))
    {
      var key := NormalizeObjectKey(catalog[i].relativeKey);
      KeepSnoc(catalog, Key(prefix), i);
      KeyHasNames(catalog[i].relativeKey);
      WithinIsPrefix(Key(prefix), KeyAt(catalog, i));
      if key == scope || scope + "/" <= key {
        kept := kept + [catalog[i]];
      }
    }
    assert catalog[..|catalog|] == catalog;
  }

  lemma WithinIsPrefix(scope: seq<string>, key: seq<string>)
    requires AllNames(scope) && AllNames(key) && scope != []
    ensures Within(scope, key) <==> Join(key) == Join(scope) || Join(scope) + "/" <= Join(key)
  {
    JoinIsEmpty(scope);
    JoinIsEmpty(key);
    if key != [] {
      PrefixIsBelow(scope, key);
      if Join(key) == Join(scope) {
        ComponentsOfJoin(key);
        ComponentsOfJoin(scope);
      }
      if Within(scope, key) && |key| == |scope| { assert key == scope; }
      if Below(scope, key) { assert scope <= key; }
    }
  }

  lemma {:induction false} KeptAreWithin(catalog: seq<CatalogEntry>, scope: seq<string>, i: nat)
    requires i < |Keep(catalog, scope)|
    ensures Within(scope, KeyAt(Keep(catalog, scope), i))
  {
    var kept := Keep(Init(catalog), scope);
    if i < |kept| {
      KeptAreWithin(Init(catalog), scope, i);
      assert Keep(catalog, scope)[i] == kept[i];
    }
  }

  /** Filtering a catalog to a scope changes no listing inside the scope and leaves nothing outside it. */
  lemma FilterKeepsListings(catalog: seq<CatalogEntry>, scope: seq<string>, base: seq<string>,
                            dirs: seq<TreeEntry>, files: seq<TreeEntry>)
    requires Within(scope, base)
    ensures IsListing(Keep(catalog, scope), base, dirs, files) <==> IsListing(catalog, base, dirs, files)
    ensures forall i :: 0 <= i < |Keep(catalog, scope)| ==> Within(scope, KeyAt(Keep(catalog, scope), i))
  {
    FilterKeepsFiles(catalog, scope, base);
    FilterKeepsNames(catalog, scope, base);
    forall i | 0 <= i < |Keep(catalog, scope)| ensures Within(scope, KeyAt(Keep(catalog, scope), i)) {
      KeptAreWithin(catalog, scope, i);
    }
  }

  lemma {:induction false} FilterKeepsFiles(catalog: seq<CatalogEntry>, scope: seq<string>, base: seq<string>)
    requires Within(scope, base)
    ensures Select(Keep(catalog, scope), Here(base)) == Select(catalog, Here(base))
  {
    if catalog != [] {
      FilterKeepsFiles(Init(catalog), scope, base);
      SelectSnoc(Keep(Init(catalog), scope), Last(catalog), Here(base));
      if Below(base, Key(Last(catalog).relativeKey)) { BelowIsWithin(scope, base, Key(Last(catalog).relativeKey)); }
    }
  }

  lemma {:induction false} FilterKeepsNames(catalog: seq<CatalogEntry>, scope: seq<string>, base: seq<string>)
    requires Within(scope, base)
    ensures DirNames(Keep(catalog, scope), base) == DirNames(catalog, base)
  {
    if catalog != [] {
      var front, last := Init(catalog), Last(catalog);
      assert catalog == front + [last];
      FilterKeepsNames(front, scope, base);
      DirNamesSnoc(front, last, base);
      DirNamesSnoc(Keep(front, scope), last, base);
      if Below(base, Key(last.relativeKey)) { BelowIsWithin(scope, base, Key(last.relativeKey)); }
    }
  }

  lemma BelowIsWithin(scope: seq<string>, base: seq<string>, key: seq<string>)
    requires Within(scope, base) && Below(base, key)
    ensures Within(scope, key)
  {
    assert key[..|scope|] == key[..|base|][..|scope|];
  }
}
