/**
  The directory walk of `tidyOutput` (index.js lines 39-66), on values.

  The input tree is a snapshot of what `readdir`, `statSync` and
  `readFileSync` report under the input root; the files the walk writes are a
  log of `(path, content)` records in the order `writeFileSync` is called.

  Each `readdir` callback handles one directory's entries in listing order:
  a file is written at once when its input path matches, a subdirectory only
  starts a new `readdir` whose callback runs later. `Schedule` takes those
  callbacks first-in first-out, one schedule Node's event loop may produce.
  `Expected` is an independent, depth-first description of the same output:
  every file of the tree whose input path matches, written at the mirrored
  path with the formatted content. The lemmas at the end connect the two.
*/
module Tree {
  import opened Config

  /** A listing entry: a regular file with its text, or a directory with its entries in listing order. */
  datatype Node = File(content: string) | Dir(entries: seq<Entry>)

  datatype Entry = Entry(name: string, node: Node)

  /** One `writeFileSync(path, content)`. */
  datatype Write = Write(path: string, content: string)

  /** A `readdir` whose callback has not run yet: the listing it will see and the two directories of that call. */
  datatype Pending = Pending(entries: seq<Entry>, inDir: string, outDir: string)

  /** The plugin's pattern and rules together with the formatter (`pretty`, whose source is not part of this model). */
  datatype Tidier = Tidier(pattern: Pattern, rules: Rules, pretty: (string, Rules) -> string)
  {
    predicate Selects(path: string)
    {
      Matches(pattern, path)
    }

    function Format(source: string): string
    {
      pretty(source, rules)
    }
  }

  /**
    `path.resolve(dir, name)` for an absolute `dir` other than `/` and an
    entry name returned by `readdir` (which holds no `/`).
  */
  function Join(dir: string, name: string): string
  {
    dir + "/" + name
  }

  /**
    With the default pattern `/\.html$/`, whether a listed file is selected
    depends on its name alone, not on the directory it sits in: the `/` that
    `Join` inserts can never be part of the `.html` suffix.
  */
  lemma HtmlSuffixByName(dir: string, name: string)
    ensures Matches(HtmlSuffix, Join(dir, name)) <==> EndsWith(name, ".html")
  {
    var p := Join(dir, name);
    if |name| >= 5 {
      assert p[|p| - 5..] == name[|name| - 5..];
    } else if |p| >= 5 {
      var k := 4 - |name|;
      assert p[|p| - 5..][k] == '/';
      assert ".html"[k] != '/';
    }
  }

  // ---------------------------------------------------------------------------
  // One readdir callback (index.js lines 48-64)

  /** What the `forEach` body does with a file entry: a write when its input path matches, nothing otherwise. */
  function EntryWrites(t: Tidier, e: Entry, inDir: string, outDir: string): seq<Write>
  {
    match e.node
    case File(source) =>
      if t.Selects(Join(inDir, e.name)) then [Write(Join(outDir, e.name), t.Format(source))] else []
    case Dir(_) => []
  }

  /** What the `forEach` body does with a directory entry: a new `tidyOutput` call with mirrored directories. */
  function EntryDirs(e: Entry, inDir: string, outDir: string): seq<Pending>
  {
    match e.node
    case File(_) => []
    case Dir(sub) => [Pending(sub, Join(inDir, e.name), Join(outDir, e.name))]
  }

  /** The writes of one callback, in listing order. */
  function DirWrites(t: Tidier, es: seq<Entry>, inDir: string, outDir: string): seq<Write>
  {
    if es == [] then []
    else DirWrites(t, es[..|es| - 1], inDir, outDir) + EntryWrites(t, es[|es| - 1], inDir, outDir)
  }

  /** The `readdir` calls one callback starts, in listing order. */
  function SubDirs(es: seq<Entry>, inDir: string, outDir: string): seq<Pending>
  {
    if es == [] then []
    else SubDirs(es[..|es| - 1], inDir, outDir) + EntryDirs(es[|es| - 1], inDir, outDir)
  }

  /** Handling one more entry of a listing appends what the `forEach` body does with it. */
  lemma ListingStep(t: Tidier, es: seq<Entry>, i: nat, inDir: string, outDir: string)
    requires i < |es|
    ensures DirWrites(t, es[..i + 1], inDir, outDir) == DirWrites(t, es[..i], inDir, outDir) + EntryWrites(t, es[i], inDir, outDir)
    ensures SubDirs(es[..i + 1], inDir, outDir) == SubDirs(es[..i], inDir, outDir) + EntryDirs(es[i], inDir, outDir)
  {
    assert es[..i + 1][..i] == es[..i];
  }

  /** A listing with one more entry at the end adds what the `forEach` body does with that entry. */
  lemma ListingAppend(t: Tidier, es: seq<Entry>, e: Entry, inDir: string, outDir: string)
    ensures DirWrites(t, es + [e], inDir, outDir) == DirWrites(t, es, inDir, outDir) + EntryWrites(t, e, inDir, outDir)
    ensures SubDirs(es + [e], inDir, outDir) == SubDirs(es, inDir, outDir) + EntryDirs(e, inDir, outDir)
  {
    assert (es + [e])[..|es|] == es;
  }

  /**
    The body of one `readdir` callback (index.js lines 48-64): the entries in
    listing order; a directory starts a `tidyOutput` call on the mirrored pair
    of directories, a file is written formatted to the output directory when
    its full input path matches, and is left alone otherwise.
  */
  method ReadDirCallback(t: Tidier, p: Pending) returns (writes: seq<Write>, started: seq<Pending>)
    ensures writes == DirWrites(t, p.entries, p.inDir, p.outDir)
    ensures started == SubDirs(p.entries, p.inDir, p.outDir)
  {
    writes, started := [], [];
    for i := 0 to |p.entries|
      invariant writes == DirWrites(t, p.entries[..i], p.inDir, p.outDir)
      invariant started == SubDirs(p.entries[..i], p.inDir, p.outDir)
    {
      var file := p.entries[i];
      ListingStep(t, p.entries, i, p.inDir, p.outDir);
      var inputFile := Join(p.inDir, file.name);
      match file.node {
        case Dir(sub) =>
          started := started + [Pending(sub, inputFile, Join(p.outDir, file.name))];
        case File(source) =>
          if t.Selects(inputFile) {
            writes := writes + [Write(Join(p.outDir, file.name), t.Format(source))];
          }
      }
    }
    assert p.entries[..|p.entries|] == p.entries;
  }

  // ---------------------------------------------------------------------------
  // Sizes, for termination

  function Size(n: Node): nat
  {
    match n
    case File(_) => 1
    case Dir(es) => 1 + EntriesSize(es)
  }

  function EntriesSize(es: seq<Entry>): nat
  {
    if es == [] then 0 else EntriesSize(es[..|es| - 1]) + Size(es[|es| - 1].node)
  }

  /** Dropping the last entry of a listing, or descending into it, leaves less to walk. */
  lemma LastEntrySmaller(es: seq<Entry>)
    requires es != []
    ensures EntriesSize(es[..|es| - 1]) < EntriesSize(es)
    ensures Size(es[|es| - 1].node) <= EntriesSize(es)
  {
  }

  function QueueSize(q: seq<Pending>): nat
  {
    if q == [] then 0 else 1 + EntriesSize(q[0].entries) + QueueSize(q[1..])
  }

  lemma {:induction false} QueueSizeAppend(a: seq<Pending>, b: seq<Pending>)
    ensures QueueSize(a + b) == QueueSize(a) + QueueSize(b)
  {
    if a != [] {
      assert (a + b)[1..] == a[1..] + b;
      QueueSizeAppend(a[1..], b);
    } else {
      assert a + b == b;
    }
  }

  lemma {:induction false} SubDirsSize(es: seq<Entry>, inDir: string, outDir: string)
    ensures QueueSize(SubDirs(es, inDir, outDir)) <= EntriesSize(es)
  {
    if es != [] {
      var init, last := es[..|es| - 1], es[|es| - 1];
      SubDirsSize(init, inDir, outDir);
      QueueSizeAppend(SubDirs(init, inDir, outDir), EntryDirs(last, inDir, outDir));
      match last.node
      case File(_) =>
      case Dir(sub) =>
        assert QueueSize(EntryDirs(last, inDir, outDir)) == 1 + EntriesSize(sub);
    }
  }

  /** Running one callback strictly shrinks the work that is left. */
  lemma QueueShrinks(q: seq<Pending>)
    requires q != []
    ensures QueueSize(q[1..] + SubDirs(q[0].entries, q[0].inDir, q[0].outDir)) < QueueSize(q)
  {
    QueueSizeAppend(q[1..], SubDirs(q[0].entries, q[0].inDir, q[0].outDir));
    SubDirsSize(q[0].entries, q[0].inDir, q[0].outDir);
  }

  /**
    The writes of the walk when the pending `readdir` callbacks run in the
    order they were started: the first callback's writes, then the rest with
    the callback's subdirectories queued behind the calls already pending.
  */
  function Schedule(t: Tidier, q: seq<Pending>): seq<Write>
    decreases QueueSize(q)
  {
    if q == [] then []
    else
      QueueShrinks(q);
      DirWrites(t, q[0].entries, q[0].inDir, q[0].outDir)
      + Schedule(t, q[1..] + SubDirs(q[0].entries, q[0].inDir, q[0].outDir))
  }

  /** Running the first pending callback: its writes, then the rest of the queue with its subdirectories behind. */
  lemma ScheduleStep(t: Tidier, q: seq<Pending>)
    requires q != []
    ensures Schedule(t, q) == DirWrites(t, q[0].entries, q[0].inDir, q[0].outDir)
                              + Schedule(t, q[1..] + SubDirs(q[0].entries, q[0].inDir, q[0].outDir))
  {
  }

  /** Running the first pending callback and queueing the calls it starts leaves the rest of the schedule to do, with less work left. */
  lemma CallbackStep(t: Tidier, q: seq<Pending>, done: seq<Write>, batch: seq<Write>, started: seq<Pending>)
    requires q != []
    requires batch == DirWrites(t, q[0].entries, q[0].inDir, q[0].outDir)
    requires started == SubDirs(q[0].entries, q[0].inDir, q[0].outDir)
    ensures (done + batch) + Schedule(t, q[1..] + started) == done + Schedule(t, q)
    ensures QueueSize(q[1..] + started) < QueueSize(q)
  {
    QueueShrinks(q);
    ScheduleStep(t, q);
  }

  // ---------------------------------------------------------------------------
  // The reference description: every file of the tree, depth first

  /** A file of the tree: its path relative to the listed directory (`/a/b.html`) and its text. */
  datatype FileAt = FileAt(rel: string, content: string)

  /** `fs` seen from one directory up, through the subdirectory `name`. */
  function Under(name: string, fs: seq<FileAt>): (r: seq<FileAt>)
    ensures |r| == |fs|
  {
    if fs == [] then []
    else Under(name, fs[..|fs| - 1]) + [FileAt("/" + name + fs[|fs| - 1].rel, fs[|fs| - 1].content)]
  }

  /** Every regular file below a listing, at any depth. */
  function Files(es: seq<Entry>): seq<FileAt>
    decreases EntriesSize(es), 1
  {
    if es == [] then []
    else
      LastEntrySmaller(es);
      Files(es[..|es| - 1]) + EntryFiles(es[|es| - 1])
  }

  /** The files of one entry: itself if it is a file, everything below it if it is a directory. */
  function EntryFiles(e: Entry): seq<FileAt>
    decreases Size(e.node), 0
  {
    match e.node
    case File(c) => [FileAt("/" + e.name, c)]
    case Dir(sub) => Under(e.name, Files(sub))
  }

  /** For each file whose input path `inDir + rel` matches, the write at `outDir + rel` of its formatted text. */
  function Select(t: Tidier, fs: seq<FileAt>, inDir: string, outDir: string): seq<Write>
  {
    if fs == [] then []
    else
      var f := fs[|fs| - 1];
      Select(t, fs[..|fs| - 1], inDir, outDir)
      + if t.Selects(inDir + f.rel) then [Write(outDir + f.rel, t.Format(f.content))] else []
  }

  /** The writes a tidy of the listing `es` should make: exactly the matched files, at mirrored paths. */
  function Expected(t: Tidier, es: seq<Entry>, inDir: string, outDir: string): seq<Write>
  {
    Select(t, Files(es), inDir, outDir)
  }

  /** The expected writes of every pending call, one after the other. */
  function PendingExpected(t: Tidier, q: seq<Pending>): seq<Write>
  {
    if q == [] then [] else Expected(t, q[0].entries, q[0].inDir, q[0].outDir) + PendingExpected(t, q[1..])
  }

  // ---------------------------------------------------------------------------
  // Lemmas

  lemma {:induction false} SelectAppend(t: Tidier, a: seq<FileAt>, b: seq<FileAt>, inDir: string, outDir: string)
    ensures Select(t, a + b, inDir, outDir) == Select(t, a, inDir, outDir) + Select(t, b, inDir, outDir)
  {
    if b == [] {
      assert a + b == a;
    } else {
      assert (a + b)[..|a + b| - 1] == a + b[..|b| - 1];
      assert (a + b)[|a + b| - 1] == b[|b| - 1];
      SelectAppend(t, a, b[..|b| - 1], inDir, outDir);
    }
  }

  lemma {:induction false} PendingExpectedAppend(t: Tidier, a: seq<Pending>, b: seq<Pending>)
    ensures PendingExpected(t, a + b) == PendingExpected(t, a) + PendingExpected(t, b)
  {
    if a == [] {
      assert a + b == b;
    } else {
      assert (a + b)[1..] == a[1..] + b;
      PendingExpectedAppend(t, a[1..], b);
    }
  }

  /** Selecting the files of a subdirectory from its parent is selecting them from the subdirectory, with both roots descended into. */
  lemma {:induction false} SelectUnder(t: Tidier, name: string, fs: seq<FileAt>, inDir: string, outDir: string)
    ensures Select(t, Under(name, fs), inDir, outDir) == Select(t, fs, Join(inDir, name), Join(outDir, name))
  {
    if fs != [] {
      var f := fs[|fs| - 1];
      SelectUnder(t, name, fs[..|fs| - 1], inDir, outDir);
      var u := Under(name, fs);
      assert u[..|u| - 1] == Under(name, fs[..|fs| - 1]);
      assert u[|u| - 1] == FileAt("/" + name + f.rel, f.content);
      assert inDir + ("/" + name + f.rel) == Join(inDir, name) + f.rel;
      assert outDir + ("/" + name + f.rel) == Join(outDir, name) + f.rel;
    }
  }

  /** One entry's expected writes are what the `forEach` body writes for it plus the expected writes of the call it starts. */
  lemma EntryExpected(t: Tidier, e: Entry, inDir: string, outDir: string)
    ensures Select(t, EntryFiles(e), inDir, outDir)
         == EntryWrites(t, e, inDir, outDir) + PendingExpected(t, EntryDirs(e, inDir, outDir))
  {
    match e.node
    case File(c) =>
      assert inDir + ("/" + e.name) == Join(inDir, e.name);
      assert outDir + ("/" + e.name) == Join(outDir, e.name);
    case Dir(sub) =>
      SelectUnder(t, e.name, Files(sub), inDir, outDir);
  }

  /** One directory's expected writes are its callback's own writes plus the expected writes of the calls it starts. */
  lemma {:induction false} ExpectedSplit(t: Tidier, es: seq<Entry>, inDir: string, outDir: string)
    ensures multiset(Expected(t, es, inDir, outDir))
         == multiset(DirWrites(t, es, inDir, outDir)) + multiset(PendingExpected(t, SubDirs(es, inDir, outDir)))
  {
    if es != [] {
      var init, last := es[..|es| - 1], es[|es| - 1];
      ExpectedSplit(t, init, inDir, outDir);
      SelectAppend(t, Files(init), EntryFiles(last), inDir, outDir);
      PendingExpectedAppend(t, SubDirs(init, inDir, outDir), EntryDirs(last, inDir, outDir));
      EntryExpected(t, last, inDir, outDir);
    }
  }

  /** Any queue of pending callbacks, run first-in first-out, writes exactly the expected writes of all of them. */
  lemma {:induction false} ScheduleCoversPending(t: Tidier, q: seq<Pending>)
    ensures multiset(Schedule(t, q)) == multiset(PendingExpected(t, q))
    decreases QueueSize(q)
  {
    if q != [] {
      var p, rest := q[0], q[1..];
      var next := rest + SubDirs(p.entries, p.inDir, p.outDir);
      QueueShrinks(q);
      ScheduleCoversPending(t, next);
      PendingExpectedAppend(t, rest, SubDirs(p.entries, p.inDir, p.outDir));
      ExpectedSplit(t, p.entries, p.inDir, p.outDir);
    }
  }

  /** A tidy started on one listing makes exactly the expected writes, each as often as expected. */
  lemma ScheduleIsExpected(t: Tidier, es: seq<Entry>, inDir: string, outDir: string)
    ensures multiset(Schedule(t, [Pending(es, inDir, outDir)])) == multiset(Expected(t, es, inDir, outDir))
  {
    ScheduleCoversPending(t, [Pending(es, inDir, outDir)]);
    assert PendingExpected(t, [Pending(es, inDir, outDir)]) == Expected(t, es, inDir, outDir) + [];
  }

  lemma {:induction false} SelectMember(t: Tidier, fs: seq<FileAt>, inDir: string, outDir: string, w: Write)
    ensures w in Select(t, fs, inDir, outDir) <==>
      exists f :: f in fs && t.Selects(inDir + f.rel) && w == Write(outDir + f.rel, t.Format(f.content))
  {
    if fs != [] {
      var init, f := fs[..|fs| - 1], fs[|fs| - 1];
      SelectMember(t, init, inDir, outDir, w);
      assert fs == init + [f];
      if w in Select(t, fs, inDir, outDir) && w !in Select(t, init, inDir, outDir) {
        assert f in fs && t.Selects(inDir + f.rel) && w == Write(outDir + f.rel, t.Format(f.content));
      }
    }
  }

  /**
    The walk writes `w` exactly when `w` is the formatted text of some file of
    the tree whose input path matches, written at that file's mirrored path:
    every matched file is written, and nothing else is.
  */
  lemma WritesExactlyMatched(t: Tidier, es: seq<Entry>, inDir: string, outDir: string, w: Write)
    ensures w in Schedule(t, [Pending(es, inDir, outDir)]) <==>
      exists f :: f in Files(es) && t.Selects(inDir + f.rel) && w == Write(outDir + f.rel, t.Format(f.content))
  {
    ScheduleIsExpected(t, es, inDir, outDir);
    assert w in Schedule(t, [Pending(es, inDir, outDir)]) <==> w in multiset(Expected(t, es, inDir, outDir));
    SelectMember(t, Files(es), inDir, outDir, w);
  }

  /** No write lands on the mirrored path of a file whose input path does not match. */
  lemma UnmatchedNeverWritten(t: Tidier, es: seq<Entry>, inDir: string, outDir: string, f: FileAt)
    requires f in Files(es) && !t.Selects(inDir + f.rel)
    ensures forall w :: w in Schedule(t, [Pending(es, inDir, outDir)]) ==> w.path != outDir + f.rel
  {
    forall w | w in Schedule(t, [Pending(es, inDir, outDir)])
      ensures w.path != outDir + f.rel
    {
      WritesExactlyMatched(t, es, inDir, outDir, w);
      var g :| g in Files(es) && t.Selects(inDir + g.rel) && w == Write(outDir + g.rel, t.Format(g.content));
      assert g.rel == (outDir + g.rel)[|outDir|..];
      assert f.rel == (outDir + f.rel)[|outDir|..];
    }
  }

  /**
    Tidying in place (`outDir == inDir`) only overwrites files of the tree
    whose paths match, each with its own formatted text; every other file
    keeps its content.
  */
  lemma InPlaceOnlyRewritesMatched(t: Tidier, es: seq<Entry>, dir: string)
    ensures forall w :: w in Schedule(t, [Pending(es, dir, dir)]) ==>
      t.Selects(w.path) && exists f :: f in Files(es) && w.path == dir + f.rel && w.content == t.Format(f.content)
    ensures forall f :: f in Files(es) && !t.Selects(dir + f.rel) ==>
      forall w :: w in Schedule(t, [Pending(es, dir, dir)]) ==> w.path != dir + f.rel
  {
    forall w | w in Schedule(t, [Pending(es, dir, dir)])
      ensures t.Selects(w.path) && exists f :: f in Files(es) && w.path == dir + f.rel && w.content == t.Format(f.content)
    {
      WritesExactlyMatched(t, es, dir, dir, w);
    }
    forall f | f in Files(es) && !t.Selects(dir + f.rel)
      ensures forall w :: w in Schedule(t, [Pending(es, dir, dir)]) ==> w.path != dir + f.rel
    {
      UnmatchedNeverWritten(t, es, dir, dir, f);
    }
  }

  /**
    The first callback runs to the end before any other: the root listing's
    matched files are written first, in listing order, and an empty listing
    writes nothing at all.
  */
  lemma RootListingFirst(t: Tidier, es: seq<Entry>, inDir: string, outDir: string)
    ensures Schedule(t, [Pending(es, inDir, outDir)])
         == DirWrites(t, es, inDir, outDir) + Schedule(t, SubDirs(es, inDir, outDir))
    ensures es == [] ==> Schedule(t, [Pending(es, inDir, outDir)]) == []
  {
    assert [Pending(es, inDir, outDir)][1..] + SubDirs(es, inDir, outDir) == SubDirs(es, inDir, outDir);
  }

  /** `a.html`, `b.txt` and `sub/c.html`, as a listing. */
  function ExampleListing(): seq<Entry>
  {
    [Entry("a.html", File("A")), Entry("b.txt", File("B")), Entry("sub", Dir(ExampleSubListing()))]
  }

  function ExampleSubListing(): seq<Entry>
  {
    [Entry("c.html", File("C"))]
  }

  lemma ExampleRootCallback(t: Tidier)
    requires t.pattern == HtmlSuffix
    ensures DirWrites(t, ExampleListing(), "/site", "/out") == [Write("/out/a.html", t.Format("A"))]
    ensures SubDirs(ExampleListing(), "/site", "/out") == [Pending(ExampleSubListing(), "/site/sub", "/out/sub")]
  {
    ExampleRootWrites(t);
    ExampleRootDirs();
  }

  /** Of the root listing, only `a.html` is written: `b.txt` does not match and `sub` is a directory. */
  lemma ExampleRootWrites(t: Tidier)
    requires t.pattern == HtmlSuffix
    ensures DirWrites(t, ExampleListing(), "/site", "/out") == [Write("/out/a.html", t.Format("A"))]
  {
    var a, b, sub := Entry("a.html", File("A")), Entry("b.txt", File("B")), Entry("sub", Dir(ExampleSubListing()));
    var w := [Write("/out/a.html", t.Format("A"))];
    assert DirWrites(t, [a], "/site", "/out") == w by {
      ListingAppend(t, [], a, "/site", "/out");
      ExampleHtmlWritten(t);
      assert [] + [a] == [a];
    }
    assert DirWrites(t, [a, b], "/site", "/out") == w by {
      ListingAppend(t, [a], b, "/site", "/out");
      ExampleTextSkipped(t);
      assert [a] + [b] == [a, b];
    }
    ListingAppend(t, [a, b], sub, "/site", "/out");
    assert [a, b] + [sub] == ExampleListing();
  }

  /** `/site/a.html` matches the default pattern and is written to `/out/a.html`. */
  lemma ExampleHtmlWritten(t: Tidier)
    requires t.pattern == HtmlSuffix
    ensures EntryWrites(t, Entry("a.html", File("A")), "/site", "/out") == [Write("/out/a.html", t.Format("A"))]
  {
    assert Join("/site", "a.html") == "/site/a.html" && Join("/out", "a.html") == "/out/a.html";
    assert "/site/a.html"[7..] == ".html";
  }

  /** `/site/b.txt` does not match the default pattern and is not written. */
  lemma ExampleTextSkipped(t: Tidier)
    requires t.pattern == HtmlSuffix
    ensures EntryWrites(t, Entry("b.txt", File("B")), "/site", "/out") == []
  {
    assert Join("/site", "b.txt") == "/site/b.txt";
    assert "/site/b.txt"[6..] != ".html";
  }

  /** Of the root listing, only `sub` starts a listing, on the mirrored pair of directories. */
  lemma ExampleRootDirs()
    ensures SubDirs(ExampleListing(), "/site", "/out") == [Pending(ExampleSubListing(), "/site/sub", "/out/sub")]
  {
    var es := ExampleListing();
    assert Join("/site", "sub") == "/site/sub" && Join("/out", "sub") == "/out/sub";
    assert es[..0] == [] && es[..3] == es;
    assert SubDirs(es[..1], "/site", "/out") == [] by {
      assert es[..1][..0] == [];
    }
    assert SubDirs(es[..2], "/site", "/out") == [] by {
      assert es[..2][..1] == es[..1];
    }
    assert es[..3][..2] == es[..2];
  }

  lemma ExampleSubCallback(t: Tidier)
    requires t.pattern == HtmlSuffix
    ensures DirWrites(t, ExampleSubListing(), "/site/sub", "/out/sub") == [Write("/out/sub/c.html", t.Format("C"))]
    ensures SubDirs(ExampleSubListing(), "/site/sub", "/out/sub") == []
  {
    var es := ExampleSubListing();
    assert Join("/site/sub", "c.html") == "/site/sub/c.html" && Join("/out/sub", "c.html") == "/out/sub/c.html";
    assert t.Selects("/site/sub/c.html") by {
      assert "/site/sub/c.html"[11..] == ".html";
    }
    assert es[..0] == [] && es[..1] == es;
    ListingStep(t, es, 0, "/site/sub", "/out/sub");
  }

  /**
    A tree with `a.html`, `b.txt` and `sub/c.html` under `/site`, tidied into
    `/out` with the default pattern: `b.txt` is not written, the other two
    are, formatted, at their mirrored paths, the root's file first.
  */
  lemma HtmlExample(t: Tidier)
    requires t.pattern == HtmlSuffix
    ensures Schedule(t, [Pending(ExampleListing(), "/site", "/out")])
         == [Write("/out/a.html", t.Format("A")), Write("/out/sub/c.html", t.Format("C"))]
  {
    ExampleRootCallback(t);
    ExampleSubCallback(t);
    RootListingFirst(t, ExampleListing(), "/site", "/out");
    RootListingFirst(t, ExampleSubListing(), "/site/sub", "/out/sub");
  }
}
