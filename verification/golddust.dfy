/** The refactored crawler, golddust/data_preparation.py. Each stage of the
    source reads fields of a shared `data` dictionary and stores its result
    back with `returning`; here each stage is a function of the fields it
    reads, and `Run` threads the results from stage to stage as `main` does. */
module Golddust {
  import opened Common
  import opened Strings
  import opened Seqs
  import opened Dates
  import opened Io
  import opened Outcomes
  import opened Buckets

  const ArchiveUrl := "https://archive.luftdaten.info"

  /** `data['valid_sensors']` as `main` sets it. */
  const ValidSensors: seq<string> := ["sds011", "dht22"]

  /** The order in which `_sort_in` tests the sensor tokens. */
  const SortPriority: seq<string> := ["sds011", "dht22"]

  /** The dictionary `sort_sensor_types` starts its reduction from. */
  const InitialBuckets: Buckets := map["sds011" := [], "dht22" := []]

  const ProcessedPrefix := "processed_"

  /** `returning(data, key, structure)`: stores `data` under `key`; every
      other entry of the dictionary is left as it was. */
  function Returning<K, V>(data: V, key: K, structure: map<K, V>): (r: map<K, V>)
    ensures r.Keys == structure.Keys + {key}
    ensures r[key] == data
    ensures forall k :: k in structure && k != key ==> r[k] == structure[k]
  {
    structure[key := data]
  }

  // ---- Folder filter ----

  /** `valid_root_folder_link`: `strptime(link, '%Y-%m-%d')` does not raise. */
  predicate ValidRootFolderLink(link: string)
  {
    ParseDate(link).Some?
  }

  /** `valid_start_date_in_link`. With a start date it parses `link` again,
      which raises on a malformed name, so callers pass only names that parse. */
  predicate ValidStartDateInLink(link: string, startDate: Option<Date>)
    requires startDate.None? || ParseDate(link).Some?
  {
    startDate.None? || AtOrAfter(ParseDate(link).value, startDate.value)
  }

  /** A trimmed folder name passes both filters of `extract_root_folder_links`. */
  predicate KeepsFolder(startDate: Option<Date>, link: string)
  {
    ValidRootFolderLink(link) && ValidStartDateInLink(link, startDate)
  }

  function KeepsFolderTest(startDate: Option<Date>): string -> bool
  {
    link => KeepsFolder(startDate, link)
  }

  /** A folder name survives exactly when it spells a real calendar date that
      is on or after the start date, if one is set. */
  lemma KeepsFolderIff(startDate: Option<Date>, link: string)
    ensures KeepsFolder(startDate, link) <==>
              exists d :: Spells(link, d) && (startDate.None? || AtOrAfter(d, startDate.value))
  {
    if KeepsFolder(startDate, link) {
      ParseDateSpells(link, ParseDate(link).value);
    }
    if d :| Spells(link, d) && (startDate.None? || AtOrAfter(d, startDate.value)) {
      ParseDateSpells(link, d);
    }
  }

  /** The bound is inclusive: a folder named after a valid date survives
      exactly when that date is on or after the start date. */
  lemma StartDateInclusive(d: Date, start: Date)
    requires Valid(d)
    ensures KeepsFolder(Some(start), Format(d)) <==> AtOrAfter(d, start)
    ensures KeepsFolder(None, Format(d))
  {
    FormatParse(d);
  }

  /** `extract_root_folder_links`: trim the last character of every href, keep
      the names that pass the date filters, and prefix the archive URL. */
  function ExtractRootFolderLinks(url: string, hrefs: seq<string>, startDate: Option<Date>): (r: seq<string>)
    ensures |r| <= |hrefs|
    ensures forall u :: u in r <==>
              exists h :: h in hrefs && KeepsFolder(startDate, DropLast(h)) && u == url + "/" + DropLast(h)
  {
    var r := Map(JoinUnder(url), Filter(KeepsFolderTest(startDate), Filter(ValidRootFolderLink, Map(DropLast, hrefs))));
    assert forall u :: u in r <==>
             exists h :: h in hrefs && KeepsFolder(startDate, DropLast(h)) && u == url + "/" + DropLast(h) by {
      forall u
        ensures u in r <==> exists h :: h in hrefs && KeepsFolder(startDate, DropLast(h)) && u == url + "/" + DropLast(h)
      {
        RootFolderLinkMember(url, hrefs, startDate, u);
      }
    }
    r
  }

  /** The comprehension and the two filters of `extract_root_folder_links`
      keep exactly the trimmed names that satisfy `KeepsFolder`. */
  lemma RootFolderLinkMember(url: string, hrefs: seq<string>, startDate: Option<Date>, u: string)
    ensures u in Map(JoinUnder(url), Filter(KeepsFolderTest(startDate), Filter(ValidRootFolderLink, Map(DropLast, hrefs)))) <==>
            exists h :: h in hrefs && KeepsFolder(startDate, DropLast(h)) && u == url + "/" + DropLast(h)
  {
    var folderLinks := Map(DropLast, hrefs);
    var parsed := Filter(ValidRootFolderLink, folderLinks);
    var bounded := Filter(KeepsFolderTest(startDate), parsed);
    if u in Map(JoinUnder(url), bounded) {
      MapProvenance(JoinUnder(url), bounded, u);
      var j :| 0 <= j < |bounded| && JoinUnder(url)(bounded[j]) == u;
      var x := bounded[j];
      FilterMember(KeepsFolderTest(startDate), parsed, x);
      FilterMember(ValidRootFolderLink, folderLinks, x);
      MapProvenance(DropLast, hrefs, x);
      var k :| 0 <= k < |hrefs| && DropLast(hrefs[k]) == x;
      assert hrefs[k] in hrefs && KeepsFolder(startDate, DropLast(hrefs[k]));
    }
    if h :| h in hrefs && KeepsFolder(startDate, DropLast(h)) && u == url + "/" + DropLast(h) {
      MapMember(DropLast, hrefs, h);
      FilterMember(ValidRootFolderLink, folderLinks, DropLast(h));
      FilterMember(KeepsFolderTest(startDate), parsed, DropLast(h));
      MapMember(JoinUnder(url), bounded, DropLast(h));
    }
  }

  /** Order is preserved: the links of a concatenation are the links of each part, in turn. */
  lemma ExtractRootFolderLinksAppend(url: string, a: seq<string>, b: seq<string>, startDate: Option<Date>)
    ensures ExtractRootFolderLinks(url, a + b, startDate) ==
            ExtractRootFolderLinks(url, a, startDate) + ExtractRootFolderLinks(url, b, startDate)
  {
    MapAppend(DropLast, a, b);
    FilterAppend(ValidRootFolderLink, Map(DropLast, a), Map(DropLast, b));
    FilterAppend(KeepsFolderTest(startDate), Filter(ValidRootFolderLink, Map(DropLast, a)),
                 Filter(ValidRootFolderLink, Map(DropLast, b)));
    MapAppend(JoinUnder(url), Filter(KeepsFolderTest(startDate), Filter(ValidRootFolderLink, Map(DropLast, a))),
              Filter(KeepsFolderTest(startDate), Filter(ValidRootFolderLink, Map(DropLast, b))));
  }

  /** One href yields its trimmed folder URL when the trimmed name survives, and nothing otherwise. */
  lemma ExtractRootFolderLinksOne(url: string, h: string, startDate: Option<Date>)
    ensures ExtractRootFolderLinks(url, [h], startDate) ==
            if KeepsFolder(startDate, DropLast(h)) then [url + "/" + DropLast(h)] else []
  {
    assert Map(DropLast, [h]) == [DropLast(h)];
  }

  // ---- File-link filter ----

  /** The test in `_extract_file_links`: a CSV file of one of the wanted
      sensor types (`valid_sensor_in_file_link` is `ContainsAny`). */
  predicate WantedFile(validSensors: seq<string>, href: string)
  {
    Contains(href, ".csv") && ContainsAny(href, validSensors)
  }

  function WantedFileTest(validSensors: seq<string>): string -> bool
  {
    href => WantedFile(validSensors, href)
  }

  /** The comprehension of `_extract_file_links` over one folder's hrefs. */
  function FileLinksInListing(folderLink: string, hrefs: seq<string>, validSensors: seq<string>): (r: seq<string>)
    ensures |r| <= |hrefs|
    ensures forall l :: l in r <==> exists h :: h in hrefs && WantedFile(validSensors, h) && l == folderLink + "/" + h
    ensures |validSensors| == 0 ==> r == []
  {
    var wanted := Filter(WantedFileTest(validSensors), hrefs);
    var r := Map(JoinUnder(folderLink), wanted);
    assert forall l :: l in r <==> exists h :: h in hrefs && WantedFile(validSensors, h) && l == folderLink + "/" + h by {
      forall l
        ensures l in r <==> exists h :: h in hrefs && WantedFile(validSensors, h) && l == folderLink + "/" + h
      {
        if l in r {
          MapProvenance(JoinUnder(folderLink), wanted, l);
          var j :| 0 <= j < |wanted| && JoinUnder(folderLink)(wanted[j]) == l;
          assert wanted[j] in hrefs && WantedFile(validSensors, wanted[j]);
        }
        if h :| h in hrefs && WantedFile(validSensors, h) && l == folderLink + "/" + h {
          FilterMember(WantedFileTest(validSensors), hrefs, h);
          MapMember(JoinUnder(folderLink), wanted, h);
        }
      }
    }
    r
  }

  /** Order is preserved within one folder. */
  lemma FileLinksInListingAppend(folderLink: string, a: seq<string>, b: seq<string>, validSensors: seq<string>)
    ensures FileLinksInListing(folderLink, a + b, validSensors) ==
            FileLinksInListing(folderLink, a, validSensors) + FileLinksInListing(folderLink, b, validSensors)
  {
    FilterAppend(WantedFileTest(validSensors), a, b);
    MapAppend(JoinUnder(folderLink), Filter(WantedFileTest(validSensors), a), Filter(WantedFileTest(validSensors), b));
  }

  /** The list each pool task of `extract_file_links` returns, one per folder, in folder order. */
  function PerFolderFileLinks(folderLinks: seq<string>, pages: seq<seq<string>>, validSensors: seq<string>): seq<seq<string>>
    requires |pages| == |folderLinks|
  {
    seq(|folderLinks|, i requires 0 <= i < |folderLinks| => FileLinksInListing(folderLinks[i], pages[i], validSensors))
  }

  /** `extract_file_links`: every folder's file links, joined into one list.
      A listing request that raises is not caught, so it fails the stage. */
  function ExtractFileLinks(folderLinks: seq<string>, validSensors: seq<string>, listing: Listing): (r: Result<seq<string>>)
    ensures r.Failure? <==> exists i :: 0 <= i < |folderLinks| && listing(folderLinks[i]).None?
    ensures r.Failure? ==> r.error.RequestFailed?
    ensures r.Success? ==> forall l :: l in r.value <==>
              exists i, h :: 0 <= i < |folderLinks| && h in listing(folderLinks[i]).value &&
                             WantedFile(validSensors, h) && l == folderLinks[i] + "/" + h
  {
    match FetchListings(folderLinks, listing)
    case Failure(e) => Failure(e)
    case Success(pages) =>
      var r := Flatten(PerFolderFileLinks(folderLinks, pages, validSensors));
      assert forall l :: l in r <==>
               exists i, h :: 0 <= i < |folderLinks| && h in pages[i] && WantedFile(validSensors, h) && l == folderLinks[i] + "/" + h by {
        forall l
          ensures l in r <==>
                  exists i, h :: 0 <= i < |folderLinks| && h in pages[i] && WantedFile(validSensors, h) && l == folderLinks[i] + "/" + h
        {
          JoinedFileLinks(folderLinks, pages, validSensors, l);
        }
      }
      Success(r)
  }

  /** The joined per-folder lists hold exactly the wanted hrefs of each
      folder's page, each under its folder. */
  lemma JoinedFileLinks(folderLinks: seq<string>, pages: seq<seq<string>>, validSensors: seq<string>, l: string)
    requires |pages| == |folderLinks|
    ensures l in Flatten(PerFolderFileLinks(folderLinks, pages, validSensors)) <==>
            exists i, h :: 0 <= i < |folderLinks| && h in pages[i] && WantedFile(validSensors, h) && l == folderLinks[i] + "/" + h
  {
    var lists := PerFolderFileLinks(folderLinks, pages, validSensors);
    FlattenMember(lists, l);
    if l in Flatten(lists) {
      var i :| 0 <= i < |lists| && l in lists[i];
      var h :| h in pages[i] && WantedFile(validSensors, h) && l == folderLinks[i] + "/" + h;
    }
    if i, h :| 0 <= i < |folderLinks| && h in pages[i] && WantedFile(validSensors, h) && l == folderLinks[i] + "/" + h {
      assert l in lists[i];
    }
  }

  /** The pool returns the per-folder lists in completion order. Whatever that
      order, the joined list has the same elements, each as often. */
  lemma ExtractFileLinksUnordered(folderLinks: seq<string>, validSensors: seq<string>, listing: Listing,
                                  pages: seq<seq<string>>, done: seq<seq<string>>)
    requires FetchListings(folderLinks, listing) == Success(pages)
    requires multiset(done) == multiset(PerFolderFileLinks(folderLinks, pages, validSensors))
    ensures ExtractFileLinks(folderLinks, validSensors, listing).Success?
    ensures multiset(Flatten(done)) == multiset(ExtractFileLinks(folderLinks, validSensors, listing).value)
  {
    FlattenPermutation(done, PerFolderFileLinks(folderLinks, pages, validSensors));
  }

  // ---- Content filter and per-file outcome ----

  /** `_contains_location`: the first value of the `location` column, if the
      column exists and is non-empty, is one of the accepted locations. */
  predicate ContainsLocation(df: Table, locations: seq<string>)
    ensures ContainsLocation(df, locations) <==>
              LocationColumn in df && |df[LocationColumn]| > 0 && df[LocationColumn][0] in locations
  {
    match FirstLocation(df)
    case None => false
    case Some(v) => v in locations
  }

  /** Only the first row is consulted: replacing every later row and every
      other column leaves the decision unchanged. */
  lemma ContainsLocationFirstRowOnly(df: Table, other: Table, locations: seq<string>)
    requires FirstLocation(df) == FirstLocation(other)
    ensures ContainsLocation(df, locations) == ContainsLocation(other, locations)
  {
  }

  /** `_fetch_file_links`: read the file, keep it when its location is wanted,
      and write it to `save_dir + basename(link)`; anything that raises turns
      into the link being reported back. */
  function FetchFileLink(fileLink: string, locations: seq<string>, saveDir: string, read: Reader, write: Writer): (r: Outcome)
    ensures r.Accepted? <==>
              read(fileLink).Some? && ContainsLocation(read(fileLink).value, locations) && write(saveDir + Basename(fileLink))
    ensures r.Accepted? ==> r.path == saveDir + Basename(fileLink)
    ensures r.Rejected? <==> read(fileLink).Some? && !ContainsLocation(read(fileLink).value, locations)
    ensures r.Failed? ==> r.link == fileLink
  {
    match read(fileLink)
    case None => Failed(fileLink)
    case Some(df) =>
      if ContainsLocation(df, locations) then
        var path := saveDir + Basename(fileLink);
        if write(path) then Accepted(path) else Failed(fileLink)
      else Rejected
  }

  /** The path is a plain concatenation: the saved file keeps the link's base
      name when `save_dir` ends in '/', and is glued onto the directory's name otherwise. */
  lemma AcceptedPathKeepsBasename(fileLink: string, saveDir: string)
    ensures (|saveDir| == 0 || saveDir[|saveDir| - 1] == '/') ==> Basename(saveDir + Basename(fileLink)) == Basename(fileLink)
    ensures |saveDir| > 0 && saveDir[|saveDir| - 1] != '/' && '/' !in saveDir ==>
              Basename(saveDir + Basename(fileLink)) == saveDir + Basename(fileLink)
  {
    var name := Basename(fileLink);
    if |saveDir| == 0 || saveDir[|saveDir| - 1] == '/' {
      BasenameOfJoin(saveDir, name);
    }
    if |saveDir| > 0 && saveDir[|saveDir| - 1] != '/' && '/' !in saveDir {
      BasenameOfJoin("", saveDir + name);
      assert "" + (saveDir + name) == saveDir + name;
    }
  }

  function FetchWorker(locations: seq<string>, saveDir: string, read: Reader, write: Writer): string -> Outcome
  {
    link => FetchFileLink(link, locations, saveDir, read, write)
  }

  /** The unpacking `file_paths, error_links = zip(*results)` and the two
      `None` filters. With no results `zip()` yields nothing to unpack and
      the assignment raises `ValueError`. */
  function SplitResults(results: seq<Outcome>): (r: Result<(seq<string>, seq<string>)>)
    ensures r.Failure? <==> |results| == 0
    ensures r.Failure? ==> r.error.ValueError?
    ensures r.Success? ==> |r.value.0| == CountAccepted(results) && |r.value.1| == CountFailed(results)
    ensures r.Success? ==> |r.value.0| + |r.value.1| + CountRejected(results) == |results|
    ensures r.Success? ==> forall p :: p in r.value.0 <==> Accepted(p) in results
    ensures r.Success? ==> forall l :: l in r.value.1 <==> Failed(l) in results
    ensures r.Success? ==> forall p {:trigger multiset(r.value.0)[p]} :: multiset(r.value.0)[p] == multiset(results)[Accepted(p)]
    ensures r.Success? ==> forall l {:trigger multiset(r.value.1)[l]} :: multiset(r.value.1)[l] == multiset(results)[Failed(l)]
  {
    if |results| == 0 then Failure(ValueError("not enough values to unpack (expected 2, got 0)"))
    else
      SplitCounts(results);
      assert forall p :: multiset(AcceptedPaths(results))[p] == multiset(results)[Accepted(p)] by {
        forall p ensures multiset(AcceptedPaths(results))[p] == multiset(results)[Accepted(p)] { AcceptedCount(results, p); }
      }
      assert forall l :: multiset(ErrorLinks(results))[l] == multiset(results)[Failed(l)] by {
        forall l ensures multiset(ErrorLinks(results))[l] == multiset(results)[Failed(l)] { FailedCount(results, l); }
      }
      assert forall p :: p in AcceptedPaths(results) <==> Accepted(p) in results by {
        forall p ensures p in AcceptedPaths(results) <==> Accepted(p) in results { AcceptedMember(results, p); }
      }
      assert forall l :: l in ErrorLinks(results) <==> Failed(l) in results by {
        forall l ensures l in ErrorLinks(results) <==> Failed(l) in results { FailedMember(results, l); }
      }
      Success((AcceptedPaths(results), ErrorLinks(results)))
  }

  /** `fetch_file_links`: run the worker on every file link and split the outcomes. */
  function FetchFileLinks(fileLinks: seq<string>, locations: seq<string>, saveDir: string,
                          read: Reader, write: Writer): (r: Result<(seq<string>, seq<string>)>)
    ensures r.Failure? <==> |fileLinks| == 0
    ensures r.Success? ==> forall p :: p in r.value.0 <==>
              exists l :: l in fileLinks && FetchFileLink(l, locations, saveDir, read, write) == Accepted(p)
    ensures r.Success? ==> forall l :: l in r.value.1 <==>
              l in fileLinks && FetchFileLink(l, locations, saveDir, read, write).Failed?
    ensures r.Success? ==> |r.value.0| + |r.value.1| <= |fileLinks|
    ensures r.Success? ==> forall p {:trigger multiset(r.value.0)[p]} ::
              multiset(r.value.0)[p] == multiset(Map(FetchWorker(locations, saveDir, read, write), fileLinks))[Accepted(p)]
    ensures r.Success? ==> forall l {:trigger multiset(r.value.1)[l]} ::
              multiset(r.value.1)[l] == multiset(Map(FetchWorker(locations, saveDir, read, write), fileLinks))[Failed(l)]
  {
    FetchedOutcomes(fileLinks, locations, saveDir, read, write);
    SplitResults(Map(FetchWorker(locations, saveDir, read, write), fileLinks))
  }

  /** The pool's outcomes are exactly the worker's outcomes on the file links. */
  lemma FetchedOutcomes(fileLinks: seq<string>, locations: seq<string>, saveDir: string, read: Reader, write: Writer)
    ensures forall o :: o in Map(FetchWorker(locations, saveDir, read, write), fileLinks) <==>
              exists l :: l in fileLinks && o == FetchFileLink(l, locations, saveDir, read, write)
  {
    var worker := FetchWorker(locations, saveDir, read, write);
    forall o ensures o in Map(worker, fileLinks) <==> exists l :: l in fileLinks && o == FetchFileLink(l, locations, saveDir, read, write) {
      if o in Map(worker, fileLinks) {
        MapProvenance(worker, fileLinks, o);
      }
      if l :| l in fileLinks && o == FetchFileLink(l, locations, saveDir, read, write) {
        MapMember(worker, fileLinks, l);
      }
    }
  }

  /** The pool returns the outcomes in completion order. Whatever that order,
      the accepted paths and the error links are the same multisets. */
  lemma FetchFileLinksUnordered(fileLinks: seq<string>, locations: seq<string>, saveDir: string,
                                read: Reader, write: Writer, done: seq<Outcome>)
    requires |fileLinks| > 0
    requires multiset(done) == multiset(Map(FetchWorker(locations, saveDir, read, write), fileLinks))
    ensures SplitResults(done).Success?
    ensures multiset(SplitResults(done).value.0) == multiset(FetchFileLinks(fileLinks, locations, saveDir, read, write).value.0)
    ensures multiset(SplitResults(done).value.1) == multiset(FetchFileLinks(fileLinks, locations, saveDir, read, write).value.1)
  {
    var results := Map(FetchWorker(locations, saveDir, read, write), fileLinks);
    assert |done| == |multiset(done)| == |results|;
    SplitPermutation(done, results);
  }

  // ---- Partition by sensor type ----

  /** `_sort_in`: append the path to the first sensor bucket whose token it
      contains, testing `sds011` before `dht22`; any other path is dropped. */
  function SortIn(d: Buckets, filePath: string): Result<Buckets>
  {
    if Contains(filePath, "sds011") then Append(d, "sds011", filePath)
    else if Contains(filePath, "dht22") then Append(d, "dht22", filePath)
    else Success(d)
  }

  /** The priority list picks `sds011` first, then `dht22`. */
  lemma ClassifyBySortPriority(filePath: string)
    ensures Classify(SortPriority, filePath) ==
              if Contains(filePath, "sds011") then Some("sds011")
              else if Contains(filePath, "dht22") then Some("dht22")
              else None
  {
    assert SortPriority[1..] == ["dht22"];
    assert SortPriority[1..][1..] == [];
  }

  /** One `_sort_in` step on a dictionary holding both buckets appends the
      path to the bucket it is classified to and changes nothing else. */
  lemma SortInStep(d: Buckets, filePath: string)
    requires d.Keys == InitialBuckets.Keys
    ensures SortIn(d, filePath).Success?
    ensures SortIn(d, filePath).value.Keys == d.Keys
    ensures forall k :: k in d ==>
              SortIn(d, filePath).value[k] == d[k] + if ClassifiedAs(SortPriority, k)(filePath) then [filePath] else []
  {
    ClassifyBySortPriority(filePath);
  }

  /** Folding `_sort_in` over paths, from any dictionary holding both buckets,
      appends to each bucket exactly the paths classified to it, in order. */
  lemma SortReduce(d: Buckets, paths: seq<string>, k: string)
    requires d.Keys == InitialBuckets.Keys && k in d
    ensures Reduce(SortIn, d, paths).Success? && Reduce(SortIn, d, paths).value.Keys == d.Keys
    ensures Reduce(SortIn, d, paths).value[k] == d[k] + Filter(ClassifiedAs(SortPriority, k), paths)
  {
    forall d0: Buckets, p | d0.Keys == d.Keys
      ensures SortIn(d0, p).Success? && SortIn(d0, p).value.Keys == d0.Keys
      ensures SortIn(d0, p).value[k] == d0[k] + if ClassifiedAs(SortPriority, k)(p) then [p] else []
    {
      SortInStep(d0, p);
    }
    ReduceAppendsMatching(SortIn, ClassifiedAs(SortPriority, k), d, k, paths);
  }

  /** `sort_sensor_types`: `reduce(_sort_in, file_paths, {'sds011': [], 'dht22': []})`.
      It never raises, and each bucket holds, in input order, exactly the
      paths classified to it. */
  function SortSensorTypes(filePaths: seq<string>): (r: Result<Buckets>)
    ensures r.Success? && r.value.Keys == {"sds011", "dht22"}
    ensures r.Success? ==> r.value["sds011"] == Filter(ClassifiedAs(SortPriority, "sds011"), filePaths)
    ensures r.Success? ==> r.value["dht22"] == Filter(ClassifiedAs(SortPriority, "dht22"), filePaths)
  {
    SortReduce(InitialBuckets, filePaths, "sds011");
    SortReduce(InitialBuckets, filePaths, "dht22");
    Reduce(SortIn, InitialBuckets, filePaths)
  }

  /** What the buckets hold, in terms of substrings: `sds011` wins over
      `dht22`, and a path containing neither is in no bucket. */
  lemma SortSensorTypesContents(filePaths: seq<string>, p: string)
    ensures p in SortSensorTypes(filePaths).value["sds011"] <==> p in filePaths && Contains(p, "sds011")
    ensures p in SortSensorTypes(filePaths).value["dht22"] <==>
              p in filePaths && !Contains(p, "sds011") && Contains(p, "dht22")
  {
    ClassifyBySortPriority(p);
    FilterMember(ClassifiedAs(SortPriority, "sds011"), filePaths, p);
    FilterMember(ClassifiedAs(SortPriority, "dht22"), filePaths, p);
  }

  /** Every path goes to at most one bucket: the two buckets and the dropped
      paths together are exactly the input. */
  lemma SortSensorTypesPartition(filePaths: seq<string>)
    ensures multiset(filePaths) ==
              multiset(SortSensorTypes(filePaths).value["sds011"]) + multiset(SortSensorTypes(filePaths).value["dht22"]) +
              multiset(Filter(Unclassified(SortPriority), filePaths))
  {
    ClassifyPartitions(SortPriority, filePaths);
    var sds, dht := ClassifiedAs(SortPriority, "sds011"), ClassifiedAs(SortPriority, "dht22");
    assert SortPriority[1..] == ["dht22"];
    assert SortPriority[1..][1..] == [];
    assert SumOfBuckets(SortPriority, ["dht22"], filePaths) == multiset(Filter(dht, filePaths));
    assert SumOfBuckets(SortPriority, SortPriority, filePaths) ==
           multiset(Filter(sds, filePaths)) + multiset(Filter(dht, filePaths));
  }

  /** Reordering the accepted paths reorders each bucket and moves no path
      to another bucket. */
  lemma SortSensorTypesUnordered(ps: seq<string>, qs: seq<string>)
    requires multiset(ps) == multiset(qs)
    ensures multiset(SortSensorTypes(ps).value["sds011"]) == multiset(SortSensorTypes(qs).value["sds011"])
    ensures multiset(SortSensorTypes(ps).value["dht22"]) == multiset(SortSensorTypes(qs).value["dht22"])
  {
    FilterPermutation(ClassifiedAs(SortPriority, "sds011"), ps, qs);
    FilterPermutation(ClassifiedAs(SortPriority, "dht22"), ps, qs);
  }

  // ---- Consolidation ----

  /** `postprocess_sensor_data`: for every wanted sensor type in order, skip
      an empty bucket; otherwise hand the bucket to the CSV combiner (not
      modelled) and record `'processed_' + path` for each of its paths.
      Subscripting a sensor type that has no bucket raises `KeyError`. */
  method PostprocessSensorData(validSensors: seq<string>, buckets: Buckets) returns (r: Result<map<string, seq<string>>>)
    ensures r.Success? <==> forall s :: s in validSensors ==> s in buckets
    ensures r.Failure? ==> r.error.KeyError? && r.error.key in validSensors && r.error.key !in buckets
    ensures r.Success? ==> forall s :: s in r.value <==> s in validSensors && |buckets[s]| > 0
    ensures r.Success? ==> forall s :: s in r.value ==>
              |r.value[s]| == |buckets[s]| &&
              forall i :: 0 <= i < |buckets[s]| ==> r.value[s][i] == ProcessedPrefix + buckets[s][i]
  {
    var processed: map<string, seq<string>> := map[];
    var i := 0;
    while i < |validSensors|
      invariant 0 <= i <= |validSensors|
      invariant forall j :: 0 <= j < i ==> validSensors[j] in buckets
      invariant forall s :: s in processed <==> s in validSensors[..i] && |buckets[s]| > 0
      invariant forall s :: s in processed ==>
                  |processed[s]| == |buckets[s]| &&
                  forall k :: 0 <= k < |buckets[s]| ==> processed[s][k] == ProcessedPrefix + buckets[s][k]
    {
      var sensorType := validSensors[i];
      if sensorType !in buckets {
        return Failure(KeyError(sensorType));
      }
      if |buckets[sensorType]| == 0 {
        i := i + 1;
        continue;
      }
      // The CSV combiner aligns and writes the bucket's files here.
      processed := processed[sensorType := Map(PrefixWith(ProcessedPrefix), buckets[sensorType])];
      i := i + 1;
    }
    assert validSensors[..i] == validSensors;
    return Success(processed);
  }

  // ---- The whole pipeline ----

  /** What one run of `main` produces: the lists its stages store in the
      `data` dictionary, plus the error links `fetch_file_links` computes
      but does not store. */
  datatype Crawl = Crawl(folderLinks: seq<string>, fileLinks: seq<string>, filePaths: seq<string>,
                         errorLinks: seq<string>, buckets: Buckets, processed: map<string, seq<string>>)

  /** The download half of `main`: read the archive's root listing, pick the
      date folders, collect the wanted file links and fetch each of them. */
  function Download(locations: seq<string>, saveDir: string, startDate: Option<Date>,
                    listing: Listing, read: Reader, write: Writer): (r: Result<(seq<string>, seq<string>, (seq<string>, seq<string>))>)
    ensures r.Failure? ==> r.error.RequestFailed? || r.error.ValueError?
    ensures listing(ArchiveUrl).None? ==> r == Failure(RequestFailed(ArchiveUrl))
    ensures listing(ArchiveUrl).Some? ==>
              var fileLinks := ExtractFileLinks(ExtractRootFolderLinks(ArchiveUrl, listing(ArchiveUrl).value, startDate), ValidSensors, listing);
              (fileLinks.Failure? ==> r == Failure(fileLinks.error)) &&
              (r.Failure? && r.error.ValueError? <==> fileLinks == Success([])) &&
              (fileLinks.Success? && |fileLinks.value| > 0 ==> r.Success?)
    ensures r.Success? ==> FetchFileLinks(r.value.1, locations, saveDir, read, write) == Success(r.value.2)
    ensures r.Success? ==>
              listing(ArchiveUrl).Some? &&
              r.value.0 == ExtractRootFolderLinks(ArchiveUrl, listing(ArchiveUrl).value, startDate) &&
              ExtractFileLinks(r.value.0, ValidSensors, listing) == Success(r.value.1)
    ensures r.Success? ==> forall p :: p in r.value.2.0 <==>
              exists l :: l in r.value.1 && FetchFileLink(l, locations, saveDir, read, write) == Accepted(p)
    ensures r.Success? ==> forall l :: l in r.value.2.1 <==>
              l in r.value.1 && FetchFileLink(l, locations, saveDir, read, write).Failed?
  {
    match listing(ArchiveUrl)
    case None => Failure(RequestFailed(ArchiveUrl))
    case Some(hrefs) =>
      var folderLinks := ExtractRootFolderLinks(ArchiveUrl, hrefs, startDate);
      match ExtractFileLinks(folderLinks, ValidSensors, listing)
      case Failure(e) => Failure(e)
      case Success(fileLinks) =>
        match FetchFileLinks(fileLinks, locations, saveDir, read, write)
        case Failure(e) => Failure(e)
        case Success(fetched) => Success((folderLinks, fileLinks, fetched))
  }

  /** The local half of `main`: sort the downloaded paths by sensor type and
      consolidate every non-empty bucket. */
  method Consolidate(filePaths: seq<string>) returns (buckets: Buckets, processed: map<string, seq<string>>)
    ensures buckets == SortSensorTypes(filePaths).value
    ensures forall k, i :: k in buckets && 0 <= i < |buckets[k]| ==> buckets[k][i] in filePaths && Contains(buckets[k][i], k)
    ensures forall s :: s in processed <==> s in ValidSensors && s in buckets && |buckets[s]| > 0
    ensures forall s :: s in processed ==>
              |processed[s]| == |buckets[s]| &&
              forall i :: 0 <= i < |buckets[s]| ==> processed[s][i] == ProcessedPrefix + buckets[s][i]
  {
    buckets := SortSensorTypes(filePaths).value;
    SortedPathsSound(filePaths);
    assert forall s :: s in ValidSensors ==> s in buckets;
    var r := PostprocessSensorData(ValidSensors, buckets);
    processed := r.value;
  }

  /** Every sorted path was among the input and contains its bucket's token. */
  lemma SortedPathsSound(filePaths: seq<string>)
    ensures forall k, i :: k in SortSensorTypes(filePaths).value && 0 <= i < |SortSensorTypes(filePaths).value[k]| ==>
              SortSensorTypes(filePaths).value[k][i] in filePaths && Contains(SortSensorTypes(filePaths).value[k][i], k)
  {
    var buckets := SortSensorTypes(filePaths).value;
    forall k, i | k in buckets && 0 <= i < |buckets[k]|
      ensures buckets[k][i] in filePaths && Contains(buckets[k][i], k)
    {
      SortSensorTypesContents(filePaths, buckets[k][i]);
    }
  }

  /** `main`: the stages in order, each reading what the previous one
      stored, with the pools' results taken in input order. The closing
      `clean_up` only deletes files and is not modelled. */
  method Run(locations: seq<string>, saveDir: string, startDate: Option<Date>,
             listing: Listing, read: Reader, write: Writer) returns (r: Result<Crawl>)
    ensures r.Failure? ==> Download(locations, saveDir, startDate, listing, read, write) == Failure(r.error)
    ensures r.Success? ==>
              Download(locations, saveDir, startDate, listing, read, write) ==
              Success((r.value.folderLinks, r.value.fileLinks, (r.value.filePaths, r.value.errorLinks)))
    ensures r.Success? ==> r.value.buckets == SortSensorTypes(r.value.filePaths).value
    ensures r.Failure? ==> r.error.RequestFailed? || r.error.ValueError?
    ensures r.Success? ==> forall p :: p in r.value.filePaths <==>
              exists l :: l in r.value.fileLinks && FetchFileLink(l, locations, saveDir, read, write) == Accepted(p)
    ensures r.Success? ==> forall l :: l in r.value.errorLinks <==>
              l in r.value.fileLinks && FetchFileLink(l, locations, saveDir, read, write).Failed?
    ensures r.Success? ==> forall k, i :: k in r.value.buckets && 0 <= i < |r.value.buckets[k]| ==>
              r.value.buckets[k][i] in r.value.filePaths && Contains(r.value.buckets[k][i], k)
    ensures r.Success? ==> forall s :: s in r.value.processed <==>
              s in ValidSensors && s in r.value.buckets && |r.value.buckets[s]| > 0
    ensures r.Success? ==> forall s :: s in r.value.processed ==>
              |r.value.processed[s]| == |r.value.buckets[s]| &&
              forall i :: 0 <= i < |r.value.buckets[s]| ==> r.value.processed[s][i] == ProcessedPrefix + r.value.buckets[s][i]
  {
    var downloaded := Download(locations, saveDir, startDate, listing, read, write);
    if downloaded.Failure? {
      return Failure(downloaded.error);
    }
    var (folderLinks, fileLinks, fetched) := downloaded.value;
    var buckets, processed := Consolidate(fetched.0);
    return Success(Crawl(folderLinks, fileLinks, fetched.0, fetched.1, buckets, processed));
  }
}
