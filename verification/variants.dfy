/** The two crawlers side by side. The refactored script trims the folder
    href before building its URL, joins file names with a `/`, drops paths
    that name no wanted sensor and does not know `bme280`; the original keeps
    the href's trailing `/`, appends file names directly and raises on an
    unmatched path. These lemmas state where the two agree and where not. */
module Variants {
  import opened Common
  import opened Strings
  import opened Seqs
  import opened Dates
  import opened Io
  import opened Outcomes
  import opened Buckets
  import Golddust
  import Legacy

  // ---- Folders ----

  /** The original's `valid_link` is the refactored folder filter, applied to
      the trimmed href, with the start date fixed to 2018-01-01. */
  lemma FolderTestsAgree(h: string)
    ensures Legacy.ValidLink(h) <==> Golddust.KeepsFolder(Some(Legacy.StartDate), DropLast(h))
  {
  }

  /** A valid folder href is never empty, so trimming the original's URL
      trims the href inside it. */
  lemma TrimValidFolderUrl(h: string)
    requires Legacy.ValidLink(h)
    ensures DropLast(Legacy.Url + "/" + h) == Legacy.Url + "/" + DropLast(h)
  {
    assert |DropLast(h)| >= 8;
    assert (Legacy.Url + "/" + h)[..|Legacy.Url + "/" + h| - 1] == Legacy.Url + "/" + h[..|h| - 1];
  }

  /** The two scripts follow the same folders: trimming the last character
      of each of the original's folder URLs gives the refactored script's
      list, in the same order, when its start date is 2018-01-01. */
  lemma {:induction false} FolderLinksAgree(hrefs: seq<string>)
    ensures Map(DropLast, Legacy.FolderUrls(hrefs)) ==
            Golddust.ExtractRootFolderLinks(Golddust.ArchiveUrl, hrefs, Some(Legacy.StartDate))
    decreases |hrefs|
  {
    if |hrefs| != 0 {
      var h, rest := hrefs[0], hrefs[1..];
      assert hrefs == [h] + rest;
      FolderLinksAgree(rest);
      Legacy.FolderUrlsAppend([h], rest);
      Legacy.FolderUrlsOne(h);
      MapAppend(DropLast, Legacy.FolderUrls([h]), Legacy.FolderUrls(rest));
      Golddust.ExtractRootFolderLinksAppend(Golddust.ArchiveUrl, [h], rest, Some(Legacy.StartDate));
      Golddust.ExtractRootFolderLinksOne(Golddust.ArchiveUrl, h, Some(Legacy.StartDate));
      FolderTestsAgree(h);
      if Legacy.ValidLink(h) {
        TrimValidFolderUrl(h);
        assert Map(DropLast, [Legacy.Url + "/" + h]) == [DropLast(Legacy.Url + "/" + h)];
      }
    }
  }

  // ---- File links ----

  /** The original's file test is the refactored one with the original's
      three sensor types. */
  lemma FileTestsAgree(h: string)
    ensures Legacy.CsvOfSensor(h) <==> Golddust.WantedFile(Legacy.Sensors, h)
  {
  }

  /** Appending to a folder URL that ends in `/` is joining under the URL
      without it: the original's links equal the refactored script's when
      both look for the same sensor types. */
  lemma FileLinksAgree(folder: string, hrefs: seq<string>)
    ensures Legacy.GetFileLinks(folder + "/", hrefs) == Golddust.FileLinksInListing(folder, hrefs, Legacy.Sensors)
  {
    FilterCongruent(Legacy.CsvOfSensor, Golddust.WantedFileTest(Legacy.Sensors), hrefs);
    var wanted := Filter(Legacy.CsvOfSensor, hrefs);
    assert forall i :: 0 <= i < |wanted| ==> PrefixWith(folder + "/")(wanted[i]) == JoinUnder(folder)(wanted[i]);
  }

  /** The original's folder URL for a slash-terminated href is the
      refactored one plus a `/`, so both build the same file links from the
      same page. */
  lemma FolderFileLinksAgree(h: string, hrefs: seq<string>)
    requires Legacy.ValidLink(h) && h[|h| - 1] == '/'
    ensures Legacy.GetFileLinks(Legacy.Url + "/" + h, hrefs) ==
            Golddust.FileLinksInListing(Golddust.ArchiveUrl + "/" + DropLast(h), hrefs, Legacy.Sensors)
  {
    TrimValidFolderUrl(h);
    assert h == DropLast(h) + "/";
    assert Legacy.Url + "/" + h == (Golddust.ArchiveUrl + "/" + DropLast(h)) + "/";
    FileLinksAgree(Golddust.ArchiveUrl + "/" + DropLast(h), hrefs);
  }

  /** The refactored script wants fewer sensor types: every file link it
      builds, the original's test would have kept too. */
  lemma FewerSensorTypes(folder: string, hrefs: seq<string>, l: string)
    requires l in Golddust.FileLinksInListing(folder, hrefs, Golddust.ValidSensors)
    ensures l in Golddust.FileLinksInListing(folder, hrefs, Legacy.Sensors)
  {
    var h :| h in hrefs && Golddust.WantedFile(Golddust.ValidSensors, h) && l == folder + "/" + h;
    var k :| 0 <= k < |Golddust.ValidSensors| && Contains(h, Golddust.ValidSensors[k]);
    assert Legacy.Sensors[k] == Golddust.ValidSensors[k];
  }

  // ---- Fetching ----

  /** The per-file worker is the same in both scripts once the original's
      location ids and save directory are passed in. */
  lemma FetchAgrees(link: string, read: Reader, write: Writer)
    ensures Legacy.Fetch(link, read, write) == Golddust.FetchFileLink(link, Legacy.LocationIds, Legacy.SaveDir, read, write)
  {
  }

  // ---- Sorting ----

  /** Without `bme280` in a path the two priority lists pick the same token. */
  lemma ClassifyAgrees(p: string)
    requires !Contains(p, "bme280")
    ensures Classify(Legacy.SortPriority, p) == Classify(Golddust.SortPriority, p)
  {
    Legacy.ClassifyBySortPriority(p);
    Golddust.ClassifyBySortPriority(p);
  }

  /** Without `bme280` in any path, both priority lists fill a bucket alike. */
  lemma BucketsAgree(paths: seq<string>, k: string)
    requires forall i :: 0 <= i < |paths| ==> !Contains(paths[i], "bme280")
    ensures Filter(ClassifiedAs(Legacy.SortPriority, k), paths) == Filter(ClassifiedAs(Golddust.SortPriority, k), paths)
  {
    forall i | 0 <= i < |paths|
      ensures ClassifiedAs(Legacy.SortPriority, k)(paths[i]) == ClassifiedAs(Golddust.SortPriority, k)(paths[i])
    {
      ClassifyAgrees(paths[i]);
    }
    FilterCongruent(ClassifiedAs(Legacy.SortPriority, k), ClassifiedAs(Golddust.SortPriority, k), paths);
  }

  /** Without `bme280` in any path, the original's `bme280` bucket stays empty. */
  lemma NoBme280Bucket(paths: seq<string>)
    requires forall i :: 0 <= i < |paths| ==> !Contains(paths[i], "bme280")
    ensures Filter(ClassifiedAs(Legacy.SortPriority, "bme280"), paths) == []
  {
    var bme := Filter(ClassifiedAs(Legacy.SortPriority, "bme280"), paths);
    if |bme| != 0 {
      Legacy.ClassifyBySortPriority(bme[0]);
    }
  }

  /** On paths that do not name `bme280`, the original's sort succeeds
      exactly when the refactored one drops nothing, and then both fill the
      `sds011` and `dht22` buckets alike and the original's `bme280` bucket
      stays empty. */
  lemma SortAgreesWithoutBme280(paths: seq<string>)
    requires forall i :: 0 <= i < |paths| ==> !Contains(paths[i], "bme280")
    ensures Legacy.SortLinks(paths).Success? <==>
              forall i :: 0 <= i < |paths| ==> ContainsAny(paths[i], Golddust.SortPriority)
    ensures Legacy.SortLinks(paths).Success? ==>
              Legacy.SortLinks(paths).value["sds011"] == Golddust.SortSensorTypes(paths).value["sds011"] &&
              Legacy.SortLinks(paths).value["dht22"] == Golddust.SortSensorTypes(paths).value["dht22"] &&
              Legacy.SortLinks(paths).value["bme280"] == []
  {
    forall i | 0 <= i < |paths| ensures ContainsAny(paths[i], Legacy.SortPriority) <==> ContainsAny(paths[i], Golddust.SortPriority) {
      ClassifyAgrees(paths[i]);
    }
    if Legacy.SortLinks(paths).Success? {
      var b := Legacy.SortLinks(paths).value;
      assert "sds011" in b && "dht22" in b && "bme280" in b;
      BucketsAgree(paths, "sds011");
      BucketsAgree(paths, "dht22");
      NoBme280Bucket(paths);
    }
  }
}
