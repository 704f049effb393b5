/** The original crawler, data_preparation.py at the repository root. The
    script runs top to bottom with fixed settings; here each of its steps is a
    function, and `Run` performs them in the script's order. */
module Legacy {
  import opened Common
  import opened Strings
  import opened Seqs
  import opened Dates
  import opened Io
  import opened Outcomes
  import opened Buckets

  const Url := "https://archive.luftdaten.info"

  /** `sensors`: the wanted sensor types, in the order the consolidation loop visits them. */
  const Sensors: seq<string> := ["sds011", "dht22", "bme280"]

  /** `location_ids`: the accepted values of a file's first `location` cell. */
  const LocationIds: seq<string> := ["10574", "3123", "6367", "8732", "3642"]

  /** `start_date`, the text "2018-01-01" parsed. A `datetime` is always
      truthy, so the script's `if not start_date` branch is never taken. */
  const StartDate := Date(2018, 1, 1)

  const SaveDir := "data/"

  /** The order in which `sort_in` tests the sensor tokens. */
  const SortPriority: seq<string> := ["bme280", "sds011", "dht22"]

  /** The dictionary the script sorts into. */
  const InitialBuckets: Buckets := map["bme280" := [], "sds011" := [], "dht22" := []]

  /** The key `sort_in` appends an unmatched link to; the dictionary has no such key. */
  const Unmatched := "none"

  /** The start date is what `strptime` makes of its text. */
  lemma StartDateParses()
    ensures ParseDate("2018-01-01") == Some(StartDate)
  {
    FormatParse(StartDate);
    assert Format(StartDate) == "2018-01-01";
  }

  // ---- Folder links ----

  /** `valid_link`: the href without its last character is a date that
      `strptime` accepts, on or after the start date. */
  predicate ValidLink(href: string)
  {
    match ParseDate(DropLast(href))
    case None => false
    case Some(d) => AtOrAfter(d, StartDate)
  }

  /** A folder href is followed exactly when, less its last character, it
      spells a real date on or after 2018-01-01. */
  lemma ValidLinkIff(href: string)
    ensures ValidLink(href) <==> exists d :: Spells(DropLast(href), d) && AtOrAfter(d, StartDate)
  {
    if ParseDate(DropLast(href)).Some? {
      ParseDateSpells(DropLast(href), ParseDate(DropLast(href)).value);
    }
    if d :| Spells(DropLast(href), d) && AtOrAfter(d, StartDate) {
      ParseDateSpells(DropLast(href), d);
    }
  }

  /** The two comprehensions over the root page's anchors: keep the hrefs
      `valid_link` accepts, untrimmed, and put them under the archive URL. */
  function FolderUrls(hrefs: seq<string>): (r: seq<string>)
    ensures |r| <= |hrefs|
    ensures forall u :: u in r <==> exists h :: h in hrefs && ValidLink(h) && u == Url + "/" + h
  {
    var kept := Filter(ValidLink, hrefs);
    var r := Map(JoinUnder(Url), kept);
    assert forall u :: u in r <==> exists h :: h in hrefs && ValidLink(h) && u == Url + "/" + h by {
      forall u
        ensures u in r <==> exists h :: h in hrefs && ValidLink(h) && u == Url + "/" + h
      {
        if u in r {
          MapProvenance(JoinUnder(Url), kept, u);
          var j :| 0 <= j < |kept| && JoinUnder(Url)(kept[j]) == u;
          assert kept[j] in hrefs && ValidLink(kept[j]);
        }
        if h :| h in hrefs && ValidLink(h) && u == Url + "/" + h {
          FilterMember(ValidLink, hrefs, h);
          MapMember(JoinUnder(Url), kept, h);
        }
      }
    }
    r
  }

  /** Order is preserved: the folder URLs of a concatenation are those of each part, in turn. */
  lemma FolderUrlsAppend(a: seq<string>, b: seq<string>)
    ensures FolderUrls(a + b) == FolderUrls(a) + FolderUrls(b)
  {
    FilterAppend(ValidLink, a, b);
    MapAppend(JoinUnder(Url), Filter(ValidLink, a), Filter(ValidLink, b));
  }

  /** One href yields its untrimmed folder URL when it is valid, and nothing otherwise. */
  lemma FolderUrlsOne(h: string)
    ensures FolderUrls([h]) == if ValidLink(h) then [Url + "/" + h] else []
  {
    assert [h][1..] == [];
  }

  // ---- File links ----

  /** `valid_sensor`: the text names one of the wanted sensor types. */
  predicate ValidSensor(link: string)
    ensures ValidSensor(link) <==> Contains(link, "sds011") || Contains(link, "dht22") || Contains(link, "bme280")
  {
    assert Sensors[0] == "sds011" && Sensors[1] == "dht22" && Sensors[2] == "bme280";
    ContainsAny(link, Sensors)
  }

  /** The test in `get_file_links`: a CSV file of a wanted sensor type. */
  predicate CsvOfSensor(href: string)
  {
    Contains(href, ".csv") && ValidSensor(href)
  }

  /** `get_file_links` on one folder page: the wanted hrefs appended to the
      folder URL as it is, with no separator added. */
  function GetFileLinks(link: string, hrefs: seq<string>): (r: seq<string>)
    ensures |r| <= |hrefs|
    ensures forall l :: l in r <==> exists h :: h in hrefs && CsvOfSensor(h) && l == link + h
  {
    var wanted := Filter(CsvOfSensor, hrefs);
    var r := Map(PrefixWith(link), wanted);
    assert forall l :: l in r <==> exists h :: h in hrefs && CsvOfSensor(h) && l == link + h by {
      forall l
        ensures l in r <==> exists h :: h in hrefs && CsvOfSensor(h) && l == link + h
      {
        if l in r {
          MapProvenance(PrefixWith(link), wanted, l);
          var j :| 0 <= j < |wanted| && PrefixWith(link)(wanted[j]) == l;
          assert wanted[j] in hrefs && CsvOfSensor(wanted[j]);
        }
        if h :| h in hrefs && CsvOfSensor(h) && l == link + h {
          FilterMember(CsvOfSensor, hrefs, h);
          MapMember(PrefixWith(link), wanted, h);
        }
      }
    }
    r
  }

  /** Order is preserved: the file links of a concatenated page are those of each part, in turn. */
  lemma GetFileLinksAppend(link: string, a: seq<string>, b: seq<string>)
    ensures GetFileLinks(link, a + b) == GetFileLinks(link, a) + GetFileLinks(link, b)
  {
    FilterAppend(CsvOfSensor, a, b);
    MapAppend(PrefixWith(link), Filter(CsvOfSensor, a), Filter(CsvOfSensor, b));
  }

  /** The lists the pool returns, one per folder, in folder order. */
  function PerFolderLinks(folderUrls: seq<string>, pages: seq<seq<string>>): seq<seq<string>>
    requires |pages| == |folderUrls|
  {
    seq(|folderUrls|, i requires 0 <= i < |folderUrls| => GetFileLinks(folderUrls[i], pages[i]))
  }

  /** `get_file_links` over every folder, joined with `chain.from_iterable`.
      A request that raises is not caught, so it ends the script. */
  function AllFileLinks(folderUrls: seq<string>, listing: Listing): (r: Result<seq<string>>)
    ensures r.Failure? <==> exists i :: 0 <= i < |folderUrls| && listing(folderUrls[i]).None?
    ensures r.Failure? ==> r.error.RequestFailed?
    ensures r.Success? ==> forall l :: l in r.value <==>
              exists i, h :: 0 <= i < |folderUrls| && h in listing(folderUrls[i]).value && CsvOfSensor(h) && l == folderUrls[i] + h
  {
    match FetchListings(folderUrls, listing)
    case Failure(e) => Failure(e)
    case Success(pages) =>
      var r := Flatten(PerFolderLinks(folderUrls, pages));
      assert forall l :: l in r <==>
               exists i, h :: 0 <= i < |folderUrls| && h in pages[i] && CsvOfSensor(h) && l == folderUrls[i] + h by {
        forall l
          ensures l in r <==> exists i, h :: 0 <= i < |folderUrls| && h in pages[i] && CsvOfSensor(h) && l == folderUrls[i] + h
        {
          JoinedLinks(folderUrls, pages, l);
        }
      }
      Success(r)
  }

  /** The joined per-folder lists hold exactly the wanted hrefs of each
      folder's page, each appended to its folder URL. */
  lemma JoinedLinks(folderUrls: seq<string>, pages: seq<seq<string>>, l: string)
    requires |pages| == |folderUrls|
    ensures l in Flatten(PerFolderLinks(folderUrls, pages)) <==>
            exists i, h :: 0 <= i < |folderUrls| && h in pages[i] && CsvOfSensor(h) && l == folderUrls[i] + h
  {
    var lists := PerFolderLinks(folderUrls, pages);
    FlattenMember(lists, l);
    if l in Flatten(lists) {
      var i :| 0 <= i < |lists| && l in lists[i];
      var h :| h in pages[i] && CsvOfSensor(h) && l == folderUrls[i] + h;
    }
    if i, h :| 0 <= i < |folderUrls| && h in pages[i] && CsvOfSensor(h) && l == folderUrls[i] + h {
      assert l in lists[i];
    }
  }

  /** `imap_unordered` yields the per-folder lists in completion order;
      whatever that order, the joined list has the same elements, each as often. */
  lemma AllFileLinksUnordered(folderUrls: seq<string>, listing: Listing, pages: seq<seq<string>>, done: seq<seq<string>>)
    requires FetchListings(folderUrls, listing) == Success(pages)
    requires multiset(done) == multiset(PerFolderLinks(folderUrls, pages))
    ensures AllFileLinks(folderUrls, listing).Success?
    ensures multiset(Flatten(done)) == multiset(AllFileLinks(folderUrls, listing).value)
  {
    FlattenPermutation(done, PerFolderLinks(folderUrls, pages));
  }

  // ---- Download and location filter ----

  /** `contains_location`: the first `location` cell is one of the location ids. */
  predicate ContainsLocation(df: Table)
    ensures ContainsLocation(df) <==>
              exists i :: 0 <= i < |LocationIds| && FirstLocation(df) == Some(LocationIds[i])
  {
    LocationColumn in df && |df[LocationColumn]| > 0 && df[LocationColumn][0] in LocationIds
  }

  /** `fetch`: read the file, keep it when its location is wanted and write it
      to `save_dir + basename(link)`; the bare `except` turns anything raised
      into the link being reported back. */
  function Fetch(link: string, read: Reader, write: Writer): (r: Outcome)
    ensures r.Accepted? <==> read(link).Some? && ContainsLocation(read(link).value) && write(SaveDir + Basename(link))
    ensures r.Accepted? ==> r.path == SaveDir + Basename(link)
    ensures r.Rejected? <==> read(link).Some? && !ContainsLocation(read(link).value)
    ensures r.Failed? ==> r.link == link
  {
    match read(link)
    case None => Failed(link)
    case Some(df) =>
      if ContainsLocation(df) then
        var path := SaveDir + Basename(link);
        if write(path) then Accepted(path) else Failed(link)
      else Rejected
  }

  function FetchWorker(read: Reader, write: Writer): string -> Outcome
  {
    link => Fetch(link, read, write)
  }

  /** `links, error_links = zip(*results)` followed by the one `None` filter
      the script applies, to `links` only: `error_links` keeps one entry per
      result, `None` for every file that did not fail. With no results the
      unpacking raises `ValueError`. */
  function Split(results: seq<Outcome>): (r: Result<(seq<string>, seq<Option<string>>)>)
    ensures r.Failure? <==> |results| == 0
    ensures r.Failure? ==> r.error.ValueError?
    ensures r.Success? ==> |r.value.0| == CountAccepted(results)
    ensures r.Success? ==> forall p :: p in r.value.0 <==> Accepted(p) in results
    ensures r.Success? ==> forall p {:trigger multiset(r.value.0)[p]} :: multiset(r.value.0)[p] == multiset(results)[Accepted(p)]
    ensures r.Success? ==> |r.value.1| == |results|
    ensures r.Success? ==> forall i :: 0 <= i < |results| ==>
              (r.value.1[i].Some? <==> results[i].Failed?) &&
              (r.value.1[i].Some? ==> r.value.1[i].value == results[i].link)
  {
    if |results| == 0 then Failure(ValueError("not enough values to unpack (expected 2, got 0)"))
    else
      SplitCounts(results);
      assert forall p :: p in AcceptedPaths(results) <==> Accepted(p) in results by {
        forall p ensures p in AcceptedPaths(results) <==> Accepted(p) in results { AcceptedMember(results, p); }
      }
      assert forall p :: multiset(AcceptedPaths(results))[p] == multiset(results)[Accepted(p)] by {
        forall p ensures multiset(AcceptedPaths(results))[p] == multiset(results)[Accepted(p)] { AcceptedCount(results, p); }
      }
      Success((AcceptedPaths(results), Map(ErrorPart, results)))
  }

  /** The fetch pool (`imap_unordered`) hands back its results in completion
      order: any such order gives the same kept paths and the same error
      entries, up to order. */
  lemma SplitUnordered(results: seq<Outcome>, done: seq<Outcome>)
    requires |results| > 0
    requires multiset(done) == multiset(results)
    ensures Split(done).Success?
    ensures multiset(Split(done).value.0) == multiset(Split(results).value.0)
    ensures multiset(Split(done).value.1) == multiset(Split(results).value.1)
  {
    assert |done| == |multiset(done)| == |multiset(results)| == |results|;
    SplitPermutation(done, results);
    MapPermutation(ErrorPart, done, results);
  }

  // ---- Partition by sensor type ----

  /** `sort_in`: append the link to the first bucket whose token it contains,
      testing `bme280`, then `sds011`, then `dht22`; any other link is
      appended to `d['none']`, which does not exist. */
  function SortIn(d: Buckets, link: string): Result<Buckets>
  {
    if Contains(link, "bme280") then Append(d, "bme280", link)
    else if Contains(link, "sds011") then Append(d, "sds011", link)
    else if Contains(link, "dht22") then Append(d, "dht22", link)
    else Append(d, Unmatched, link)
  }

  /** The priority list is the `if`/`elif` chain of `sort_in`. */
  lemma ClassifyBySortPriority(link: string)
    ensures Classify(SortPriority, link) ==
              if Contains(link, "bme280") then Some("bme280")
              else if Contains(link, "sds011") then Some("sds011")
              else if Contains(link, "dht22") then Some("dht22")
              else None
  {
    assert SortPriority[1..] == ["sds011", "dht22"];
    assert SortPriority[1..][1..] == ["dht22"];
    assert SortPriority[1..][1..][1..] == [];
  }

  /** `sort_in` appends to the bucket the priority list picks, and to the
      missing `none` bucket when it picks nothing. */
  lemma SortInRoute(d: Buckets, link: string)
    ensures SortIn(d, link) == Append(d, if ContainsAny(link, SortPriority) then Classify(SortPriority, link).value else Unmatched, link)
  {
    ClassifyBySortPriority(link);
  }

  /** One `sort_in` step on a link that names a sensor appends it to its
      bucket and changes nothing else. */
  lemma SortInStep(d: Buckets, link: string)
    requires d.Keys == InitialBuckets.Keys
    requires ContainsAny(link, SortPriority)
    ensures SortIn(d, link).Success?
    ensures SortIn(d, link).value.Keys == d.Keys
    ensures forall k :: k in d ==>
              SortIn(d, link).value[k] == d[k] + if ClassifiedAs(SortPriority, k)(link) then [link] else []
  {
    SortInKeepsKeys(d, link);
  }

  /** A `sort_in` step on a link that names a sensor succeeds and keeps the keys. */
  lemma SortInKeepsKeys(d: Buckets, link: string)
    requires d.Keys == InitialBuckets.Keys
    requires ContainsAny(link, SortPriority)
    ensures SortIn(d, link) == Append(d, Classify(SortPriority, link).value, link)
    ensures SortIn(d, link).Success? && SortIn(d, link).value.Keys == d.Keys
  {
    SortInRoute(d, link);
    var key := Classify(SortPriority, link).value;
    assert key in InitialBuckets.Keys by {
      assert key in SortPriority;
    }
  }

  /** Folding `sort_in` over links that all name a sensor appends to each
      bucket exactly the links classified to it, in order. */
  lemma SortReduce(d: Buckets, links: seq<string>, k: string)
    requires d.Keys == InitialBuckets.Keys && k in d
    requires forall i :: 0 <= i < |links| ==> ContainsAny(links[i], SortPriority)
    ensures Reduce(SortIn, d, links).Success? && Reduce(SortIn, d, links).value.Keys == d.Keys
    ensures Reduce(SortIn, d, links).value[k] == d[k] + Filter(ClassifiedAs(SortPriority, k), links)
  {
    forall d0: Buckets, p | d0.Keys == d.Keys && p in links
      ensures SortIn(d0, p).Success? && SortIn(d0, p).value.Keys == d0.Keys
      ensures SortIn(d0, p).value[k] == d0[k] + if ClassifiedAs(SortPriority, k)(p) then [p] else []
    {
      SortInStep(d0, p);
    }
    ReduceAppendsMatching(SortIn, ClassifiedAs(SortPriority, k), d, k, links);
  }

  /** A link that names no sensor ends the fold with `KeyError('none')`. */
  lemma {:induction false} SortReduceFails(d: Buckets, links: seq<string>)
    requires d.Keys == InitialBuckets.Keys
    requires exists i :: 0 <= i < |links| && !ContainsAny(links[i], SortPriority)
    ensures Reduce(SortIn, d, links) == Failure(KeyError(Unmatched))
    decreases |links|
  {
    var p := links[0];
    if ContainsAny(p, SortPriority) {
      SortInKeepsKeys(d, p);
      var i :| 0 <= i < |links| && !ContainsAny(links[i], SortPriority);
      assert links[1..][i - 1] == links[i];
      SortReduceFails(SortIn(d, p).value, links[1..]);
    } else {
      SortInRoute(d, p);
    }
  }

  /** Folding `sort_in` over links that all name a sensor, from any
      dictionary holding the three buckets: every bucket gets exactly the
      links classified to it. */
  lemma SortReduceSucceeds(d: Buckets, links: seq<string>)
    requires d.Keys == InitialBuckets.Keys
    requires forall i :: 0 <= i < |links| ==> ContainsAny(links[i], SortPriority)
    ensures Reduce(SortIn, d, links).Success?
    ensures Reduce(SortIn, d, links).value.Keys == d.Keys
    ensures forall k :: k in d ==> Reduce(SortIn, d, links).value[k] == d[k] + Filter(ClassifiedAs(SortPriority, k), links)
  {
    forall k | k in d
      ensures Reduce(SortIn, d, links).Success? && Reduce(SortIn, d, links).value.Keys == d.Keys
      ensures Reduce(SortIn, d, links).value[k] == d[k] + Filter(ClassifiedAs(SortPriority, k), links)
    {
      SortReduce(d, links, k);
    }
    assert "dht22" in d;
  }

  /** The script starts every bucket empty. */
  lemma InitialBucketsEmpty()
    ensures forall k :: k in InitialBuckets ==> InitialBuckets[k] == []
  {
  }

  /** The fold from the script's dictionary, whichever way it ends. */
  lemma SortReduceOutcome(links: seq<string>)
    ensures var r := Reduce(SortIn, InitialBuckets, links);
            (r.Success? <==> forall i :: 0 <= i < |links| ==> ContainsAny(links[i], SortPriority)) &&
            (r.Failure? ==> r.error == KeyError(Unmatched)) &&
            (r.Success? ==> r.value.Keys == InitialBuckets.Keys) &&
            (r.Success? ==> forall k :: k in r.value ==> r.value[k] == Filter(ClassifiedAs(SortPriority, k), links))
  {
    if forall i :: 0 <= i < |links| ==> ContainsAny(links[i], SortPriority) {
      SortReduceSucceeds(InitialBuckets, links);
      InitialBucketsEmpty();
    } else {
      SortReduceFails(InitialBuckets, links);
    }
  }

  /** `links_for_sensor = reduce(sort_in, links, links_for_sensor)`. It
      succeeds exactly when every link names a sensor type, and then each
      bucket holds, in order, the links classified to it. */
  function SortLinks(links: seq<string>): (r: Result<Buckets>)
    ensures r.Success? <==> forall i :: 0 <= i < |links| ==> ContainsAny(links[i], SortPriority)
    ensures r.Failure? ==> r.error == KeyError(Unmatched)
    ensures r.Success? ==> r.value.Keys == InitialBuckets.Keys
    ensures r.Success? ==> forall k :: k in r.value ==> r.value[k] == Filter(ClassifiedAs(SortPriority, k), links)
  {
    SortReduceOutcome(links);
    Reduce(SortIn, InitialBuckets, links)
  }

  /** Every bucketed link is one of the input links and contains its bucket's token. */
  lemma SortLinksSound(links: seq<string>)
    requires SortLinks(links).Success?
    ensures forall k, p :: k in SortLinks(links).value && p in SortLinks(links).value[k] ==> p in links && Contains(p, k)
  {
    var b := SortLinks(links).value;
    forall k, p | k in b && p in b[k]
      ensures p in links && Contains(p, k)
    {
      FilterMember(ClassifiedAs(SortPriority, k), links, p);
    }
  }

  /** What the buckets hold, in terms of substrings: `bme280` wins over
      `sds011`, which wins over `dht22`. */
  lemma SortLinksContents(links: seq<string>, p: string)
    requires SortLinks(links).Success?
    ensures p in SortLinks(links).value["bme280"] <==> p in links && Contains(p, "bme280")
    ensures p in SortLinks(links).value["sds011"] <==> p in links && !Contains(p, "bme280") && Contains(p, "sds011")
    ensures p in SortLinks(links).value["dht22"] <==>
              p in links && !Contains(p, "bme280") && !Contains(p, "sds011") && Contains(p, "dht22")
  {
    ClassifyBySortPriority(p);
    FilterMember(ClassifiedAs(SortPriority, "bme280"), links, p);
    FilterMember(ClassifiedAs(SortPriority, "sds011"), links, p);
    FilterMember(ClassifiedAs(SortPriority, "dht22"), links, p);
  }

  /** Sorting a reordered list of paths succeeds exactly as often and fills
      every bucket with the same links, up to order. */
  lemma SortLinksUnordered(links: seq<string>, done: seq<string>)
    requires SortLinks(links).Success?
    requires multiset(done) == multiset(links)
    ensures SortLinks(done).Success?
    ensures forall k :: k in SortLinks(done).value ==>
              k in SortLinks(links).value && multiset(SortLinks(done).value[k]) == multiset(SortLinks(links).value[k])
  {
    forall i | 0 <= i < |done|
      ensures ContainsAny(done[i], SortPriority)
    {
      assert done[i] in multiset(links);
      var j :| 0 <= j < |links| && links[j] == done[i];
    }
    forall k | k in SortLinks(done).value
      ensures multiset(SortLinks(done).value[k]) == multiset(SortLinks(links).value[k])
    {
      FilterPermutation(ClassifiedAs(SortPriority, k), done, links);
    }
  }

  /** No token appears twice in the priority list. */
  lemma SortPriorityDistinct()
    ensures forall i, j :: 0 <= i < j < |SortPriority| ==> SortPriority[i] != SortPriority[j]
  {
    assert SortPriority[0] == "bme280" && SortPriority[1] == "sds011" && SortPriority[2] == "dht22";
    assert "bme280"[0] != "sds011"[0] && "bme280"[0] != "dht22"[0] && "sds011"[0] != "dht22"[0];
  }

  /** The sum of the three buckets, spelled out. */
  lemma SumOfThreeBuckets(links: seq<string>)
    ensures SumOfBuckets(SortPriority, SortPriority, links) ==
              multiset(Filter(ClassifiedAs(SortPriority, "bme280"), links)) +
              multiset(Filter(ClassifiedAs(SortPriority, "sds011"), links)) +
              multiset(Filter(ClassifiedAs(SortPriority, "dht22"), links))
  {
    var bme, sds, dht := ClassifiedAs(SortPriority, "bme280"), ClassifiedAs(SortPriority, "sds011"),
                         ClassifiedAs(SortPriority, "dht22");
    assert SortPriority[1..] == ["sds011", "dht22"];
    assert ["sds011", "dht22"][1..] == ["dht22"];
    assert ["dht22"][1..] == [];
    assert SumOfBuckets(SortPriority, ["dht22"], links) == multiset(Filter(dht, links));
    assert SumOfBuckets(SortPriority, ["sds011", "dht22"], links) ==
           multiset(Filter(sds, links)) + multiset(Filter(dht, links));
  }

  /** When the fold succeeds every link names a sensor, so none is left unclassified. */
  lemma {:induction false} NothingUnclassified(links: seq<string>)
    requires forall i :: 0 <= i < |links| ==> ContainsAny(links[i], SortPriority)
    ensures Filter(Unclassified(SortPriority), links) == []
    decreases |links|
  {
    if |links| != 0 {
      assert Classify(SortPriority, links[0]).Some?;
      assert forall i :: 0 <= i < |links[1..]| ==> links[1..][i] == links[i + 1];
      NothingUnclassified(links[1..]);
    }
  }

  /** When the fold succeeds no link is lost: the three buckets together are
      exactly the accepted links. */
  lemma SortLinksPartition(links: seq<string>)
    requires SortLinks(links).Success?
    ensures multiset(links) ==
              multiset(SortLinks(links).value["bme280"]) + multiset(SortLinks(links).value["sds011"]) +
              multiset(SortLinks(links).value["dht22"])
  {
    var b := SortLinks(links).value;
    var bme, sds, dht := ClassifiedAs(SortPriority, "bme280"), ClassifiedAs(SortPriority, "sds011"),
                         ClassifiedAs(SortPriority, "dht22");
    assert b["bme280"] == Filter(bme, links) && b["sds011"] == Filter(sds, links) && b["dht22"] == Filter(dht, links);
    SortPriorityDistinct();
    ClassifyPartitions(SortPriority, links);
    SumOfThreeBuckets(links);
    NothingUnclassified(links);
  }

  // ---- Consolidation ----

  /** The test the combining loop applies to a sensor type before combining it. */
  function NonEmptyBucket(buckets: Buckets): string -> bool
  {
    s => s in buckets && |buckets[s]| > 0
  }

  /** The loop over `sensors`: the sensor types whose bucket is non-empty, in
      loop order, each handed to the CSV combiner (not modelled).
      Subscripting a type that has no bucket raises `KeyError`. */
  function CombinedSensorTypes(sensors: seq<string>, buckets: Buckets): (r: Result<seq<string>>)
    ensures r.Success? <==> forall i :: 0 <= i < |sensors| ==> sensors[i] in buckets
    ensures r.Failure? ==> r.error.KeyError? && r.error.key in sensors && r.error.key !in buckets
    ensures r.Success? ==> |r.value| <= |sensors|
    ensures r.Success? ==> forall s :: s in r.value <==> s in sensors && |buckets[s]| > 0
    ensures r.Success? ==> r.value == Filter(NonEmptyBucket(buckets), sensors)
  {
    if |sensors| == 0 then Success([])
    else if sensors[0] !in buckets then Failure(KeyError(sensors[0]))
    else
      match CombinedSensorTypes(sensors[1..], buckets)
      case Failure(e) => Failure(e)
      case Success(rest) =>
        assert forall s :: s in sensors <==> s == sensors[0] || s in sensors[1..];
        Success(if |buckets[sensors[0]]| > 0 then [sensors[0]] + rest else rest)
  }

  // ---- The whole script ----

  /** What one run of the script leaves behind. */
  datatype Crawl = Crawl(folderUrls: seq<string>, fileLinks: seq<string>, paths: seq<string>,
                         errorLinks: seq<Option<string>>, buckets: Buckets, combined: seq<string>)

  /** Every accepted path comes from a file link whose fetch accepted it. */
  lemma SplitPathsProvenance(fileLinks: seq<string>, read: Reader, write: Writer)
    requires |fileLinks| > 0
    ensures forall p :: p in Split(Map(FetchWorker(read, write), fileLinks)).value.0 ==>
              exists l :: l in fileLinks && Fetch(l, read, write) == Accepted(p)
  {
    forall p | p in Split(Map(FetchWorker(read, write), fileLinks)).value.0
      ensures exists l :: l in fileLinks && Fetch(l, read, write) == Accepted(p)
    {
      AcceptedProvenance(FetchWorker(read, write), fileLinks, p);
      var j :| 0 <= j < |fileLinks| && FetchWorker(read, write)(fileLinks[j]) == Accepted(p);
      assert fileLinks[j] in fileLinks;
    }
  }

  /** The dictionary `sort_in` fills has a bucket for every sensor type the loop visits. */
  lemma CombineNeverRaises(buckets: Buckets)
    requires buckets.Keys == InitialBuckets.Keys
    ensures CombinedSensorTypes(Sensors, buckets).Success?
  {
    assert forall i :: 0 <= i < |Sensors| ==> Sensors[i] in InitialBuckets.Keys;
  }

  /** The script's statements in order, with the pools' results taken in
      input order. */
  function Run(listing: Listing, read: Reader, write: Writer): (r: Result<Crawl>)
    ensures r.Failure? ==> r.error.RequestFailed? || r.error.ValueError? || r.error == KeyError(Unmatched)
    ensures listing(Url).None? ==> r == Failure(RequestFailed(Url))
    ensures listing(Url).Some? ==>
              var links := AllFileLinks(FolderUrls(listing(Url).value), listing);
              (links.Failure? ==> r == Failure(links.error)) &&
              (links == Success([]) ==> r.Failure? && r.error.ValueError?)
    ensures listing(Url).Some? ==>
              var links := AllFileLinks(FolderUrls(listing(Url).value), listing);
              links.Success? && |links.value| > 0 ==>
                var sorted := SortLinks(Split(Map(FetchWorker(read, write), links.value)).value.0);
                (sorted.Failure? ==> r == Failure(KeyError(Unmatched))) &&
                (sorted.Success? ==> r.Success?)
    ensures r.Success? ==> listing(Url).Some? && r.value.folderUrls == FolderUrls(listing(Url).value)
    ensures r.Success? ==> AllFileLinks(r.value.folderUrls, listing) == Success(r.value.fileLinks)
    ensures r.Success? ==> Split(Map(FetchWorker(read, write), r.value.fileLinks)) == Success((r.value.paths, r.value.errorLinks))
    ensures r.Success? ==> SortLinks(r.value.paths) == Success(r.value.buckets)
    ensures r.Success? ==> CombinedSensorTypes(Sensors, r.value.buckets) == Success(r.value.combined)
    ensures r.Success? ==> forall p :: p in r.value.paths ==>
              exists l :: l in r.value.fileLinks && Fetch(l, read, write) == Accepted(p)
    ensures r.Success? ==> forall k, p :: k in r.value.buckets && p in r.value.buckets[k] ==>
              p in r.value.paths && Contains(p, k)
    ensures r.Success? ==> forall s :: s in r.value.combined <==> s in Sensors && s in r.value.buckets && |r.value.buckets[s]| > 0
  {
    match listing(Url)
    case None => Failure(RequestFailed(Url))
    case Some(hrefs) =>
      var folderUrls := FolderUrls(hrefs);
      match AllFileLinks(folderUrls, listing)
      case Failure(e) => Failure(e)
      case Success(fileLinks) =>
        match Split(Map(FetchWorker(read, write), fileLinks))
        case Failure(e) => Failure(e)
        case Success(split) =>
          SplitPathsProvenance(fileLinks, read, write);
          match SortLinks(split.0)
          case Failure(e) => Failure(e)
          case Success(buckets) =>
            SortLinksSound(split.0);
            CombineNeverRaises(buckets);
            var combined := CombinedSensorTypes(Sensors, buckets).value;
            Success(Crawl(folderUrls, fileLinks, split.0, split.1, buckets, combined))
  }
}
