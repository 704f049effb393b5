# luftdaten.info crawler: a Dafny model

This project models the decision logic of the crawler that downloads
particulate-matter and climate sensor CSV files from the luftdaten.info
archive. The repository has two copies of the crawler:

- the refactored pipeline in `golddust/data_preparation.py` (module `Golddust`);
- the original top-to-bottom script `data_preparation.py` (module `Legacy`).

Each copy runs the same steps:

1. It reads the archive's root listing and keeps the date-named folders on or
   after a start date.
2. It lists every folder and keeps the CSV files of wanted sensor types.
3. It downloads every file and keeps those whose first `location` cell is
   an accepted location id.
4. It sorts the kept files into per-sensor buckets.
5. It hands every non-empty bucket to a CSV combiner.

HTTP, HTML anchor extraction and pandas I/O are parameters:

- `Io.Listing` gives the hrefs of a page, or `None` when the request raises.
- `Io.Reader` gives a parsed table, or `None` when `read_csv` raises.
- `Io.Writer` says whether `to_csv` completed.

Exceptions the scripts do not catch become `Failure` values:

- `ValueError` when `zip(*[])` is unpacked into two names;
- `KeyError` when a dictionary lacks a key;
- `RequestFailed` when a listing request raises.

The process pools return results in completion order. The model computes
them in input order and proves, for every pool and for the sorting stage
each pool feeds, that any reordering gives the same multisets downstream.

Modules:

- `Common`: `Option`, `Result` and the error kinds.
- `Strings`: Python's substring `in`, the slice `s[0:-1]` and POSIX `basename`.
- `Seqs`: list comprehensions as `Map`, `Filter`, `Somes` and `Flatten`, with their membership, order and permutation lemmas.
- `Dates`: `datetime.strptime(s, '%Y-%m-%d')`, written out as the grammar Python's `_strptime` uses: four-digit year, one- or two-digit month, and day `3[01]|[12]\d|0[1-9]|[1-9]| [1-9]`. The datetime must also be valid, and `>=` on datetimes is the comparison.
- `Io`: tables and the I/O parameters.
- `Outcomes`: the per-file result `(path, error_link)` as a three-way `Outcome`, and the split `zip(*results)` performs.
- `Buckets`: the per-sensor dictionary, `append`, priority-ordered classification and `functools.reduce`.
- `Golddust`, `Legacy`: the two crawlers, stage by stage, and each script's whole run (`Run`).
- `Variants`: where the two crawlers agree and where they differ.

## Model

| member | source | states |
|---|---|---|
| Golddust.Returning | golddust/data_preparation.py:21-24 | The dictionary gains exactly the one key it sets, that key holds the new value, and every other entry is unchanged |
| Dates.ParseDate | golddust/data_preparation.py:35-40 | Whatever `strptime` accepts is a real calendar date with a year from 1 to 9999 |
| Dates.ParseDateSpells | golddust/data_preparation.py:35-40 | `strptime` with `%Y-%m-%d` accepts exactly the spellings of a valid date (one- or two-digit month and day included) and reads each as that date |
| Dates.MonthTokenSpellings | golddust/data_preparation.py:37 | `%m` reads a text as month m exactly when the text is one of m's spellings |
| Dates.DayTokenSpellings | golddust/data_preparation.py:37 | `%d` reads a text as day d exactly when the text is one of d's spellings, the space-padded one included |
| Dates.FormatParse | golddust/data_preparation.py:35-40 | The canonical `YYYY-MM-DD` text of every valid date is accepted and read back as that date |
| Golddust.KeepsFolderIff | golddust/data_preparation.py:35-47 | A trimmed folder name survives both filters iff it spells a real date that is on or after the start date when one is set; a malformed name is excluded, never an error |
| Golddust.StartDateInclusive | golddust/data_preparation.py:43-47 | The start bound is inclusive, and with no start date every valid date passes |
| Golddust.ExtractRootFolderLinks | golddust/data_preparation.py:50-62 | The result holds `url + '/' + h[0:-1]` exactly for the hrefs h whose trimmed name passes the date filters, and is no longer than the input |
| Golddust.RootFolderLinkMember | golddust/data_preparation.py:55-60 | The trim, the two filters and the URL join keep exactly the trimmed names that pass both tests |
| Golddust.ExtractRootFolderLinksAppend | golddust/data_preparation.py:55-60 | Input order is kept: the links of a concatenation are the links of each part, in turn |
| Golddust.ExtractRootFolderLinksOne | golddust/data_preparation.py:55-60 | One href yields `url + '/'` plus the href without its last character when that name passes, and nothing otherwise |
| Strings.ContainsOccurs | golddust/data_preparation.py:66 | Python's substring `in` holds exactly when the needle occurs at some index of the text |
| Strings.ContainsAny | golddust/data_preparation.py:65-67 | `any([t in s for t in tokens])` holds exactly when some token is a substring; an empty token list matches nothing |
| Golddust.FileLinksInListing | golddust/data_preparation.py:70-75 | The folder's links are `folder_link + '/' + h` exactly for the hrefs containing `.csv` and a wanted sensor token; no wanted sensors gives no links |
| Golddust.FileLinksInListingAppend | golddust/data_preparation.py:75 | Href order is kept: the links of a concatenated page are the links of each part, in turn |
| Io.FetchListings | golddust/data_preparation.py:72 | Listing the folders fails exactly when some request raises, and reports a failing URL; otherwise every page is the listing of its URL |
| Golddust.ExtractFileLinks | golddust/data_preparation.py:78-90 | The stage fails with a request error iff some folder listing fails; otherwise the joined list holds exactly the wanted file links of every folder |
| Golddust.JoinedFileLinks | golddust/data_preparation.py:85-88 | Joining the per-folder lists keeps exactly the wanted hrefs of each folder's page, each under its own folder |
| Golddust.ExtractFileLinksUnordered | golddust/data_preparation.py:83-88 | Whatever order the pool returns the per-folder lists in, the joined list is the same multiset |
| Golddust.ContainsLocation | golddust/data_preparation.py:93-98 | A file is wanted iff it has a non-empty `location` column whose first cell is among the locations |
| Golddust.ContainsLocationFirstRowOnly | golddust/data_preparation.py:93-98 | Only the first location cell is consulted: two tables that agree on it get the same verdict |
| Golddust.FetchFileLink | golddust/data_preparation.py:100-111 | Accepted iff the file reads, has a wanted location and writes, with path `save_dir + basename(link)`; Rejected iff it reads without a wanted location; otherwise Failed with the link itself |
| Strings.Basename | golddust/data_preparation.py:104 | `basename` contains no '/', is a suffix of the path, and is preceded by a '/' whenever it is shorter than the path |
| Strings.BasenameAppend | golddust/data_preparation.py:104 | A slash-free tail survives `basename` whole |
| Golddust.AcceptedPathKeepsBasename | golddust/data_preparation.py:104 | No separator is inserted: the saved name keeps the link's base name when `save_dir` ends in '/', and is glued onto a slash-free directory name otherwise |
| Outcomes.PathPart | golddust/data_preparation.py:100-111 | The path half of the worker's pair is set exactly for accepted files |
| Outcomes.ErrorPart | golddust/data_preparation.py:100-111 | The error half of the worker's pair is set exactly for failed files |
| Outcomes.PairDeterminesOutcome | golddust/data_preparation.py:100-111 | No pair has both halves set, and the two halves determine the outcome |
| Outcomes.AcceptedPaths | golddust/data_preparation.py:123-124 | Every path kept after the split comes from an accepted outcome |
| Outcomes.ErrorLinks | golddust/data_preparation.py:123-125 | Every error link kept after the split comes from a failed outcome |
| Outcomes.AcceptedMember | golddust/data_preparation.py:123-124 | A path is kept iff some outcome accepted it |
| Outcomes.FailedMember | golddust/data_preparation.py:123-125 | A link is reported iff some outcome failed on it |
| Outcomes.AcceptedCount | golddust/data_preparation.py:122-123 | The `None` filter keeps a path exactly as many times as outcomes accepted it |
| Outcomes.FailedCount | golddust/data_preparation.py:122-124 | The `None` filter keeps a link exactly as many times as outcomes failed on it |
| Outcomes.SplitCounts | golddust/data_preparation.py:123-125 | One path per accepted outcome and one link per failed one; rejected outcomes appear in neither list |
| Outcomes.SplitPermutation | golddust/data_preparation.py:121-125 | Reordering the outcomes reorders both lists and changes nothing else |
| Outcomes.AcceptedProvenance | golddust/data_preparation.py:121-124 | A kept path comes from an input the worker accepted |
| Outcomes.FailedProvenance | golddust/data_preparation.py:121-125 | A reported link comes from an input the worker failed on |
| Golddust.SplitResults | golddust/data_preparation.py:123-125 | The split raises `ValueError` iff there are no results; otherwise each path is kept exactly as many times as results accepted it, each link exactly as many times as results failed on it, and the three counts add up to the number of results |
| Golddust.FetchFileLinks | golddust/data_preparation.py:113-128 | With no file links the stage raises; otherwise it keeps exactly the paths the worker accepted and the links it failed on, each as many times as the worker produced it, at most one entry per file link |
| Golddust.FetchFileLinksUnordered | golddust/data_preparation.py:119-125 | Whatever order the pool returns the outcomes in, the kept paths and the error links are the same multisets |
| Buckets.Append | golddust/data_preparation.py:132 | `d[key].append(path)` raises `KeyError` iff the key is absent; otherwise it extends only that bucket by the path |
| Buckets.Classify | golddust/data_preparation.py:130-136 | A token is chosen iff the path contains some token, and the chosen token is one the path contains |
| Buckets.ClassifyFirstMatch | golddust/data_preparation.py:130-136 | The chosen token is the first one in priority order that the path contains |
| Buckets.ReduceAppendsMatching | golddust/data_preparation.py:143 | A step that appends a path to a bucket exactly when a test holds folds to that bucket holding the passing paths, in input order |
| Buckets.ClassifyPartitions | golddust/data_preparation.py:130-145 | With distinct tokens, the buckets plus the unclassified paths are, as a multiset, exactly the input |
| Buckets.SumOfBucketsCount | golddust/data_preparation.py:130-145 | A path occurs in the buckets of a token list as often as in the input when its token is in the list, and otherwise not at all |
| Golddust.ClassifyBySortPriority | golddust/data_preparation.py:130-136 | `_sort_in` tests `sds011` before `dht22` and picks neither for other paths |
| Golddust.SortInStep | golddust/data_preparation.py:130-136 | One step on a dictionary with both buckets appends the path to its sensor's bucket and leaves the other bucket and the keys alone |
| Golddust.SortReduce | golddust/data_preparation.py:143 | Folding `_sort_in` gives each bucket its old paths followed by the paths classified to it, in order |
| Golddust.SortSensorTypes | golddust/data_preparation.py:138-145 | The sort never raises, keeps exactly the keys `sds011` and `dht22`, and each bucket is the input's paths of that sensor, in order |
| Golddust.SortSensorTypesContents | golddust/data_preparation.py:130-145 | A path is in the `sds011` bucket iff it contains `sds011`, and in the `dht22` bucket iff it contains `dht22` but not `sds011` |
| Golddust.SortSensorTypesPartition | golddust/data_preparation.py:130-145 | The two buckets plus the dropped paths are, as a multiset, exactly the input, so no path is in two buckets |
| Golddust.SortSensorTypesUnordered | golddust/data_preparation.py:138-145 | Reordering the input paths only reorders each bucket |
| Golddust.SortedPathsSound | golddust/data_preparation.py:130-145 | Every sorted path was an input path and contains its bucket's token |
| Golddust.PostprocessSensorData | golddust/data_preparation.py:147-163 | It raises `KeyError` iff a wanted sensor has no bucket; otherwise the output has keys for exactly the non-empty buckets, each list as long as its bucket, with element i equal to `'processed_'` plus path i |
| Golddust.Download | golddust/data_preparation.py:171-188 | An unreachable archive root fails with its URL; a failing folder listing fails the run with that error; the empty-unpack `ValueError` arises exactly when the folder stage finds no file link, and when it finds some the download succeeds; on success the folder links, file links and fetch results are exactly those the stages compute, with the kept paths exactly the accepted ones and the error links exactly the failed ones |
| Golddust.Consolidate | golddust/data_preparation.py:189-193 | The buckets are the sort's result, every bucketed path is a downloaded path containing its token, and the processed keys are exactly the non-empty buckets |
| Golddust.Run | golddust/data_preparation.py:171-194 | A run fails with exactly the downloading error; a successful run stores exactly the downloaded folder links, file links, paths and error links, buckets exactly as the sorting stage files them, and consolidates exactly the non-empty buckets with the `processed_` prefix |
| Legacy.StartDateParses | data_preparation.py:22 | The fixed start date is what `strptime` makes of "2018-01-01" |
| Legacy.ValidLinkIff | data_preparation.py:30-39 | An href is followed iff, without its last character, it spells a real date on or after 2018-01-01 |
| Legacy.FolderUrls | data_preparation.py:82-83 | The folder URLs are `url + '/' + h` with the href untrimmed, exactly for the valid hrefs, and no more than the hrefs |
| Legacy.FolderUrlsAppend | data_preparation.py:82-83 | Href order is kept |
| Legacy.FolderUrlsOne | data_preparation.py:82-83 | One href yields its untrimmed URL when valid and nothing otherwise |
| Legacy.ValidSensor | data_preparation.py:42-47 | A link is wanted iff it contains `sds011`, `dht22` or `bme280`; sensor ids play no part |
| Legacy.GetFileLinks | data_preparation.py:50-54 | The file links are `link + h` with no separator, exactly for the hrefs containing `.csv` and a sensor token |
| Legacy.GetFileLinksAppend | data_preparation.py:54 | Href order is kept |
| Legacy.AllFileLinks | data_preparation.py:90-94 | The stage fails with a request error iff some folder listing fails; otherwise the joined list holds exactly the wanted links of every folder |
| Legacy.JoinedLinks | data_preparation.py:92-94 | Joining the per-folder lists keeps exactly each folder's wanted hrefs appended to its URL |
| Legacy.AllFileLinksUnordered | data_preparation.py:92-94 | Whatever order the pool returns the per-folder lists in, the joined list is the same multiset |
| Legacy.ContainsLocation | data_preparation.py:61-65 | A file is wanted iff its first location cell exists and is one of the five location ids |
| Legacy.Fetch | data_preparation.py:68-79 | Accepted iff read, wanted and written, with path `'data/' + basename(link)`; Rejected iff read but not wanted; otherwise Failed with the link |
| Legacy.Split | data_preparation.py:98-105 | The unpacking raises `ValueError` iff there are no results; each accepted path is kept exactly as many times as results accepted it, while `error_links` keeps one entry per result, set exactly for failures |
| Legacy.SplitUnordered | data_preparation.py:98-99 | Whatever order `imap_unordered` returns the fetch results in, the unpacking still succeeds and gives the same kept paths and error entries, up to order |
| Legacy.SplitPathsProvenance | data_preparation.py:98-105 | Every kept path comes from a file link the worker accepted |
| Legacy.ClassifyBySortPriority | data_preparation.py:116-125 | `sort_in` tests `bme280`, then `sds011`, then `dht22` |
| Legacy.SortInRoute | data_preparation.py:116-125 | A step appends to the bucket of the first matching token, and to the key `'none'` when no token matches |
| Legacy.SortInStep | data_preparation.py:116-125 | A step on a matching link appends it to its bucket only and keeps the keys |
| Legacy.SortInKeepsKeys | data_preparation.py:116-125 | A step on a matching link succeeds and keeps the three keys |
| Legacy.SortReduce | data_preparation.py:129 | Folding over matching links gives each bucket its old paths followed by the links classified to it, in order |
| Legacy.SortReduceFails | data_preparation.py:113-129 | One link matching no token makes the fold raise `KeyError('none')` |
| Legacy.SortReduceSucceeds | data_preparation.py:113-129 | When every link matches a token the fold succeeds and every bucket gets exactly its links |
| Legacy.SortReduceOutcome | data_preparation.py:113-129 | From the script's dictionary, the fold succeeds iff every link names a sensor, fails only with `KeyError('none')`, and fills each bucket with exactly its links |
| Legacy.SortLinks | data_preparation.py:113-129 | The sort succeeds iff every link names a sensor; it then keeps the three keys with each bucket holding its links in order, and otherwise raises `KeyError('none')` |
| Legacy.SortLinksUnordered | data_preparation.py:113-129 | Reordering the links `reduce(sort_in, ...)` sees cannot make it raise, and leaves every bucket with the same links, up to order |
| Legacy.SortLinksSound | data_preparation.py:113-129 | Every bucketed link is an input link containing its bucket's token |
| Legacy.SortLinksContents | data_preparation.py:116-125 | `bme280` wins over `sds011`, which wins over `dht22` |
| Legacy.NothingUnclassified | data_preparation.py:116-129 | When every link names a sensor none is left unclassified |
| Legacy.SortLinksPartition | data_preparation.py:113-129 | A successful sort loses no link: the three buckets are, as a multiset, exactly the input |
| Legacy.CombinedSensorTypes | data_preparation.py:135-141 | The loop raises `KeyError` iff a sensor has no bucket; otherwise it combines exactly the sensors with non-empty buckets, in the order of `sensors` |
| Legacy.CombineNeverRaises | data_preparation.py:135-136 | The script's dictionary has a bucket for every sensor the loop visits |
| Legacy.Run | data_preparation.py:25-141 | An unreachable root page fails with its URL; a failing folder listing fails the run with that error; no file links gives the empty-unpack `ValueError`; a path matching no token gives `KeyError('none')`, and otherwise the run succeeds; each stored field is exactly the result of its stage (folder URLs, file links, the split, the buckets, the combined sensor types), with paths only from accepted fetches and buckets holding only their own token's paths |
| Variants.FolderTestsAgree | data_preparation.py:30-39 | `valid_link` is the refactored folder filter on the trimmed href, with the start date fixed to 2018-01-01 |
| Variants.TrimValidFolderUrl | data_preparation.py:82-83 | A valid href is never empty, so trimming the original's folder URL trims the href inside it |
| Variants.FolderLinksAgree | data_preparation.py:82-83 | Dropping the last character of each original folder URL gives the refactored list, in the same order, when its start date is 2018-01-01 |
| Variants.FileTestsAgree | data_preparation.py:42-54 | The original's file test is the refactored one with the original's three sensor types |
| Variants.FileLinksAgree | data_preparation.py:54 | Appending to a folder URL that ends in '/' builds the same links as joining under the URL without it |
| Variants.FolderFileLinksAgree | data_preparation.py:54 | For a slash-terminated folder href both scripts build the same file links from the same page |
| Variants.FewerSensorTypes | golddust/data_preparation.py:177 | Every file link the refactored script keeps, the original's sensor test keeps too |
| Variants.FetchAgrees | data_preparation.py:68-79 | The two per-file workers agree once given the original's location ids and save directory |
| Variants.ClassifyAgrees | data_preparation.py:116-125 | Without `bme280` in a path the two priority lists pick the same token |
| Variants.BucketsAgree | data_preparation.py:116-125 | Without `bme280` in any path, both priority lists fill each bucket alike |
| Variants.NoBme280Bucket | data_preparation.py:116-125 | Without `bme280` in any path, the original's `bme280` bucket stays empty |
| Variants.SortAgreesWithoutBme280 | data_preparation.py:113-129 | On paths without `bme280`, the original's sort succeeds iff the refactored one drops nothing, and then both fill `sds011` and `dht22` alike |

## Left out

- HTTP requests and HTML anchor extraction (`requests`, BeautifulSoup) are not modelled. A page is the `Listing` parameter, and an anchor without an `href` attribute, which raises `KeyError` in both scripts, is not represented.
- `pandas.read_csv` and `DataFrame.to_csv` are the `Reader` and `Writer` parameters, and the separators are absorbed into them. The root-level script therefore cannot show that `fetch` writes with the default `,` (data_preparation.py:74) while the combiner reads the same files with `sep=';'` (data_preparation.py:140). A cell is assumed to be already in the form `str()` gives it, so pandas' number formatting (such as a float location id printing as `10574.0`) is not modelled.
- The d6tstack `CombinerCSV.to_csv_align` call is an opaque library call. Its output files and any exception it raises are not modelled; the model records only which buckets it is called on.
- The process pools (`pathos` `uimap`, `multiprocessing` `imap_unordered`) and `tqdm` are modelled as an in-order map. Completion order is covered by the multiset lemmas rather than modelled as scheduling: `Golddust.ExtractFileLinksUnordered`, `Golddust.FetchFileLinksUnordered` and `Golddust.SortSensorTypesUnordered` for golddust, and `Legacy.AllFileLinksUnordered`, `Legacy.SplitUnordered` and `Legacy.SortLinksUnordered` for the root-level script.
- `clean_up`'s `os.remove`, every `print`, and the argparse wrapper with `_valid_date` are I/O or command-line handling.
- `Dates.ParseDate`: `\d` in Python's `_strptime` also matches non-ASCII Unicode digits. The model accepts ASCII digits only.
- `Io.FetchListings`: a folder listing that cannot be fetched is not caught in either script, so it fails the whole stage. This is modelled as written.
- The original script's module-level prints of the first ten links and the bucket sizes are not modelled.
- golddust/lvbcam.py and golddust/webcam-to-cars.py (Mask R-CNN inference and OpenCV display) are not part of this model. Neither is golddust/get_data.py (remote SQL query strings).
