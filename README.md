# Cheese scraper and scraping agent, modelled in Dafny

This project models the two core classes of the cheese image collector.

- `CheeseScraper` builds a Google Images search URL for each cheese
  category. From each results page it keeps the unique `data:image`
  sources. It decodes and saves each Base64 payload, subject to a 10 MiB
  ceiling and a 100 x 100 pixel floor. It records a candidate, with fixed
  tags and context, for each image it keeps, up to a per-category quota and
  a total cap.
- `CheeseScrapingAgent` loads its JSON state with defaults and runs the
  scraper. It turns each candidate into a queue entry and appends the
  entries whose file path is not queued yet. It moves the running total and
  today's counter by the number appended, and saves the state, also when the
  run ends early.

The model has three layers.

- Specification functions describe each operation as a value of its inputs:
  `Discovery` for the scraper and `Queue` for the agent's state.
- Lemmas in `DiscoveryProps` and `Queue` prove the properties the code
  promises about those functions.
- The classes `Scraper.CheeseScraper` and `Agent.CheeseScrapingAgent` update
  state in place, as the Python objects do. Their loops are proved to compute
  exactly the specification functions.
  - The disk is a `Files.Disk` object holding a map from path to bytes.
  - The agent's state file is a field: `None` while the file does not exist,
    otherwise its contents.
  - `run` and `find_and_download_candidates` each have nested loops. Their
    inner loops are helper methods of the same class
    (`DownloadCategory`, `BuildPendingList`, `AddToQueue` and
    `AppendNewEntries`).

The outside world comes in as parameters (`Discovery.Env`, `today`,
`resolve`).

- The browser session is `browse`. It maps a search URL to the page it
  renders: the optional `src` of each `<g-img>` in page order, or
  `Unavailable` when the session fails.
- MD5 is `md5`, any function from bytes to a string. Nothing constrains
  that string to be a hex digest. `Queue.StemOfCandidate` and
  `Queue.EntryOfCandidate` therefore require that the 10-character prefix
  used in the file name contain no `/`.
- PIL is `imageSize`, which gives the optional (width, height) read from a
  file's bytes.
- The clock is a `Date` parameter, `today`.
- `Path.resolve` is `resolve`.

Supporting modules:

- `UrlEncoding` models `urlencode` with `quote_plus`, together with a
  decoder proved to invert it.
- `Base64` models section 4 of RFC 4648, with a decoder proved to invert the
  encoder.
- `Dates` models the `%Y-%m-%d` format.
- `Bytes` models UTF-8 encoding.
- `Text` holds Python's slicing, `split(',', 1)`, `replace` and `join`.

Some behaviour of the code that the model keeps as written:

- With no scraper, `run` returns before its `try` (cheese_agent.py:84-86),
  so nothing is saved.
- Tags are the list `['cheese', type]` (cheese_scraper.py:151).
- File names replace each space of the category with `_`
  (cheese_scraper.py:197).
- Only the three known keys get defaults on load (cheese_agent.py:60-65).

## Model

| member | source | states |
|---|---|---|
| Scraper.CheeseScraper.constructor | cheese_scraper.py:40-59 | the scraper's categories are the six fixed ones, in order, over the given disk |
| Discovery.SearchUrlQuery | cheese_scraper.py:61-71 | the URL is the search base followed by a query that decodes back to the five parameters, in the order q, tbm, as_st, imgtype, tbs, with q equal to `<type> cheese` |
| Discovery.SearchUrl | cheese_scraper.py:61-71 | the URL starts with `https://www.google.com/search?` and carries the `urlencode` of the five parameters; `SearchUrlQuery` gives what they decode to |
| Discovery.QueryOfWords | cheese_scraper.py:65-71 | for a category of lower-case words, the encoded q value is the text with each space turned into `+` |
| Discovery.QuoteLicenceFilter | cheese_scraper.py:69-71 | the `tbs` value `sur:cl` is sent as `sur%3Acl` |
| UrlEncoding.ParseUrlEncode | cheese_scraper.py:71 | decoding the output of `urlencode` gives back every pair, in order, as UTF-8 bytes |
| UrlEncoding.UnquoteQuote | cheese_scraper.py:71 | `quote_plus` loses nothing: unquoting gives back the exact bytes |
| UrlEncoding.QuotedHasNoSeparator | cheese_scraper.py:71 | a quoted value never contains `&` or `=` |
| UrlEncoding.QuotePlus | cheese_scraper.py:71 | `quote_plus` of the UTF-8 bytes: only letters, digits, `_.-~`, `+` and `%` escapes appear; `UnquoteQuote` proves it invertible |
| UrlEncoding.UrlEncode | cheese_scraper.py:71 | `urlencode` of a list of pairs, `key=value` quoted and joined with `&` in list order; `ParseUrlEncode` proves it decodes back to the pairs |
| Discovery.UniqueDataImages | cheese_scraper.py:96-105 | the kept sources are exactly the `data:image` sources of the page, each once; a source whose lookup failed is skipped |
| DiscoveryProps.UniqueDataImagesOrder | cheese_scraper.py:96-105 | the kept sources are in the order of their first appearance on the page |
| Discovery.PageSources | cheese_scraper.py:107-116 | the result holds only `data:image` sources of the page, without repeats and at most `max_images` of them; a failed session gives `[]` |
| DiscoveryProps.PageSourcesPrefix | cheese_scraper.py:107-112 | truncation happens after deduplication: the result is a prefix of the unique sources: all of them when they fit, and exactly `max_images` of them when they do not |
| Scraper.CheeseScraper.ScrapeImageData | cheese_scraper.py:96-116 | the scan loop returns what `PageSources` describes for the rendered page |
| Discovery.SaveOutcome | cheese_scraper.py:121-146 | a payload without a comma changes nothing; only `output_dir/filename` can change; a returned path holds an image of at most 10 MiB and at least 100 x 100 |
| DiscoveryProps.SaveIgnoresHeader | cheese_scraper.py:124 | the split is at the first comma and the header is never inspected |
| DiscoveryProps.SaveEncoded | cheese_scraper.py:124-146 | the Base64 of `bs` over 10 MiB writes nothing; at most 10 MiB and at least 100 x 100, it is stored and its path returned; a smaller image leaves no file; an undecodable image leaves the file and returns `None` |
| DiscoveryProps.SaveDecoded | cheese_scraper.py:124-129 | a body the decoder rejects, or one that decodes to more than 10 MiB, leaves the files unchanged and returns `None` |
| Base64.DecodeEncode | cheese_scraper.py:125 | decoding the Base64 encoding of any bytes gives the bytes back |
| Base64.Decode | cheese_scraper.py:125 | `b64decode` on well-formed input: a result exists only for a length that is a multiple of four, and has between `3n - 2` and `3n` bytes for `n` groups |
| Scraper.CheeseScraper.SaveBase64Image | cheese_scraper.py:121-146 | the path returned and the files afterwards are exactly `SaveOutcome` of the files before |
| Queue.LabelsOf | cheese_scraper.py:148-157 | the metadata's tags join to `cheese,<type>` and its context to `source=google-images\|license=creative-commons\|scrape_date=<today>` |
| Discovery.AnalyzeImageContent | cheese_scraper.py:148-157 | the tags are `cheese` and the category; the third context entry is `scrape_date`, whose value parses back to the day of the run |
| Dates.ParseFormat | cheese_scraper.py:155 | the scrape date is written `YYYY-MM-DD` and reads back as the same date |
| Dates.FormatInjective | cheese_scraper.py:155 | distinct dates are written differently, so per-day buckets do not merge |
| Dates.IsoFormat | cheese_scraper.py:155 | `strftime('%Y-%m-%d')`: ten characters, digits with `-` at positions 4 and 7 |
| Discovery.PerTypeLimit | cheese_scraper.py:188 | `max_total // len(types) + 1` is the least count whose multiple by the number of categories exceeds the total |
| Discovery.CandidateFilename | cheese_scraper.py:196-197 | the file name starts with the category, spaces as `_`, followed by `_`, ends in `.jpg`, and is at most 15 characters longer than the category |
| DiscoveryProps.TryPayloadStep | cheese_scraper.py:196-212 | a payload whose save returns no path adds no candidate; a kept payload adds exactly one, made from it, with the returned path; the files are those the save leaves, changed only under the output directory |
| Discovery.TryPayload | cheese_scraper.py:196-212 | one iteration of the inner loop: save the payload and, when a path comes back, append its candidate; `TryPayloadStep` states its outcome |
| Discovery.VisitPayloads | cheese_scraper.py:191-216 | the inner loop over one category's payloads, stopping at the cap; `VisitPayloadsShape` and `VisitPayloadsMade` state its properties |
| Discovery.VisitTypes | cheese_scraper.py:180-220 | the outer loop over the categories with the per-category quota, stopping at the cap; `VisitTypesOrder` and `VisitTypesQuota` state its properties |
| Discovery.Discover | cheese_scraper.py:171-223 | `find_and_download_candidates` as a value, from no candidates; `DiscoverBounds`, `DiscoverMade`, `DiscoverOrder` and `DiscoverQuota` state its properties |
| DiscoveryProps.VisitPayloadsShape | cheese_scraper.py:191-216 | one category's loop keeps earlier candidates, adds at most one per payload, never passes the cap and touches only the output directory |
| DiscoveryProps.VisitPayloadsMade | cheese_scraper.py:194-212 | each candidate a category's loop adds was made from one of its payloads |
| DiscoveryProps.VisitTypesOrder | cheese_scraper.py:180-190 | with distinct categories, the candidates come grouped by category in list order |
| DiscoveryProps.VisitTypesQuota | cheese_scraper.py:186-191 | with distinct categories, no category adds more candidates than the payloads fetched for it |
| DiscoveryProps.DiscoverBounds | cheese_scraper.py:180-220 | discovery returns at most `max_total` candidates, none and no file written when the cap is not positive, and changes no file outside the output directory |
| DiscoveryProps.DiscoverMade | cheese_scraper.py:194-212 | every candidate is of a listed category and made from a payload of that category's search: id `<slug>_<hash10>.jpg`, path under the output directory, metadata from `analyze_image_content` |
| DiscoveryProps.DiscoverOrder | cheese_scraper.py:180-190 | with distinct categories, candidates come grouped in the order of the category list |
| DiscoveryProps.DiscoverQuota | cheese_scraper.py:186-189 | with distinct categories, no category gets more than `max_total // len(types) + 1` candidates |
| DiscoveryProps.CheeseTypesDistinct | cheese_scraper.py:53-55 | the six categories are distinct, so the ordering and quota lemmas apply to the scraper |
| Scraper.CheeseScraper.DownloadCategory | cheese_scraper.py:191-216 | the inner loop over one category's payloads computes `VisitPayloads` from the candidates and files before it |
| Scraper.CheeseScraper.FindAndDownloadCandidates | cheese_scraper.py:171-223 | the candidates and the files afterwards are exactly `Discover` over the categories; at most `max_total` candidates; nothing outside the output directory changes; distinct categories come grouped in list order |
| Agent.CheeseScrapingAgent.constructor | cheese_agent.py:19-49 | the daily target is 10 and the state is `LoadState` of the state file |
| Queue.LoadState | cheese_agent.py:51-70 | a missing or unreadable file gives the defaults `0`, `[]`, `{}`; otherwise each present key and every extra key is kept and each missing key takes its default |
| Agent.CheeseScrapingAgent.LoadAgentState | cheese_agent.py:51-70 | the loaded state is `LoadState` of the state file |
| Queue.LoadStore | cheese_agent.py:51-78 | what is saved is loaded back unchanged |
| Queue.Store | cheese_agent.py:72-78 | `json.dump` of the state writes all its keys, the extra ones included; `LoadStore` proves it reads back as the same state |
| Agent.CheeseScrapingAgent.SaveAgentState | cheese_agent.py:72-78 | the state file afterwards holds the whole current state |
| Queue.PendingList | cheese_agent.py:101-113 | the entries exist exactly when every candidate's file can be read; there is one per candidate, in order, each built from that file's bytes |
| Queue.MakeEntry | cheese_agent.py:103-113 | the entry of one candidate: its resolved `file://` path, the `cheese-collection/<stem>_<hash8>` id, and tags and context flattened to strings; `EntryOfCandidate` gives them for a discovered candidate |
| Queue.EntryOfCandidate | cheese_agent.py:103-113 | a discovered candidate's entry has `file_path` `file://<resolved path>`, `public_id` `cheese-collection/<slug>_<hash10>_<hash8>`, tags `cheese,<type>` and the fixed context with the date |
| Agent.CheeseScrapingAgent.BuildPendingList | cheese_agent.py:101-113 | the entry-building loop yields `PendingList` of the candidates over the current files |
| Queue.NewEntriesSound | cheese_agent.py:115-122 | the appended entries come from the batch, have paths not queued before and pairwise distinct; every batch path ends up queued |
| Queue.NewEntriesFirst | cheese_agent.py:115-122 | for each new path, the first entry of the batch with that path is the one appended, in batch order |
| Queue.NewEntriesFresh | cheese_agent.py:115-122 | a batch of distinct, unqueued paths is appended whole |
| Queue.NewEntriesKnown | cheese_agent.py:115-122 | a batch whose paths are all queued appends nothing |
| Queue.NewEntriesStep | cheese_agent.py:118-122 | one loop step appends the entry and records its path exactly when the path is unseen |
| Queue.NewEntries | cheese_agent.py:115-122 | the batch entries the merge loop appends; `NewEntriesSound`, `NewEntriesFirst`, `NewEntriesFresh` and `NewEntriesKnown` state which |
| Queue.AppendNewProps | cheese_agent.py:115-122 | after appending, every batch path is queued, every entry was queued before or comes from the batch, and distinct paths stay distinct |
| Queue.MergeProps | cheese_agent.py:115-129 | the old queue is a prefix of the new one; the total, today's count and the queue length grow by the same non-negative amount; today's bucket exists afterwards; no other day changes; extra keys are untouched |
| Queue.MergeIdempotent | cheese_agent.py:115-129 | merging the same batch again changes nothing |
| Queue.MergeFresh | cheese_agent.py:115-129 | with fresh, distinct paths, the whole batch is appended and both counters grow by its size |
| Queue.Merge | cheese_agent.py:115-129 | the state after a batch is merged; `MergeProps`, `MergeIdempotent` and `MergeFresh` state its properties |
| Queue.RunOutcome | cheese_agent.py:92-142 | the state a run leaves: unchanged with no candidates or an unreadable file, otherwise the merge of the entries; `RunTwice` proves a repeated run changes nothing |
| Queue.RunTwice | cheese_agent.py:92-142 | two runs over the same candidates and files leave the state of one run |
| Agent.CheeseScrapingAgent.AppendNewEntries | cheese_agent.py:115-122 | the append loop adds exactly `NewEntries` of the batch to the queue and returns how many |
| Agent.CheeseScrapingAgent.AddToQueue | cheese_agent.py:115-129 | the queue and counters afterwards are `Merge` of the state before |
| Agent.CheeseScrapingAgent.Run | cheese_agent.py:80-142 | without a scraper nothing changes and nothing is saved; otherwise the files are those discovery leaves, the state is unchanged when there are no candidates or a file cannot be read and is the merge of their entries otherwise, and the state is saved on every path |

## Left out

- Selenium is left out: the driver, the 20-second wait, the scrolling, the sleeps and `driver.quit`. The page is the `browse` input.
- PIL's `Image.open` is left out; it is the `imageSize` input.
- MD5 is left out; it is the `md5` input. The model takes only the 10- and 8-character prefixes of its output.
- `datetime.now()` is the `today` parameter. One date serves the whole run, although the code reads the clock separately for the metadata and for the daily counter.
- `Path.resolve` is the `resolve` parameter.
- `mkdir` is left out. The state file's location and the log directory are also left out.
- `cleanup_local_images` is housekeeping that nothing in the core calls.
- Logging is left out. `processed_count` is also left out: it is counted but never read.
- The `__main__` blocks are left out.
- `json.load` and `json.dump` are left out. The file holds the state record itself.
  - Key order is not modelled.
  - A key present with a value of the wrong type is not modelled.
  - A daily bucket is only its `scraped` count. A bucket without `scraped` would raise `KeyError` after the queue and the total had already changed; that case is not modelled.
- Base64.Decode: accepts only well-formed RFC 4648 input (length a multiple of 4, alphabet characters, at most two trailing `=`). Python's `b64decode` also discards non-alphabet characters; that leniency is not modelled.
- Dates.IsoFormat: covers years 1000 to 9999 only.
- Scraper.CheeseScraper.SaveBase64Image: the write and the unlink always succeed. An I/O error there, which the code would catch and turn into `None`, is not modelled.
- Agent.CheeseScrapingAgent.SaveAgentState: the save always succeeds. A failed write, which the code only logs, is not modelled.
- Agent.CheeseScrapingAgent.Run: the only exception modelled in the `try` is a file that cannot be read while building entries. It happens before any state change, so the saved state is the loaded state.
- `CheeseScraper()` failing inside the agent's constructor is the `scraper` argument being `null`.
- Two payloads whose MD5 digests share the first 10 hex digits get the same file name, so the later one overwrites the earlier file. The model keeps that behaviour and proves nothing that would exclude it.
