/**
 * The `CheeseScraper` object: the category list it is built with, and its
 * three stateful operations (scanning a results page, saving one Base64
 * payload to the disk, and the discovery loop), each proved to compute what
 * the matching function of `Discovery` describes.
 */
module Scraper {
  import opened Wrappers
  import opened Bytes
  import opened Text
  import opened Base64
  import opened Dates
  import opened Files
  import opened Discovery
  import opened DiscoveryProps

  class CheeseScraper {
    /** Where the downloaded images go; the output directory lives on it. */
    const disk: Disk
    const cheeseTypes: seq<string>

    /** `CheeseScraper()`: the six categories, over the given disk. */
    constructor (disk: Disk)
      ensures this.disk == disk && cheeseTypes == CheeseTypes
    {
      this.disk := disk;
      cheeseTypes := CheeseTypes;
    }

    /**
     * `scrape_image_data(search_url, max_images)`: scan the `<g-img>`
     * sources in page order, keeping each `data:image` source once, then
     * cut the list to `max_images`.
     */
    method ScrapeImageData(searchUrl: string, maxImages: int, env: Env) returns (r: seq<string>)
      ensures r == PageSources(env.browse(searchUrl), maxImages)
    {
      var page := env.browse(searchUrl);
      if page.Unavailable? {
        return [];
      }
      var sources := page.sources;
      var list: seq<string> := [];
      var i := 0;
      while i < |sources|
        invariant 0 <= i <= |sources|
        invariant list == UniqueDataImages(sources[..i])
      {
        assert sources[..i + 1][..i] == sources[..i];
        if sources[i].Some? {
          var src := sources[i].value;
          if StartsWith(src, DataImagePrefix) && src !in list {
            list := list + [src];
          }
        }
        i := i + 1;
      }
      assert sources[..i] == sources;
      if list == [] {
        return [];
      }
      r := SliceTo(list, maxImages);
    }

    /**
     * `save_base64_image(payload, filename)`: split off the header, decode,
     * refuse bodies over 10 MiB, write the file, then read its dimensions
     * and delete it again when it is under 100 x 100.
     */
    method SaveBase64Image(payload: string, filename: string, env: Env) returns (r: Option<Path>)
      modifies disk
      ensures Saved(r, disk.files) == SaveOutcome(payload, filename, old(disk.files), env.imageSize)
    {
      var parts := SplitOnce(payload, ',');
      if parts.None? {
        return None;
      }
      var decoded := Decode(parts.value.1);
      if decoded.None? {
        return None;
      }
      var data := decoded.value;
      if |data| > MaxFileSize {
        return None;
      }
      var p := JoinPath(OutputDir, filename);
      disk.Write(p, data);
      var stored := disk.ReadBytes(p);
      var size := env.imageSize(stored.value);
      if size.None? {
        return None;
      }
      if size.value.0 < MinWidth || size.value.1 < MinHeight {
        disk.Unlink(p);
        return None;
      }
      r := Some(p);
    }

    /**
     * `find_and_download_candidates(max_total_images)`: for each category in
     * turn, fetch its payloads and save them one by one, recording a
     * candidate for each image kept, until the categories run out or
     * `maxTotal` candidates have been found.
     */
    method FindAndDownloadCandidates(maxTotal: int, env: Env, today: Date) returns (candidates: seq<Candidate>)
      requires Valid(today)
      modifies disk
      ensures Progress(candidates, disk.files) == Discover(cheeseTypes, maxTotal, env, today, old(disk.files))
      ensures |candidates| <= (if maxTotal <= 0 then 0 else maxTotal)
      ensures SameOutside(old(disk.files), disk.files)
      ensures NoDuplicates(cheeseTypes) ==> GroupedByType(cheeseTypes, candidates)
    {
      candidates := [];
      var k := 0;
      while k < |cheeseTypes|
        invariant 0 <= k <= |cheeseTypes|
        invariant VisitTypes(cheeseTypes[k..], |cheeseTypes|, maxTotal, env, today, Progress(candidates, disk.files))
               == Discover(cheeseTypes, maxTotal, env, today, old(disk.files))
      {
        if |candidates| >= maxTotal {
          break;
        }
        var cheeseType := cheeseTypes[k];
        var searchUrl := SearchUrl(cheeseType);
        var imagesPerType := maxTotal / |cheeseTypes| + 1;
        var payloads := ScrapeImageData(searchUrl, imagesPerType, env);
        assert payloads == CategoryPayloads(cheeseType, PerTypeLimit(maxTotal, |cheeseTypes|), env);
        ghost var before := Progress(candidates, disk.files);
        assert cheeseTypes[k..] == [cheeseType] + cheeseTypes[k + 1..];
        assert VisitTypes(cheeseTypes[k..], |cheeseTypes|, maxTotal, env, today, before)
            == VisitTypes(cheeseTypes[k + 1..], |cheeseTypes|, maxTotal, env, today,
                          VisitPayloads(payloads, cheeseType, maxTotal, env, today, before));
        candidates := DownloadCategory(cheeseType, payloads, maxTotal, env, today, candidates);
        if |candidates| >= maxTotal {
          break;
        }
        k := k + 1;
      }
      DiscoverBounds(cheeseTypes, maxTotal, env, today, old(disk.files));
      if NoDuplicates(cheeseTypes) {
        DiscoverOrder(cheeseTypes, maxTotal, env, today, old(disk.files));
      }
    }

    /**
     * The inner loop of `find_and_download_candidates`: the payloads of one
     * category, each named by its hash and saved, a candidate recorded for
     * each image kept, stopping once `maxTotal` candidates are found.
     */
    method DownloadCategory(cheeseType: string, payloads: seq<string>, maxTotal: int, env: Env, today: Date,
                            found: seq<Candidate>) returns (candidates: seq<Candidate>)
      requires Valid(today)
      modifies disk
      ensures Progress(candidates, disk.files)
           == VisitPayloads(payloads, cheeseType, maxTotal, env, today, Progress(found, old(disk.files)))
    {
      candidates := found;
      var j := 0;
      while j < |payloads|
        invariant 0 <= j <= |payloads|
        invariant VisitPayloads(payloads[j..], cheeseType, maxTotal, env, today, Progress(candidates, disk.files))
               == VisitPayloads(payloads, cheeseType, maxTotal, env, today, Progress(found, old(disk.files)))
      {
        if |candidates| >= maxTotal {
          break;
        }
        var filename := CandidateFilename(cheeseType, payloads[j], env.md5);
        var filePath := SaveBase64Image(payloads[j], filename, env);
        if filePath.Some? {
          var metadata := AnalyzeImageContent(filePath.value, cheeseType, today);
          candidates := candidates + [Candidate(filename, filePath.value, cheeseType, metadata)];
        }
        assert payloads[j..][1..] == payloads[j + 1..];
        j := j + 1;
      }
    }
  }
}
