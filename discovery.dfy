/**
 * What the cheese scraper computes, as functions of its inputs: the search
 * URL for a cheese type, the image sources kept from a results page, the
 * outcome of saving one Base64 payload, the metadata of a candidate, and the
 * whole category-by-category discovery with its caps.
 *
 * The browser, MD5 and the image decoder are inputs (`Env`): the browser
 * as the page each search URL renders to, MD5 as any function from bytes
 * to a string, and the decoder as the optional (width, height) it
 * reads from a file's bytes.
 */
module Discovery {
  import opened Wrappers
  import opened Bytes
  import opened Text
  import opened UrlEncoding
  import opened Base64
  import opened Dates
  import opened Files

  /** The settings `CheeseScraper.__init__` fixes. */
  const OutputDir: Path := "scraped_cheese_images"
  const CheeseTypes: seq<string> := ["semi soft", "bloomy", "blue", "hard", "washed rind", "fresh"]
  const MinWidth: int := 100
  const MinHeight: int := 100
  const MaxFileSize: int := 10 * 1024 * 1024

  const SearchBase: string := "https://www.google.com/search?"
  const DataImagePrefix: string := "data:image"

  /**
   * What the browser session yields for a search URL: `Unavailable` when the
   * driver cannot start, the wait for `g-img img` times out or anything else
   * raises outside the per-element scan; otherwise the `src` of the `<img>`
   * inside each `<g-img>`, in page order, `None` where the lookup raised or
   * found no attribute.
   */
  datatype Page = Unavailable | Rendered(sources: seq<Option<string>>)

  datatype Env = Env(
    browse: string -> Page,
    md5: seq<Byte> -> string,
    imageSize: seq<Byte> -> Option<(int, int)>)

  datatype Metadata = Metadata(tags: seq<string>, context: seq<(string, string)>)

  datatype Candidate = Candidate(id: string, filePath: Path, cheeseType: string, metadata: Metadata)

  /** The outcome of saving one payload: the path returned and the files afterwards. */
  datatype Saved = Saved(path: Option<Path>, files: map<Path, seq<Byte>>)

  /** Discovery so far: the candidates found and the files on disk. */
  datatype Progress = Progress(found: seq<Candidate>, files: map<Path, seq<Byte>>)

  // ---------------------------------------------------------------------
  // get_search_url

  /** The query parameters, in the order the URL carries them. */
  function SearchParams(cheeseType: string): seq<(string, string)>
  {
    [("q", cheeseType + " cheese"), ("tbm", "isch"), ("as_st", "y"), ("imgtype", "photo"), ("tbs", "sur:cl")]
  }

  /** `get_search_url(cheese_type)` */
  function SearchUrl(cheeseType: string): (r: string)
    ensures StartsWith(r, SearchBase)
  {
    SearchBase + UrlEncode(SearchParams(cheeseType))
  }

  /**
   * The URL is the search base followed by a query that decodes to the five
   * parameters in order, the first being `q = "<type> cheese"` as UTF-8.
   */
  lemma SearchUrlQuery(cheeseType: string)
    ensures StartsWith(SearchUrl(cheeseType), SearchBase)
    ensures ParseQuery(SearchUrl(cheeseType)[|SearchBase|..]) == Some(EncodedParams(SearchParams(cheeseType)))
    ensures EncodedParams(SearchParams(cheeseType))[0] == (EncodeUtf8("q"), EncodeUtf8(cheeseType + " cheese"))
  {
    var q := UrlEncode(SearchParams(cheeseType));
    assert SearchUrl(cheeseType)[|SearchBase|..] == q;
    assert SearchUrl(cheeseType)[..|SearchBase|] == SearchBase;
    ParseUrlEncode(SearchParams(cheeseType));
  }

  /** Lower-case words separated by spaces, as every built-in category is. */
  predicate IsWords(s: string) {
    forall i :: 0 <= i < |s| ==> s[i] == ' ' || 'a' <= s[i] <= 'z'
  }

  lemma WordsAppend(a: string, b: string)
    requires IsWords(a) && IsWords(b)
    ensures IsWords(a + b)
  {
    forall i | 0 <= i < |a + b| ensures (a + b)[i] == ' ' || 'a' <= (a + b)[i] <= 'z' {
      if i >= |a| {
        assert (a + b)[i] == b[i - |a|];
      }
    }
  }

  lemma CheeseSuffixWords()
    ensures IsWords(" cheese")
  {
  }

  /** For the built-in categories, each space of the query becomes `+` and nothing else changes. */
  lemma QueryOfWords(cheeseType: string)
    requires IsWords(cheeseType)
    ensures QuotePlus(cheeseType + " cheese") == ReplaceChar(cheeseType + " cheese", ' ', '+')
  {
    var s := cheeseType + " cheese";
    CheeseSuffixWords();
    WordsAppend(cheeseType, " cheese");
    assert forall i :: 0 <= i < |s| ==> s[i] == ' ' || IsAlwaysSafe(s[i] as int);
    QuotePlusWords(s);
  }

  /** The colon of the `tbs` value is escaped: the query carries `tbs=sur%3Acl`. */
  lemma QuoteLicenceFilter()
    ensures QuotePlus("sur:cl") == "sur%3Acl"
  {
  }

  // ---------------------------------------------------------------------
  // scrape_image_data

  predicate IsDataImage(src: string) {
    StartsWith(src, DataImagePrefix)
  }

  /**
   * The `data:image` sources of a page, each once, in the order of their
   * first appearance: the list the scan loop builds.
   */
  function UniqueDataImages(sources: seq<Option<string>>): (r: seq<string>)
    ensures forall i :: 0 <= i < |r| ==> IsDataImage(r[i])
    ensures NoDuplicates(r)
    ensures forall s :: s in r <==> Some(s) in sources && IsDataImage(s)
  {
    if sources == [] then []
    else
      var earlier := UniqueDataImages(sources[..|sources| - 1]);
      assert sources == sources[..|sources| - 1] + [sources[|sources| - 1]];
      match sources[|sources| - 1]
      case Some(src) => if IsDataImage(src) && src !in earlier then earlier + [src] else earlier
      case None => earlier
  }

  /**
   * What `scrape_image_data` returns for a page: nothing when the session
   * failed or no source qualified, otherwise the first `maxImages` of the
   * unique `data:image` sources (Python's `[:max_images]`).
   */
  function PageSources(page: Page, maxImages: int): (r: seq<string>)
    ensures forall i :: 0 <= i < |r| ==> IsDataImage(r[i])
    ensures NoDuplicates(r)
    ensures page.Unavailable? ==> r == []
    ensures page.Rendered? ==> forall s :: s in r ==> Some(s) in page.sources
    ensures maxImages >= 0 ==> |r| <= maxImages
  {
    match page
    case Unavailable => []
    case Rendered(sources) =>
      var unique := UniqueDataImages(sources);
      if unique == [] then [] else SliceTo(unique, maxImages)
  }

  // ---------------------------------------------------------------------
  // save_base64_image

  /**
   * `save_base64_image(payload, filename)` on the files `files`. A payload
   * without a comma, an undecodable body or a body over 10 MiB changes
   * nothing; otherwise the bytes are written to `OutputDir/filename`, and
   * then deleted again if the decoder reads dimensions under 100 x 100, but
   * left in place if it cannot read the file at all.
   */
  function SaveOutcome(payload: string, filename: string, files: map<Path, seq<Byte>>,
                       imageSize: seq<Byte> -> Option<(int, int)>): (r: Saved)
    ensures ',' !in payload ==> r == Saved(None, files)
    ensures forall q :: q != JoinPath(OutputDir, filename) ==>
              (q in r.files <==> q in files) && (q in files ==> r.files[q] == files[q])
    ensures r.path.Some? ==>
              && r.path.value == JoinPath(OutputDir, filename)
              && r.path.value in r.files
              && |r.files[r.path.value]| <= MaxFileSize
              && imageSize(r.files[r.path.value]).Some?
              && imageSize(r.files[r.path.value]).value.0 >= MinWidth
              && imageSize(r.files[r.path.value]).value.1 >= MinHeight
  {
    match SplitOnce(payload, ',')
    case None => Saved(None, files)
    case Some((_, encoded)) =>
      match Decode(encoded)
      case None => Saved(None, files)
      case Some(data) =>
        if |data| > MaxFileSize then Saved(None, files)
        else
          var p := JoinPath(OutputDir, filename);
          var written := files[p := data];
          match imageSize(data)
          case None => Saved(None, written)
          case Some((w, h)) =>
            if w < MinWidth || h < MinHeight then Saved(None, written - {p})
            else Saved(Some(p), written)
  }

  // ---------------------------------------------------------------------
  // analyze_image_content and the candidate record

  /** `analyze_image_content(file_path, cheese_type)`; the path is not used. */
  function AnalyzeImageContent(filePath: Path, cheeseType: string, today: Date): (m: Metadata)
    requires Valid(today)
    ensures m.tags == ["cheese", cheeseType]
    ensures |m.context| == 3 && m.context[2].0 == "scrape_date" && ParseIso(m.context[2].1) == Some(today)
  {
    ParseFormat(today);
    Metadata(
      ["cheese", cheeseType],
      [("source", "google-images"), ("license", "creative-commons"), ("scrape_date", IsoFormat(today))])
  }

  /** The type as it appears in file names: spaces become underscores. */
  function Slug(cheeseType: string): string
  {
    ReplaceChar(cheeseType, ' ', '_')
  }

  /** The first ten hex digits of the MD5 of the payload's UTF-8 bytes. */
  function PayloadHash(md5: seq<Byte> -> string, payload: string): string
  {
    SliceTo(md5(EncodeUtf8(payload)), 10)
  }

  /** `f"{cheese_type.replace(' ', '_')}_{file_hash}.jpg"` */
  function CandidateFilename(cheeseType: string, payload: string, md5: seq<Byte> -> string): (r: string)
    ensures StartsWith(r, Slug(cheeseType) + "_") && EndsWith(r, ".jpg")
    ensures |r| <= |cheeseType| + 15
  {
    Slug(cheeseType) + "_" + PayloadHash(md5, payload) + ".jpg"
  }

  /** `max_total_images // len(self.cheese_types) + 1` (floor division). */
  function PerTypeLimit(maxTotal: int, typeCount: int): (r: int)
    requires typeCount > 0
    ensures maxTotal >= 0 ==> 1 <= r <= maxTotal + 1
    ensures maxTotal >= 0 ==> (r - 1) * typeCount <= maxTotal < r * typeCount
  {
    maxTotal / typeCount + 1
  }

  // ---------------------------------------------------------------------
  // find_and_download_candidates

  /** One payload of one category: save it and, if it is kept, record a candidate. */
  function TryPayload(payload: string, cheeseType: string, env: Env, today: Date, acc: Progress): Progress
    requires Valid(today)
  {
    var name := CandidateFilename(cheeseType, payload, env.md5);
    var saved := SaveOutcome(payload, name, acc.files, env.imageSize);
    if saved.path.Some? then
      var c := Candidate(name, saved.path.value, cheeseType, AnalyzeImageContent(saved.path.value, cheeseType, today));
      Progress(acc.found + [c], saved.files)
    else Progress(acc.found, saved.files)
  }

  /** The inner loop: payloads in order, until they run out or the cap is reached. */
  function VisitPayloads(payloads: seq<string>, cheeseType: string, maxTotal: int, env: Env, today: Date,
                         acc: Progress): Progress
    requires Valid(today)
    decreases |payloads|
  {
    if payloads == [] || |acc.found| >= maxTotal then acc
    else VisitPayloads(payloads[1..], cheeseType, maxTotal, env, today, TryPayload(payloads[0], cheeseType, env, today, acc))
  }

  /** The payloads fetched for one category, at most `perType` of them. */
  function CategoryPayloads(cheeseType: string, perType: int, env: Env): seq<string>
  {
    PageSources(env.browse(SearchUrl(cheeseType)), perType)
  }

  /**
   * The outer loop over the categories still to visit, `typeCount` being the
   * length of the whole list: categories in order, until they run out or the
   * cap is reached.
   */
  function VisitTypes(types: seq<string>, typeCount: int, maxTotal: int, env: Env, today: Date, acc: Progress): Progress
    requires Valid(today) && |types| <= typeCount
    decreases |types|
  {
    if types == [] || |acc.found| >= maxTotal then acc
    else
      var payloads := CategoryPayloads(types[0], PerTypeLimit(maxTotal, typeCount), env);
      var afterType := VisitPayloads(payloads, types[0], maxTotal, env, today, acc);
      VisitTypes(types[1..], typeCount, maxTotal, env, today, afterType)
  }

  /** `find_and_download_candidates(max_total_images)` over the category list `types`, from the files `files`. */
  function Discover(types: seq<string>, maxTotal: int, env: Env, today: Date, files: map<Path, seq<Byte>>): Progress
    requires Valid(today)
  {
    VisitTypes(types, |types|, maxTotal, env, today, Progress([], files))
  }
}
