/** The data-processing part of `NewsScraper`: the per-article loop of
    `search_news` and the rows that `save_to_excel` hands to the spreadsheet
    library. The browser is replaced by what its element lookups return. */
module Scraper {
  import opened Wrappers
  import opened TextUtil
  import opened Phrases
  import opened MoneyPattern
  import opened Recency
  import opened Image
  import opened Pipeline

  /** The configuration file's four fields. */
  datatype Config = Config(searchPhrase: string, category: string, months: int, source: string)

  /** What stays outside the model: the clock, `datetime.fromisoformat`
      (None where it raises) and the HTTP download (whether it succeeded). */
  datatype Env = Env(now: Instant, parse: string -> Option<Instant>, fetch: (string, string) -> bool)

  /** A page element: its visible text and its attributes. */
  datatype Element = Element(text: string, attributes: map<string, string>) {
    /** `get_attribute(name)`, None when the attribute is absent. */
    function GetAttribute(name: string): Option<string> {
      if name in attributes then Some(attributes[name]) else None
    }
  }

  /** An element that is only searched for one inner element. */
  datatype Container = Container(inner: Option<Element>)

  /** One `PageList-items-item` result: what each `find_element` lookup of the
      loop finds, None where it raises. */
  datatype Candidate = Candidate(
    title: Option<Element>,            // .PagePromoContentIcons-text
    timestamp: Option<Element>,        // .Timestamp-template
    description: Option<Container>,    // .PagePromo-description, then .PagePromoContentIcons-text
    media: Option<Container>)          // .PagePromo-media, then .Image

  /** The raw values read from a candidate whose lookups all succeeded. */
  datatype Fields = Fields(title: string, dateStr: Option<string>, description: string, imageUrl: Option<string>)

  /** One article record, the dictionary built in the loop. */
  datatype Record = Record(
    title: string,
    date: Instant,
    description: string,
    imageFilename: string,
    searchPhraseCount: nat,
    containsMoney: bool)

  /** All six sub-elements are present. */
  predicate WellFormed(c: Candidate) {
    && c.title.Some? && c.timestamp.Some?
    && c.description.Some? && c.description.value.inner.Some?
    && c.media.Some? && c.media.value.inner.Some?
  }

  /** The six lookups and the reads of text and attributes; None as soon as
      one lookup raises. */
  function Extract(c: Candidate): (f: Option<Fields>)
    ensures f.Some? <==> WellFormed(c)
    ensures f.Some? ==>
      && f.value.title == c.title.value.text
      && f.value.description == c.description.value.inner.value.text
      && f.value.dateStr == c.timestamp.value.GetAttribute("datetime")
      && f.value.imageUrl == c.media.value.inner.value.GetAttribute("src")
  {
    if WellFormed(c) then
      Some(Fields(
        c.title.value.text,
        c.timestamp.value.GetAttribute("datetime"),
        c.description.value.inner.value.text,
        c.media.value.inner.value.GetAttribute("src")))
    else None
  }

  /** The article's date: the current time when the attribute is missing or
      empty, otherwise the attribute without its last character, parsed. */
  function ArticleDate(dateStr: Option<string>, env: Env): (d: Option<Instant>)
    ensures dateStr.None? || dateStr == Some("") ==> d == Some(env.now)
    ensures dateStr.Some? && dateStr.value != "" ==>
      d == env.parse(dateStr.value[..|dateStr.value| - 1])
  {
    match dateStr
    case None => Some(env.now)
    case Some(s) => if s == "" then Some(env.now) else env.parse(s[..|s| - 1])
  }

  /** The record for an article that passed the window check. The phrase
      count and the money test read the raw texts, the record's title and
      description are sanitised. */
  function MakeRecord(f: Fields, date: Instant, config: Config, outputDir: string, env: Env): (r: Record)
    ensures r.title == CleanText(f.title) && r.description == CleanText(f.description)
    ensures r.date == date
    ensures r.imageFilename == DownloadImage(outputDir, f.imageUrl, env.fetch)
    ensures r.searchPhraseCount == CountSearchPhrases(f.title, f.description, config.searchPhrase)
    ensures r.containsMoney <==> PatternOccurs(f.title) || PatternOccurs(f.description)
  {
    Record(
      CleanText(f.title),
      date,
      CleanText(f.description),
      DownloadImage(outputDir, f.imageUrl, env.fetch),
      CountSearchPhrases(f.title, f.description, config.searchPhrase),
      ContainsMoney(f.title, f.description))
  }

  /** The candidate yields a record: it is well formed, its date parses, and
      the date is in the window. */
  ghost predicate Kept(c: Candidate, config: Config, env: Env) {
    && WellFormed(c)
    && ArticleDate(Extract(c).value.dateStr, env).Some?
    && IsWithinMonths(ArticleDate(Extract(c).value.dateStr, env).value, config.months, env.now) == Some(true)
  }

  /** One iteration of the loop: a record, or None where the iteration is
      skipped (a lookup or the parse raised, or the date is out of the window). */
  function Process(c: Candidate, config: Config, outputDir: string, env: Env): (r: Option<Record>)
    ensures r.Some? <==> Kept(c, config, env)
    ensures r.Some? ==>
      && env.now - 30 * config.months * MicrosPerDay <= r.value.date <= env.now
      && (forall i :: 0 <= i < |r.value.title| ==> IsKept(r.value.title[i]))
      && (forall i :: 0 <= i < |r.value.description| ==> IsKept(r.value.description[i]))
  {
    match Extract(c)
    case None => None
    case Some(f) =>
      match ArticleDate(f.dateStr, env)
      case None => None
      case Some(date) =>
        if IsWithinMonths(date, config.months, env.now) == Some(true)
        then Some(MakeRecord(f, date, config, outputDir, env))
        else None
  }

  /** The loop body as a function of the candidate alone. */
  function Step(config: Config, outputDir: string, env: Env): Candidate -> Option<Record> {
    c => Process(c, config, outputDir, env)
  }

  /** The records the loop collects from the candidates, in page order. */
  function Collect(cs: seq<Candidate>, config: Config, outputDir: string, env: Env): (rs: seq<Record>)
    ensures |rs| <= |cs|
    ensures rs == [] <==> forall i :: 0 <= i < |cs| ==> !Kept(cs[i], config, env)
  {
    FilterMapEmpty(cs, Step(config, outputDir, env));
    FilterMap(cs, Step(config, outputDir, env))
  }

  /** The collected records are exactly those of the candidates that yield
      one, in page order: the k-th record comes from the k-th such candidate,
      their page positions increase, and a candidate yields a record if and
      only if its position is among them. */
  lemma CollectIsFilter(cs: seq<Candidate>, config: Config, outputDir: string, env: Env)
    ensures var idx, rs := Survivors(cs, Step(config, outputDir, env)), Collect(cs, config, outputDir, env);
      && |idx| == |rs|
      && (forall k :: 0 <= k < |idx| ==> 0 <= idx[k] < |cs| && Process(cs[idx[k]], config, outputDir, env) == Some(rs[k]))
      && (forall a, b :: 0 <= a < b < |idx| ==> idx[a] < idx[b])
      && (forall i :: 0 <= i < |cs| ==> (Kept(cs[i], config, env) <==> i in idx))
  {
    var f := Step(config, outputDir, env);
    SurvivorsYieldValues(cs, f);
    SurvivorsIncrease(cs, f);
    SurvivorsComplete(cs, f);
  }

  /** An article without a date (or with an empty one) is dated now, so it
      is kept whenever its window can be computed, even for zero months. */
  lemma MissingDateKept(c: Candidate, config: Config, env: Env)
    requires WellFormed(c)
    requires c.timestamp.value.GetAttribute("datetime").None? || c.timestamp.value.GetAttribute("datetime") == Some("")
    requires 0 <= 30 * config.months * MicrosPerDay <= env.now
    ensures Kept(c, config, env)
  {
  }

  /** A candidate that yields no record (a missing sub-element, a date that
      does not parse, a date outside the window) leaves the records of all
      the others as they are. */
  lemma CollectSkipsDropped(a: seq<Candidate>, c: Candidate, b: seq<Candidate>, config: Config, outputDir: string, env: Env)
    requires !Kept(c, config, env)
    ensures Collect(a + [c] + b, config, outputDir, env) == Collect(a, config, outputDir, env) + Collect(b, config, outputDir, env)
  {
    FilterMapSkip(a, c, b, Step(config, outputDir, env));
  }

  /** Every collected record is dated within the window, and its title and
      description are sanitised. */
  lemma CollectedRecordsInWindow(cs: seq<Candidate>, config: Config, outputDir: string, env: Env)
    ensures forall r :: r in Collect(cs, config, outputDir, env) ==>
      && env.now - 30 * config.months * MicrosPerDay <= r.date <= env.now
      && (forall i :: 0 <= i < |r.title| ==> IsKept(r.title[i]))
      && (forall i :: 0 <= i < |r.description| ==> IsKept(r.description[i]))
  {
    var P := (r: Record) =>
      && env.now - 30 * config.months * MicrosPerDay <= r.date <= env.now
      && (forall i :: 0 <= i < |r.title| ==> IsKept(r.title[i]))
      && (forall i :: 0 <= i < |r.description| ==> IsKept(r.description[i]));
    FilterMapAll(cs, Step(config, outputDir, env), P);
  }

  /** A candidate whose image download fails, or whose image has no `src`,
      still yields its record, with "" as the image file name. */
  lemma FailedDownloadKeepsRecord(c: Candidate, config: Config, outputDir: string, env: Env)
    requires Kept(c, config, env)
    requires var url := c.media.value.inner.value.GetAttribute("src");
      url.None? || !env.fetch(url.value, ImageFilename(outputDir, url.value))
    ensures Process(c, config, outputDir, env).Some?
    ensures Process(c, config, outputDir, env).value.imageFilename == ""
  {
  }

  // ---- Spreadsheet rows ----------------------------------------------------

  /** A spreadsheet cell, typed as the library receives it. */
  datatype Cell = Text(text: string) | Timestamp(instant: Instant) | Number(number: int) | Flag(flag: bool)

  type Row = seq<Cell>

  const ColumnNames: seq<string> :=
    ["Title", "Date", "Description", "Image Filename", "Search Phrase Count", "Contains Money"]

  const Header: Row :=
    [Text("Title"), Text("Date"), Text("Description"), Text("Image Filename"),
     Text("Search Phrase Count"), Text("Contains Money")]

  /** The record's field for a column, as in `data["title"]` and so on. */
  function Column(r: Record, name: string): Option<Cell> {
    if name == "Title" then Some(Text(r.title))
    else if name == "Date" then Some(Timestamp(r.date))
    else if name == "Description" then Some(Text(r.description))
    else if name == "Image Filename" then Some(Text(r.imageFilename))
    else if name == "Search Phrase Count" then Some(Number(r.searchPhraseCount))
    else if name == "Contains Money" then Some(Flag(r.containsMoney))
    else None
  }

  /** One record's row: its cells under the six headings, in heading order. */
  function RowOf(r: Record): (row: Row)
    ensures |row| == |ColumnNames| == |Header|
    ensures forall k :: 0 <= k < |row| ==> Header[k] == Text(ColumnNames[k]) && Column(r, ColumnNames[k]) == Some(row[k])
  {
    [Text(r.title), Timestamp(r.date), Text(r.description), Text(r.imageFilename),
     Number(r.searchPhraseCount), Flag(r.containsMoney)]
  }

  /** The scraper object. The browser, the spreadsheet library and the HTTP
      client it also holds are not part of the model. */
  class NewsScraper {
    const config: Config
    const outputDir: string := "output"

    constructor (config: Config)
      ensures this.config == config
    {
      this.config := config;
    }

    /** `search_news`. `page` is None when a step before the loop raises (the
        search box or the results never appear), and otherwise the results in
        page order. Returns the collected records and the rows written. */
    method SearchNews(page: Option<seq<Candidate>>, env: Env) returns (newsData: seq<Record>, rows: seq<Row>)
      ensures newsData == if page.Some? then Collect(page.value, config, outputDir, env) else []
      ensures |rows| == |newsData| + 1 && rows[0] == Header
      ensures forall i :: 0 <= i < |newsData| ==> rows[i + 1] == RowOf(newsData[i])
    {
      newsData := [];
      if page.Some? {
        var articles := page.value;
        for i := 0 to |articles|
          invariant newsData == Collect(articles[..i], config, outputDir, env)
        {
          assert articles[..i + 1][..i] == articles[..i];
          var fields := Extract(articles[i]);
          if fields.Some? {
            var date := ArticleDate(fields.value.dateStr, env);
            if date.Some? && IsWithinMonths(date.value, config.months, env.now) == Some(true) {
              var record := MakeRecord(fields.value, date.value, config, outputDir, env);
              newsData := newsData + [record];
            }
          }
        }
        assert articles[..|articles|] == articles;
      }
      var outputFile;
      outputFile, rows := SaveToExcel(newsData);
    }

    /** `save_to_excel`: the workbook's path, and its rows: the header, then
        one row per record in the order given. */
    method SaveToExcel(newsData: seq<Record>) returns (outputFile: string, rows: seq<Row>)
      ensures outputFile == "output/news_data.xlsx"
      ensures |rows| == |newsData| + 1 && rows[0] == Header
      ensures forall i :: 0 <= i < |newsData| ==> rows[i + 1] == RowOf(newsData[i])
    {
      outputFile := PathJoin(outputDir, "news_data.xlsx");
      rows := [Header];
      for i := 0 to |newsData|
        invariant |rows| == i + 1 && rows[0] == Header
        invariant forall j :: 0 <= j < i ==> rows[j + 1] == RowOf(newsData[j])
      {
        rows := rows + [RowOf(newsData[i])];
      }
    }
  }
}
