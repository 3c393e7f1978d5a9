/** The route handler itself, step by step as index.js runs it, against a
    `Host` that stands for the file system and the headless browser. */
module Server {
  import opened Wrappers
  import Templates
  import opened Handler

  /** The outside world of one request: the base64 contents of the files
      under `public/`, whether launching the browser throws, what printing
      a page to PDF gives, and whether closing the browser throws.
      It records the files read, how many times a browser launch was
      attempted, the pages it tried to print and how many browsers are
      still running. */
  class Host {
    const files: map<string, string>
    const launchFailure: Option<string>
    const pdfOf: string -> Result<Bytes>
    const closeFailure: Option<string>
    var fileReads: seq<string>
    var launches: nat
    var pages: seq<string>
    var openBrowsers: nat

    constructor (files: map<string, string>, launchFailure: Option<string>, pdfOf: string -> Result<Bytes>,
                 closeFailure: Option<string>)
      ensures this.files == files && this.launchFailure == launchFailure && this.pdfOf == pdfOf
      ensures this.closeFailure == closeFailure
      ensures fileReads == [] && launches == 0 && pages == [] && openBrowsers == 0
    {
      this.files := files;
      this.launchFailure := launchFailure;
      this.pdfOf := pdfOf;
      this.closeFailure := closeFailure;
      fileReads := [];
      launches := 0;
      pages := [];
      openBrowsers := 0;
    }

    /** `fs.readFileSync(path.join(publicDir, file), "base64")`. */
    method ReadFile(file: string) returns (r: Result<string>)
      modifies this
      ensures r == ReadResult(files, file)
      ensures fileReads == old(fileReads) + [file]
      ensures launches == old(launches) && pages == old(pages) && openBrowsers == old(openBrowsers)
    {
      fileReads := fileReads + [file];
      r := ReadResult(files, file);
    }

    /** `puppeteer.launch(...)`: a running browser, or the message it threw.
      The attempt is counted either way. */
    method Launch() returns (failure: Option<string>)
      modifies this
      ensures failure == launchFailure
      ensures launches == old(launches) + 1
      ensures openBrowsers == old(openBrowsers) + (if failure.None? then 1 else 0)
      ensures fileReads == old(fileReads) && pages == old(pages)
    {
      launches := launches + 1;
      failure := launchFailure;
      if failure.None? {
        openBrowsers := openBrowsers + 1;
      }
    }

    /** `newPage`, `setViewport` to 794 by 1123, `setContent(html)` and
      `page.pdf` in A4 with backgrounds: the PDF bytes, or the message one
      of these steps threw. The page counts as one the handler tried to
      print even when `newPage` or `setViewport` throws before it is loaded. */
    method PrintToPdf(html: string) returns (r: Result<Bytes>)
      modifies this
      ensures r == pdfOf(html)
      ensures pages == old(pages) + [html]
      ensures fileReads == old(fileReads) && launches == old(launches) && openBrowsers == old(openBrowsers)
    {
      pages := pages + [html];
      r := pdfOf(html);
    }

    /** `browser.close()`: the browser stops, or the message it threw, and
      then it is still counted as running. */
    method Close() returns (failure: Option<string>)
      requires openBrowsers > 0
      modifies this
      ensures failure == closeFailure
      ensures openBrowsers == old(openBrowsers) - (if failure.None? then 1 else 0)
      ensures fileReads == old(fileReads) && launches == old(launches) && pages == old(pages)
    {
      failure := closeFailure;
      if failure.None? {
        openBrowsers := openBrowsers - 1;
      }
    }
  }

  /** The `birthday` branch: read the two images, then render. */
  method BirthdayPage(host: Host, data: Fields, parse: Templates.DayParser) returns (html: Result<string>)
    modifies host
    ensures html == Page(BirthdayId, data, host.files, parse)
    ensures host.fileReads == old(host.fileReads) + AssetReads(AssetsFor(BirthdayId), host.files)
    ensures host.launches == old(host.launches)
    ensures host.pages == old(host.pages) && host.openBrowsers == old(host.openBrowsers)
  {
    BirthdayLoads(data, host.files, parse);
    var bg := host.ReadFile("background.png");
    if bg.Err? { return Err(bg.error); }
    var logo := host.ReadFile("birthday logo.png");
    if logo.Err? { return Err(logo.error); }
    html := Ok(Templates.Birthday(data + map[
      "birthdayBg" := DataUri(Png, bg.value),
      "birthdayLogo" := DataUri(Png, logo.value)]));
  }

  /** The `event` branch: read the two images, then render. */
  method EventPage(host: Host, data: Fields, parse: Templates.DayParser) returns (html: Result<string>)
    modifies host
    ensures html == Page(EventId, data, host.files, parse)
    ensures host.fileReads == old(host.fileReads) + AssetReads(AssetsFor(EventId), host.files)
    ensures host.launches == old(host.launches)
    ensures host.pages == old(host.pages) && host.openBrowsers == old(host.openBrowsers)
  {
    EventLoads(data, host.files, parse);
    var bg := host.ReadFile("event-bg.png");
    if bg.Err? { return Err(bg.error); }
    var logo := host.ReadFile("event-logo.png");
    if logo.Err? { return Err(logo.error); }
    html := Ok(Templates.Event(data + map[
      "eventBg" := DataUri(Png, bg.value),
      "eventLogo" := DataUri(Png, logo.value)], parse));
  }

  /** The `kwibuka` branch: read the three images, then render, which throws
      when there is no date. */
  method KwibukaPage(host: Host, data: Fields, parse: Templates.DayParser) returns (html: Result<string>)
    modifies host
    ensures html == Page(KwibukaId, data, host.files, parse)
    ensures host.fileReads == old(host.fileReads) + AssetReads(AssetsFor(KwibukaId), host.files)
    ensures host.launches == old(host.launches)
    ensures host.pages == old(host.pages) && host.openBrowsers == old(host.openBrowsers)
  {
    ThreeAssetPage(data, host.files, parse);
    var imena := host.ReadFile("IMENA.png");
    if imena.Err? { return Err(imena.error); }
    var icon := host.ReadFile("kwibuka.png");
    if icon.Err? { return Err(icon.error); }
    var bg := host.ReadFile("kwibuka-bg.jpeg");
    if bg.Err? { return Err(bg.error); }
    html := Templates.Kwibuka(data + map[
      "imenaLogo" := DataUri(Png, imena.value),
      "kwibukaIcon" := DataUri(Png, icon.value),
      "kwibukaBg" := DataUri(Jpeg, bg.value)]);
  }

  /** The `POST /generate-pdf` handler. Its response and everything it does to
      the host are those `Handle` describes; in particular a request with an
      unknown `templateId` touches nothing. */
  method GeneratePdf(host: Host, data: Fields, parse: Templates.DayParser, encode: Bytes -> string)
    returns (r: Response)
    modifies host
    ensures var trace := Handle(data, host.files, host.launchFailure, host.pdfOf, host.closeFailure, parse, encode);
      && r == trace.response
      && host.fileReads == old(host.fileReads) + trace.fileReads
      && host.pages == old(host.pages) + trace.pages
      && host.launches == old(host.launches) + (if trace.launched then 1 else 0)
      && host.openBrowsers == old(host.openBrowsers) + (if trace.leaked then 1 else 0)
    ensures r == InvalidTemplate ==> unchanged(host)
  {
    var templateId := Lookup(data, "templateId");
    ghost var t := ParseTemplateId(templateId);
    var page: Result<string>;
    if templateId == Some("birthday") {
      page := BirthdayPage(host, data, parse);
    } else if templateId == Some("event") {
      page := EventPage(host, data, parse);
    } else if templateId == Some("kwibuka") {
      page := KwibukaPage(host, data, parse);
    } else {
      return InvalidTemplate;
    }
    assert t.Some? && page == Page(t.value, data, host.files, parse);
    HandleKnown(data, host.files, host.launchFailure, host.pdfOf, host.closeFailure, parse, encode);
    if page.Err? { return Failed(page.error); }
    var html := page.value;

    var launchFailure := host.Launch();
    if launchFailure.Some? { return Failed(launchFailure.value); }
    var pdf := host.PrintToPdf(html);
    // A failure here propagates to the catch without closing the browser.
    if pdf.Err? { return Failed(pdf.error); }
    // A rejected close is caught like any other error.
    var closeFailure := host.Close();
    if closeFailure.Some? { return Failed(closeFailure.value); }
    r := Generated(encode(pdf.value), templateId.value + "-invitation.pdf");
  }
}
