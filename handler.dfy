/** The `POST /generate-pdf` handler of index.js: choose the template by
    `templateId`, read its image assets as data URIs, render the page, print
    it to PDF in a headless browser and answer with the base64 PDF or an
    error. The file system and the browser are the `Host` of module `Server`;
    everything the handler decides is the specification function `Handle`. */
module Handler {
  import opened Wrappers
  import Templates

  type Bytes = seq<bv8>
  type Fields = Templates.Fields

  // ------------------------------------------------------------ templateId

  datatype TemplateId = BirthdayId | EventId | KwibukaId

  /** The `templateId` string that selects each template. */
  function TemplateName(t: TemplateId): string {
    match t
    case BirthdayId => "birthday"
    case EventId => "event"
    case KwibukaId => "kwibuka"
  }

  /** The `templateId === "..."` chain: a known name or nothing. */
  function ParseTemplateId(v: Option<string>): (t: Option<TemplateId>)
    ensures t.Some? <==> v in {Some("birthday"), Some("event"), Some("kwibuka")}
    ensures t.Some? ==> v == Some(TemplateName(t.value))
  {
    if v == Some("birthday") then Some(BirthdayId)
    else if v == Some("event") then Some(EventId)
    else if v == Some("kwibuka") then Some(KwibukaId)
    else None
  }

  function Lookup(data: Fields, key: string): Option<string> {
    if key in data then Some(data[key]) else None
  }

  // ---------------------------------------------------------------- assets

  const Png := "image/png"
  const Jpeg := "image/jpeg"

  /** An image under `public/`: the template field it fills, its file name
      and the MIME type of its data URI. */
  datatype Asset = Asset(key: string, file: string, mime: string)

  /** The assets each template reads, in the order the handler reads them. */
  function AssetsFor(t: TemplateId): seq<Asset> {
    match t
    case BirthdayId => [Asset("birthdayBg", "background.png", Png), Asset("birthdayLogo", "birthday logo.png", Png)]
    case EventId => [Asset("eventBg", "event-bg.png", Png), Asset("eventLogo", "event-logo.png", Png)]
    case KwibukaId => [Asset("imenaLogo", "IMENA.png", Png), Asset("kwibukaIcon", "kwibuka.png", Png),
                       Asset("kwibukaBg", "kwibuka-bg.jpeg", Jpeg)]
  }

  predicate EndsWith(s: string, suffix: string) {
    |suffix| <= |s| && s[|s| - |suffix|..] == suffix
  }

  /** Every asset's data URI is typed by its file's extension: `image/jpeg`
      for the one `.jpeg` file, `image/png` for the `.png` files. */
  lemma AssetMimeFollowsExtension(t: TemplateId, k: nat)
    requires k < |AssetsFor(t)|
    ensures var a := AssetsFor(t)[k];
      (a.mime == Jpeg <==> EndsWith(a.file, ".jpeg")) &&
      (a.mime == Png <==> EndsWith(a.file, ".png")) &&
      (a.mime == Jpeg <==> a.file == "kwibuka-bg.jpeg")
  {
    var a := AssetsFor(t)[k];
    if a.mime == Png {
      assert EndsWith(a.file, ".png") by {
        assert a.file[|a.file| - 4..] == ".png";
      }
      PngTyped(a);
    } else {
      assert a == Asset("kwibukaBg", "kwibuka-bg.jpeg", Jpeg);
      JpegTyped(a);
    }
  }

  lemma PngTyped(a: Asset)
    requires a.mime == Png && EndsWith(a.file, ".png")
    ensures (a.mime == Jpeg <==> EndsWith(a.file, ".jpeg")) &&
      (a.mime == Png <==> EndsWith(a.file, ".png")) &&
      (a.mime == Jpeg <==> a.file == "kwibuka-bg.jpeg")
  {
    assert |Png| != |Jpeg|;
    PngIsNotJpeg(a.file);
  }

  lemma JpegTyped(a: Asset)
    requires a == Asset("kwibukaBg", "kwibuka-bg.jpeg", Jpeg)
    ensures (a.mime == Jpeg <==> EndsWith(a.file, ".jpeg")) &&
      (a.mime == Png <==> EndsWith(a.file, ".png")) &&
      (a.mime == Jpeg <==> a.file == "kwibuka-bg.jpeg")
  {
    assert |Png| != |Jpeg|;
    assert a.file[|a.file| - 5..] == ".jpeg";
    JpegIsNotPng(a.file);
  }

  lemma PngIsNotJpeg(file: string)
    requires EndsWith(file, ".png")
    ensures !EndsWith(file, ".jpeg") && file != "kwibuka-bg.jpeg"
  {
    assert file[|file| - 4] == '.';
    assert "kwibuka-bg.jpeg"[11] == 'j';
  }

  lemma JpegIsNotPng(file: string)
    requires EndsWith(file, ".jpeg")
    ensures !EndsWith(file, ".png")
  {
    assert file[|file| - 4] == 'j';
  }

  /** `data:<mime>;base64,<payload>`. */
  function DataUri(mime: string, payload: string): (uri: string)
    ensures |uri| == |mime| + |payload| + 13
    ensures uri[..5] == "data:" && uri[5..5 + |mime|] == mime
    ensures uri[5 + |mime|..13 + |mime|] == ";base64," && uri[13 + |mime|..] == payload
  {
    "data:" + mime + ";base64," + payload
  }

  /** The message `readFileSync` throws for a file that is not there. */
  function MissingFileError(file: string): (message: string)
    ensures message != ""
  {
    "ENOENT: no such file or directory, open '" + file + "'"
  }

  /** `fs.readFileSync(file, "base64")` over the files of `public/`, given as
      their base64 contents. */
  function ReadResult(files: map<string, string>, file: string): Result<string> {
    if file in files then Ok(files[file]) else Err(MissingFileError(file))
  }

  predicate KeysDistinct(assets: seq<Asset>) {
    forall i, j :: 0 <= i < j < |assets| ==> assets[i].key != assets[j].key
  }

  predicate AllPresent(assets: seq<Asset>, files: map<string, string>) {
    forall k :: 0 <= k < |assets| ==> assets[k].file in files
  }

  lemma AllPresentTail(assets: seq<Asset>, files: map<string, string>)
    requires assets != [] && assets[0].file in files
    ensures AllPresent(assets, files) <==> AllPresent(assets[1..], files)
  {
    if AllPresent(assets[1..], files) {
      forall k | 0 <= k < |assets| ensures assets[k].file in files {
        if k > 0 { assert assets[k] == assets[1..][k - 1]; }
      }
    }
  }

  /** The position of the first asset whose file is missing. */
  function FirstMissing(assets: seq<Asset>, files: map<string, string>): (k: nat)
    requires !AllPresent(assets, files)
    ensures k < |assets| && assets[k].file !in files
    ensures forall i :: 0 <= i < k ==> assets[i].file in files
  {
    if assets[0].file !in files then 0
    else
      AllPresentTail(assets, files);
      var k := FirstMissing(assets[1..], files);
      assert forall i :: 1 <= i < k + 1 ==> assets[i] == assets[1..][i - 1];
      k + 1
  }

  /** Reading the assets one after the other, as the handler does: the data
      URIs by field, or the error of the first file that cannot be read. */
  function LoadAssets(assets: seq<Asset>, files: map<string, string>): (r: Result<map<string, string>>)
    ensures r.Ok? <==> AllPresent(assets, files)
  {
    if assets == [] then Ok(map[])
    else
      var a := assets[0];
      match ReadResult(files, a.file)
      case Err(e) => Err(e)
      case Ok(payload) =>
        AllPresentTail(assets, files);
        match LoadAssets(assets[1..], files)
        case Err(e) => Err(e)
        case Ok(uris) => Ok(uris[a.key := DataUri(a.mime, payload)])
  }

  /** The fields the assets fill. */
  ghost function KeySet(assets: seq<Asset>): set<string> {
    set k | 0 <= k < |assets| :: assets[k].key
  }

  lemma KeySetCons(assets: seq<Asset>)
    requires assets != []
    ensures KeySet(assets) == {assets[0].key} + KeySet(assets[1..])
  {
    var tail := assets[1..];
    forall x | x in KeySet(assets) ensures x in {assets[0].key} + KeySet(tail) {
      var k :| 0 <= k < |assets| && assets[k].key == x;
      if k > 0 { assert tail[k - 1] == assets[k]; }
    }
    forall x | x in KeySet(tail) ensures x in KeySet(assets) {
      var j :| 0 <= j < |tail| && tail[j].key == x;
      assert assets[j + 1] == tail[j];
    }
  }

  lemma KeysDistinctTail(assets: seq<Asset>)
    requires assets != [] && KeysDistinct(assets)
    ensures KeysDistinct(assets[1..])
    ensures forall k :: 1 <= k < |assets| ==> assets[k].key != assets[0].key
  {
    var tail := assets[1..];
    forall i, j | 0 <= i < j < |tail| ensures tail[i].key != tail[j].key {
      assert tail[i] == assets[i + 1] && tail[j] == assets[j + 1];
    }
  }

  /** When every file is there, each asset's field holds the data URI of its
      file, typed by its MIME type, and there are no other fields. */
  lemma {:induction false} LoadedUris(assets: seq<Asset>, files: map<string, string>)
    requires AllPresent(assets, files) && KeysDistinct(assets)
    ensures LoadAssets(assets, files).value.Keys == KeySet(assets)
    ensures forall k :: 0 <= k < |assets| ==>
      LoadAssets(assets, files).value[assets[k].key] == DataUri(assets[k].mime, files[assets[k].file])
  {
    if assets != [] {
      var a := assets[0];
      var tail := assets[1..];
      AllPresentTail(assets, files);
      KeysDistinctTail(assets);
      LoadedUris(tail, files);
      var uris := LoadAssets(tail, files).value;
      var m := LoadAssets(assets, files).value;
      assert m == uris[a.key := DataUri(a.mime, files[a.file])];
      forall k | 0 <= k < |assets|
        ensures m[assets[k].key] == DataUri(assets[k].mime, files[assets[k].file])
      {
        if k > 0 {
          assert assets[k] == tail[k - 1];
        }
      }
      KeySetCons(assets);
      assert m.Keys == uris.Keys + {a.key};
    }
  }

  /** When a file is missing, loading fails with the error of the first
      missing file. */
  lemma {:induction false} LoadFailsAtFirstMissing(assets: seq<Asset>, files: map<string, string>)
    requires !AllPresent(assets, files)
    ensures LoadAssets(assets, files) == Err(MissingFileError(assets[FirstMissing(assets, files)].file))
  {
    if assets[0].file in files {
      AllPresentTail(assets, files);
      LoadFailsAtFirstMissing(assets[1..], files);
    }
  }

  /** Loading two assets, written out: the order of the reads and which
      error wins. */
  lemma LoadTwo(assets: seq<Asset>, files: map<string, string>)
    requires |assets| == 2 && assets[0].key != assets[1].key
    ensures LoadAssets(assets, files) ==
      if assets[0].file !in files then Err(MissingFileError(assets[0].file))
      else if assets[1].file !in files then Err(MissingFileError(assets[1].file))
      else Ok(map[assets[0].key := DataUri(assets[0].mime, files[assets[0].file]),
                  assets[1].key := DataUri(assets[1].mime, files[assets[1].file])])
    ensures AssetReads(assets, files) ==
      if assets[0].file !in files then [assets[0].file] else [assets[0].file, assets[1].file]
  {
    assert assets[1..] == [assets[1]];
    assert assets[1..][1..] == [];
    assert LoadAssets(assets[1..][1..], files) == Ok(map[]);
    assert AssetReads(assets[1..][1..], files) == [];
    if assets[0].file in files {
      assert AssetReads(assets, files) == [assets[0].file] + AssetReads(assets[1..], files);
    }
    if assets[0].file in files && assets[1].file in files {
      var x := DataUri(assets[0].mime, files[assets[0].file]);
      var y := DataUri(assets[1].mime, files[assets[1].file]);
      assert LoadAssets(assets[1..], files) == Ok(map[][assets[1].key := y]);
      var m1 := map[][assets[1].key := y][assets[0].key := x];
      var m2 := map[assets[0].key := x, assets[1].key := y];
      assert m1.Keys == m2.Keys;
      assert m1 == m2;
    }
  }

  /** Loading three assets, written out. */
  lemma LoadThree(assets: seq<Asset>, files: map<string, string>)
    requires |assets| == 3
    requires assets[0].key != assets[1].key && assets[0].key != assets[2].key && assets[1].key != assets[2].key
    ensures LoadAssets(assets, files) ==
      if assets[0].file !in files then Err(MissingFileError(assets[0].file))
      else if assets[1].file !in files then Err(MissingFileError(assets[1].file))
      else if assets[2].file !in files then Err(MissingFileError(assets[2].file))
      else Ok(map[assets[0].key := DataUri(assets[0].mime, files[assets[0].file]),
                  assets[1].key := DataUri(assets[1].mime, files[assets[1].file]),
                  assets[2].key := DataUri(assets[2].mime, files[assets[2].file])])
    ensures AssetReads(assets, files) ==
      if assets[0].file !in files then [assets[0].file]
      else if assets[1].file !in files then [assets[0].file, assets[1].file]
      else [assets[0].file, assets[1].file, assets[2].file]
  {
    var tail := assets[1..];
    LoadTwo(tail, files);
    assert tail[0] == assets[1] && tail[1] == assets[2];
    if assets[0].file in files && assets[1].file in files && assets[2].file in files {
      var x := DataUri(assets[0].mime, files[assets[0].file]);
      var y := DataUri(assets[1].mime, files[assets[1].file]);
      var z := DataUri(assets[2].mime, files[assets[2].file]);
      var m1 := map[assets[1].key := y, assets[2].key := z][assets[0].key := x];
      var m2 := map[assets[0].key := x, assets[1].key := y, assets[2].key := z];
      assert m1.Keys == m2.Keys;
      assert m1 == m2;
    }
  }

  /** The file names the handler reads: every asset's, up to and including
      the first one that is missing. */
  function AssetReads(assets: seq<Asset>, files: map<string, string>): seq<string> {
    if assets == [] then []
    else if assets[0].file !in files then [assets[0].file]
    else [assets[0].file] + AssetReads(assets[1..], files)
  }

  /** The files read are the assets' files in order, all of them when they
      are all there, and otherwise those up to the first missing one. */
  lemma {:induction false} AssetReadsInOrder(assets: seq<Asset>, files: map<string, string>)
    ensures var n := if AllPresent(assets, files) then |assets| else FirstMissing(assets, files) + 1;
      |AssetReads(assets, files)| == n &&
      forall k :: 0 <= k < n ==> AssetReads(assets, files)[k] == assets[k].file
  {
    if assets != [] && assets[0].file in files {
      AllPresentTail(assets, files);
      AssetReadsInOrder(assets[1..], files);
      var tail := AssetReads(assets[1..], files);
      forall k | 1 <= k < |AssetReads(assets, files)| ensures AssetReads(assets, files)[k] == assets[k].file {
        assert AssetReads(assets, files)[k] == tail[k - 1];
        assert assets[k] == assets[1..][k - 1];
      }
    }
  }

  // --------------------------------------------------------------- render

  /** The renderer `templateId` selects, applied to the request with the
      server's asset URIs spread over it. */
  function Render(t: TemplateId, fields: Fields, parse: Templates.DayParser): Result<string> {
    match t
    case BirthdayId => Ok(Templates.Birthday(fields))
    case EventId => Ok(Templates.Event(fields, parse))
    case KwibukaId => Templates.Kwibuka(fields)
  }

  /** Whatever the caller sent under an asset's field name, the renderer sees
      the server's data URI; every other field is the caller's. */
  lemma {:induction false} ServerAssetsWin(t: TemplateId, data: Fields, files: map<string, string>, key: string)
    requires AllPresent(AssetsFor(t), files)
    ensures var fields := data + LoadAssets(AssetsFor(t), files).value;
      (forall k :: 0 <= k < |AssetsFor(t)| ==>
        Templates.Field(fields, AssetsFor(t)[k].key) == DataUri(AssetsFor(t)[k].mime, files[AssetsFor(t)[k].file])) &&
      ((forall k :: 0 <= k < |AssetsFor(t)| ==> AssetsFor(t)[k].key != key) ==>
        Templates.Field(fields, key) == Templates.Field(data, key))
  {
    AssetKeysDistinct(t);
    SpreadWins(AssetsFor(t), data, files, key);
  }

  lemma AssetKeysDistinct(t: TemplateId)
    ensures KeysDistinct(AssetsFor(t))
  {
  }

  /** Spreading loaded assets over the request: the assets' fields hold their
      URIs, every other field is the request's. */
  lemma {:induction false} SpreadWins(assets: seq<Asset>, data: Fields, files: map<string, string>, key: string)
    requires AllPresent(assets, files) && KeysDistinct(assets)
    ensures var fields := data + LoadAssets(assets, files).value;
      (forall k :: 0 <= k < |assets| ==>
        Templates.Field(fields, assets[k].key) == DataUri(assets[k].mime, files[assets[k].file])) &&
      ((forall k :: 0 <= k < |assets| ==> assets[k].key != key) ==>
        Templates.Field(fields, key) == Templates.Field(data, key))
  {
    LoadedUris(assets, files);
  }

  /** The page of template `t`: its assets loaded, then rendered with the
      request's fields; either step may throw. */
  function Page(t: TemplateId, data: Fields, files: map<string, string>, parse: Templates.DayParser): Result<string> {
    match LoadAssets(AssetsFor(t), files)
    case Err(e) => Err(e)
    case Ok(uris) => Render(t, data + uris, parse)
  }

  /** The page of a template with two assets, written out: read the first
      file, then the second, then render with both URIs. */
  lemma TwoAssetPage(t: TemplateId, data: Fields, files: map<string, string>, parse: Templates.DayParser)
    requires |AssetsFor(t)| == 2
    ensures var a, b := AssetsFor(t)[0], AssetsFor(t)[1];
      && Page(t, data, files, parse) ==
        (if a.file !in files then Err(MissingFileError(a.file))
         else if b.file !in files then Err(MissingFileError(b.file))
         else Render(t, data + map[a.key := DataUri(a.mime, files[a.file]), b.key := DataUri(b.mime, files[b.file])], parse))
      && AssetReads(AssetsFor(t), files) == (if a.file !in files then [a.file] else [a.file, b.file])
  {
    LoadTwo(AssetsFor(t), files);
  }

  /** The birthday page: `background.png`, then `birthday logo.png`. */
  lemma BirthdayLoads(data: Fields, files: map<string, string>, parse: Templates.DayParser)
    ensures var bg, logo := "background.png", "birthday logo.png";
      && Page(BirthdayId, data, files, parse) ==
        (if bg !in files then Err(MissingFileError(bg))
         else if logo !in files then Err(MissingFileError(logo))
         else Ok(Templates.Birthday(data + map["birthdayBg" := DataUri(Png, files[bg]), "birthdayLogo" := DataUri(Png, files[logo])])))
      && AssetReads(AssetsFor(BirthdayId), files) == (if bg !in files then [bg] else [bg, logo])
  {
    TwoAssetPage(BirthdayId, data, files, parse);
  }

  /** The event page: `event-bg.png`, then `event-logo.png`. */
  lemma EventLoads(data: Fields, files: map<string, string>, parse: Templates.DayParser)
    ensures var bg, logo := "event-bg.png", "event-logo.png";
      && Page(EventId, data, files, parse) ==
        (if bg !in files then Err(MissingFileError(bg))
         else if logo !in files then Err(MissingFileError(logo))
         else Ok(Templates.Event(data + map["eventBg" := DataUri(Png, files[bg]), "eventLogo" := DataUri(Png, files[logo])], parse)))
      && AssetReads(AssetsFor(EventId), files) == (if bg !in files then [bg] else [bg, logo])
  {
    TwoAssetPage(EventId, data, files, parse);
  }

  /** The page of the three-asset template, written out. */
  lemma ThreeAssetPage(data: Fields, files: map<string, string>, parse: Templates.DayParser)
    ensures var a, b, c := AssetsFor(KwibukaId)[0], AssetsFor(KwibukaId)[1], AssetsFor(KwibukaId)[2];
      && Page(KwibukaId, data, files, parse) ==
        (if a.file !in files then Err(MissingFileError(a.file))
         else if b.file !in files then Err(MissingFileError(b.file))
         else if c.file !in files then Err(MissingFileError(c.file))
         else Templates.Kwibuka(data + map[a.key := DataUri(a.mime, files[a.file]),
           b.key := DataUri(b.mime, files[b.file]), c.key := DataUri(c.mime, files[c.file])]))
      && AssetReads(AssetsFor(KwibukaId), files) ==
        (if a.file !in files then [a.file]
         else if b.file !in files then [a.file, b.file]
         else [a.file, b.file, c.file])
  {
    LoadThree(AssetsFor(KwibukaId), files);
  }

  // ------------------------------------------------------------- response

  /** The three answers of the handler: the PDF, the 400 for an unknown
      template, and the 500 for anything thrown, with its message. */
  datatype Response =
    | Generated(pdfBase64: string, filename: string)
    | InvalidTemplate
    | Failed(details: string)

  function Status(r: Response): nat {
    match r
    case Generated(_, _) => 200
    case InvalidTemplate => 400
    case Failed(_) => 500
  }

  /** The `error` field of the JSON body, when there is one. */
  function ErrorField(r: Response): Option<string> {
    match r
    case Generated(_, _) => None
    case InvalidTemplate => Some("Invalid templateId")
    case Failed(_) => Some("Failed to generate PDF")
  }

  /** What one request does: the response, the files read, whether it
      called `puppeteer.launch`, the pages it tried to print, and whether a
      launched browser was left open. */
  datatype Trace = Trace(response: Response, fileReads: seq<string>, launched: bool, pages: seq<string>, leaked: bool)

  /** The behaviour of the handler for a request body `data`, given the
      files under `public/`, whether the browser fails to launch, what
      printing a page to PDF gives, whether closing the browser fails, the
      date parser and the base64 encoder. */
  function Handle(data: Fields, files: map<string, string>, launchFailure: Option<string>,
                  pdfOf: string -> Result<Bytes>, closeFailure: Option<string>, parse: Templates.DayParser, encode: Bytes -> string): Trace
  {
    match ParseTemplateId(Lookup(data, "templateId"))
    case None => Trace(InvalidTemplate, [], false, [], false)
    case Some(t) =>
      var fileReads := AssetReads(AssetsFor(t), files);
      match Page(t, data, files, parse)
      case Err(e) => Trace(Failed(e), fileReads, false, [], false)
      case Ok(html) =>
        if launchFailure.Some? then Trace(Failed(launchFailure.value), fileReads, true, [], false)
        else
          match pdfOf(html)
          case Err(e) => Trace(Failed(e), fileReads, true, [html], true)
          case Ok(pdf) =>
            if closeFailure.Some? then Trace(Failed(closeFailure.value), fileReads, true, [html], true)
            else Trace(Generated(encode(pdf), TemplateName(t) + "-invitation.pdf"), fileReads, true, [html], false)
  }

  /** `Handle` for a known template, one step after the other. */
  lemma HandleKnown(data: Fields, files: map<string, string>, launchFailure: Option<string>,
                    pdfOf: string -> Result<Bytes>, closeFailure: Option<string>, parse: Templates.DayParser, encode: Bytes -> string)
    requires ParseTemplateId(Lookup(data, "templateId")).Some?
    ensures var t := ParseTemplateId(Lookup(data, "templateId")).value;
      var trace := Handle(data, files, launchFailure, pdfOf, closeFailure, parse, encode);
      var page := Page(t, data, files, parse);
      && trace.fileReads == AssetReads(AssetsFor(t), files)
      && (trace.launched <==> page.Ok?)
      && (page.Err? ==> trace.response == Failed(page.error) && trace.pages == [] && !trace.leaked)
      && (page.Ok? && launchFailure.Some? ==>
            trace.response == Failed(launchFailure.value) && trace.pages == [] && !trace.leaked)
      && (page.Ok? && launchFailure.None? ==> trace.pages == [page.value])
      && (page.Ok? && launchFailure.None? && pdfOf(page.value).Err? ==>
            trace.response == Failed(pdfOf(page.value).error) && trace.leaked)
      && (page.Ok? && launchFailure.None? && pdfOf(page.value).Ok? && closeFailure.Some? ==>
            trace.response == Failed(closeFailure.value) && trace.leaked)
      && (page.Ok? && launchFailure.None? && pdfOf(page.value).Ok? && closeFailure.None? ==>
            trace.response == Generated(encode(pdfOf(page.value).value), TemplateName(t) + "-invitation.pdf") && !trace.leaked)
  {
  }

  /** A `templateId` other than the three known names, or none at all, is
      answered 400 "Invalid templateId" before any file is read or any
      browser is started; and only such a request gets a 400. */
  lemma InvalidTemplateRejected(data: Fields, files: map<string, string>, launchFailure: Option<string>,
                                pdfOf: string -> Result<Bytes>, closeFailure: Option<string>, parse: Templates.DayParser, encode: Bytes -> string)
    ensures var trace := Handle(data, files, launchFailure, pdfOf, closeFailure, parse, encode);
      (Status(trace.response) == 400 <==> Lookup(data, "templateId") !in {Some("birthday"), Some("event"), Some("kwibuka")}) &&
      (Status(trace.response) == 400 ==>
        ErrorField(trace.response) == Some("Invalid templateId") && trace.fileReads == [] && !trace.launched && trace.pages == [] && !trace.leaked)
  {
  }

  /** A 200 carries the encoded PDF of the one page rendered, under the name
      `<templateId>-invitation.pdf`; it comes only after every asset of the
      template was read and with the browser closed. */
  lemma {:induction false} GeneratedShape(data: Fields, files: map<string, string>, launchFailure: Option<string>,
                                           pdfOf: string -> Result<Bytes>, closeFailure: Option<string>, parse: Templates.DayParser, encode: Bytes -> string)
    ensures var trace := Handle(data, files, launchFailure, pdfOf, closeFailure, parse, encode);
      var t := ParseTemplateId(Lookup(data, "templateId"));
      trace.response.Generated? ==>
      && Status(trace.response) == 200
      && t.Some?
      && "templateId" in data
      && trace.response.filename == data["templateId"] + "-invitation.pdf"
      && AllPresent(AssetsFor(t.value), files)
      && |trace.fileReads| == |AssetsFor(t.value)|
      && (forall k :: 0 <= k < |AssetsFor(t.value)| ==> trace.fileReads[k] == AssetsFor(t.value)[k].file)
      && |trace.pages| == 1
      && LoadAssets(AssetsFor(t.value), files).Ok?
      && Render(t.value, data + LoadAssets(AssetsFor(t.value), files).value, parse) == Ok(trace.pages[0])
      && pdfOf(trace.pages[0]).Ok?
      && trace.response.pdfBase64 == encode(pdfOf(trace.pages[0]).value)
      && trace.launched
      && closeFailure.None?
      && !trace.leaked
  {
    var t := ParseTemplateId(Lookup(data, "templateId"));
    if t.Some? {
      AssetReadsInOrder(AssetsFor(t.value), files);
    }
  }

  /** A missing asset file is a 500 whose details name the first missing
      file; the browser is never launched. */
  lemma {:induction false} MissingAssetFails(data: Fields, files: map<string, string>, launchFailure: Option<string>,
                                              pdfOf: string -> Result<Bytes>, closeFailure: Option<string>, parse: Templates.DayParser, encode: Bytes -> string)
    requires ParseTemplateId(Lookup(data, "templateId")).Some?
    requires !AllPresent(AssetsFor(ParseTemplateId(Lookup(data, "templateId")).value), files)
    ensures var trace := Handle(data, files, launchFailure, pdfOf, closeFailure, parse, encode);
      var assets := AssetsFor(ParseTemplateId(Lookup(data, "templateId")).value);
      && Status(trace.response) == 500
      && ErrorField(trace.response) == Some("Failed to generate PDF")
      && trace.response.details == MissingFileError(assets[FirstMissing(assets, files)].file)
      && trace.response.details != ""
      && !trace.launched
      && trace.pages == []
      && !trace.leaked
  {
    var assets := AssetsFor(ParseTemplateId(Lookup(data, "templateId")).value);
    LoadFailsAtFirstMissing(assets, files);
  }

  /** A Kwibuka request without `date` fails with the TypeError of
      `undefined.split`, after all three assets were read and without
      launching a browser. */
  lemma KwibukaWithoutDateFails(data: Fields, files: map<string, string>, launchFailure: Option<string>,
                                pdfOf: string -> Result<Bytes>, closeFailure: Option<string>, parse: Templates.DayParser, encode: Bytes -> string)
    requires Lookup(data, "templateId") == Some("kwibuka") && "date" !in data
    requires AllPresent(AssetsFor(KwibukaId), files)
    ensures var trace := Handle(data, files, launchFailure, pdfOf, closeFailure, parse, encode);
      trace.response == Failed(Templates.UndefinedDateError) &&
      trace.fileReads == ["IMENA.png", "kwibuka.png", "kwibuka-bg.jpeg"] &&
      !trace.launched && trace.pages == [] && !trace.leaked
  {
    ThreeAssetPage(data, files, parse);
    assert Page(KwibukaId, data, files, parse) == Err(Templates.UndefinedDateError);
  }

  /** Once the browser has started, a failure while printing or closing
      leaves it running: the handler closes the browser only after a
      successful print, and a rejected close is not retried. Every failure is
      a 500 carrying the thrown message. */
  lemma {:induction false} FailureAfterLaunchLeaks(data: Fields, files: map<string, string>, launchFailure: Option<string>,
                                                    pdfOf: string -> Result<Bytes>, closeFailure: Option<string>, parse: Templates.DayParser, encode: Bytes -> string)
    ensures var trace := Handle(data, files, launchFailure, pdfOf, closeFailure, parse, encode);
      && (trace.leaked <==> trace.response.Failed? && trace.pages != [])
      && (trace.leaked ==> (pdfOf(trace.pages[0]).Err? || closeFailure.Some?))
      && (trace.leaked && pdfOf(trace.pages[0]).Err? ==> trace.response.details == pdfOf(trace.pages[0]).error)
      && (trace.leaked && pdfOf(trace.pages[0]).Ok? ==> Some(trace.response.details) == closeFailure)
      && (Status(trace.response) == 500 <==> trace.response.Failed?)
      && (trace.leaked ==> trace.launched)
      && (trace.pages != [] ==> trace.launched && launchFailure.None?)
  {
  }
}
