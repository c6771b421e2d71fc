/**
 * The request builders of download_tiles.py: `download_tile` and
 * `download_satellite` turn (x, y, zoom) into a URL, a folder and a
 * filename. Pure string formatting.
 */
module TileAddress {
  import opened Decimal

  /** The arguments one builder passes to `download_file`. */
  datatype Request = Request(url: string, folder: string, filename: string) {
    /** `folder + filename`: where the downloaded bytes are stored. */
    function Path(): string { folder + filename }
  }

  /** The three downloads the script can make for one tile index. */
  datatype Kind =
    | Road     // download_tile(x, y, zoom): road map, folder "tile/"
    | Overlay  // download_tile(x, y, zoom, True): road labels over imagery, folder "road/"
    | Imagery  // download_satellite(x, y, zoom): satellite image, folder "it/"

  /** One download: a tile index at a zoom level, and what to fetch for it. */
  datatype WorkItem = WorkItem(kind: Kind, x: int, y: int, zoom: int)

  const TileBase := "http://online0.map.bdimg.com/onlinelabel/?"
  const SatelliteBase := "http://shangetu0.map.bdimg.com/it/"

  /** The query string of `download_tile`; `satellite` picks the overlay style. */
  function TileQuery(x: int, y: int, zoom: int, satellite: bool): string
  {
    var styles := if satellite then "sl" else "pl";
    var scaler := if satellite then "" else "&scaler=1";
    Format3("qt=tile&x=", x, "&y=", y, "&z=", zoom, "&styles=" + styles + scaler + "&udt=20170927")
  }

  /** `download_tile`: the filename is the URL's query with ".png" appended. */
  function TileRequest(x: int, y: int, zoom: int, satellite: bool): (r: Request)
    ensures r.folder == (if satellite then "road/" else "tile/")
    ensures 4 < |r.filename| && r.filename[|r.filename| - 4..] == ".png"
    ensures r.url == TileBase + r.filename[..|r.filename| - 4]
  {
    var query := TileQuery(x, y, zoom, satellite);
    assert (query + ".png")[..|query|] == query;
    Request(TileBase + query, if satellite then "road/" else "tile/", query + ".png")
  }

  /**
   * The path part of the `download_satellite` URL,
   * `u=x=%d;y=%d;z=%d;v=009;type=sate&fm=46&udt=20170927`; each ';' is
   * written as its own literal so that the replacement below can be read
   * off piece by piece.
   */
  function SatellitePath(x: int, y: int, zoom: int): string
  {
    Format3("u=x=", x, ";" + "y=", y, ";" + "z=", zoom, ";" + "v=009" + (";" + "type=sate&fm=46&udt=20170927"))
  }

  /**
   * `download_satellite`: the URL keeps the ';' separators, the filename is
   * the same path with every ';' turned into ',' and ".jpg" appended.
   */
  function SatelliteRequest(x: int, y: int, zoom: int): (r: Request)
    ensures r.folder == "it/"
    ensures |SatelliteBase| < |r.url| && r.url[..|SatelliteBase|] == SatelliteBase && ';' in r.url
    ensures r.filename == Replace(r.url[|SatelliteBase|..], ';', ',') + ".jpg"
    ensures ';' !in r.filename
  {
    var path := SatellitePath(x, y, zoom);
    var url := SatelliteBase + path;
    assert ';' in url by {
      Format3Delimiter("u=x=", x, ";" + "y=", y, ";" + "z=", zoom, ";" + "v=009" + (";" + "type=sate&fm=46&udt=20170927"));
      assert url[|SatelliteBase| + 4 + |FormatInt(x)|] == ';';
    }
    assert url[..|SatelliteBase|] == SatelliteBase && url[|SatelliteBase|..] == path;
    assert ';' !in Replace(path, ';', ',') + ".jpg" by {
      ReplaceRemoves(path, ';', ',');
    }
    Request(url, "it/", Replace(path, ';', ',') + ".jpg")
  }

  /** The request the script builds for a work item. */
  function RequestFor(item: WorkItem): Request
  {
    match item.kind
    case Road => TileRequest(item.x, item.y, item.zoom, false)
    case Overlay => TileRequest(item.x, item.y, item.zoom, true)
    case Imagery => SatelliteRequest(item.x, item.y, item.zoom)
  }

  /** For a fixed style, `download_tile` never gives two tile indices one filename. */
  lemma TileFilenameInjective(x: int, y: int, zoom: int, x': int, y': int, zoom': int, satellite: bool)
    requires TileRequest(x, y, zoom, satellite).filename == TileRequest(x', y', zoom', satellite).filename
    ensures x == x' && y == y' && zoom == zoom'
  {
    var tail := "&styles=" + (if satellite then "sl" else "pl")
                + (if satellite then "" else "&scaler=1") + "&udt=20170927";
    StripSuffix(TileQuery(x, y, zoom, satellite), TileQuery(x', y', zoom', satellite), ".png");
    Format3Injective("qt=tile&x=", "&y=", "&z=", tail, x, y, zoom, x', y', zoom');
  }

  /** The literal pieces of the satellite path, with ',' in place of ';'. */
  lemma SatellitePiecesReplaced()
    ensures Replace("u=x=", ';', ',') == "u=x="
    ensures Replace(";" + "y=", ';', ',') == "," + "y="
    ensures Replace(";" + "z=", ';', ',') == "," + "z="
    ensures Replace(";" + "v=009" + (";" + "type=sate&fm=46&udt=20170927"), ';', ',')
         == "," + "v=009" + ("," + "type=sate&fm=46&udt=20170927")
  {
    ReplaceAbsent("u=x=", ';', ',');
    ReplaceLeading("y=", ';', ',');
    ReplaceLeading("z=", ';', ',');
    ReplaceLeading("v=009", ';', ',');
    ReplaceLeading("type=sate&fm=46&udt=20170927", ';', ',');
    ReplaceConcat(";" + "v=009", ";" + "type=sate&fm=46&udt=20170927", ';', ',');
  }

  /** The satellite filename is the path's `%d` template with ',' in place of ';'. */
  lemma SatelliteFilenameTemplate(x: int, y: int, zoom: int)
    ensures SatelliteRequest(x, y, zoom).filename
         == Format3("u=x=", x, "," + "y=", y, "," + "z=", zoom, "," + "v=009" + ("," + "type=sate&fm=46&udt=20170927"))
            + ".jpg"
  {
    var p0, p1, p2, p3 := "u=x=", ";" + "y=", ";" + "z=", ";" + "v=009" + (";" + "type=sate&fm=46&udt=20170927");
    calc {
      SatelliteRequest(x, y, zoom).filename;
      Replace(Format3(p0, x, p1, y, p2, zoom, p3), ';', ',') + ".jpg";
      { ReplaceFormat3(p0, x, p1, y, p2, zoom, p3, ';', ','); }
      Format3(Replace(p0, ';', ','), x, Replace(p1, ';', ','), y, Replace(p2, ';', ','), zoom,
              Replace(p3, ';', ',')) + ".jpg";
      { SatellitePiecesReplaced(); }
      Format3("u=x=", x, "," + "y=", y, "," + "z=", zoom, "," + "v=009" + ("," + "type=sate&fm=46&udt=20170927"))
      + ".jpg";
    }
  }

  /** `download_satellite` never gives two tile indices one filename. */
  lemma SatelliteFilenameInjective(x: int, y: int, zoom: int, x': int, y': int, zoom': int)
    requires SatelliteRequest(x, y, zoom).filename == SatelliteRequest(x', y', zoom').filename
    ensures x == x' && y == y' && zoom == zoom'
  {
    var p0, p1, p2, p3 := "u=x=", "," + "y=", "," + "z=", "," + "v=009" + ("," + "type=sate&fm=46&udt=20170927");
    SatelliteFilenameTemplate(x, y, zoom);
    SatelliteFilenameTemplate(x', y', zoom');
    StripSuffix(Format3(p0, x, p1, y, p2, zoom, p3), Format3(p0, x', p1, y', p2, zoom', p3), ".jpg");
    Format3Injective(p0, p1, p2, p3, x, y, zoom, x', y', zoom');
  }

  /** A stored path starts with its folder's first letter: 'r', 't' or 'i', never a numeral. */
  lemma PathStartsWithFolder(item: WorkItem)
    ensures 0 < |RequestFor(item).Path()|
    ensures RequestFor(item).Path()[0] == RequestFor(item).folder[0]
    ensures RequestFor(item).folder[0] == (match item.kind case Road => 't' case Overlay => 'r' case Imagery => 'i')
    ensures !IsNumeral(RequestFor(item).Path()[0])
  {
    var r := RequestFor(item);
    assert r.Path() == r.folder + r.filename;
  }

  /**
   * A stored path identifies the whole work item: kind, index and zoom.
   * The three kinds live in folders that begin with different letters.
   */
  lemma PathInjective(a: WorkItem, b: WorkItem)
    requires RequestFor(a).Path() == RequestFor(b).Path()
    ensures a == b
  {
    var ra, rb := RequestFor(a), RequestFor(b);
    PathStartsWithFolder(a);
    PathStartsWithFolder(b);
    assert a.kind == b.kind;
    StripPrefix(ra.folder, ra.filename, rb.filename);
    match a.kind
    case Road => TileFilenameInjective(a.x, a.y, a.zoom, b.x, b.y, b.zoom, false);
    case Overlay => TileFilenameInjective(a.x, a.y, a.zoom, b.x, b.y, b.zoom, true);
    case Imagery => SatelliteFilenameInjective(a.x, a.y, a.zoom, b.x, b.y, b.zoom);
  }
}
