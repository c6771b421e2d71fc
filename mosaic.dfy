/**
 * merge_tiles.py: the tiles of a rectangle pasted into one canvas.
 *
 * The canvas is a class whose list of pastes the merge loop appends to, and
 * the store is `Store.FileSystem`. Only where each tile is pasted is
 * modelled, not its pixels. Whether `Image.open` accepts a file is the
 * parameter `decodes`, and the expansion of `~` is the parameter `home`.
 */
module Mosaic {
  import opened Store
  import opened Decimal
  import opened TileAddress
  import Download

  /** `TYPE, ext`: the letter and extension of the mosaic's tiles. */
  datatype Format = Format(kind: string, ext: string)

  function MosaicFormat(satellite: bool): Format
  {
    if satellite then Format("s", "jpg") else Format("r", "png")
  }

  /** The literal after the last `%d` of a tile name: `"_%s.%s" % (TYPE, ext)`. */
  function NameSuffix(f: Format): string
  {
    "_" + f.kind + "." + f.ext
  }

  /** `"%d_%d_%d_%s.%s" % (zoom, x, y, TYPE, ext)`. */
  function TileName(zoom: int, x: int, y: int, f: Format): string
  {
    Format3("", zoom, "_", x, "_", y, NameSuffix(f))
  }

  /** `"map_%s.%s" % (TYPE, ext)`. */
  function OutputName(f: Format): string
  {
    "map_" + f.kind + "." + f.ext
  }

  /** `os.path.expanduser("~/.Trash/%s" % filename)`, `~` being `home`. */
  function TrashPath(home: string, name: string): string
  {
    home + "/.Trash/" + name
  }

  /** `int(v / 256)`: true division, then truncation toward zero. */
  function TruncTile(v: int): (t: int)
    ensures 0 <= v ==> 256 * t <= v < 256 * t + 256
    ensures v < 0 ==> 256 * t - 256 < v <= 256 * t
  {
    if 0 <= v then v / 256 else -((-v) / 256)
  }

  /**
   * Truncation agrees with the floor that download_tiles.py uses exactly
   * for non-negative coordinates and for multiples of 256; otherwise the
   * merge's index is one more.
   */
  lemma TruncVersusFloor(v: int)
    ensures TruncTile(v) == Download.FloorTile(v) <==> 0 <= v || v % 256 == 0
    ensures TruncTile(v) != Download.FloorTile(v) ==> TruncTile(v) == Download.FloorTile(v) + 1
  {
    var t, f := TruncTile(v), Download.FloorTile(v);
    if v < 0 && v % 256 != 0 {
      assert 256 * f < v < 256 * t;
    }
  }

  /** One call of `merge_tiles`, its pixel arguments already turned into tile indices. */
  datatype Setup = Setup(zoom: int, xStart: int, yStart: int, xStop: int, yStop: int, satellite: bool,
                         home: string, decodes: Bytes -> bool)
  {
    function Width(): int { (xStop - xStart) * 256 }
    function Height(): int { (yStop - yStart) * 256 }
    function Name(x: int, y: int): string { TileName(zoom, x, y, MosaicFormat(satellite)) }
    /** `x_paste`: the column band of tile column `x`. */
    function XPaste(x: int): int { (x - xStart) * 256 }
    /** `y_paste`: the row band of tile row `y`, counted from the other end. */
    function YPaste(y: int): int { (yStop - y) * 256 }
    predicate InRect(x: int, y: int) { xStart <= x < xStop && yStart <= y < yStop }
  }

  function MergeSetup(zoom: int, startPixelX: int, startPixelY: int, stopPixelX: int, stopPixelY: int,
                      satellite: bool, home: string, decodes: Bytes -> bool): Setup
  {
    Setup(zoom, TruncTile(startPixelX), TruncTile(startPixelY), TruncTile(stopPixelX), TruncTile(stopPixelY),
          satellite, home, decodes)
  }

  // ---------------------------------------------------------------------------
  // Tile names
  // ---------------------------------------------------------------------------

  lemma NumeralsHaveNoSlash(s: string)
    requires AllNumerals(s)
    ensures '/' !in s
  {
    forall i | 0 <= i < |s| ensures s[i] != '/' {
      assert IsNumeral(s[i]);
    }
  }

  /** A tile name is a plain file name in the working directory: it has no '/'. */
  lemma TileNameHasNoSlash(zoom: int, x: int, y: int, satellite: bool)
    ensures '/' !in TileName(zoom, x, y, MosaicFormat(satellite))
  {
    NumeralsHaveNoSlash(FormatInt(zoom));
    NumeralsHaveNoSlash(FormatInt(x));
    NumeralsHaveNoSlash(FormatInt(y));
  }

  /** A tile name starts with the first character of `%d` of the zoom: a digit or '-'. */
  lemma TileNameStartsWithNumeral(zoom: int, x: int, y: int, f: Format)
    ensures 0 < |TileName(zoom, x, y, f)| && IsNumeral(TileName(zoom, x, y, f)[0])
  {
    assert TileName(zoom, x, y, f)[0] == FormatInt(zoom)[0];
  }

  /** For a fixed mode, the tile name determines zoom, `x` and `y`. */
  lemma TileNameInjective(zoom: int, x: int, y: int, zoom': int, x': int, y': int, satellite: bool)
    requires TileName(zoom, x, y, MosaicFormat(satellite)) == TileName(zoom', x', y', MosaicFormat(satellite))
    ensures zoom == zoom' && x == x' && y == y'
  {
    Format3Injective("", "_", "_", NameSuffix(MosaicFormat(satellite)), zoom, x, y, zoom', x', y');
  }

  /** Text appended to the last literal of a filled template is appended to the whole. */
  lemma Format3Append(p0: string, a: int, p1: string, b: int, p2: string, c: int, p3: string, q: string)
    ensures Format3(p0, a, p1, b, p2, c, p3 + q) == Format3(p0, a, p1, b, p2, c, p3) + q
  {
    var fa, fb, fc := FormatInt(a), FormatInt(b), FormatInt(c);
    assert fc + (p3 + q) == (fc + p3) + q;
    assert p2 + ((fc + p3) + q) == (p2 + (fc + p3)) + q;
    assert fb + ((p2 + (fc + p3)) + q) == (fb + (p2 + (fc + p3))) + q;
    assert p1 + ((fb + (p2 + (fc + p3))) + q) == (p1 + (fb + (p2 + (fc + p3)))) + q;
    assert fa + ((p1 + (fb + (p2 + (fc + p3)))) + q) == (fa + (p1 + (fb + (p2 + (fc + p3))))) + q;
    assert p0 + ((fa + (p1 + (fb + (p2 + (fc + p3))))) + q) == (p0 + (fa + (p1 + (fb + (p2 + (fc + p3)))))) + q;
  }

  lemma EndsWith(h: string, r: string)
    ensures |r| <= |h + r| && (h + r)[|h + r| - |r|..] == r
  {
  }

  /** A tile name ends with the extension. */
  lemma TileNameEndsWithExt(zoom: int, x: int, y: int, f: Format)
    ensures |f.ext| <= |TileName(zoom, x, y, f)|
    ensures TileName(zoom, x, y, f)[|TileName(zoom, x, y, f)| - |f.ext|..] == f.ext
  {
    var stem := "_" + f.kind + ".";
    Format3Append("", zoom, "_", x, "_", y, stem, f.ext);
    EndsWith(Format3("", zoom, "_", x, "_", y, stem), f.ext);
  }

  /** Tile names with extensions of one length but different text never coincide. */
  lemma ExtensionsDistinguish(zoom: int, x: int, y: int, f: Format, zoom': int, x': int, y': int, f': Format)
    requires |f.ext| == |f'.ext| && f.ext != f'.ext
    ensures TileName(zoom, x, y, f) != TileName(zoom', x', y', f')
  {
    TileNameEndsWithExt(zoom, x, y, f);
    TileNameEndsWithExt(zoom', x', y', f');
  }

  /** The satellite and road mosaics never read each other's tiles, nor write one output file. */
  lemma ModesNeverShareNames(zoom: int, x: int, y: int, zoom': int, x': int, y': int)
    ensures TileName(zoom, x, y, MosaicFormat(true)) != TileName(zoom', x', y', MosaicFormat(false))
    ensures OutputName(MosaicFormat(true)) != OutputName(MosaicFormat(false))
  {
    var s, r := MosaicFormat(true), MosaicFormat(false);
    assert s.ext[0] != r.ext[0];
    ExtensionsDistinguish(zoom, x, y, s, zoom', x', y', r);
    assert OutputName(s)[4] != OutputName(r)[4];
  }

  /** Saving the mosaic never overwrites a tile: the output name starts with 'm'. */
  lemma OutputIsNoTile(zoom: int, x: int, y: int, satellite: bool)
    ensures OutputName(MosaicFormat(satellite)) != TileName(zoom, x, y, MosaicFormat(satellite))
  {
    TileNameStartsWithNumeral(zoom, x, y, MosaicFormat(satellite));
  }

  /** Quarantine never moves a tile onto a tile name, and two tiles never share a trash path. */
  lemma TrashPathFacts(home: string, name: string, name': string)
    requires '/' !in name'
    ensures TrashPath(home, name) != name'
    ensures TrashPath(home, name) == TrashPath(home, name') ==> name == name'
  {
    assert TrashPath(home, name)[|home|] == '/';
    if TrashPath(home, name) == TrashPath(home, name') {
      StripPrefix(home + "/.Trash/", name, name');
    }
  }

  /**
   * The names the merge looks for are never the paths download_tiles.py
   * writes: those start with the folder "road/", "tile/" or "it/".
   */
  lemma MergeNameIsNoDownloadPath(zoom: int, x: int, y: int, satellite: bool, item: WorkItem)
    ensures TileName(zoom, x, y, MosaicFormat(satellite)) != RequestFor(item).Path()
    ensures 0 < |RequestFor(item).Path()| && !IsNumeral(RequestFor(item).Path()[0])
  {
    TileNameStartsWithNumeral(zoom, x, y, MosaicFormat(satellite));
    PathStartsWithFolder(item);
  }

  // ---------------------------------------------------------------------------
  // What the merge does, cell by cell
  // ---------------------------------------------------------------------------

  /** `result.paste(i, (x_paste, y_paste))` for the image in file `name`. */
  datatype Placement = Placement(name: string, left: int, top: int)

  /** What one iteration of the inner loop did with its tile. */
  datatype Cell =
    | Missing(name: string)      // no such file: skipped
    | Quarantined(name: string)  // `Image.open` failed: moved to the trash and skipped
    | Pasted(paste: Placement)

  /** The fate of tile `(x, y)` in the store `files`. */
  function Fate(files: map<string, Bytes>, st: Setup, x: int, y: int): Cell
  {
    var name := st.Name(x, y);
    if name !in files then Missing(name)
    else if !st.decodes(files[name]) then Quarantined(name)
    else Pasted(Placement(name, st.XPaste(x), st.YPaste(y)))
  }

  /** The store and the cells of the iterations still to run. */
  datatype Merge = Merge(files: map<string, Bytes>, cells: seq<Cell>)

  /** `cells` happened first, then `m`. */
  function Then(cells: seq<Cell>, m: Merge): Merge
  {
    Merge(m.files, cells + m.cells)
  }

  /** One iteration of the inner loop: the cell's fate, and the store after it. */
  function VisitCell(files: map<string, Bytes>, st: Setup, x: int, y: int): Merge
  {
    var c := Fate(files, st, x, y);
    if c.Quarantined? then Merge(Moved(files, c.name, TrashPath(st.home, c.name)), [c])
    else Merge(files, [c])
  }

  /** The loops of `merge_tiles` from column `x`, row `y` on: `y` runs over `range(y_start, y_stop)` for each `x`. */
  function Resume(files: map<string, Bytes>, st: Setup, x: int, y: int): Merge
    decreases st.xStop - x, st.yStop - y
  {
    if x >= st.xStop then Merge(files, [])
    else if y >= st.yStop then Resume(files, st, x + 1, st.yStart)
    else
      var m := VisitCell(files, st, x, y);
      Then(m.cells, Resume(m.files, st, x, y + 1))
  }

  /** The whole merge. */
  function VisitGrid(files: map<string, Bytes>, st: Setup): Merge
  {
    Resume(files, st, st.xStart, st.yStart)
  }

  /**
   * Reference: the fates of the same cells in the same order, each judged
   * on one fixed store rather than the store the earlier iterations left.
   */
  function Fates(files: map<string, Bytes>, st: Setup, x: int, y: int): seq<Cell>
    decreases st.xStop - x, st.yStop - y
  {
    if x >= st.xStop then []
    else if y >= st.yStop then Fates(files, st, x + 1, st.yStart)
    else [Fate(files, st, x, y)] + Fates(files, st, x, y + 1)
  }

  /** The pastes the cells made, in order. */
  function Placements(cells: seq<Cell>): seq<Placement>
  {
    if cells == [] then []
    else (if cells[0].Pasted? then [cells[0].paste] else []) + Placements(cells[1..])
  }

  lemma ThenAssoc(a: seq<Cell>, b: seq<Cell>, m: Merge)
    ensures Then(a, Then(b, m)) == Then(a + b, m)
  {
    assert a + (b + m.cells) == (a + b) + m.cells;
  }

  /** Cell `(x', y')` is still to be visited when the loops stand at column `x`, row `y`. */
  predicate Remaining(st: Setup, x: int, y: int, x': int, y': int)
  {
    x' < st.xStop && ((x' == x && y <= y' < st.yStop) || (x < x' && st.yStart <= y' < st.yStop))
  }

  /** `path` is in both stores or neither, with the same bytes. */
  predicate SameAt(a: map<string, Bytes>, b: map<string, Bytes>, path: string)
  {
    (path in a <==> path in b) && (path in a ==> a[path] == b[path])
  }

  /** Visiting a cell touches only its own tile and that tile's trash path. */
  lemma VisitCellFrame(files: map<string, Bytes>, st: Setup, x: int, y: int, path: string)
    requires path != st.Name(x, y) && path != TrashPath(st.home, st.Name(x, y))
    ensures SameAt(files, VisitCell(files, st, x, y).files, path)
  {
  }

  /** The rest of the merge touches only the tiles it still visits and their trash paths. */
  lemma {:induction false} ResumeFrame(files: map<string, Bytes>, st: Setup, x: int, y: int, path: string)
    requires forall x', y' :: Remaining(st, x, y, x', y') ==>
               path != st.Name(x', y') && path != TrashPath(st.home, st.Name(x', y'))
    ensures SameAt(files, Resume(files, st, x, y).files, path)
    decreases st.xStop - x, st.yStop - y
  {
    if x < st.xStop {
      if y >= st.yStop {
        ResumeFrame(files, st, x + 1, st.yStart, path);
      } else {
        assert Remaining(st, x, y, x, y);
        VisitCellFrame(files, st, x, y, path);
        var m := VisitCell(files, st, x, y);
        ResumeFrame(m.files, st, x, y + 1, path);
      }
    }
  }

  /** A tile still to be visited is neither the tile at `(x, y)` nor its trash path. */
  lemma OtherTile(st: Setup, x: int, y: int, x': int, y': int)
    requires (x, y) != (x', y')
    ensures st.Name(x', y') != st.Name(x, y)
    ensures st.Name(x', y') != TrashPath(st.home, st.Name(x, y))
    ensures TrashPath(st.home, st.Name(x', y')) != st.Name(x, y)
    ensures TrashPath(st.home, st.Name(x', y')) != TrashPath(st.home, st.Name(x, y))
  {
    if st.Name(x', y') == st.Name(x, y) {
      TileNameInjective(st.zoom, x', y', st.zoom, x, y, st.satellite);
    }
    TileNameHasNoSlash(st.zoom, x, y, st.satellite);
    TileNameHasNoSlash(st.zoom, x', y', st.satellite);
    TrashPathFacts(st.home, st.Name(x, y), st.Name(x', y'));
    TrashPathFacts(st.home, st.Name(x', y'), st.Name(x, y));
  }

  /**
   * Order does not matter: quarantining one tile never changes what happens
   * to another, so each cell's fate is decided by the store as it was
   * before the merge.
   */
  lemma {:induction false} ResumeFates(files: map<string, Bytes>, files0: map<string, Bytes>, st: Setup,
                                       x: int, y: int)
    requires forall x', y' :: Remaining(st, x, y, x', y') ==> SameAt(files, files0, st.Name(x', y'))
    ensures Resume(files, st, x, y).cells == Fates(files0, st, x, y)
    decreases st.xStop - x, st.yStop - y
  {
    if x < st.xStop {
      if y >= st.yStop {
        ResumeFates(files, files0, st, x + 1, st.yStart);
      } else {
        assert Remaining(st, x, y, x, y);
        var m := VisitCell(files, st, x, y);
        assert m.cells == [Fate(files0, st, x, y)];
        forall x', y' | Remaining(st, x, y + 1, x', y')
          ensures SameAt(m.files, files0, st.Name(x', y'))
        {
          assert Remaining(st, x, y, x', y');
          OtherTile(st, x, y, x', y');
          VisitCellFrame(files, st, x, y, st.Name(x', y'));
        }
        ResumeFates(m.files, files0, st, x, y + 1);
      }
    }
  }

  /** The merge's cells are the reference fates judged on the original store. */
  lemma VisitGridFates(files: map<string, Bytes>, st: Setup)
    ensures VisitGrid(files, st).cells == Fates(files, st, st.xStart, st.yStart)
  {
    ResumeFates(files, files, st, st.xStart, st.yStart);
  }

  /**
   * What the store holds at tile `(x, y)` and its trash path after the merge:
   * an unreadable tile has moved to the trash; any other tile, and its trash
   * path, are as they were.
   */
  predicate Settled(files: map<string, Bytes>, final: map<string, Bytes>, st: Setup, x: int, y: int)
  {
    var n := st.Name(x, y);
    var trash := TrashPath(st.home, n);
    if n in files && !st.decodes(files[n]) then
      n !in final && trash in final && final[trash] == files[n]
    else
      SameAt(files, final, n) && SameAt(files, final, trash)
  }

  lemma {:induction false} ResumeSettles(files: map<string, Bytes>, st: Setup, x: int, y: int, x': int, y': int)
    requires Remaining(st, x, y, x', y')
    ensures Settled(files, Resume(files, st, x, y).files, st, x', y')
    decreases st.xStop - x, st.yStop - y
  {
    var n, trash := st.Name(x', y'), TrashPath(st.home, st.Name(x', y'));
    if y >= st.yStop {
      ResumeSettles(files, st, x + 1, st.yStart, x', y');
    } else {
      var m := VisitCell(files, st, x, y);
      if (x, y) == (x', y') {
        forall x'', y'' | Remaining(st, x, y + 1, x'', y'')
          ensures n != st.Name(x'', y'') && n != TrashPath(st.home, st.Name(x'', y''))
          ensures trash != st.Name(x'', y'') && trash != TrashPath(st.home, st.Name(x'', y''))
        {
          OtherTile(st, x, y, x'', y'');
        }
        ResumeFrame(m.files, st, x, y + 1, n);
        ResumeFrame(m.files, st, x, y + 1, trash);
      } else {
        OtherTile(st, x, y, x', y');
        VisitCellFrame(files, st, x, y, n);
        VisitCellFrame(files, st, x, y, trash);
        ResumeSettles(m.files, st, x, y + 1, x', y');
      }
    }
  }

  /**
   * Quarantine: an unreadable tile of the rectangle is gone from its name
   * and its bytes are at `~/.Trash/<name>`; every other tile, and its trash
   * path, stay as they were.
   */
  lemma MergeSettles(files: map<string, Bytes>, st: Setup, x: int, y: int)
    requires st.InRect(x, y)
    ensures Settled(files, VisitGrid(files, st).files, st, x, y)
  {
    ResumeSettles(files, st, st.xStart, st.yStart, x, y);
  }

  /** The merge changes no path but the rectangle's tile names and their trash paths. */
  lemma MergeFrame(files: map<string, Bytes>, st: Setup, path: string)
    requires forall x, y :: st.InRect(x, y) ==> path != st.Name(x, y) && path != TrashPath(st.home, st.Name(x, y))
    ensures SameAt(files, VisitGrid(files, st).files, path)
  {
    ResumeFrame(files, st, st.xStart, st.yStart, path);
  }

  // ---------------------------------------------------------------------------
  // Where the tiles land
  // ---------------------------------------------------------------------------

  /** `p` is the paste of tile `(x, y)`, whose file exists and opens. */
  predicate PastedTile(files: map<string, Bytes>, st: Setup, p: Placement, x: int, y: int)
  {
    var n := st.Name(x, y);
    n in files && st.decodes(files[n]) && p == Placement(n, st.XPaste(x), st.YPaste(y))
  }

  lemma {:induction false} PlacementsConcat(a: seq<Cell>, b: seq<Cell>)
    ensures Placements(a + b) == Placements(a) + Placements(b)
    decreases |a|
  {
    if a == [] {
      assert a + b == b;
    } else {
      assert (a + b)[0] == a[0];
      assert (a + b)[1..] == a[1..] + b;
      PlacementsConcat(a[1..], b);
    }
  }

  /** At the end of a column the tiles still to visit are those from the top of the next one. */
  lemma PastedFromNextColumn(files: map<string, Bytes>, st: Setup, x: int, y: int, p: Placement)
    requires st.yStop <= y
    ensures (exists x', y' :: Remaining(st, x, y, x', y') && PastedTile(files, st, p, x', y'))
        <==> (exists x', y' :: Remaining(st, x + 1, st.yStart, x', y') && PastedTile(files, st, p, x', y'))
  {
    if exists x', y' :: Remaining(st, x, y, x', y') && PastedTile(files, st, p, x', y') {
      var x', y' :| Remaining(st, x, y, x', y') && PastedTile(files, st, p, x', y');
      assert Remaining(st, x + 1, st.yStart, x', y');
    }
    if exists x', y' :: Remaining(st, x + 1, st.yStart, x', y') && PastedTile(files, st, p, x', y') {
      var x', y' :| Remaining(st, x + 1, st.yStart, x', y') && PastedTile(files, st, p, x', y');
      assert Remaining(st, x, y, x', y');
    }
  }

  /** Inside a column the tiles still to visit are the current one and those after it. */
  lemma PastedFromNextRow(files: map<string, Bytes>, st: Setup, x: int, y: int, p: Placement)
    requires x < st.xStop && y < st.yStop
    ensures (exists x', y' :: Remaining(st, x, y, x', y') && PastedTile(files, st, p, x', y'))
        <==> PastedTile(files, st, p, x, y)
             || (exists x', y' :: Remaining(st, x, y + 1, x', y') && PastedTile(files, st, p, x', y'))
  {
    if PastedTile(files, st, p, x, y) {
      assert Remaining(st, x, y, x, y);
    }
    if exists x', y' :: Remaining(st, x, y + 1, x', y') && PastedTile(files, st, p, x', y') {
      var x', y' :| Remaining(st, x, y + 1, x', y') && PastedTile(files, st, p, x', y');
      assert Remaining(st, x, y, x', y');
    }
    if exists x', y' :: Remaining(st, x, y, x', y') && PastedTile(files, st, p, x', y') {
      var x', y' :| Remaining(st, x, y, x', y') && PastedTile(files, st, p, x', y');
      if (x', y') != (x, y) {
        assert Remaining(st, x, y + 1, x', y');
      }
    }
  }

  /** The paste of one cell, if any, is `p` exactly when `p` is that tile's paste. */
  lemma FateHead(files: map<string, Bytes>, st: Setup, x: int, y: int, p: Placement)
    ensures var c := Fate(files, st, x, y);
            p in (if c.Pasted? then [c.paste] else []) <==> PastedTile(files, st, p, x, y)
  {
  }

  /** Exactly the existing, readable tiles still to be visited are pasted, each at its own offsets. */
  lemma {:induction false} FatesPlacements(files: map<string, Bytes>, st: Setup, x: int, y: int, p: Placement)
    ensures p in Placements(Fates(files, st, x, y))
            <==> exists x', y' :: Remaining(st, x, y, x', y') && PastedTile(files, st, p, x', y')
    decreases st.xStop - x, st.yStop - y
  {
    if x < st.xStop {
      if y >= st.yStop {
        FatesPlacements(files, st, x + 1, st.yStart, p);
        PastedFromNextColumn(files, st, x, y, p);
      } else {
        FatesStep(files, st, x, y);
        FatesPlacements(files, st, x, y + 1, p);
        PastedFromNextRow(files, st, x, y, p);
        FateHead(files, st, x, y, p);
      }
    }
  }

  /** Two pastes overlap in no pixel. */
  predicate Disjoint(p: Placement, q: Placement)
  {
    p.left + 256 <= q.left || q.left + 256 <= p.left || p.top + 256 <= q.top || q.top + 256 <= p.top
  }

  predicate PairwiseDisjoint(ps: seq<Placement>)
  {
    forall i, j :: 0 <= i < j < |ps| ==> Disjoint(ps[i], ps[j])
  }

  /** A paste disjoint from each of a pairwise disjoint list keeps the list pairwise disjoint. */
  lemma ConsDisjoint(p: Placement, rest: seq<Placement>)
    requires PairwiseDisjoint(rest)
    requires forall q :: q in rest ==> Disjoint(p, q)
    ensures PairwiseDisjoint([p] + rest)
  {
    var ps := [p] + rest;
    forall i, j | 0 <= i < j < |ps|
      ensures Disjoint(ps[i], ps[j])
    {
      assert ps[j] == rest[j - 1];
      if 0 < i {
        assert ps[i] == rest[i - 1];
      }
    }
  }

  /** The paste of tile `(x, y)` overlaps no paste of the tiles after it in its column and beyond. */
  lemma LaterTileDisjoint(files: map<string, Bytes>, st: Setup, x: int, y: int, q: Placement)
    requires x < st.xStop && y < st.yStop && Fate(files, st, x, y).Pasted?
    requires q in Placements(Fates(files, st, x, y + 1))
    ensures Disjoint(Fate(files, st, x, y).paste, q)
  {
    FatesPlacements(files, st, x, y + 1, q);
    var x', y' :| Remaining(st, x, y + 1, x', y') && PastedTile(files, st, q, x', y');
  }

  /** The pastes from cell `(x, y)` on: its own, if any, then those of the cells after it. */
  lemma FatesStep(files: map<string, Bytes>, st: Setup, x: int, y: int)
    requires x < st.xStop && y < st.yStop
    ensures var c := Fate(files, st, x, y);
            Placements(Fates(files, st, x, y))
            == (if c.Pasted? then [c.paste] else []) + Placements(Fates(files, st, x, y + 1))
  {
    var c := Fate(files, st, x, y);
    PlacementsConcat([c], Fates(files, st, x, y + 1));
    assert Placements([c]) == (if c.Pasted? then [c.paste] else []) + Placements([]);
  }

  /** No two tiles still to be visited land on overlapping squares. */
  lemma {:induction false} FatesDisjoint(files: map<string, Bytes>, st: Setup, x: int, y: int)
    ensures PairwiseDisjoint(Placements(Fates(files, st, x, y)))
    decreases st.xStop - x, st.yStop - y
  {
    if x < st.xStop {
      if y >= st.yStop {
        FatesDisjoint(files, st, x + 1, st.yStart);
      } else {
        FatesStep(files, st, x, y);
        FatesDisjoint(files, st, x, y + 1);
        var c := Fate(files, st, x, y);
        if c.Pasted? {
          var rest := Placements(Fates(files, st, x, y + 1));
          forall q | q in rest
            ensures Disjoint(c.paste, q)
          {
            LaterTileDisjoint(files, st, x, y, q);
          }
          ConsDisjoint(c.paste, rest);
        }
      }
    }
  }

  /** Paste `p` lies in the bands of the canvas: columns `0..w-256`, rows `256..h`, on the 256 grid. */
  predicate WithinBands(p: Placement, st: Setup)
  {
    && 0 <= p.left <= st.Width() - 256 && p.left % 256 == 0
    && 256 <= p.top <= st.Height() && p.top % 256 == 0
  }

  /** Some pixel of paste `p` lands on the canvas. */
  predicate OnCanvas(p: Placement, st: Setup)
  {
    -256 < p.left < st.Width() && -256 < p.top < st.Height()
  }

  /** Where tile `(x, y)` lands: in the bands, and on the canvas exactly when `y` is not `y_start`. */
  lemma TileLanding(files: map<string, Bytes>, st: Setup, p: Placement, x: int, y: int)
    requires st.InRect(x, y) && PastedTile(files, st, p, x, y)
    ensures WithinBands(p, st)
    ensures OnCanvas(p, st) <==> y != st.yStart
  {
  }

  /** The reference fates of the whole rectangle paste exactly its existing, readable tiles. */
  lemma GridPlacement(files: map<string, Bytes>, st: Setup, p: Placement)
    ensures p in Placements(Fates(files, st, st.xStart, st.yStart))
            <==> exists x, y :: st.InRect(x, y) && PastedTile(files, st, p, x, y)
    ensures p in Placements(Fates(files, st, st.xStart, st.yStart)) ==> WithinBands(p, st)
  {
    FatesPlacements(files, st, st.xStart, st.yStart, p);
    assert forall x, y :: Remaining(st, st.xStart, st.yStart, x, y) <==> st.InRect(x, y);
    if p in Placements(Fates(files, st, st.xStart, st.yStart)) {
      var x, y :| st.InRect(x, y) && PastedTile(files, st, p, x, y);
      TileLanding(files, st, p, x, y);
    }
  }

  /**
   * The mosaic: a tile of the rectangle is pasted exactly when its file
   * exists and opens, at its own offsets, in the bands of the canvas, and no
   * two pastes overlap.
   */
  lemma MergePlacements(files: map<string, Bytes>, st: Setup)
    ensures forall p :: p in Placements(VisitGrid(files, st).cells)
              <==> exists x, y :: st.InRect(x, y) && PastedTile(files, st, p, x, y)
    ensures forall p :: p in Placements(VisitGrid(files, st).cells) ==> WithinBands(p, st)
    ensures PairwiseDisjoint(Placements(VisitGrid(files, st).cells))
  {
    VisitGridFates(files, st);
    FatesDisjoint(files, st, st.xStart, st.yStart);
    forall p {
      GridPlacement(files, st, p);
    }
  }

  /** A store holding no tile of the rectangle gives a mosaic with nothing pasted, and is left alone. */
  lemma {:induction false} ResumeFindsNothing(files: map<string, Bytes>, st: Setup, x: int, y: int)
    requires forall x', y' :: Remaining(st, x, y, x', y') ==> st.Name(x', y') !in files
    ensures Resume(files, st, x, y).files == files
    ensures Placements(Resume(files, st, x, y).cells) == []
    decreases st.xStop - x, st.yStop - y
  {
    if x < st.xStop {
      if y >= st.yStop {
        ResumeFindsNothing(files, st, x + 1, st.yStart);
      } else {
        assert Remaining(st, x, y, x, y);
        var rest := Resume(files, st, x, y + 1);
        ResumeFindsNothing(files, st, x, y + 1);
        PlacementsConcat([Missing(st.Name(x, y))], rest.cells);
      }
    }
  }

  /**
   * The merge cannot read what the downloader wrote: run on a store that
   * held only download paths, after any download run, it pastes nothing.
   */
  lemma MergeAfterDownload(files0: map<string, Bytes>, items: seq<WorkItem>, remote: string -> Download.Fetch,
                           st: Setup)
    requires forall p :: p in files0 ==> 0 < |p| && !IsNumeral(p[0])
    ensures var files := Download.Execute(files0, items, remote).files;
            VisitGrid(files, st).files == files && Placements(VisitGrid(files, st).cells) == []
  {
    var files := Download.Execute(files0, items, remote).files;
    Download.ExecuteOnlyPaths(files0, items, remote);
    forall x', y' | Remaining(st, st.xStart, st.yStart, x', y')
      ensures st.Name(x', y') !in files
    {
      var n := st.Name(x', y');
      TileNameStartsWithNumeral(st.zoom, x', y', MosaicFormat(st.satellite));
      if n in Download.Paths(items) {
        var i :| 0 <= i < |items| && RequestFor(items[i]).Path() == n;
        MergeNameIsNoDownloadPath(st.zoom, x', y', st.satellite, items[i]);
      }
    }
    ResumeFindsNothing(files, st, st.xStart, st.yStart);
  }

  // ---------------------------------------------------------------------------
  // The canvas and the loops
  // ---------------------------------------------------------------------------

  /** `result = Image.new("RGBA", (w, h))`, recording what is pasted where. */
  class Canvas {
    const width: int
    const height: int
    var pastes: seq<Placement>

    /** Pillow refuses a negative width or height. */
    constructor(width: int, height: int)
      requires 0 <= width && 0 <= height
      ensures this.width == width && this.height == height && pastes == []
    {
      this.width := width;
      this.height := height;
      pastes := [];
    }

    method Paste(p: Placement)
      modifies this
      ensures pastes == old(pastes) + [p]
    {
      pastes := pastes + [p];
    }
  }

  lemma ResumeStep(files: map<string, Bytes>, st: Setup, x: int, y: int)
    requires x < st.xStop && y < st.yStop
    ensures var m := VisitCell(files, st, x, y);
            Resume(files, st, x, y) == Then(m.cells, Resume(m.files, st, x, y + 1))
  {
  }

  /** One iteration of the inner loop of `merge_tiles`, on the tile `(x, y)` of `st`. */
  method VisitTile(fs: FileSystem, canvas: Canvas, st: Setup, x: int, y: int) returns (cell: Cell)
    modifies fs, canvas
    ensures var m := VisitCell(old(fs.files), st, x, y);
            [cell] == m.cells && fs.files == m.files
            && canvas.pastes == old(canvas.pastes) + Placements([cell])
  {
    var filename := st.Name(x, y);
    if !fs.Exists(filename) {
      cell := Missing(filename);
    } else {
      var xPaste := st.XPaste(x);
      var yPaste := st.YPaste(y);
      if !st.decodes(fs.files[filename]) {
        fs.Rename(filename, TrashPath(st.home, filename));
        cell := Quarantined(filename);
      } else {
        var p := Placement(filename, xPaste, yPaste);
        canvas.Paste(p);
        cell := Pasted(p);
      }
    }
  }

  /**
   * `merge_tiles`: `canvas` is null when `Image.new` rejects the size;
   * otherwise it has size `w` by `h` and holds the pastes of the cells,
   * the cells are those of `VisitGrid`, and the store is `VisitGrid`'s with
   * `result.save` writing `image`, the encoded canvas, under `OutputName`.
   * Pixels are not modelled, so the encoding is a parameter.
   */
  method MergeTiles(fs: FileSystem, zoom: int, startPixelX: int, startPixelY: int, stopPixelX: int, stopPixelY: int,
                    satellite: bool, home: string, decodes: Bytes -> bool, image: Bytes)
    returns (canvas: Canvas?, cells: seq<Cell>)
    modifies fs
    ensures var st := MergeSetup(zoom, startPixelX, startPixelY, stopPixelX, stopPixelY, satellite, home, decodes);
            && (canvas == null <==> st.Width() < 0 || st.Height() < 0)
            && (canvas == null ==> fs.files == old(fs.files) && cells == [])
            && (canvas != null ==>
                  && fresh(canvas) && canvas.width == st.Width() && canvas.height == st.Height()
                  && VisitGrid(old(fs.files), st).cells == cells
                  && fs.files == VisitGrid(old(fs.files), st).files[OutputName(MosaicFormat(satellite)) := image]
                  && canvas.pastes == Placements(cells))
  {
    var xStart, yStart := TruncTile(startPixelX), TruncTile(startPixelY);
    var xStop, yStop := TruncTile(stopPixelX), TruncTile(stopPixelY);
    var w, h := (xStop - xStart) * 256, (yStop - yStart) * 256;
    if w < 0 || h < 0 {
      return null, [];
    }
    canvas := new Canvas(w, h);
    var st := Setup(zoom, xStart, yStart, xStop, yStop, satellite, home, decodes);
    cells := [];
    ghost var files0 := fs.files;
    var x := xStart;
    while x < xStop
      invariant x <= xStop
      invariant VisitGrid(files0, st) == Then(cells, Resume(fs.files, st, x, yStart))
      invariant canvas.pastes == Placements(cells)
    {
      var y := yStart;
      while y < yStop
        invariant y <= yStop
        invariant VisitGrid(files0, st) == Then(cells, Resume(fs.files, st, x, y))
        invariant canvas.pastes == Placements(cells)
      {
        ghost var m := VisitCell(fs.files, st, x, y);
        ResumeStep(fs.files, st, x, y);
        ThenAssoc(cells, m.cells, Resume(m.files, st, x, y + 1));
        var cell := VisitTile(fs, canvas, st, x, y);
        PlacementsConcat(cells, [cell]);
        cells := cells + [cell];
        y := y + 1;
      }
      x := x + 1;
    }
    fs.Write(OutputName(MosaicFormat(satellite)), image);
  }
}
