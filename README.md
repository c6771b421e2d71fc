# BaiduMap_tiles in Dafny

A model of the three scripts that download Baidu map tiles and stitch them
into one image.

- **download_tiles.py**:
  - `download_tile` and `download_satellite` build a URL, a folder and a filename for one tile index.
  - `download_file` skips a path that exists, stops its thread on a failed fetch or an HTML body, and otherwise stores the fetched bytes.
  - `FastThread.run` walks one tile column.
  - `download_tiles` turns pixel coordinates into a tile rectangle and starts one thread per column.
- **merge_tiles.py**:
  - `merge_tiles` looks up `"%d_%d_%d_%s.%s"` for every tile of the rectangle.
  - It skips missing files and moves unreadable ones to `~/.Trash`.
  - It pastes the rest into a canvas at `((x-x_start)*256, (y_stop-y)*256)`.
- **gmap_utils.py**:
  - `bd_latlng2xy` asks the coordinate service up to `max_retries` times.
  - It sleeps `retry_delay * retry_count` plus jitter between attempts.
  - It returns on the first status-0 answer with a readable location. A status-0 answer without one raises inside the `try` and counts as a failure.
  - It raises when the last attempt fails, or earlier when a sleep between attempts raises (a negative or out-of-range time).

Files:

- `wrappers.dfy`: `Option`.
- `decimal.dfy`: Python's `%d` for integers.
  - It proves that formatting round-trips and that a `%d` template determines its fields.
  - It models `str.replace` for one character.
- `store.dfy`: the filesystem as a map from path to bytes, in the class `Store.FileSystem`. It offers `os.path.exists`, a whole-file write and `os.rename`.
- `tile_address.dfy`: the two request builders, with injectivity of the stored paths.
- `download.dfy`:
  - `download_file`, as the function `DownloadStep` and as methods on the store.
  - `FastThread.run` and `download_tiles`, as loops proved against the functions `Worker` and `Workers`.
  - Lemmas about which downloads are made and what the store holds afterwards.
- `mosaic.dfy`:
  - `merge_tiles` as nested loops over the store and a `Canvas` class.
  - It is proved against the function `VisitGrid`.
  - Lemmas cover where tiles land, quarantine, and the names the merge looks for.
- `geoconv.dfy`: the retry loop of `bd_latlng2xy`.

External effects become parameters:
- the tile server is a function `remote` from URL to `FetchError` or `Body(bytes)`;
- the coordinate service is a function from attempt number to reply;
- whether Pillow can open a file's bytes is a predicate `decodes`;
- the home directory behind `~` is a string `home`.

Threads run one after another, in the order `download_tiles` starts them.

Both `download_tiles` (download_tiles.py:12) and `merge_tiles` (merge_tiles.py:9) default `satellite` to True; the model takes the flag as an explicit parameter.

Three behaviours of the code as written are stated as lemmas, not corrected:
- `FastThread.run` tests the module-level `satellite`, not the thread's own field. The model takes that global as `moduleSatellite: Option<bool>`, with `None` when it is unset, which raises `NameError`. The `satellite` argument of `download_tiles` therefore changes nothing.
- `merge_tiles` looks for names such as `19_1_2_r.png`, which the downloader never writes (`Mosaic.MergeNameIsNoDownloadPath`).
- `y_paste = (y_stop - y) * 256` puts row `y` at offsets `256..h`, so the row `y_start` lands just below the canvas and is clipped away (`Mosaic.TileLanding`).

## Model

| member | source | states |
|---|---|---|
| Decimal.Format3 | download_tiles.py:56 | a `%d` template with three integer fields: its four literals in order, with the `%d` text of each integer between them |
| Decimal.FormatInt | download_tiles.py:56 | `%d` of an integer is a non-empty string of digits and '-', and it starts with '-' exactly when the integer is negative |
| Decimal.NatDigitsValue | download_tiles.py:56 | the decimal digits of a natural number read back as that number |
| Decimal.ParseFormatInt | download_tiles.py:56 | reading back `%d` of any integer gives that integer |
| Decimal.FormatIntInjective | download_tiles.py:56 | two integers with the same `%d` text are equal |
| Decimal.Format3Injective | download_tiles.py:56 | a three-field `%d` template whose literals after each field start with a non-numeral determines its three integers |
| Decimal.Replace | download_tiles.py:70 | `str.replace` of one character by another, position by position; its lemmas below state what it keeps and removes |
| Decimal.ReplaceRemoves | download_tiles.py:70 | after `replace(a, b)` with `a != b`, no `a` is left |
| Decimal.ReplaceConcat | download_tiles.py:70 | `replace` of a concatenation is the concatenation of the replacements |
| Decimal.ReplaceAbsent | download_tiles.py:70 | `replace` leaves a string without the character unchanged |
| Decimal.ReplaceFormat3 | download_tiles.py:70 | replacing a non-numeral in a filled template replaces it only in the literals, never in the numbers |
| TileAddress.Request.Path | download_tiles.py:76 | the stored path is the folder followed by the filename |
| TileAddress.TileQuery | download_tiles.py:52-56 | the query of `download_tile`: x, y and zoom in the template `qt=tile&x=%d&y=%d&z=%d&styles=%s%s&udt=20170927`, with styles "sl" and no scaler in overlay style, "pl" and "&scaler=1" otherwise |
| TileAddress.TileRequest | download_tiles.py:48-58 | the folder is "road/" in overlay style and "tile/" otherwise; the filename ends in ".png"; the URL is the base followed by the filename without ".png" |
| TileAddress.SatellitePath | download_tiles.py:68 | the path of `download_satellite`: x, y and zoom in the template `u=x=%d;y=%d;z=%d;v=009;type=sate&fm=46&udt=20170927` |
| TileAddress.SatelliteRequest | download_tiles.py:63-70 | the folder is "it/"; the URL is the satellite base followed by a path containing ';'; the filename is that path with every ';' made ',' plus ".jpg", and it has no ';' |
| TileAddress.RequestFor | download_tiles.py:41-45 | the request of each call in `run`: `download_tile(..., False)` for a road tile, `download_tile(..., True)` for an overlay, `download_satellite` for imagery |
| TileAddress.TileFilenameInjective | download_tiles.py:56-58 | for one style, equal `download_tile` filenames mean equal x, y and zoom |
| TileAddress.SatellitePiecesReplaced | download_tiles.py:70 | the literal parts of the satellite path after `replace(";", ",")` |
| TileAddress.SatelliteFilenameTemplate | download_tiles.py:68-70 | the satellite filename is the path's template with ',' for ';' plus ".jpg" |
| TileAddress.SatelliteFilenameInjective | download_tiles.py:68-70 | equal `download_satellite` filenames mean equal x, y and zoom |
| TileAddress.PathStartsWithFolder | download_tiles.py:48-76 | a stored path starts with its folder's letter: 't' for road tiles, 'r' for overlays, 'i' for imagery, never a digit or '-' |
| TileAddress.PathInjective | download_tiles.py:76 | a stored path `folder + filename` determines the kind, x, y and zoom of the download |
| Store.Moved | merge_tiles.py:49 | the store after `os.rename(src, dst)`: `src` removed and its bytes at `dst` |
| Store.FileSystem.Exists | download_tiles.py:77 | `os.path.exists` is membership of the path in the store |
| Store.FileSystem.Write | download_tiles.py:93-95 | writing a file sets exactly that path to the bytes |
| Store.FileSystem.Rename | merge_tiles.py:49 | `os.rename` removes the source and puts its bytes at the destination, and nothing else changes |
| Download.IsHtml | download_tiles.py:87 | `bytes.startswith(b"<html>")`: the body is at least six bytes long and begins with the bytes of `<html>` |
| Download.DownloadStep | download_tiles.py:75-99 | the call reports "existed" iff the path is present. It stops on a fetch exception iff the path is absent and the fetch raises. It stops as forbidden iff the path is absent and the body starts with `<html>`. It saves iff the body does not start with `<html>`; then exactly the fetched bytes are stored at `folder + filename` and nothing else changes. Otherwise the store is unchanged |
| Download.DownloadFile | download_tiles.py:75-99 | the method's outcome and new store are those of `DownloadStep` |
| Download.DownloadTile | download_tiles.py:48-60 | `download_tile` is `download_file` on the request `TileRequest` builds |
| Download.DownloadSatellite | download_tiles.py:63-72 | `download_satellite` is `download_file` on the request `SatelliteRequest` builds |
| Download.Execute | download_tiles.py:75-99 | a thread's downloads in order, each one `DownloadStep` on the store the previous left; the first stop ends the thread, recording its reason |
| Download.Jobs | download_tiles.py:41-45 | one iteration of `run` for row `y`: the imagery then the overlay tile in satellite mode, one road tile otherwise |
| Download.ColumnItems | download_tiles.py:40-45 | the downloads of `run` in order: for each `y` in `range(start_y, stop_y)`, imagery then overlay in satellite mode, one road tile otherwise |
| Download.Plan | download_tiles.py:25-27 | the downloads of all threads, column by column over `range(start_x, stop_x)` |
| Download.Worker | download_tiles.py:39-45 | `run`: `Execute` over the column in the mode of the module-level `satellite`; without that global a thread with rows to visit ends with `NameError` and sends nothing |
| Download.Workers | download_tiles.py:25-27 | the threads of `download_tiles`, one per column, each starting from the store the previous one left |
| Download.ExecuteConcat | download_tiles.py:40-45 | running two lists of downloads in turn is running the first, then the second from the store it left, unless the first stopped |
| Download.ColumnStep | download_tiles.py:40-45 | one iteration of `run` does the jobs of row `y`, then the rest of the column |
| Download.ColumnItemsShape | download_tiles.py:40-45 | a worker makes `2*(stop_y-start_y)` downloads in satellite mode (the imagery of row `y` at index `2k`, its overlay at `2k+1`) and `stop_y-start_y` road downloads otherwise, in increasing `y` |
| Download.ColumnInRange | download_tiles.py:40 | every download of a worker is in its column, has `y` in `range(start_y, stop_y)`, and has the mode's kinds |
| Download.ColumnDistinct | download_tiles.py:40-45 | a worker never makes the same download twice |
| Download.PlanSize | download_tiles.py:25-27 | the rectangle has `(stop_x-start_x)*(stop_y-start_y)` indices, or none when a range is empty; there are 2 downloads per index in satellite mode and 1 otherwise |
| Download.PlanInRectangle | download_tiles.py:25-27 | every planned download lies in the half-open rectangle and has the mode's kinds |
| Download.PlanCovers | download_tiles.py:25-27 | every index of the half-open rectangle is downloaded with every kind the mode asks for |
| Download.PlanDistinct | download_tiles.py:25-45 | no download is planned twice |
| Download.PlanPathsDistinct | download_tiles.py:25-45 | no two planned downloads share a stored path, so each path is written at most once |
| Download.ExecuteStops | download_tiles.py:83-89 | a thread stops at its first fetch failure or HTML body and nowhere else; if it never stops, it makes one call per download |
| Download.ExecuteWriteOnce | download_tiles.py:77 | a run never changes or removes a file that was already stored |
| Download.ExecuteOnlyPaths | download_tiles.py:93 | a run writes only at the paths of its downloads |
| Download.ExecuteSaves | download_tiles.py:91-95 | every saving call left at its path exactly the body the server returned for its URL |
| Download.ExecuteCovers | download_tiles.py:75-99 | a run that does not stop leaves every one of its paths stored |
| Download.ExecuteIdempotent | download_tiles.py:77-99 | with every path already stored, a run sends no request, changes nothing and reports every file as existing |
| Download.Rerun | download_tiles.py:77-99 | re-running a completed run fetches nothing, whatever the server now answers |
| Download.WorkersShape | download_tiles.py:25-27 | `download_tiles` runs one worker per column of `range(start_x, stop_x)` and never loses or changes a stored file |
| Download.WorkersComplete | download_tiles.py:25-45 | when no worker stops, the workers together leave the store one run over the whole rectangle would, with every planned file present |
| Download.WorkersRunPlan | download_tiles.py:25-45 | when no worker stops, running the workers column by column is one run of the whole plan, ending with the workers' store |
| Download.WorkersIdempotent | download_tiles.py:25-45 | with every planned file already stored, each worker reports every file as existing and the store is unchanged |
| Download.WorkersWithoutModuleFlag | download_tiles.py:41 | with the module-level `satellite` unset, every worker with rows to visit dies with `NameError` before any request, and nothing is written |
| Download.FloorTile | download_tiles.py:17-20 | `v // 256` is the tile index whose 256-pixel band contains `v` |
| Download.FastThread.constructor | download_tiles.py:31-37 | the thread keeps its column, row range, zoom and `satellite` flag |
| Download.FastThread.RunRow | download_tiles.py:41-45 | one iteration of `run` downloads the imagery, then the overlay unless the imagery stopped the thread; or it downloads one road tile |
| Download.FastThread.Run | download_tiles.py:39-45 | `run` does what `Worker` specifies: `Execute` over the column in satellite or road mode, or a `NameError` without the module-level flag |
| Download.DownloadTiles | download_tiles.py:12-27 | the traces and the store are those of `Workers` over the floored tile rectangle |
| Mosaic.MosaicFormat | merge_tiles.py:11-13 | `TYPE, ext` is `s, jpg` in satellite mode and `r, png` otherwise |
| Mosaic.TileName | merge_tiles.py:35 | `"%d_%d_%d_%s.%s" % (zoom, x, y, TYPE, ext)` as a three-field template |
| Mosaic.OutputName | merge_tiles.py:56 | `"map_%s.%s" % (TYPE, ext)` |
| Mosaic.TrashPath | merge_tiles.py:48 | `~/.Trash/<name>` with `~` expanded to the home directory |
| Mosaic.Setup.Width | merge_tiles.py:24 | `w = (x_stop - x_start) * 256` |
| Mosaic.Setup.Height | merge_tiles.py:25 | `h = (y_stop - y_start) * 256` |
| Mosaic.Setup.XPaste | merge_tiles.py:41 | `x_paste = (x - x_start) * 256`: the column band of tile column `x` |
| Mosaic.Setup.YPaste | merge_tiles.py:42 | `y_paste = (y_stop - y) * 256`: the row band of tile row `y`, counted from `y_stop` |
| Mosaic.Setup.InRect | merge_tiles.py:32-33 | the tiles the loops visit: `x` in `range(x_start, x_stop)` and `y` in `range(y_start, y_stop)` |
| Mosaic.MergeSetup | merge_tiles.py:11-28 | the tile rectangle of `merge_tiles`: each pixel bound truncated by `int(v/256)`, with the mode's format |
| Mosaic.TruncTile | merge_tiles.py:17-20 | `int(v/256)` truncates toward zero: `256*t <= v < 256*t+256` for `v >= 0`, and `256*t-256 < v <= 256*t` for `v < 0` |
| Mosaic.TruncVersusFloor | merge_tiles.py:17-20 | the merge index equals the download index (`//`) iff `v >= 0` or `v` is a multiple of 256; otherwise it is one more |
| Mosaic.TileNameHasNoSlash | merge_tiles.py:35 | a tile name has no '/' |
| Mosaic.TileNameStartsWithNumeral | merge_tiles.py:35 | a tile name starts with a digit or '-' |
| Mosaic.TileNameInjective | merge_tiles.py:35 | for one mode, the tile name determines zoom, x and y |
| Mosaic.TileNameEndsWithExt | merge_tiles.py:35 | a tile name ends with the mode's extension |
| Mosaic.ModesNeverShareNames | merge_tiles.py:11-13 | satellite (`s`, `jpg`) and road (`r`, `png`) mosaics never read each other's tiles or write the same output file |
| Mosaic.OutputIsNoTile | merge_tiles.py:56 | `map_%s.%s` is never a tile name, so saving the mosaic overwrites no tile |
| Mosaic.TrashPathFacts | merge_tiles.py:48 | a trash path is never a tile name, and two tiles never share a trash path |
| Mosaic.MergeNameIsNoDownloadPath | merge_tiles.py:35 | no name the merge looks for is a path the downloader writes (those start with "road/", "tile/" or "it/") |
| Mosaic.Fate | merge_tiles.py:35-52 | a tile is missing when its name is absent, quarantined when its bytes do not open, and otherwise pasted at `(x_paste, y_paste)` |
| Mosaic.VisitCell | merge_tiles.py:35-54 | one iteration of the inner loop: the tile's fate, and the store with a quarantined tile moved to its trash path |
| Mosaic.Resume | merge_tiles.py:32-54 | the loops from tile `(x, y)` on, in loop order, each iteration on the store the previous left |
| Mosaic.VisitGrid | merge_tiles.py:32-54 | the two loops of `merge_tiles` over the whole rectangle |
| Mosaic.VisitCellFrame | merge_tiles.py:37-52 | one iteration touches only its own tile and that tile's trash path |
| Mosaic.ResumeFrame | merge_tiles.py:32-52 | the rest of the loops touch only the tiles still to visit and their trash paths |
| Mosaic.OtherTile | merge_tiles.py:48-49 | distinct tiles have distinct names and trash paths, and none of them is the other's |
| Mosaic.ResumeFates | merge_tiles.py:32-52 | quarantining one tile never changes another tile's fate: each tile still to visit is judged on the store as it was before the merge |
| Mosaic.VisitGridFates | merge_tiles.py:32-52 | the merge's cells are the reference `Fates` over the original store, in loop order |
| Mosaic.ResumeSettles | merge_tiles.py:44-50 | for each tile still to visit: if it exists and cannot be opened, it ends up gone and its bytes are at its trash path; otherwise its entry and its trash path are unchanged |
| Mosaic.MergeSettles | merge_tiles.py:44-50 | after the merge, an unreadable tile of the rectangle is gone and its bytes are at `~/.Trash/<name>`, and every other tile and its trash path are as they were |
| Mosaic.MergeFrame | merge_tiles.py:32-52 | the merge changes no path except the rectangle's tile names and their trash paths |
| Mosaic.FatesPlacements | merge_tiles.py:32-52 | a paste is made iff it belongs to a tile still to visit whose file exists and opens, at that tile's offsets |
| Mosaic.FatesDisjoint | merge_tiles.py:41-42 | no two pastes overlap |
| Mosaic.TileLanding | merge_tiles.py:41-42 | `x_paste` is in `0..w-256`, `y_paste` in `256..h`, both multiples of 256; a paste shows on the canvas iff its row is not `y_start`, whose paste is at offset `h` |
| Mosaic.GridPlacement | merge_tiles.py:32-52 | over the whole rectangle, a paste is made iff it is a tile whose file exists and opens, and it lies in the bands above |
| Mosaic.MergePlacements | merge_tiles.py:24-52 | the mosaic pastes exactly the existing, readable tiles of the rectangle, each at its own offsets in the canvas bands, with no two overlapping |
| Mosaic.ResumeFindsNothing | merge_tiles.py:37-39 | missing files are skipped: a store with none of the tiles gives no paste and is left alone |
| Mosaic.MergeAfterDownload | merge_tiles.py:35-39 | on a store holding only what the downloader wrote, the merge finds no tile and pastes nothing |
| Mosaic.Canvas.constructor | merge_tiles.py:30 | a canvas of `w` by `h` is created only for non-negative sizes, with nothing pasted |
| Mosaic.Canvas.Paste | merge_tiles.py:52 | a paste is appended to the canvas's pastes |
| Mosaic.VisitTile | merge_tiles.py:35-54 | one iteration of the inner loop does what `VisitCell` specifies to the store and the canvas |
| Mosaic.MergeTiles | merge_tiles.py:9-56 | a negative width or height is rejected with no change. Otherwise the canvas is `w` by `h`, the cells are those of `VisitGrid`, the canvas holds exactly their pastes, and the new store is `VisitGrid`'s with the encoded image saved under `map_%s.%s` |
| Geoconv.Succeeds | gmap_utils.py:54-66 | an attempt returns iff its reply is a JSON object with status 0 and a readable location `result["result"][0]` |
| Geoconv.StatusError | gmap_utils.py:54-60 | a JSON object whose status is not 0, or absent: the branch that counts the failure itself and raises on the last attempt |
| Geoconv.Pow2 | gmap_utils.py:63 | `2**(18-z)` is positive, so the division by it is defined |
| Geoconv.Pow2Step | gmap_utils.py:63 | `2**(n+1) = 2 * 2**n` for every integer `n`, negative ones included |
| Geoconv.Scaled | gmap_utils.py:63-65 | a coordinate of the service divided by `2**(18-z)` |
| Geoconv.ZoomDoubles | gmap_utils.py:63-65 | one zoom level more doubles the returned coordinates |
| Geoconv.SleepFails | gmap_utils.py:59 | `time.sleep(retry_delay * retry_count + random())` raises when the integer base is negative (`ValueError`) or at least 9223372037, beyond 2**63 nanoseconds (`OverflowError`) |
| Geoconv.Reach | gmap_utils.py:47-74 | the attempts the loop can make: the first failure below `max_retries` whose sleep raises, or else `max_retries` |
| Geoconv.ReachFromFirstFailingSleep | gmap_utils.py:47-74 | counting from failure `k`, the bound lies between `k` and `max_retries`, every sleep before it completes, and the sleep of a bound below `max_retries` raises |
| Geoconv.ReachIsFirstFailingSleep | gmap_utils.py:47-74 | the bound lies between 1 and `max_retries`, every sleep before it completes, and the sleep of a bound below `max_retries` raises |
| Geoconv.ReachFailingDelay | gmap_utils.py:59 | a `retry_delay` whose first sleep raises, negative or out of range, allows only one attempt |
| Geoconv.ReachFittingDelay | gmap_utils.py:47-74 | a non-negative `retry_delay` whose last sleep is still in range allows all `max_retries` attempts |
| Geoconv.BdLatLng2Xy | gmap_utils.py:24-74 | see the summary under this table |
| Geoconv.BdLatLng2XyDefaults | gmap_utils.py:24 | with the defaults `max_retries=3, retry_delay=2`: at most three attempts, sleeps based on 2 and then 4 seconds, and a result iff one of the three attempts succeeds; otherwise it raises |

`Geoconv.BdLatLng2Xy` states:
- It makes at most `Reach(max_retries, retry_delay)` attempts: `max_retries`, or fewer when the sleep after some failure raises.
- A sleep raises when its base `retry_delay*retry_count` is negative (`ValueError`) or too large for `time.sleep` (`OverflowError`). So a negative or huge `retry_delay` ends the function after the first failure.
- It returns iff some attempt below that bound answers status 0 with a readable location. It returns on the first such attempt, with that location divided by `2**(18-z)` and the counter equal to the failures before it.
- Otherwise it raises after exactly that many attempts. The counter is then the number of attempts, plus one when the last failure was a non-zero status: the raise at line 58, or the exception of the sleep at line 59, is caught at line 68, which counts the failure again.
- When it raises before `max_retries` attempts, the last sleep's base is one that raises.
- The k-th sleep that completes is based on `retry_delay*k`.
- With `max_retries <= 0` nothing is sent and the function returns None.

## Left out

- Floating point:
  - `latlon2px` and `latlon2xy` are not part of this model.
  - The pixel coordinates that `bd_latlng2xy` returns are whole numbers in the download and merge models. `int(v//256)` and `int(v/256)` are modelled on integers.
  - `Geoconv.BdLatLng2Xy` divides exact reals. That equals the float division by a power of two wherever floats do not overflow or underflow.
  - For a zoom far outside the usual range (below about -1005 or above about 1092), `2**(18-z)` is too large a float for the division (`OverflowError`) or a float that underflows to 0.0 (`ZeroDivisionError`). Either error is raised inside the `try`, so that attempt counts as a failure and is retried. The model divides exactly and does not capture this.
  - `retry_delay` is an integer; a fractional delay is not modelled.
- HTTP, URL encoding and JSON:
  - The tile server is a function from URL to fetch result.
  - The coordinate service is a function from attempt number to reply.
  - Every exception inside the `try` of `bd_latlng2xy` is the `Failure` reply or a missing location. That includes a non-object JSON value, whose `.get` raises.
  - `download_tiles` and `merge_tiles` take pixel coordinates as parameters instead of calling `bd_latlng2xy`. The two are not composed.
- Threads: each worker runs to completion before the next starts. Interleavings of writes to the store are not modelled.
  - Two workers never share a path (`Download.PlanPathsDistinct`), but nothing is stated about their order.
- `time.sleep` and `random.random()`:
  - `download_file` sleeps `1 + random()` after each save; this is left out.
  - For `bd_latlng2xy` only the base delay `retry_delay * retry_count` is recorded, without the jitter.
- `print`, `sys.exit` and the `__main__` blocks:
  - `sys.exit(1)` in a worker thread raises `SystemExit`, which ends only that thread. It is modelled as the thread's `Exit` reason, and the other columns go on.
  - Nothing models the exit status of the process.
- Pillow:
  - Pixels, modes, decoding and clipping are not modelled.
  - `result.save` writes the encoded canvas, which is the parameter `image` of `Mosaic.MergeTiles`. The encoding is not related to the pastes.
  - `Image.open` is the predicate `decodes` on the file's bytes.
  - A paste is recorded by name and offsets.
  - `Mosaic.OnCanvas` says only whether some pixel of the paste lands on the canvas.
- Errors of the filesystem:
  - `open(..., 'wb')` fails when the folder `tile/`, `road/` or `it/` does not exist. The store has no directories, so every write succeeds.
  - `os.rename` fails when `~/.Trash` is missing or on another device. In the model every quarantine succeeds.
  - A read error in `merge_tiles` is not distinguished from a file that does not decode.
- Mosaic.MergeTiles: every tile that opens is assumed to load. `Image.open` at merge_tiles.py:45 reads only the header, and the pixel data is read by `result.paste` at line 52, outside the `try`. A tile with a valid header but truncated or corrupt data makes that paste raise `OSError`. The merge then stops there: that tile is not quarantined, later tiles are not visited and nothing is saved. The contract, which promises every paste and the save, does not cover this early stop.
- Mosaic.MergeTiles: every `result.save` succeeds. In satellite mode the RGBA canvas goes to a `.jpg` file, which recent Pillow versions refuse to write, and an empty canvas may be refused too; a failing save is not modelled.
- Geoconv.SleepFails: a base of exactly 9223372036 seconds overflows only when the jitter `random()` is at least about 0.855, and float rounding decides the exact edge. The model lets that one sleep complete, so `Geoconv.Reach` and `Geoconv.BdLatLng2Xy` may allow one attempt too many there. The limit is CPython's 64-bit nanosecond clock.
- Geoconv.BdLatLng2Xy: a caller that unpacks the `None` of the `max_retries <= 0` case raises `TypeError`. That is outside the function and not modelled.
